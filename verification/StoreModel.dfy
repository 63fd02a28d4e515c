/** The Telegram shop's shared store as a value, and every critical section that
    `telegram_bot.py` runs under `_state_lock` as a function from store to store.
    `_finish_order` is split into the sections between which other tasks may run;
    the coroutine that is between two of them is the store's `flight`. */
module StoreModel {
  import opened Common

  type UserId = int
  type OrderId = string
  type Code = string
  type Time = int

  datatype Kind = TopUp | NewService | Renewal | UnknownKind
  datatype Method = Unpaid | ByCard | ByWallet | ForFree
  datatype Source = FromCard | FromWallet | FromFree
  datatype Status =
    | Draft | AwaitingReceipt | PendingAdmin | Processing
    | Approved | Rejected | Cancelled | Expired
  datatype Expiry = Never | At(time: Time) | Garbled

  datatype Plan = Plan(price: int, trial: bool)

  datatype User = User(balance: int, trialUsed: bool, gifts: seq<Code>)

  datatype Order = Order(
    user: UserId, kind: Kind, plan: Option<Plan>,
    baseAmount: int, discount: int, amount: int,
    code: Option<Code>, reserved: bool,
    paidBy: Method, status: Status,
    createdAt: Time, startedAt: Option<Time>)

  datatype Promo = Promo(
    percent: bool, value: int, active: bool, expires: Expiry,
    uses: int, maxUses: int, usedBy: seq<UserId>, orders: seq<OrderId>)

  datatype Gift = Gift(amount: int, maxUses: int, active: bool, expires: Expiry, usedBy: seq<UserId>)

  /** The one `_finish_order` call that holds `_provision_lock` past its first section. */
  datatype Flight = Flight(oid: OrderId, source: Source, credited: bool)

  datatype Store = Store(
    users: map<UserId, User>,
    orders: map<OrderId, Order>,
    keys: seq<OrderId>,            // insertion order of the orders dictionary
    promos: map<Code, Promo>,
    gifts: map<Code, Gift>,
    flight: Option<Flight>)

  datatype Reply =
    | Done
    | Refused(reason: Reason)

  datatype Reason =
    | NotFound | WrongStatus | AlreadyApproved | NoUser | TrialUsed | NotFree | NotPayable
    | CodeInactive | CodeExhausted | CodeAlreadyUsed | BadAmount
    | InsufficientBalance | NotConfigured | Busy

  const EMPTY := Store(map[], map[], [], map[], map[], None)

  // ------------------------------------------------------------------ pricing

  predicate IsExpired(e: Expiry, now: Time)
  {
    match e
    case Never => false
    case At(t) => now >= t
    case Garbled => true
  }

  function DiscountError(entry: Option<Promo>, user: UserId, now: Time): Option<Reason>
  {
    if entry.None? || !entry.value.active || IsExpired(entry.value.expires, now) then Some(CodeInactive)
    else if entry.value.uses >= entry.value.maxUses then Some(CodeExhausted)
    else if user in entry.value.usedBy then Some(CodeAlreadyUsed)
    else None
  }

  /** (payable, discount) of a base price under an optional code. */
  function Payable(baseAmount: int, entry: Option<Promo>): (r: (int, int))
    ensures r.0 >= 0 && r.1 >= 0 && r.0 + r.1 == Max(0, baseAmount)
  {
    var b := Max(0, baseAmount);
    if entry.None? then (b, 0)
    else
      var value := Max(0, entry.value.value);
      var raw := if entry.value.percent then (b * Min(100, value)) / 100 else Min(b, value);
      var discount := Min(b, Max(0, raw));
      (b - discount, discount)
  }

  // ------------------------------------------------- promo reservation helpers

  function Put(s: Store, oid: OrderId, o: Order): Store
  {
    s.(orders := s.orders[oid := o])
  }

  function Reserve(s: Store, oid: OrderId, now: Time): (Store, Option<Reason>)
    requires oid in s.orders
  {
    var o := s.orders[oid];
    if o.code.None? || o.reserved then (s, None)
    else
      var err := DiscountError(Lookup(s.promos, o.code.value), o.user, now);
      if err.Some? then (s, err)
      else
        var p := s.promos[o.code.value];
        (Put(s, oid, o.(reserved := true)).(promos := s.promos[o.code.value :=
          p.(uses := p.uses + 1, usedBy := p.usedBy + [o.user], orders := p.orders + [oid])]), None)
  }

  function Release(s: Store, oid: OrderId): Store
    requires oid in s.orders
  {
    var o := s.orders[oid];
    if o.code.None? || !o.reserved then s
    else
      var c := o.code.value;
      var promos :=
        if c in s.promos then
          var p := s.promos[c];
          s.promos[c := p.(uses := Max(0, p.uses - 1),
                           usedBy := RemoveFirst(p.usedBy, o.user),
                           orders := RemoveFirst(p.orders, oid))]
        else s.promos;
      Put(s, oid, o.(reserved := false)).(promos := promos)
  }

  function SetStatus(s: Store, oid: OrderId, st: Status): Store
    requires oid in s.orders
  {
    Put(s, oid, s.orders[oid].(status := st))
  }

  // --------------------------------------------------------- critical sections

  function EnsureUser(s: Store, u: UserId): Store
  {
    if u in s.users then s else s.(users := s.users[u := User(0, false, [])])
  }

  /** `oid` is a candidate id; the source draws again while it is taken. */
  function CreateOrder(
    s: Store, oid: OrderId, u: UserId, kind: Kind, plan: Option<Plan>, amount: Option<int>, now: Time): (Store, Reply)
  {
    if oid in s.orders then (s, Refused(Busy))
    else if amount.None? && plan.None? then (s, Refused(BadAmount))
    else
      var b := Max(0, if amount.Some? then amount.value else plan.value.price);
      var o := Order(u, kind, plan, b, 0, b, None, false, Unpaid, Draft, now, None);
      (s.(orders := s.orders[oid := o], keys := s.keys + [oid]), Done)
  }

  function CancelOrder(s: Store, oid: OrderId, u: UserId): (Store, Reply)
  {
    if oid !in s.orders || s.orders[oid].user != u || s.orders[oid].status != Draft
    then (s, Refused(WrongStatus))
    else (SetStatus(s, oid, Cancelled), Done)
  }

  function ApplyDiscount(s: Store, oid: OrderId, u: UserId, code: Code, now: Time): (Store, Reply)
  {
    if oid !in s.orders || s.orders[oid].user != u || s.orders[oid].status != Draft || s.orders[oid].kind == TopUp
    then (s, Refused(WrongStatus))
    else
      var entry := Lookup(s.promos, code);
      var err := DiscountError(entry, u, now);
      if err.Some? then (s, Refused(err.value))
      else
        var o := s.orders[oid];
        var (amount, discount) := Payable(o.baseAmount, entry);
        (Put(s, oid, o.(code := Some(code), discount := discount, amount := amount)), Done)
  }

  function AddPromo(s: Store, c: Code, percent: bool, value: int, maxUses: nat, expires: Expiry): Store
  {
    s.(promos := s.promos[c := Promo(percent, value, true, expires, 0, maxUses, [], [])])
  }

  function AddGift(s: Store, c: Code, amount: int, maxUses: nat, expires: Expiry): Store
  {
    s.(gifts := s.gifts[c := Gift(amount, maxUses, true, expires, [])])
  }

  function CancelWaiting(s: Store, oid: OrderId, u: UserId): (Store, Reply)
  {
    if oid !in s.orders || s.orders[oid].user != u || s.orders[oid].status != AwaitingReceipt
    then (s, Refused(WrongStatus))
    else (SetStatus(Release(s, oid), oid, Cancelled), Done)
  }

  predicate Stale(o: Order, cutoff: Time)
  {
    o.status == AwaitingReceipt && (if o.startedAt.Some? then o.startedAt.value else o.createdAt) <= cutoff
  }

  function ExpireOne(s: Store, oid: OrderId, cutoff: Time): Store
  {
    if oid in s.orders && Stale(s.orders[oid], cutoff) then SetStatus(Release(s, oid), oid, Expired) else s
  }

  /** The sweep visits the orders dictionary in its insertion order. */
  function ExpireStale(s: Store, cutoff: Time, n: nat): (r: Store)
    requires n <= |s.keys|
    ensures r.keys == s.keys && r.orders.Keys == s.orders.Keys
    ensures r.users == s.users && r.gifts == s.gifts && r.flight == s.flight
  {
    if n == 0 then s
    else
      var before := ExpireStale(s, cutoff, n - 1);
      ExpireOne(before, s.keys[n - 1], cutoff)
  }

  function StartCardPayment(s: Store, oid: OrderId, u: UserId, configured: bool, now: Time): (Store, Reply)
  {
    if !configured then (s, Refused(NotConfigured))
    else if oid !in s.orders || s.orders[oid].user != u || s.orders[oid].status != Draft
    then (s, Refused(WrongStatus))
    else if s.orders[oid].amount <= 0 then (s, Refused(NotPayable))
    else
      var (s1, err) := Reserve(s, oid, now);
      if err.Some? then (s, Refused(err.value))
      else
        (Put(s1, oid, s1.orders[oid].(paidBy := ByCard, status := AwaitingReceipt, startedAt := Some(now))), Done)
  }

  predicate Waiting(s: Store, oid: OrderId, u: UserId)
  {
    oid in s.orders && s.orders[oid].user == u && s.orders[oid].status == AwaitingReceipt
  }

  predicate Later(a: Option<Time>, b: Option<Time>)
  {
    a.Some? && (b.None? || a.value > b.value)
  }

  /** First, in a stable newest-first sort, of the user's orders awaiting a receipt. */
  function LatestWaiting(s: Store, u: UserId, n: nat): (r: Option<OrderId>)
    requires n <= |s.keys|
    ensures r.Some? ==> Waiting(s, r.value, u)
  {
    if n == 0 then None
    else
      var best := LatestWaiting(s, u, n - 1);
      var oid := s.keys[n - 1];
      if Waiting(s, oid, u) && (best.None? || Later(s.orders[oid].startedAt, s.orders[best.value].startedAt))
      then Some(oid) else best
  }

  function SubmitReceipt(s: Store, u: UserId, chosen: Option<OrderId>): (Store, Reply)
  {
    var target := if chosen.Some? then chosen else LatestWaiting(s, u, |s.keys|);
    if target.None? || !Waiting(s, target.value, u) then (s, Refused(WrongStatus))
    else (SetStatus(s, target.value, PendingAdmin), Done)
  }

  predicate IsTrial(o: Order)
  {
    o.plan.Some? && o.plan.value.trial
  }

  /** The checks of the first section, in the source's order. */
  function FinishError(s: Store, oid: OrderId, source: Source): Option<Reason>
  {
    if oid !in s.orders then Some(NotFound)
    else
      var o := s.orders[oid];
      if o.status == Approved then Some(AlreadyApproved)
      else if o.status != (if source == FromCard then PendingAdmin else Draft) then Some(WrongStatus)
      else if o.user !in s.users then Some(NoUser)
      else if IsTrial(o) && s.users[o.user].trialUsed then Some(TrialUsed)
      else if source == FromFree && o.amount != 0 then Some(NotFree)
      else if source == FromCard && o.amount <= 0 then Some(NotPayable)
      else None
  }

  function Pay(s: Store, u: UserId, delta: int): Store
    requires u in s.users
  {
    s.(users := s.users[u := s.users[u].(balance := s.users[u].balance + delta)])
  }

  /** First section of `_finish_order`: validate, reserve, debit, mark processing. */
  function BeginFinish(s: Store, oid: OrderId, source: Source, now: Time): (Store, Reply)
  {
    if s.flight.Some? then (s, Refused(Busy))
    else
      var err := FinishError(s, oid, source);
      if err.Some? then (s, Refused(err.value))
      else if source == FromCard then
        (SetStatus(s, oid, Processing).(flight := Some(Flight(oid, source, false))), Done)
      else
        var (s1, rerr) := Reserve(s, oid, now);
        var o := s1.orders[oid];
        if rerr.Some? then (s, Refused(rerr.value))
        else if source == FromWallet && s.users[o.user].balance < o.amount then (s, Refused(InsufficientBalance))
        else
          var paid := if source == FromWallet then Pay(s1, o.user, -o.amount) else s1;
          var paidBy := if source == FromWallet then ByWallet else ForFree;
          (Put(paid, oid, o.(paidBy := paidBy, status := Processing))
             .(flight := Some(Flight(oid, source, false))), Done)
  }

  /** The flight is ready to be approved / may fail, by order kind. */
  predicate CanApprove(s: Store)
  {
    s.flight.Some? && s.flight.value.oid in s.orders &&
    var o := s.orders[s.flight.value.oid];
    match o.kind
    case TopUp => s.flight.value.credited
    case NewService => o.plan.Some?
    case Renewal => o.plan.Some?
    case UnknownKind => false
  }

  predicate CanFail(s: Store)
  {
    s.flight.Some? && s.flight.value.oid in s.orders && s.orders[s.flight.value.oid].kind != TopUp
  }

  predicate CanCredit(s: Store)
  {
    s.flight.Some? && s.flight.value.oid in s.orders && !s.flight.value.credited &&
    s.orders[s.flight.value.oid].kind == TopUp && s.orders[s.flight.value.oid].user in s.users
  }

  /** Second section for a wallet top-up: credit the user. */
  function Credit(s: Store): Store
  {
    if !CanCredit(s) then s
    else
      var o := s.orders[s.flight.value.oid];
      Pay(s, o.user, o.amount).(flight := Some(s.flight.value.(credited := true)))
  }

  /** Error section: provisioning raised. */
  function FailFinish(s: Store): Store
  {
    if !CanFail(s) then s
    else
      var f := s.flight.value;
      var o := s.orders[f.oid];
      var undone :=
        match f.source
        case FromWallet =>
          var refunded := if o.user in s.users then Pay(s, o.user, o.amount) else s;
          SetStatus(Release(refunded, f.oid), f.oid, Draft)
        case FromFree => SetStatus(Release(s, f.oid), f.oid, Draft)
        case FromCard => SetStatus(s, f.oid, PendingAdmin);
      undone.(flight := None)
  }

  /** Last section: mark approved and stamp the trial. */
  function ApproveFinish(s: Store): Store
  {
    if !CanApprove(s) then s
    else
      var oid := s.flight.value.oid;
      var o := s.orders[oid];
      var s1 := SetStatus(s, oid, Approved).(flight := None);
      if IsTrial(o) && o.user in s.users
      then s1.(users := s.users[o.user := s.users[o.user].(trialUsed := true)])
      else s1
  }

  function RejectOrder(s: Store, oid: OrderId): (Store, Reply)
  {
    if oid !in s.orders || s.orders[oid].status != PendingAdmin then (s, Refused(WrongStatus))
    else (SetStatus(Release(s, oid), oid, Rejected), Done)
  }

  function RedeemGift(s: Store, u: UserId, c: Code, now: Time): (Store, Reply)
  {
    if u !in s.users || c !in s.gifts || !s.gifts[c].active || IsExpired(s.gifts[c].expires, now)
    then (s, Refused(CodeInactive))
    else if u in s.gifts[c].usedBy then (s, Refused(CodeAlreadyUsed))
    else if |s.gifts[c].usedBy| >= s.gifts[c].maxUses then (s, Refused(CodeExhausted))
    else if s.gifts[c].amount <= 0 then (s, Refused(BadAmount))
    else
      var g := s.gifts[c];
      var user := s.users[u];
      (s.(gifts := s.gifts[c := g.(usedBy := g.usedBy + [u])],
          users := s.users[u := user.(balance := user.balance + g.amount, gifts := user.gifts + [c])]), Done)
  }

  // ----------------------------------------------------------------- all steps

  datatype Step =
    | DoEnsureUser(u: UserId)
    | DoCreate(oid: OrderId, u: UserId, kind: Kind, plan: Option<Plan>, amt: Option<int>, now: Time)
    | DoCancel(oid: OrderId, u: UserId)
    | DoDiscount(oid: OrderId, u: UserId, code: Code, now: Time)
    | DoAddPromo(code: Code, percent: bool, value: int, maxUses: nat, expires: Expiry)
    | DoAddGift(code: Code, credit: int, maxUses: nat, expires: Expiry)
    | DoCancelWaiting(oid: OrderId, u: UserId)
    | DoExpire(cutoff: Time)
    | DoStartCard(oid: OrderId, u: UserId, configured: bool, now: Time)
    | DoSubmit(u: UserId, chosen: Option<OrderId>)
    | DoBegin(oid: OrderId, source: Source, now: Time)
    | DoCredit
    | DoFail
    | DoApprove
    | DoReject(oid: OrderId)
    | DoRedeem(u: UserId, code: Code, now: Time)

  function Apply(s: Store, step: Step): Store
  {
    match step
    case DoEnsureUser(u) => EnsureUser(s, u)
    case DoCreate(oid, u, kind, plan, amount, now) => CreateOrder(s, oid, u, kind, plan, amount, now).0
    case DoCancel(oid, u) => CancelOrder(s, oid, u).0
    case DoDiscount(oid, u, code, now) => ApplyDiscount(s, oid, u, code, now).0
    case DoAddPromo(c, percent, value, maxUses, expires) => AddPromo(s, c, percent, value, maxUses, expires)
    case DoAddGift(c, amount, maxUses, expires) => AddGift(s, c, amount, maxUses, expires)
    case DoCancelWaiting(oid, u) => CancelWaiting(s, oid, u).0
    case DoExpire(cutoff) => ExpireStale(s, cutoff, |s.keys|)
    case DoStartCard(oid, u, configured, now) => StartCardPayment(s, oid, u, configured, now).0
    case DoSubmit(u, chosen) => SubmitReceipt(s, u, chosen).0
    case DoBegin(oid, source, now) => BeginFinish(s, oid, source, now).0
    case DoCredit => Credit(s)
    case DoFail => FailFinish(s)
    case DoApprove => ApproveFinish(s)
    case DoReject(oid) => RejectOrder(s, oid).0
    case DoRedeem(u, c, now) => RedeemGift(s, u, c, now).0
  }

  /** The wizards insert codes they found to be unused. */
  predicate Allowed(s: Store, step: Step)
  {
    match step
    case DoAddPromo(c, _, _, _, _) => c !in s.promos
    case DoAddGift(c, _, _, _) => c !in s.gifts
    case _ => true
  }
}
