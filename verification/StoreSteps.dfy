/** Every critical section keeps the shop's invariant. */
module StoreSteps {
  import opened Common
  import opened StoreModel
  import opened StoreInvariant

  predicate Settled(st: Status)
  {
    st == Processing || st == Approved
  }

  /** A step that rewrites one order which neither was nor becomes part of the ledger. */
  lemma QuietStep(s: Store, t: Store, oid: OrderId)
    requires Inv(s) && oid in s.orders
    requires oid in t.orders && t.orders == s.orders[oid := t.orders[oid]]
    requires t.users == s.users && t.gifts == s.gifts && t.flight == s.flight && t.keys == s.keys
    requires t.promos.Keys == s.promos.Keys && PromosOk(t) && OrderOk(t, oid)
    requires !Settled(s.orders[oid].status) && !Settled(t.orders[oid].status)
    ensures Inv(t)
  {
    forall k | k in t.orders ensures OrderOk(t, k) {
      if k != oid { assert OrderOk(s, k); }
    }
    assert forall k, u :: ApprovedTrial(t, k, u) <==> ApprovedTrial(s, k, u);
    assert OrderOk(s, oid);
    LedgerFrame(s, t, oid);
  }

  /** Without a reservation to change, the codes keep their books. */
  lemma SameHolders(s: Store, t: Store, oid: OrderId)
    requires PromosOk(s) && oid in s.orders && oid in t.orders
    requires t.orders == s.orders[oid := t.orders[oid]] && t.promos == s.promos
    requires t.orders[oid].user == s.orders[oid].user
    requires t.orders[oid].reserved == s.orders[oid].reserved
    requires t.orders[oid].reserved ==> t.orders[oid].code == s.orders[oid].code
    ensures PromosOk(t)
  {
    PromoFrame(s, t);
  }

  /** What a release touches: the order's flag and the books of its code. */
  lemma ReleaseForm(s: Store, oid: OrderId)
    requires oid in s.orders && PromosOk(s)
    requires s.orders[oid].code.Some? ==> s.orders[oid].code.value in s.promos
    requires s.orders[oid].reserved ==> s.orders[oid].code.Some?
    ensures var t := Release(s, oid);
      && t == s.(orders := t.orders, promos := t.promos)
      && t.promos.Keys == s.promos.Keys
      && t.orders == s.orders[oid := s.orders[oid].(reserved := false)]
      && PromosOk(t)
  {
    var o := s.orders[oid];
    if o.reserved {
      assert HoldsCode(s, oid, o.code.value);
      ReleaseBooks(s, oid, o.code.value);
    } else {
      assert s.orders[oid := o.(reserved := false)] == s.orders;
    }
  }

  /** Moving an order to a status that holds no reservation, after releasing it. */
  lemma ReleaseTo(s: Store, oid: OrderId, st: Status)
    requires Inv(s) && oid in s.orders && !Settled(s.orders[oid].status)
    requires !Live(st) && st != Processing
    ensures Inv(SetStatus(Release(s, oid), oid, st))
  {
    assert OrderOk(s, oid);
    ReleaseForm(s, oid);
    ReleasedTo(s, Release(s, oid), oid, st);
  }

  lemma ReleasedTo(s: Store, mid: Store, oid: OrderId, st: Status)
    requires Inv(s) && oid in s.orders && !Settled(s.orders[oid].status)
    requires !Live(st) && st != Processing
    requires mid == s.(orders := mid.orders, promos := mid.promos) && mid.promos.Keys == s.promos.Keys
    requires mid.orders == s.orders[oid := s.orders[oid].(reserved := false)] && PromosOk(mid)
    ensures Inv(SetStatus(mid, oid, st))
  {
    assert OrderOk(s, oid);
    var t := SetStatus(mid, oid, st);
    SameHolders(mid, t, oid);
    QuietStep(s, t, oid);
  }

  lemma KeepsEnsureUser(s: Store, u: UserId)
    requires Inv(s)
    ensures Inv(EnsureUser(s, u))
  {
    var t := EnsureUser(s, u);
    if u !in s.users {
      assert forall k, v :: ApprovedTrial(t, k, v) <==> ApprovedTrial(s, k, v);
      assert forall k, c :: HoldsCode(t, k, c) <==> HoldsCode(s, k, c);
      PromoFrame(s, t);
      forall k | k in t.orders ensures OrderOk(t, k) { assert OrderOk(s, k); }
      forall v | v in t.users ensures
        t.users[v].balance >= 0 &&
        t.users[v].balance == GiftTotal(t, v) + TopUpTotal(t, v) - SpendTotal(t, v)
      {
        assert GiftShares(t, v) == GiftShares(s, v);
        assert TopUpShares(t, v) == TopUpShares(s, v);
        assert SpendShares(t, v) == SpendShares(s, v);
        if v == u { StrangerOwesNothing(s, u); }
      }
    }
  }

  /** Nothing is on the books of somebody the shop has not met. */
  lemma StrangerOwesNothing(s: Store, u: UserId)
    requires Inv(s) && u !in s.users
    ensures GiftTotal(s, u) == 0 && TopUpTotal(s, u) == 0 && SpendTotal(s, u) == 0
    ensures forall oid :: !ApprovedTrial(s, oid, u)
  {
    forall oid | oid in s.orders
      ensures TopUpShares(s, u)[oid] == 0 && SpendShares(s, u)[oid] == 0 && !ApprovedTrial(s, oid, u)
    {
      assert OrderOk(s, oid);
    }
    TotalZero(GiftShares(s, u));
    TotalZero(TopUpShares(s, u));
    TotalZero(SpendShares(s, u));
  }

  lemma AddDraftKeeps(s: Store, oid: OrderId, o: Order)
    requires Inv(s) && oid !in s.orders
    requires o.status == Draft && !o.reserved && o.code.None? && o.discount == 0
    requires o.amount == o.baseAmount >= 0 && o.paidBy == Unpaid
    ensures Inv(s.(orders := s.orders[oid := o], keys := s.keys + [oid]))
  {
    var t := s.(orders := s.orders[oid := o], keys := s.keys + [oid]);
    forall k | k in t.orders ensures OrderOk(t, k) {
      if k != oid { assert OrderOk(s, k); }
    }
    assert forall k, v :: ApprovedTrial(t, k, v) <==> ApprovedTrial(s, k, v);
    PromoFrame(s, t);
    LedgerFrame(s, t, oid);
    assert t.keys[|s.keys|] == oid;
    assert forall k :: k in s.keys ==> k in t.keys;
  }

  lemma KeepsCreate(s: Store, oid: OrderId, u: UserId, kind: Kind, plan: Option<Plan>, amount: Option<int>, now: Time)
    requires Inv(s)
    ensures Inv(CreateOrder(s, oid, u, kind, plan, amount, now).0)
  {
    var (t, r) := CreateOrder(s, oid, u, kind, plan, amount, now);
    if r == Done { AddDraftKeeps(s, oid, t.orders[oid]); }
  }

  lemma KeepsCancel(s: Store, oid: OrderId, u: UserId)
    requires Inv(s)
    ensures Inv(CancelOrder(s, oid, u).0)
  {
    var t := CancelOrder(s, oid, u).0;
    if t != s {
      assert OrderOk(s, oid);
      SameHolders(s, t, oid);
      QuietStep(s, t, oid);
    }
  }

  lemma KeepsDiscount(s: Store, oid: OrderId, u: UserId, code: Code, now: Time)
    requires Inv(s)
    ensures Inv(ApplyDiscount(s, oid, u, code, now).0)
  {
    var (t, r) := ApplyDiscount(s, oid, u, code, now);
    if r == Done {
      assert OrderOk(s, oid);
      SameHolders(s, t, oid);
      QuietStep(s, t, oid);
    }
  }

  /** Inserting a code is safe exactly when no order holds a reservation under
      that name; the wizard's uniqueness check gives more than that. */
  lemma KeepsAddPromo(s: Store, c: Code, percent: bool, value: int, maxUses: nat, expires: Expiry)
    requires Inv(s)
    ensures Inv(AddPromo(s, c, percent, value, maxUses, expires)) <==> forall oid :: !HoldsCode(s, oid, c)
  {
    var t := AddPromo(s, c, percent, value, maxUses, expires);
    assert forall k, d :: HoldsCode(t, k, d) <==> HoldsCode(s, k, d);
    if forall oid :: !HoldsCode(s, oid, c) {
      forall k | k in t.orders ensures OrderOk(t, k) { assert OrderOk(s, k); }
      forall d | d in t.promos ensures PromoOk(t, d) {
        if d != c { assert PromoOk(s, d); }
      }
      assert forall k, v :: ApprovedTrial(t, k, v) <==> ApprovedTrial(s, k, v);
      SameLedger(s, t);
    } else {
      var oid :| HoldsCode(s, oid, c);
      assert HoldsCode(t, oid, c) && oid !in t.promos[c].orders;
      assert !PromoOk(t, c);
    }
  }

  lemma SameGiftSum(s: Store, t: Store, u: UserId)
    requires t.gifts == s.gifts
    ensures GiftTotal(t, u) == GiftTotal(s, u)
  {
    assert GiftShares(t, u) == GiftShares(s, u);
  }

  lemma SameLedger(s: Store, t: Store)
    requires LedgerOk(s) && t.orders == s.orders && t.flight == s.flight
    requires t.users == s.users && t.gifts == s.gifts
    ensures LedgerOk(t)
  {
    forall u | u in t.users ensures
      t.users[u].balance >= 0 &&
      t.users[u].balance == GiftTotal(t, u) + TopUpTotal(t, u) - SpendTotal(t, u)
    {
      SameGiftSum(s, t, u);
      SameOrderSums(s, t, u);
    }
  }

  /** Nothing was ever credited under this name. */
  predicate GiftUnspent(s: Store, c: Code)
  {
    c in s.gifts ==> s.gifts[c].amount == 0 || s.gifts[c].usedBy == []
  }

  lemma AddGiftLedger(s: Store, t: Store, c: Code)
    requires LedgerOk(s) && GiftsOk(s) && t.orders == s.orders && t.flight == s.flight && t.users == s.users
    requires c in t.gifts && t.gifts == s.gifts[c := t.gifts[c]] && t.gifts[c].usedBy == []
    ensures LedgerOk(t) <==> GiftUnspent(s, c)
  {
    forall u | u in t.users ensures
      GiftTotal(t, u) + TopUpTotal(t, u) - SpendTotal(t, u)
      == s.users[u].balance - (if c in s.gifts then GiftShare(s.gifts[c], u) else 0)
    {
      GiftSums(s, t, c, u);
      SameOrderSums(s, t, u);
    }
    if !GiftUnspent(s, c) {
      var u := s.gifts[c].usedBy[0];
      assert u in t.users && GiftShare(s.gifts[c], u) != 0;
    }
  }

  /** Inserting a gift keeps the ledger exactly when no credit was given under that
      name; the wizard's uniqueness check gives more than that. */
  lemma KeepsAddGift(s: Store, c: Code, amount: int, maxUses: nat, expires: Expiry)
    requires Inv(s)
    ensures Inv(AddGift(s, c, amount, maxUses, expires)) <==> GiftUnspent(s, c)
  {
    var t := AddGift(s, c, amount, maxUses, expires);
    UsersFrame(s, t);
    AddGiftLedger(s, t, c);
    assert GiftsOk(t);
  }

  lemma KeepsCancelWaiting(s: Store, oid: OrderId, u: UserId)
    requires Inv(s)
    ensures Inv(CancelWaiting(s, oid, u).0)
  {
    if CancelWaiting(s, oid, u).1 == Done { ReleaseTo(s, oid, Cancelled); }
  }

  lemma KeepsReject(s: Store, oid: OrderId)
    requires Inv(s)
    ensures Inv(RejectOrder(s, oid).0)
  {
    if RejectOrder(s, oid).1 == Done { ReleaseTo(s, oid, Rejected); }
  }

  lemma KeepsExpireOne(s: Store, oid: OrderId, cutoff: Time, t: Store)
    requires Inv(s) && t == ExpireOne(s, oid, cutoff)
    ensures Inv(t)
  {
    if oid in s.orders && Stale(s.orders[oid], cutoff) { ReleaseTo(s, oid, Expired); }
  }

  lemma {:induction false} KeepsExpire(s: Store, cutoff: Time, n: nat, t: Store)
    requires Inv(s) && n <= |s.keys| && t == ExpireStale(s, cutoff, n)
    ensures Inv(t)
    decreases n
  {
    if n > 0 {
      var before := ExpireStale(s, cutoff, n - 1);
      KeepsExpire(s, cutoff, n - 1, before);
      KeepsExpireOne(before, s.keys[n - 1], cutoff, t);
    }
  }

  lemma KeepsSubmit(s: Store, u: UserId, chosen: Option<OrderId>)
    requires Inv(s)
    ensures Inv(SubmitReceipt(s, u, chosen).0)
  {
    var (t, r) := SubmitReceipt(s, u, chosen);
    if r == Done {
      var oid := (if chosen.Some? then chosen else LatestWaiting(s, u, |s.keys|)).value;
      assert OrderOk(s, oid);
      SameHolders(s, t, oid);
      QuietStep(s, t, oid);
    }
  }

  lemma ReserveForm(s: Store, oid: OrderId, now: Time)
    requires oid in s.orders && PromosOk(s)
    requires s.orders[oid].code.Some? ==> s.orders[oid].code.value in s.promos
    ensures var (t, e) := Reserve(s, oid, now);
      && t == s.(orders := t.orders, promos := t.promos)
      && t.promos.Keys == s.promos.Keys
      && oid in t.orders
      && t.orders == s.orders[oid := t.orders[oid]]
      && (e.None? ==> PromosOk(t))
      && (e.None? ==> t.orders[oid] == s.orders[oid].(reserved := s.orders[oid].reserved || s.orders[oid].code.Some?))
  {
    if Reserve(s, oid, now).1.None? && !s.orders[oid].reserved { ReserveBooks(s, oid, now); }
  }

  /** The order as it waits for its receipt, once its code is reserved. */
  function Carded(mid: Store, oid: OrderId, now: Time): Store
    requires oid in mid.orders
  {
    Put(mid, oid, mid.orders[oid].(paidBy := ByCard, status := AwaitingReceipt, startedAt := Some(now)))
  }

  lemma KeepsCarded(s: Store, mid: Store, oid: OrderId, now: Time)
    requires Inv(s) && oid in s.orders && s.orders[oid].status == Draft && s.orders[oid].amount > 0
    requires OrderOk(s, oid) && oid in mid.orders && PromosOk(mid)
    requires mid == s.(orders := mid.orders, promos := mid.promos) && mid.promos.Keys == s.promos.Keys
    requires mid.orders
          == s.orders[oid := s.orders[oid].(reserved := s.orders[oid].reserved || s.orders[oid].code.Some?)]
    ensures Inv(Carded(mid, oid, now))
  {
    var t := Carded(mid, oid, now);
    SameHolders(mid, t, oid);
    QuietStep(s, t, oid);
  }

  lemma KeepsStartCard(s: Store, oid: OrderId, u: UserId, configured: bool, now: Time)
    requires Inv(s)
    ensures Inv(StartCardPayment(s, oid, u, configured, now).0)
  {
    var (t, r) := StartCardPayment(s, oid, u, configured, now);
    if r == Done {
      assert OrderOk(s, oid);
      ReserveForm(s, oid, now);
      KeepsCarded(s, Reserve(s, oid, now).0, oid, now);
    }
  }

  lemma RedeemLedger(s: Store, t: Store, u: UserId, c: Code, amount: int)
    requires LedgerOk(s) && u in s.users && c in s.gifts && t.orders == s.orders && t.flight == s.flight
    requires amount == s.gifts[c].amount > 0 && u !in s.gifts[c].usedBy
    requires t.gifts == s.gifts[c := s.gifts[c].(usedBy := s.gifts[c].usedBy + [u])]
    requires u in t.users && t.users == s.users[u := t.users[u]]
    requires t.users[u].balance == s.users[u].balance + amount
    ensures LedgerOk(t)
  {
    forall v | v in t.users ensures
      t.users[v].balance >= 0 &&
      t.users[v].balance == GiftTotal(t, v) + TopUpTotal(t, v) - SpendTotal(t, v)
    {
      GiftSums(s, t, c, v);
      SameOrderSums(s, t, v);
    }
  }

  lemma SameOrderSums(s: Store, t: Store, v: UserId)
    requires t.orders == s.orders && t.flight == s.flight
    ensures TopUpTotal(t, v) == TopUpTotal(s, v) && SpendTotal(t, v) == SpendTotal(s, v)
  {
    assert TopUpShares(t, v) == TopUpShares(s, v);
    assert SpendShares(t, v) == SpendShares(s, v);
  }

  /** Balances and gifts are no concern of the orders, the codes or the trials. */
  lemma UsersFrame(s: Store, t: Store)
    requires KeysOk(s) && OrdersOk(s) && FlightOk(s) && PromosOk(s) && TrialsOk(s)
    requires t.orders == s.orders && t.keys == s.keys && t.flight == s.flight && t.promos == s.promos
    requires t.users.Keys == s.users.Keys
    requires forall u :: u in s.users ==> t.users[u].trialUsed == s.users[u].trialUsed
    ensures KeysOk(t) && OrdersOk(t) && FlightOk(t) && PromosOk(t) && TrialsOk(t)
  {
    forall k | k in t.orders ensures OrderOk(t, k) { assert OrderOk(s, k); }
    assert forall k, v :: ApprovedTrial(t, k, v) <==> ApprovedTrial(s, k, v);
    PromoFrame(s, t);
  }

  lemma RedeemKeeps(s: Store, t: Store, u: UserId, c: Code)
    requires Inv(s) && u in s.users && c in s.gifts && s.gifts[c].amount > 0
    requires u !in s.gifts[c].usedBy && |s.gifts[c].usedBy| < s.gifts[c].maxUses
    requires t == s.(users := t.users, gifts := t.gifts)
    requires t.gifts == s.gifts[c := s.gifts[c].(usedBy := s.gifts[c].usedBy + [u])]
    requires u in t.users && t.users == s.users[u := t.users[u]] && t.users[u].trialUsed == s.users[u].trialUsed
    requires t.users[u].balance == s.users[u].balance + s.gifts[c].amount
    ensures Inv(t)
  {
    RedeemLedger(s, t, u, c, s.gifts[c].amount);
    UsersFrame(s, t);
    assert GiftsOk(t);
  }

  lemma KeepsRedeem(s: Store, u: UserId, c: Code, now: Time)
    requires Inv(s)
    ensures Inv(RedeemGift(s, u, c, now).0)
  {
    var (t, r) := RedeemGift(s, u, c, now);
    if r == Done { RedeemKeeps(s, t, u, c); }
  }

  // ------------------------------------------------- the sections of a flight

  /** Which order, if any, is between two sections of `_finish_order`. */
  predicate InFlight(s: Store, oid: OrderId)
  {
    s.flight.Some? && s.flight.value.oid == oid
  }

  lemma OrdersFrame(s: Store, t: Store, oid: OrderId)
    requires OrdersOk(s) && oid in t.orders && t.orders == s.orders[oid := t.orders[oid]]
    requires s.promos.Keys <= t.promos.Keys && s.users.Keys <= t.users.Keys
    requires forall k :: k != oid ==> InFlight(s, k) == InFlight(t, k)
    requires OrderOk(t, oid)
    ensures OrdersOk(t)
  {
    forall k | k in t.orders ensures OrderOk(t, k) {
      if k != oid {
        assert OrderOk(s, k);
        assert InFlight(s, k) == InFlight(t, k);
      }
    }
  }

  lemma TrialFrame(s: Store, t: Store, oid: OrderId)
    requires TrialsOk(s) && oid in s.orders && oid in t.orders && t.orders == s.orders[oid := t.orders[oid]]
    requires t.orders[oid].user == s.orders[oid].user && t.orders[oid].plan == s.orders[oid].plan
    requires s.orders[oid].status != Approved && t.orders[oid].status != Approved
    requires t.users.Keys == s.users.Keys
    requires forall u :: u in s.users ==> t.users[u].trialUsed == s.users[u].trialUsed
    ensures TrialsOk(t)
  {
    assert forall k, v :: ApprovedTrial(t, k, v) <==> ApprovedTrial(s, k, v);
  }

  /** Balances that move by the change of the order's own shares keep the ledger. */
  lemma MoneyStep(s: Store, t: Store, oid: OrderId)
    requires LedgerOk(s) && t.gifts == s.gifts && oid in s.orders
    requires oid in t.orders && t.orders == s.orders[oid := t.orders[oid]]
    requires forall k :: k != oid ==> Credited(s, k) == Credited(t, k)
    requires t.users.Keys == s.users.Keys
    requires forall u :: u in t.users ==>
      t.users[u].balance >= 0 &&
      t.users[u].balance - s.users[u].balance ==
        TopUpShare(t.orders[oid], Credited(t, oid), u) - TopUpShare(s.orders[oid], Credited(s, oid), u)
        - SpendShare(t.orders[oid], u) + SpendShare(s.orders[oid], u)
    ensures LedgerOk(t)
  {
    forall u | u in t.users
      ensures t.users[u].balance >= 0
           && t.users[u].balance == GiftTotal(t, u) + TopUpTotal(t, u) - SpendTotal(t, u)
    {
      assert GiftShares(t, u) == GiftShares(s, u);
      TopUpSum(s, t, oid, u);
      SpendSum(s, t, oid, u);
    }
  }

  /** The records change but nobody's hold on a code does. */
  lemma HoldersFrame(s: Store, t: Store, oid: OrderId)
    requires PromosOk(s) && t.promos == s.promos && oid in s.orders
    requires oid in t.orders && t.orders == s.orders[oid := t.orders[oid]]
    requires t.orders[oid].user == s.orders[oid].user
    requires t.orders[oid].code == s.orders[oid].code
    requires t.orders[oid].reserved == s.orders[oid].reserved
    ensures PromosOk(t)
  {
    assert forall k, c :: HoldsCode(t, k, c) <==> HoldsCode(s, k, c);
    PromoFrame(s, t);
  }

  /** What the first section leaves behind when it succeeds. */
  ghost predicate Begun(s: Store, t: Store, oid: OrderId, source: Source)
  {
    && oid in s.orders && oid in t.orders && t.orders == s.orders[oid := t.orders[oid]]
    && t.keys == s.keys && t.gifts == s.gifts && t.promos.Keys == s.promos.Keys
    && t.flight == Some(Flight(oid, source, false))
    && t.orders[oid] == s.orders[oid].(status := Processing, paidBy := PaidBy(source),
                                       reserved := s.orders[oid].code.Some?)
    && s.orders[oid].user in s.users
    && (source == FromWallet ==> s.users[s.orders[oid].user].balance >= s.orders[oid].amount)
    && t.users == (if source == FromWallet then Pay(s, s.orders[oid].user, -s.orders[oid].amount).users else s.users)
  }

  lemma BeginByCardForm(s: Store, oid: OrderId, now: Time)
    requires oid in s.orders && OrderOk(s, oid) && PromosOk(s)
    requires BeginFinish(s, oid, FromCard, now).1 == Done
    ensures Begun(s, BeginFinish(s, oid, FromCard, now).0, oid, FromCard)
    ensures PromosOk(BeginFinish(s, oid, FromCard, now).0)
  {
    HoldersFrame(s, BeginFinish(s, oid, FromCard, now).0, oid);
  }

  /** The store after payment, once the code is reserved. */
  function Paid(mid: Store, oid: OrderId, source: Source): Store
    requires oid in mid.orders && mid.orders[oid].user in mid.users
  {
    var o := mid.orders[oid];
    var paid := if source == FromWallet then Pay(mid, o.user, -o.amount) else mid;
    Put(paid, oid, o.(paidBy := PaidBy(source), status := Processing)).(flight := Some(Flight(oid, source, false)))
  }

  lemma PaidForm(s: Store, mid: Store, oid: OrderId, source: Source)
    requires oid in s.orders && oid in mid.orders && PromosOk(mid) && source != FromCard
    requires mid == s.(orders := mid.orders, promos := mid.promos) && mid.promos.Keys == s.promos.Keys
    requires mid.orders == s.orders[oid := s.orders[oid].(reserved := s.orders[oid].code.Some?)]
    requires s.orders[oid].user in s.users
    requires source == FromWallet ==> s.users[s.orders[oid].user].balance >= s.orders[oid].amount
    ensures Begun(s, Paid(mid, oid, source), oid, source) && PromosOk(Paid(mid, oid, source))
  {
    HoldersFrame(mid, Paid(mid, oid, source), oid);
  }

  lemma BeginPaidForm(s: Store, oid: OrderId, source: Source, now: Time)
    requires oid in s.orders && OrderOk(s, oid) && PromosOk(s) && source != FromCard
    requires BeginFinish(s, oid, source, now).1 == Done
    ensures Begun(s, BeginFinish(s, oid, source, now).0, oid, source)
    ensures PromosOk(BeginFinish(s, oid, source, now).0)
  {
    ReserveForm(s, oid, now);
    PaidForm(s, Reserve(s, oid, now).0, oid, source);
  }

  lemma BeginForm(s: Store, oid: OrderId, source: Source, now: Time)
    requires Inv(s) && BeginFinish(s, oid, source, now).1 == Done
    ensures Begun(s, BeginFinish(s, oid, source, now).0, oid, source)
    ensures PromosOk(BeginFinish(s, oid, source, now).0)
  {
    assert OrderOk(s, oid);
    if source == FromCard {
      BeginByCardForm(s, oid, now);
    } else {
      BeginPaidForm(s, oid, source, now);
    }
  }

  lemma KeepsBegin(s: Store, oid: OrderId, source: Source, now: Time)
    requires Inv(s)
    ensures Inv(BeginFinish(s, oid, source, now).0)
  {
    var (t, r) := BeginFinish(s, oid, source, now);
    if r == Done {
      BeginForm(s, oid, source, now);
      BegunKeepsInv(s, t, oid, source);
    }
  }

  lemma BegunLedger(s: Store, t: Store, oid: OrderId, source: Source)
    requires LedgerOk(s) && Begun(s, t, oid, source) && s.flight.None?
    requires !Settled(s.orders[oid].status)
    ensures LedgerOk(t)
  {
    MoneyStep(s, t, oid);
  }

  lemma BegunOrders(s: Store, t: Store, oid: OrderId, source: Source)
    requires OrdersOk(s) && TrialsOk(s) && Begun(s, t, oid, source) && s.flight.None?
    requires !Settled(s.orders[oid].status)
    requires source == FromCard ==> s.orders[oid].amount > 0
    ensures OrdersOk(t) && TrialsOk(t)
  {
    assert OrderOk(s, oid);
    OrdersFrame(s, t, oid);
    TrialFrame(s, t, oid);
  }

  lemma BegunKeepsInv(s: Store, t: Store, oid: OrderId, source: Source)
    requires Inv(s) && Begun(s, t, oid, source) && PromosOk(t) && s.flight.None?
    requires !Settled(s.orders[oid].status)
    requires IsTrial(s.orders[oid]) ==> !s.users[s.orders[oid].user].trialUsed
    requires source == FromCard ==> s.orders[oid].amount > 0
    ensures Inv(t)
  {
    BegunOrders(s, t, oid, source);
    BegunLedger(s, t, oid, source);
  }

  lemma KeepsCredit(s: Store)
    requires Inv(s)
    ensures Inv(Credit(s))
  {
    var t := Credit(s);
    if CanCredit(s) {
      var oid := s.flight.value.oid;
      assert OrderOk(s, oid);
      assert t.orders == s.orders[oid := t.orders[oid]];
      OrdersFrame(s, t, oid);
      TrialFrame(s, t, oid);
      HoldersFrame(s, t, oid);
      MoneyStep(s, t, oid);
      assert GiftsOk(t) && KeysOk(t) && FlightOk(t);
    }
  }

  /** What the error section leaves behind. */
  ghost predicate Failed(s: Store, t: Store, oid: OrderId, source: Source)
  {
    && oid in s.orders && oid in t.orders && t.orders == s.orders[oid := t.orders[oid]]
    && t.keys == s.keys && t.gifts == s.gifts && t.promos.Keys == s.promos.Keys && t.flight == None
    && s.orders[oid].user in s.users
    && t.orders[oid] == (if source == FromCard then s.orders[oid].(status := PendingAdmin)
                         else s.orders[oid].(status := Draft, reserved := false))
    && t.users == (if source == FromWallet then Pay(s, s.orders[oid].user, s.orders[oid].amount).users else s.users)
    && t.promos == (if source == FromCard then s.promos else BooksWithout(s, oid))
  }

  /** The codes' books with this order and its customer taken off its code. */
  function BooksWithout(s: Store, oid: OrderId): map<Code, Promo>
    requires oid in s.orders
  {
    var o := s.orders[oid];
    if !o.reserved || o.code.None? || o.code.value !in s.promos then s.promos
    else
      var p := s.promos[o.code.value];
      s.promos[o.code.value := p.(uses := p.uses - 1,
                                  usedBy := RemoveFirst(p.usedBy, o.user),
                                  orders := RemoveFirst(p.orders, oid))]
  }

  lemma ReleaseBooksForm(s: Store, oid: OrderId)
    requires oid in s.orders && PromosOk(s)
    ensures Release(s, oid).promos == BooksWithout(s, oid)
  {
    var o := s.orders[oid];
    if o.reserved && o.code.Some? && o.code.value in s.promos {
      assert PromoOk(s, o.code.value) && HoldsCode(s, oid, o.code.value);
      assert oid in s.promos[o.code.value].orders;
    }
  }

  lemma FailCardForm(s: Store, oid: OrderId)
    requires CanFail(s) && s.flight.value.oid == oid && s.flight.value.source == FromCard
    requires PromosOk(s) && s.orders[oid].user in s.users
    ensures Failed(s, FailFinish(s), oid, FromCard) && PromosOk(FailFinish(s))
  {
    HoldersFrame(s, FailFinish(s), oid);
  }

  /** Back to draft, once refund and release have made `mid` of `s`. */
  function BackToDraft(mid: Store, oid: OrderId): Store
    requires oid in mid.orders
  {
    SetStatus(mid, oid, Draft).(flight := None)
  }

  lemma BackToDraftForm(s: Store, mid: Store, oid: OrderId, source: Source)
    requires oid in s.orders && oid in mid.orders && PromosOk(mid) && source != FromCard
    requires mid == s.(orders := mid.orders, promos := mid.promos, users := mid.users)
    requires mid.orders == s.orders[oid := s.orders[oid].(reserved := false)]
    requires mid.promos == BooksWithout(s, oid) && mid.promos.Keys == s.promos.Keys
    requires s.orders[oid].user in s.users
    requires mid.users
          == if source == FromWallet then Pay(s, s.orders[oid].user, s.orders[oid].amount).users else s.users
    ensures Failed(s, BackToDraft(mid, oid), oid, source) && PromosOk(BackToDraft(mid, oid))
  {
    HoldersFrame(mid, BackToDraft(mid, oid), oid);
  }

  lemma FailFreeForm(s: Store, oid: OrderId)
    requires CanFail(s) && s.flight.value.oid == oid && s.flight.value.source == FromFree
    requires PromosOk(s) && OrderOk(s, oid) && s.orders[oid].user in s.users
    ensures Failed(s, FailFinish(s), oid, FromFree) && PromosOk(FailFinish(s))
  {
    ReleaseForm(s, oid);
    ReleaseBooksForm(s, oid);
    BackToDraftForm(s, Release(s, oid), oid, FromFree);
  }

  lemma PayKeepsBooks(s: Store, u: UserId, delta: int)
    requires PromosOk(s) && u in s.users
    ensures PromosOk(Pay(s, u, delta))
  {
    PromoFrame(s, Pay(s, u, delta));
  }

  lemma FailWalletForm(s: Store, oid: OrderId)
    requires CanFail(s) && s.flight.value.oid == oid && s.flight.value.source == FromWallet
    requires PromosOk(s) && OrderOk(s, oid) && s.orders[oid].user in s.users
    ensures Failed(s, FailFinish(s), oid, FromWallet) && PromosOk(FailFinish(s))
  {
    var refunded := Pay(s, s.orders[oid].user, s.orders[oid].amount);
    PayKeepsBooks(s, s.orders[oid].user, s.orders[oid].amount);
    ReleaseForm(refunded, oid);
    ReleaseBooksForm(refunded, oid);
    BackToDraftForm(s, Release(refunded, oid), oid, FromWallet);
  }

  lemma FailForm(s: Store)
    requires Inv(s) && CanFail(s)
    ensures Failed(s, FailFinish(s), s.flight.value.oid, s.flight.value.source)
    ensures PromosOk(FailFinish(s))
  {
    var f := s.flight.value;
    assert OrderOk(s, f.oid);
    match f.source
    case FromCard => FailCardForm(s, f.oid);
    case FromFree => FailFreeForm(s, f.oid);
    case FromWallet => FailWalletForm(s, f.oid);
  }

  lemma KeepsFail(s: Store)
    requires Inv(s)
    ensures Inv(FailFinish(s))
  {
    if CanFail(s) {
      FailForm(s);
      FailedKeepsInv(s, FailFinish(s), s.flight.value.oid, s.flight.value.source);
    }
  }

  lemma FailedLedger(s: Store, t: Store, oid: OrderId, source: Source)
    requires LedgerOk(s) && Failed(s, t, oid, source) && s.orders[oid].status == Processing
    requires s.orders[oid].paidBy == PaidBy(source) && s.orders[oid].kind != TopUp && s.orders[oid].amount >= 0
    requires s.flight.Some? && s.flight.value.oid == oid
    ensures LedgerOk(t)
  {
    MoneyStep(s, t, oid);
  }

  lemma FailedOrders(s: Store, t: Store, oid: OrderId, source: Source)
    requires OrdersOk(s) && TrialsOk(s) && Failed(s, t, oid, source) && s.orders[oid].status == Processing
    requires s.flight.Some? && s.flight.value.oid == oid && s.orders[oid].paidBy == PaidBy(source)
    ensures OrdersOk(t) && TrialsOk(t)
  {
    assert OrderOk(s, oid);
    OrdersFrame(s, t, oid);
    TrialFrame(s, t, oid);
  }

  lemma FailedKeepsInv(s: Store, t: Store, oid: OrderId, source: Source)
    requires Inv(s) && CanFail(s) && s.flight.value.oid == oid && s.flight.value.source == source
    requires Failed(s, t, oid, source) && PromosOk(t)
    ensures Inv(t)
  {
    assert OrderOk(s, oid);
    FailedOrders(s, t, oid, source);
    FailedLedger(s, t, oid, source);
  }

  lemma ApproveLedger(s: Store)
    requires LedgerOk(s) && CanApprove(s) && OrderOk(s, s.flight.value.oid)
    requires s.flight.value.credited ==> s.orders[s.flight.value.oid].kind == TopUp
    ensures LedgerOk(ApproveFinish(s))
  {
    MoneyStep(s, ApproveFinish(s), s.flight.value.oid);
  }

  lemma ApproveOrders(s: Store)
    requires OrdersOk(s) && PromosOk(s) && CanApprove(s)
    ensures OrdersOk(ApproveFinish(s)) && PromosOk(ApproveFinish(s))
  {
    assert OrderOk(s, s.flight.value.oid);
    OrdersFrame(s, ApproveFinish(s), s.flight.value.oid);
    HoldersFrame(s, ApproveFinish(s), s.flight.value.oid);
  }

  lemma KeepsApprove(s: Store)
    requires Inv(s)
    ensures Inv(ApproveFinish(s))
  {
    if CanApprove(s) {
      ApproveOrders(s);
      ApproveLedger(s);
      ApproveTrials(s, ApproveFinish(s), s.flight.value.oid);
    }
  }

  lemma ApproveTrials(s: Store, t: Store, oid: OrderId)
    requires Inv(s) && CanApprove(s) && s.flight.value.oid == oid && t == ApproveFinish(s)
    ensures TrialsOk(t)
  {
    var o := s.orders[oid];
    forall k, v ensures ApprovedTrial(t, k, v) <==> ApprovedTrial(s, k, v) || (k == oid && v == o.user && IsTrial(o)) {
    }
    forall u | u in t.users ensures t.users[u].trialUsed <==> exists k :: ApprovedTrial(t, k, u) {
      if IsTrial(o) && u == o.user {
        assert ApprovedTrial(t, oid, u);
      } else {
        assert s.users[u].trialUsed == t.users[u].trialUsed;
      }
    }
    forall u, a, b | ApprovedTrial(t, a, u) && ApprovedTrial(t, b, u) ensures a == b {
      if IsTrial(o) && u == o.user {
        assert !s.users[u].trialUsed;
      }
    }
  }

  // ------------------------------------------------------------ all of them

  /** One interleaving step of any task keeps the whole invariant. */
  lemma StepKeepsInv(s: Store, step: Step)
    requires Inv(s) && Allowed(s, step)
    ensures Inv(Apply(s, step))
  {
    match step
    case DoEnsureUser(u) => KeepsEnsureUser(s, u);
    case DoCreate(oid, u, kind, plan, amount, now) => KeepsCreate(s, oid, u, kind, plan, amount, now);
    case DoCancel(oid, u) => KeepsCancel(s, oid, u);
    case DoDiscount(oid, u, code, now) => KeepsDiscount(s, oid, u, code, now);
    case DoAddPromo(c, percent, value, maxUses, expires) =>
      forall oid ensures !HoldsCode(s, oid, c) {
        if oid in s.orders { assert OrderOk(s, oid); }
      }
      KeepsAddPromo(s, c, percent, value, maxUses, expires);
    case DoAddGift(c, amount, maxUses, expires) => KeepsAddGift(s, c, amount, maxUses, expires);
    case DoCancelWaiting(oid, u) => KeepsCancelWaiting(s, oid, u);
    case DoExpire(cutoff) => KeepsExpire(s, cutoff, |s.keys|, Apply(s, step));
    case DoStartCard(oid, u, configured, now) => KeepsStartCard(s, oid, u, configured, now);
    case DoSubmit(u, chosen) => KeepsSubmit(s, u, chosen);
    case DoBegin(oid, source, now) => KeepsBegin(s, oid, source, now);
    case DoCredit => KeepsCredit(s);
    case DoFail => KeepsFail(s);
    case DoApprove => KeepsApprove(s);
    case DoReject(oid) => KeepsReject(s, oid);
    case DoRedeem(u, c, now) => KeepsRedeem(s, u, c, now);
  }
}
