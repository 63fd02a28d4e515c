/** What customers and the owner can rely on, over every interleaving of the
    shop's critical sections. */
module StoreTheorems {
  import opened Common
  import opened StoreModel
  import opened StoreInvariant
  import opened StoreSteps

  function Run(s: Store, steps: seq<Step>): Store
    decreases |steps|
  {
    if steps == [] then s else Run(Apply(s, steps[0]), steps[1..])
  }

  predicate AllowedRun(s: Store, steps: seq<Step>)
    decreases |steps|
  {
    steps == [] || (Allowed(s, steps[0]) && AllowedRun(Apply(s, steps[0]), steps[1..]))
  }

  lemma EmptyInv()
    ensures Inv(EMPTY)
  {
  }

  lemma {:induction false} RunKeepsInv(s: Store, steps: seq<Step>)
    requires Inv(s) && AllowedRun(s, steps)
    ensures Inv(Run(s, steps))
    decreases |steps|
  {
    if steps != [] {
      StepKeepsInv(s, steps[0]);
      RunKeepsInv(Apply(s, steps[0]), steps[1..]);
    }
  }

  // ---------------------------------------------------------------- the wallet

  /** In every reachable state a balance is what was redeemed plus what was
      topped up minus what wallet-paid orders hold or have spent. */
  lemma WalletLedger(steps: seq<Step>, u: UserId)
    requires AllowedRun(EMPTY, steps) && u in Run(EMPTY, steps).users
    ensures var s := Run(EMPTY, steps);
      && s.users[u].balance >= 0
      && s.users[u].balance == GiftTotal(s, u) + TopUpTotal(s, u) - SpendTotal(s, u)
  {
    EmptyInv();
    RunKeepsInv(EMPTY, steps);
  }

  // ---------------------------------------------------------------- promo codes

  ghost function Holders(s: Store, c: Code): set<OrderId>
  {
    set oid | oid in s.orders && HoldsCode(s, oid, c)
  }

  /** A code's counter, both its lists and the number of orders reserved under
      it agree, and never exceed its limit. */
  lemma PromoCounts(steps: seq<Step>, c: Code)
    requires AllowedRun(EMPTY, steps) && c in Run(EMPTY, steps).promos
    ensures var s := Run(EMPTY, steps);
            var p := s.promos[c];
      && p.uses == |p.usedBy| == |p.orders| == |Holders(s, c)| <= p.maxUses
      && NoDup(p.usedBy) && NoDup(p.orders)
      && Elements(p.orders) == Holders(s, c)
      && Elements(p.usedBy) == set oid | oid in Holders(s, c) :: s.orders[oid].user
  {
    EmptyInv();
    RunKeepsInv(EMPTY, steps);
    var s := Run(EMPTY, steps);
    assert PromoOk(s, c);
    var p := s.promos[c];
    forall a, b | 0 <= a < b < |p.orders| ensures p.orders[a] != p.orders[b] {
      assert p.usedBy[a] != p.usedBy[b];
    }
    NoDupCardinality(p.orders);
    assert Elements(p.orders) == Holders(s, c);
    forall u | u in p.usedBy ensures u in set oid | oid in Holders(s, c) :: s.orders[oid].user {
      var i :| 0 <= i < |p.usedBy| && p.usedBy[i] == u;
      assert p.orders[i] in Holders(s, c);
    }
    forall oid | oid in Holders(s, c) ensures s.orders[oid].user in p.usedBy {
      var i :| 0 <= i < |p.orders| && p.orders[i] == oid;
      assert p.usedBy[i] == s.orders[oid].user;
    }
  }

  lemma ReservedExactlyWhileLive(steps: seq<Step>, oid: OrderId)
    requires AllowedRun(EMPTY, steps) && oid in Run(EMPTY, steps).orders
    ensures var o := Run(EMPTY, steps).orders[oid];
            o.reserved <==> o.code.Some? && Live(o.status)
  {
    EmptyInv();
    RunKeepsInv(EMPTY, steps);
    assert OrderOk(Run(EMPTY, steps), oid);
  }

  /** The moment a code is checked by a step that reserves. */
  function ReservesAt(step: Step): Option<Time>
  {
    match step
    case DoStartCard(_, _, _, now) => Some(now)
    case DoBegin(_, _, now) => Some(now)
    case _ => None
  }

  ghost predicate UsableFor(s: Store, o: Order, now: Time)
  {
    o.code.Some? && o.code.value in s.promos &&
    var p := s.promos[o.code.value];
    p.active && !IsExpired(p.expires, now) && p.uses < p.maxUses && o.user !in p.usedBy
  }

  lemma ReserveChecks(s: Store, k: OrderId, now: Time, oid: OrderId)
    requires k in s.orders && oid in s.orders && !s.orders[oid].reserved
    requires Reserve(s, k, now).0.orders[oid].reserved
    ensures UsableFor(s, s.orders[oid], now)
  {
  }

  lemma ReleaseReservesNothing(s: Store, k: OrderId, st: Status, oid: OrderId)
    requires k in s.orders && oid in s.orders && !s.orders[oid].reserved
    ensures !SetStatus(Release(s, k), k, st).orders[oid].reserved
  {
  }

  lemma FailReservesNothing(s: Store, oid: OrderId)
    requires oid in s.orders && !s.orders[oid].reserved
    ensures oid in FailFinish(s).orders && !FailFinish(s).orders[oid].reserved
  {
    if CanFail(s) {
      var f := s.flight.value;
      var u := s.orders[f.oid].user;
      var refunded := if u in s.users then Pay(s, u, s.orders[f.oid].amount) else s;
      ReleaseReservesNothing(refunded, f.oid, Draft, oid);
      ReleaseReservesNothing(s, f.oid, Draft, oid);
    }
  }

  lemma PlainReservesNothing(s: Store, step: Step, oid: OrderId)
    requires oid in s.orders && !s.orders[oid].reserved
    requires Plain(step) || step.DoSubmit? || step.DoCredit? || step.DoApprove?
    ensures oid in Apply(s, step).orders && !Apply(s, step).orders[oid].reserved
  {
  }

  predicate Releasing(step: Step)
  {
    step.DoExpire? || step.DoCancelWaiting? || step.DoReject? || step.DoFail?
  }

  lemma SweepReservesNothing(s: Store, cutoff: Time, oid: OrderId)
    requires Inv(s) && oid in s.orders && !s.orders[oid].reserved
    ensures !ExpireStale(s, cutoff, |s.keys|).orders[oid].reserved
  {
    SweepExpiresStale(s, cutoff, oid);
  }

  lemma CancelReservesNothing(s: Store, k: OrderId, u: UserId, oid: OrderId)
    requires oid in s.orders && !s.orders[oid].reserved
    ensures oid in CancelWaiting(s, k, u).0.orders && !CancelWaiting(s, k, u).0.orders[oid].reserved
  {
    if CancelWaiting(s, k, u).1 == Done { ReleaseReservesNothing(s, k, Cancelled, oid); }
  }

  lemma RejectReservesNothing(s: Store, k: OrderId, oid: OrderId)
    requires oid in s.orders && !s.orders[oid].reserved
    ensures oid in RejectOrder(s, k).0.orders && !RejectOrder(s, k).0.orders[oid].reserved
  {
    if RejectOrder(s, k).1 == Done { ReleaseReservesNothing(s, k, Rejected, oid); }
  }

  lemma ReleasesReserveNothing(s: Store, step: Step, oid: OrderId)
    requires Inv(s) && oid in s.orders && !s.orders[oid].reserved && Releasing(step)
    ensures oid in Apply(s, step).orders && !Apply(s, step).orders[oid].reserved
  {
    match step
    case DoExpire(cutoff) => SweepReservesNothing(s, cutoff, oid);
    case DoCancelWaiting(k, u) => CancelReservesNothing(s, k, u, oid);
    case DoReject(k) => RejectReservesNothing(s, k, oid);
    case DoFail => FailReservesNothing(s, oid);
  }

  lemma CardReserves(s: Store, k: OrderId, u: UserId, configured: bool, now: Time, oid: OrderId)
    requires oid in s.orders && !s.orders[oid].reserved
    ensures var t := StartCardPayment(s, k, u, configured, now).0;
      oid in t.orders && t.orders[oid].reserved ==> UsableFor(s, s.orders[oid], now)
  {
    if StartCardPayment(s, k, u, configured, now).1 == Done && Reserve(s, k, now).0.orders[oid].reserved {
      ReserveChecks(s, k, now, oid);
    }
  }

  lemma BeginReserves(s: Store, k: OrderId, source: Source, now: Time, oid: OrderId)
    requires oid in s.orders && !s.orders[oid].reserved
    ensures var t := BeginFinish(s, k, source, now).0;
      oid in t.orders && t.orders[oid].reserved ==> UsableFor(s, s.orders[oid], now)
  {
    if BeginFinish(s, k, source, now).1 == Done && source != FromCard && Reserve(s, k, now).0.orders[oid].reserved {
      ReserveChecks(s, k, now, oid);
    }
  }

  /** A reservation begins only by card payment or delivery, and only on a code that
      is active, unexpired, not used up and new to the customer at that moment. */
  lemma ReservesOnlyUsableCodes(s: Store, step: Step, oid: OrderId)
    requires Inv(s) && oid in s.orders && !s.orders[oid].reserved
    requires oid in Apply(s, step).orders && Apply(s, step).orders[oid].reserved
    ensures ReservesAt(step).Some? && UsableFor(s, s.orders[oid], ReservesAt(step).value)
  {
    match step
    case DoStartCard(k, u, configured, now) => CardReserves(s, k, u, configured, now, oid);
    case DoBegin(k, source, now) => BeginReserves(s, k, source, now, oid);
    case _ => if Releasing(step) { ReleasesReserveNothing(s, step, oid); } else { PlainReservesNothing(s, step, oid); }
  }

  /** Nobody redeems a gift twice, and no gift goes over its limit. */
  lemma GiftsOncePerUser(steps: seq<Step>, c: Code)
    requires AllowedRun(EMPTY, steps) && c in Run(EMPTY, steps).gifts
    ensures var g := Run(EMPTY, steps).gifts[c];
      && NoDup(g.usedBy) && |Elements(g.usedBy)| == |g.usedBy| <= g.maxUses
      && Elements(g.usedBy) <= Run(EMPTY, steps).users.Keys
  {
    EmptyInv();
    RunKeepsInv(EMPTY, steps);
    var s := Run(EMPTY, steps);
    NoDupCardinality(s.gifts[c].usedBy);
    forall u | u in Elements(s.gifts[c].usedBy) ensures u in s.users { assert GiftsOk(s); }
  }

  // ------------------------------------------------------------------- pricing

  lemma PercentBounds(b: nat, v: int)
    requires 0 <= v <= 100
    ensures 0 <= (b * v) / 100 <= b
    ensures (b * v) / 100 * 100 <= b * v < ((b * v) / 100 + 1) * 100
    ensures v == 100 ==> (b * v) / 100 == b
    ensures v == 0 ==> (b * v) / 100 == 0
  {
    var x := b * v;
    assert x <= b * 100;
  }

  /** The discount is the floor of the percentage, or the fixed sum capped by the
      price; nobody is ever charged below zero. */
  lemma DiscountMeaning(b: nat, p: Promo)
    ensures p.percent && 0 <= p.value <= 100 ==>
      var d := Payable(b, Some(p)).1; d * 100 <= b * p.value < (d + 1) * 100
    ensures p.percent && p.value >= 100 ==> Payable(b, Some(p)) == (0, b)
    ensures !p.percent && 0 <= p.value <= b ==> Payable(b, Some(p)) == (b - p.value, p.value)
    ensures !p.percent && b <= p.value ==> Payable(b, Some(p)) == (0, b)
    ensures p.value <= 0 ==> Payable(b, Some(p)) == (b, 0)
  {
    if p.percent {
      var capped := Min(100, Max(0, p.value));
      PercentBounds(b, capped);
    }
  }

  // -------------------------------------------------------------- order history

  predicate Final(st: Status)
  {
    st == Approved || st == Rejected || st == Cancelled || st == Expired
  }

  /** The lifecycle graph. A failed delivery returns an order where it came from. */
  predicate Edge(o: Order, st: Status)
  {
    match o.status
    case Draft => st == Cancelled || st == AwaitingReceipt || st == Processing
    case AwaitingReceipt => st == Cancelled || st == Expired || st == PendingAdmin
    case PendingAdmin => st == Rejected || st == Processing
    case Processing => st == Approved || st == (if o.paidBy == ByCard then PendingAdmin else Draft)
    case _ => false
  }

  predicate SameTerms(a: Order, b: Order)
  {
    && a.user == b.user && a.kind == b.kind && a.plan == b.plan
    && a.baseAmount == b.baseAmount && a.createdAt == b.createdAt
    && (a.status != Draft ==> a.amount == b.amount && a.discount == b.discount && a.code == b.code)
  }

  lemma ExpireOneEffect(s: Store, k: OrderId, cutoff: Time, oid: OrderId)
    requires oid in s.orders && (s.orders[oid].reserved ==> s.orders[oid].code.Some?)
    ensures ExpireOne(s, k, cutoff).orders[oid]
         == if k == oid && Stale(s.orders[oid], cutoff)
            then s.orders[oid].(status := Expired, reserved := false)
            else s.orders[oid]
  {
  }

  lemma {:induction false} ExpireEffect(s: Store, cutoff: Time, n: nat, oid: OrderId)
    requires n <= |s.keys| && oid in s.orders
    requires s.orders[oid].reserved ==> s.orders[oid].code.Some?
    ensures ExpireStale(s, cutoff, n).orders[oid]
         == if oid in s.keys[..n] && Stale(s.orders[oid], cutoff)
            then s.orders[oid].(status := Expired, reserved := false)
            else s.orders[oid]
  {
    if n > 0 {
      ExpireEffect(s, cutoff, n - 1, oid);
      ExpireOneEffect(ExpireStale(s, cutoff, n - 1), s.keys[n - 1], cutoff, oid);
      assert s.keys[..n] == s.keys[..n - 1] + [s.keys[n - 1]];
    }
  }

  /** The sweep expires exactly the stale orders, whatever order it visits them in. */
  lemma SweepExpiresStale(s: Store, cutoff: Time, oid: OrderId)
    requires Inv(s) && oid in s.orders
    ensures ExpireStale(s, cutoff, |s.keys|).orders[oid]
         == if Stale(s.orders[oid], cutoff) then s.orders[oid].(status := Expired, reserved := false) else s.orders[oid]
  {
    assert OrderOk(s, oid);
    ExpireEffect(s, cutoff, |s.keys|, oid);
    assert s.keys[..|s.keys|] == s.keys;
  }

  predicate Foreign(step: Step)
  {
    !step.DoCredit? && !step.DoFail? && !step.DoApprove?
  }

  /** What a step may do to one order: stay, or follow one edge on the same terms. */
  ghost predicate Moves(s: Store, t: Store, oid: OrderId)
    requires oid in s.orders
  {
    && oid in t.orders
    && (t.orders[oid].status == s.orders[oid].status || Edge(s.orders[oid], t.orders[oid].status))
    && SameTerms(s.orders[oid], t.orders[oid])
  }

  /** The step leaves the order in delivery, and the delivery itself, alone. */
  ghost predicate Undisturbed(s: Store, t: Store)
  {
    s.flight.Some? && s.flight.value.oid in s.orders ==>
      && t.flight == s.flight && s.flight.value.oid in t.orders
      && t.orders[s.flight.value.oid] == s.orders[s.flight.value.oid]
  }

  lemma ReleasedMoves(s: Store, mid: Store, k: OrderId, st: Status, oid: OrderId)
    requires k in s.orders && oid in s.orders && mid.flight == s.flight
    requires mid.orders == s.orders[k := s.orders[k].(reserved := false)]
    requires s.flight.Some? ==> s.flight.value.oid != k
    requires Edge(s.orders[k], st)
    ensures Moves(s, SetStatus(mid, k, st), oid) && Undisturbed(s, SetStatus(mid, k, st))
  {
  }

  lemma ReleasingMoves(s: Store, k: OrderId, st: Status, oid: OrderId)
    requires k in s.orders && OrderOk(s, k) && PromosOk(s) && oid in s.orders
    requires s.orders[k].status != Processing && Edge(s.orders[k], st)
    ensures Moves(s, SetStatus(Release(s, k), k, st), oid)
    ensures Undisturbed(s, SetStatus(Release(s, k), k, st))
  {
    ReleaseForm(s, k);
    ReleasedMoves(s, Release(s, k), k, st, oid);
  }

  lemma CardedMoves(s: Store, mid: Store, k: OrderId, now: Time, oid: OrderId)
    requires k in s.orders && s.orders[k].status == Draft && oid in s.orders && k in mid.orders
    requires mid.orders == s.orders[k := mid.orders[k]] && mid.flight == s.flight
    requires mid.orders[k] == s.orders[k].(reserved := mid.orders[k].reserved)
    requires s.flight.Some? ==> s.flight.value.oid != k
    ensures Moves(s, Carded(mid, k, now), oid) && Undisturbed(s, Carded(mid, k, now))
  {
  }

  lemma StartCardMoves(s: Store, k: OrderId, u: UserId, configured: bool, now: Time, oid: OrderId)
    requires k in s.orders ==> OrderOk(s, k)
    requires PromosOk(s) && oid in s.orders
    ensures Moves(s, StartCardPayment(s, k, u, configured, now).0, oid)
    ensures Undisturbed(s, StartCardPayment(s, k, u, configured, now).0)
  {
    if StartCardPayment(s, k, u, configured, now).1 == Done {
      ReserveForm(s, k, now);
      CardedMoves(s, Reserve(s, k, now).0, k, now, oid);
    }
  }

  lemma ExpireMoves(s: Store, cutoff: Time, oid: OrderId)
    requires Inv(s) && oid in s.orders
    ensures Moves(s, ExpireStale(s, cutoff, |s.keys|), oid)
    ensures Undisturbed(s, ExpireStale(s, cutoff, |s.keys|))
  {
    SweepExpiresStale(s, cutoff, oid);
    if s.flight.Some? { SweepExpiresStale(s, cutoff, s.flight.value.oid); }
  }

  lemma CancelWaitingMoves(s: Store, k: OrderId, u: UserId, oid: OrderId)
    requires Inv(s) && oid in s.orders
    ensures Moves(s, CancelWaiting(s, k, u).0, oid) && Undisturbed(s, CancelWaiting(s, k, u).0)
  {
    if CancelWaiting(s, k, u).1 == Done { assert OrderOk(s, k); ReleasingMoves(s, k, Cancelled, oid); }
  }

  lemma RejectMoves(s: Store, k: OrderId, oid: OrderId)
    requires Inv(s) && oid in s.orders
    ensures Moves(s, RejectOrder(s, k).0, oid) && Undisturbed(s, RejectOrder(s, k).0)
  {
    if RejectOrder(s, k).1 == Done { assert OrderOk(s, k); ReleasingMoves(s, k, Rejected, oid); }
  }

  lemma BeginMoves(s: Store, k: OrderId, source: Source, now: Time, oid: OrderId)
    requires Inv(s) && oid in s.orders
    ensures Moves(s, BeginFinish(s, k, source, now).0, oid)
    ensures Undisturbed(s, BeginFinish(s, k, source, now).0)
  {
    if BeginFinish(s, k, source, now).1 == Done { BeginForm(s, k, source, now); }
  }

  lemma FailMoves(s: Store, oid: OrderId)
    requires Inv(s) && oid in s.orders
    ensures Moves(s, FailFinish(s), oid)
  {
    if CanFail(s) { FailForm(s); }
  }

  /** Steps that touch no order but one they create, or a draft. */
  predicate Plain(step: Step)
  {
    step.DoEnsureUser? || step.DoCreate? || step.DoCancel? || step.DoDiscount?
    || step.DoAddPromo? || step.DoAddGift? || step.DoRedeem?
  }

  lemma PlainMoves(s: Store, step: Step, oid: OrderId)
    requires FlightOk(s) && oid in s.orders && Plain(step)
    ensures Moves(s, Apply(s, step), oid) && Undisturbed(s, Apply(s, step))
  {
  }

  lemma LateMoves(s: Store, step: Step, oid: OrderId)
    requires FlightOk(s) && oid in s.orders && (step.DoSubmit? || step.DoCredit? || step.DoApprove?)
    ensures Moves(s, Apply(s, step), oid)
    ensures Foreign(step) ==> Undisturbed(s, Apply(s, step))
  {
  }

  /** One step moves an order along at most one edge and never renegotiates it
      once it has left draft; only the delivery's own sections touch an order
      that is being delivered. */
  lemma StepFollowsGraph(s: Store, step: Step, oid: OrderId)
    requires Inv(s) && oid in s.orders
    ensures Moves(s, Apply(s, step), oid)
    ensures Foreign(step) ==> Undisturbed(s, Apply(s, step))
  {
    match step
    case DoExpire(cutoff) => ExpireMoves(s, cutoff, oid);
    case DoCancelWaiting(k, u) => CancelWaitingMoves(s, k, u, oid);
    case DoReject(k) => RejectMoves(s, k, oid);
    case DoStartCard(k, u, configured, now) =>
      if k in s.orders { assert OrderOk(s, k); }
      StartCardMoves(s, k, u, configured, now, oid);
    case DoBegin(k, source, now) => BeginMoves(s, k, source, now, oid);
    case DoFail => FailMoves(s, oid);
    case _ => if Plain(step) { PlainMoves(s, step, oid); } else { LateMoves(s, step, oid); }
  }

  lemma {:induction false} FinalStaysFinal(s: Store, steps: seq<Step>, oid: OrderId)
    requires Inv(s) && AllowedRun(s, steps) && oid in s.orders && Final(s.orders[oid].status)
    ensures oid in Run(s, steps).orders
    ensures Run(s, steps).orders[oid].status == s.orders[oid].status
    ensures Run(s, steps).orders[oid].amount == s.orders[oid].amount
    decreases |steps|
  {
    if steps != [] {
      StepFollowsGraph(s, steps[0], oid);
      StepKeepsInv(s, steps[0]);
      FinalStaysFinal(Apply(s, steps[0]), steps[1..], oid);
    }
  }

  /** Payable plus discount is the listed price in every reachable state. */
  lemma PriceSplits(steps: seq<Step>, oid: OrderId)
    requires AllowedRun(EMPTY, steps) && oid in Run(EMPTY, steps).orders
    ensures var o := Run(EMPTY, steps).orders[oid];
      && o.amount >= 0 && o.discount >= 0 && o.amount + o.discount == o.baseAmount
  {
    EmptyInv();
    RunKeepsInv(EMPTY, steps);
    assert OrderOk(Run(EMPTY, steps), oid);
  }

  /** However many trial drafts are finished at once, one is approved. */
  lemma OneTrialPerUser(steps: seq<Step>, a: OrderId, b: OrderId, u: UserId)
    requires AllowedRun(EMPTY, steps)
    requires ApprovedTrial(Run(EMPTY, steps), a, u) && ApprovedTrial(Run(EMPTY, steps), b, u)
    ensures a == b
  {
    EmptyInv();
    RunKeepsInv(EMPTY, steps);
  }

  /** The receipt goes to the newest waiting order, and is refused only when the
      customer has none. */
  lemma {:induction false} LatestIsNewest(s: Store, u: UserId, n: nat)
    requires n <= |s.keys|
    ensures var r := LatestWaiting(s, u, n);
      && (r.None? <==> forall i :: 0 <= i < n ==> !Waiting(s, s.keys[i], u))
      && (r.Some? ==> forall i :: 0 <= i < n && Waiting(s, s.keys[i], u) ==>
            !Later(s.orders[s.keys[i]].startedAt, s.orders[r.value].startedAt))
  {
    if n > 0 { LatestIsNewest(s, u, n - 1); }
  }

  // ----------------------------------------------------------- undo and happy path

  predicate AllForeign(steps: seq<Step>)
  {
    forall i :: 0 <= i < |steps| ==> Foreign(steps[i])
  }

  /** While an order is being delivered no other task can change it or land the flight. */
  lemma {:induction false} DeliveryIsUndisturbed(s: Store, steps: seq<Step>)
    requires Inv(s) && AllowedRun(s, steps) && AllForeign(steps) && s.flight.Some?
    ensures var t := Run(s, steps);
      && t.flight == s.flight && s.flight.value.oid in t.orders
      && t.orders[s.flight.value.oid] == s.orders[s.flight.value.oid]
    ensures Inv(Run(s, steps))
    decreases |steps|
  {
    RunKeepsInv(s, steps);
    if steps != [] {
      StepFollowsGraph(s, steps[0], s.flight.value.oid);
      StepKeepsInv(s, steps[0]);
      DeliveryIsUndisturbed(Apply(s, steps[0]), steps[1..]);
    }
  }

  /** `after` gives back to the order's owner exactly what `started` had taken
      from `s`, takes the order and its owner off the books of its code, and returns
      the order as it was before payment. */
  ghost predicate UndoneBy(s: Store, started: Store, before: Store, after: Store, oid: OrderId, source: Source)
    requires oid in s.orders
  {
    var u := s.orders[oid].user;
    && u in s.users && u in started.users && u in before.users && u in after.users
    && after.users[u].balance - before.users[u].balance == s.users[u].balance - started.users[u].balance
    && after.users[u].trialUsed == before.users[u].trialUsed
    && (forall v :: v in before.users && v != u ==> v in after.users && after.users[v] == before.users[v])
    && after.flight.None?
    && oid in after.orders && after.orders[oid] == s.orders[oid].(paidBy := PaidBy(source))
    && oid in before.orders
    && after.promos == (if source == FromCard then before.promos else BooksWithout(before, oid))
    && (source != FromCard ==> before.orders[oid].reserved == before.orders[oid].code.Some?)
  }

  lemma UndoArithmetic(s: Store, started: Store, before: Store, after: Store, oid: OrderId, source: Source)
    requires oid in s.orders && OrderOk(s, oid)
    requires s.orders[oid].status == (if source == FromCard then PendingAdmin else Draft)
    requires Begun(s, started, oid, source) && Failed(before, after, oid, source)
    requires before.orders[oid] == started.orders[oid]
    ensures UndoneBy(s, started, before, after, oid, source)
  {
  }

  /** A delivery that fails gives back exactly what its start took, whatever ran
      in between, and the order is again as it was before payment. */
  lemma FailureUndoesBegin(s: Store, oid: OrderId, source: Source, now: Time, between: seq<Step>)
    requires Inv(s) && BeginFinish(s, oid, source, now).1 == Done && s.orders[oid].kind != TopUp
    requires var started := BeginFinish(s, oid, source, now).0;
             AllowedRun(started, between) && AllForeign(between)
    ensures var started := BeginFinish(s, oid, source, now).0;
            var before := Run(started, between);
            UndoneBy(s, started, before, FailFinish(before), oid, source)
  {
    var started := BeginFinish(s, oid, source, now).0;
    BeginForm(s, oid, source, now);
    KeepsBegin(s, oid, source, now);
    DeliveryIsUndisturbed(started, between);
    var before := Run(started, between);
    assert CanFail(before);
    FailForm(before);
    assert OrderOk(s, oid);
    UndoArithmetic(s, started, before, FailFinish(before), oid, source);
  }

  lemma ApprovedForm(t: Store, oid: OrderId)
    requires t.flight.Some? && t.flight.value.oid == oid && CanApprove(t)
    requires oid in t.orders && t.orders[oid].user in t.users
    ensures var r := ApproveFinish(t); var u := t.orders[oid].user;
      && r.flight.None? && oid in r.orders && r.orders[oid] == t.orders[oid].(status := Approved)
      && u in r.users && r.users[u].balance == t.users[u].balance
      && r.users[u].trialUsed == (t.users[u].trialUsed || IsTrial(t.orders[oid]))
  {
  }

  lemma CoveredDraftBegins(s: Store, oid: OrderId, now: Time)
    requires s.flight.None? && oid in s.orders
    requires var o := s.orders[oid];
      o.status == Draft && !o.reserved && (o.code.None? || UsableFor(s, o, now)) && o.user in s.users
      && s.users[o.user].balance >= o.amount && !(IsTrial(o) && s.users[o.user].trialUsed)
    ensures BeginFinish(s, oid, FromWallet, now).1 == Done
  {
  }

  /** A draft whose code, if any, is still usable and whose price the balance covers is
      delivered from the wallet and costs exactly that price. */
  lemma WalletPurchaseCompletes(s: Store, oid: OrderId, now: Time)
    requires Inv(s) && s.flight.None? && oid in s.orders
    requires var o := s.orders[oid];
      && o.status == Draft && (o.code.None? || UsableFor(s, o, now))
      && (o.kind == NewService || o.kind == Renewal) && o.plan.Some? && o.user in s.users
      && s.users[o.user].balance >= o.amount && !(IsTrial(o) && s.users[o.user].trialUsed)
    ensures var t := ApproveFinish(BeginFinish(s, oid, FromWallet, now).0);
            var o := s.orders[oid];
      && oid in t.orders && t.orders[oid].status == Approved && t.flight.None?
      && o.user in t.users && t.users[o.user].balance == s.users[o.user].balance - o.amount
      && t.users[o.user].trialUsed == (s.users[o.user].trialUsed || IsTrial(o))
  {
    assert OrderOk(s, oid);
    CoveredDraftBegins(s, oid, now);
    BeginForm(s, oid, FromWallet, now);
    ApprovedForm(BeginFinish(s, oid, FromWallet, now).0, oid);
  }

  /** The top-up `oid` of `s` at a later status, before anything was credited. */
  ghost predicate TopUpAt(s: Store, t: Store, oid: OrderId, st: Status)
    requires oid in s.orders
  {
    && t.users == s.users && t.flight.None? && oid in t.orders
    && t.orders[oid] == s.orders[oid].(status := st, paidBy := t.orders[oid].paidBy,
                                       startedAt := t.orders[oid].startedAt)
  }

  lemma TopUpStarts(s: Store, oid: OrderId, now: Time)
    requires Inv(s) && s.flight.None? && oid in s.orders
    requires var o := s.orders[oid];
      o.status == Draft && o.kind == TopUp && o.plan.None? && o.amount > 0 && o.user in s.users
    ensures TopUpAt(s, StartCardPayment(s, oid, s.orders[oid].user, true, now).0, oid, AwaitingReceipt)
  {
    assert OrderOk(s, oid);
  }

  lemma TopUpSubmitted(s: Store, a: Store, oid: OrderId)
    requires oid in s.orders && TopUpAt(s, a, oid, AwaitingReceipt)
    ensures TopUpAt(s, SubmitReceipt(a, s.orders[oid].user, Some(oid)).0, oid, PendingAdmin)
  {
  }

  lemma TopUpConfirmed(s: Store, b: Store, oid: OrderId, now: Time)
    requires oid in s.orders && TopUpAt(s, b, oid, PendingAdmin)
    requires var o := s.orders[oid]; o.kind == TopUp && o.plan.None? && o.amount > 0 && o.user in s.users
    ensures var t := Credit(BeginFinish(b, oid, FromCard, now).0);
            var o := s.orders[oid];
      && t.flight.Some? && t.flight.value.oid == oid && CanApprove(t)
      && oid in t.orders && t.orders[oid].user == o.user && o.user in t.users
      && t.users[o.user].balance == s.users[o.user].balance + o.amount
  {
  }

  /** A card top-up that an administrator confirms credits exactly its amount. */
  lemma CardTopUpCompletes(s: Store, oid: OrderId, now: Time)
    requires Inv(s) && s.flight.None? && oid in s.orders
    requires var o := s.orders[oid];
      o.status == Draft && o.kind == TopUp && o.plan.None? && o.amount > 0 && o.user in s.users
    ensures var o := s.orders[oid];
            var a := StartCardPayment(s, oid, o.user, true, now).0;
            var b := SubmitReceipt(a, o.user, Some(oid)).0;
            var t := ApproveFinish(Credit(BeginFinish(b, oid, FromCard, now).0));
      && oid in t.orders && t.orders[oid].status == Approved && t.flight.None?
      && o.user in t.users && t.users[o.user].balance == s.users[o.user].balance + o.amount
  {
    var u := s.orders[oid].user;
    var a := StartCardPayment(s, oid, u, true, now).0;
    var b := SubmitReceipt(a, u, Some(oid)).0;
    TopUpStarts(s, oid, now);
    TopUpSubmitted(s, a, oid);
    TopUpConfirmed(s, b, oid, now);
    ApprovedForm(Credit(BeginFinish(b, oid, FromCard, now).0), oid);
  }
}
