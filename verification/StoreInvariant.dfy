/** What every reachable state of the shop satisfies, and the proof that each
    critical section keeps it. */
module StoreInvariant {
  import opened Common
  import opened StoreModel

  // ------------------------------------------------------------------- orders

  /** Statuses during which an order with a code holds a reservation. */
  predicate Live(st: Status)
  {
    st == AwaitingReceipt || st == PendingAdmin || st == Processing || st == Approved
  }

  function PaidBy(source: Source): Method
  {
    match source
    case FromCard => ByCard
    case FromWallet => ByWallet
    case FromFree => ForFree
  }

  ghost predicate OrderOk(s: Store, oid: OrderId)
    requires oid in s.orders
  {
    var o := s.orders[oid];
    && o.amount >= 0 && o.discount >= 0 && o.amount + o.discount == o.baseAmount
    && (o.code.Some? ==> o.code.value in s.promos && o.kind != TopUp)
    && (o.reserved <==> o.code.Some? && Live(o.status))
    && (o.status == AwaitingReceipt || o.status == PendingAdmin ==> o.paidBy == ByCard)
    && (Live(o.status) && o.paidBy == ByCard ==> o.amount > 0)
    && (o.status == Processing || o.status == Approved ==> o.user in s.users && o.paidBy != Unpaid)
    && (o.status == Processing <==> s.flight.Some? && s.flight.value.oid == oid)
  }

  ghost predicate OrdersOk(s: Store)
  {
    forall oid :: oid in s.orders ==> OrderOk(s, oid)
  }

  ghost predicate KeysOk(s: Store)
  {
    NoDup(s.keys) && forall oid :: oid in s.keys <==> oid in s.orders
  }

  ghost predicate FlightOk(s: Store)
  {
    s.flight.Some? ==>
      var f := s.flight.value;
      && f.oid in s.orders
      && s.orders[f.oid].status == Processing
      && s.orders[f.oid].paidBy == PaidBy(f.source)
      && (f.credited ==> s.orders[f.oid].kind == TopUp)
      && s.orders[f.oid].user in s.users
      && (IsTrial(s.orders[f.oid]) ==> !s.users[s.orders[f.oid].user].trialUsed)
  }

  // ------------------------------------------------------------------- promos

  ghost predicate HoldsCode(s: Store, oid: OrderId, c: Code)
  {
    oid in s.orders && s.orders[oid].reserved && s.orders[oid].code == Some(c)
  }

  /** The two lists of a code run in parallel: position by position they name a
      reserved order and its customer, and nothing reserved is missing. */
  ghost predicate PromoOk(s: Store, c: Code)
    requires c in s.promos
  {
    var p := s.promos[c];
    && p.uses == |p.usedBy| == |p.orders|
    && p.uses <= p.maxUses
    && NoDup(p.usedBy)
    && (forall i :: 0 <= i < |p.orders| ==>
          HoldsCode(s, p.orders[i], c) && s.orders[p.orders[i]].user == p.usedBy[i])
    && (forall oid :: HoldsCode(s, oid, c) ==> oid in p.orders)
  }

  ghost predicate PromosOk(s: Store)
  {
    forall c :: c in s.promos ==> PromoOk(s, c)
  }

  // -------------------------------------------------------------- gifts, trial

  ghost predicate GiftsOk(s: Store)
  {
    forall c :: c in s.gifts ==>
      && NoDup(s.gifts[c].usedBy)
      && |s.gifts[c].usedBy| <= s.gifts[c].maxUses
      && forall u :: u in s.gifts[c].usedBy ==> u in s.users
  }

  ghost predicate ApprovedTrial(s: Store, oid: OrderId, u: UserId)
  {
    oid in s.orders && s.orders[oid].user == u && IsTrial(s.orders[oid]) && s.orders[oid].status == Approved
  }

  ghost predicate TrialsOk(s: Store)
  {
    && (forall u :: u in s.users ==>
          (s.users[u].trialUsed <==> exists oid :: ApprovedTrial(s, oid, u)))
    && (forall u, a, b :: ApprovedTrial(s, a, u) && ApprovedTrial(s, b, u) ==> a == b)
  }

  // ------------------------------------------------------------------- ledger

  function GiftShare(g: Gift, u: UserId): int
  {
    if u in g.usedBy then g.amount else 0
  }

  predicate Credited(s: Store, oid: OrderId)
  {
    s.flight.Some? && s.flight.value.oid == oid && s.flight.value.credited
  }

  /** A top-up counts from the moment its credit was booked. */
  function TopUpShare(o: Order, credited: bool, u: UserId): int
  {
    if o.user == u && o.kind == TopUp && (o.status == Approved || credited) then o.amount else 0
  }

  function SpendShare(o: Order, u: UserId): int
  {
    if o.user == u && o.paidBy == ByWallet && (o.status == Processing || o.status == Approved) then o.amount else 0
  }

  ghost function GiftShares(s: Store, u: UserId): map<Code, int>
  {
    map c | c in s.gifts :: GiftShare(s.gifts[c], u)
  }

  ghost function TopUpShares(s: Store, u: UserId): map<OrderId, int>
  {
    map oid | oid in s.orders :: TopUpShare(s.orders[oid], Credited(s, oid), u)
  }

  ghost function SpendShares(s: Store, u: UserId): map<OrderId, int>
  {
    map oid | oid in s.orders :: SpendShare(s.orders[oid], u)
  }

  ghost function GiftTotal(s: Store, u: UserId): int { Total(GiftShares(s, u)) }

  ghost function TopUpTotal(s: Store, u: UserId): int { Total(TopUpShares(s, u)) }

  ghost function SpendTotal(s: Store, u: UserId): int { Total(SpendShares(s, u)) }

  ghost predicate LedgerOk(s: Store)
  {
    forall u :: u in s.users ==>
      && s.users[u].balance >= 0
      && s.users[u].balance == GiftTotal(s, u) + TopUpTotal(s, u) - SpendTotal(s, u)
  }

  ghost predicate Inv(s: Store)
  {
    && KeysOk(s) && OrdersOk(s) && FlightOk(s) && PromosOk(s)
    && GiftsOk(s) && TrialsOk(s) && LedgerOk(s)
  }

  // ---------------------------------------------------------- ledger arithmetic

  /** Replacing one order moves each order sum by that order's own share. */
  lemma TopUpSum(s: Store, t: Store, oid: OrderId, u: UserId)
    requires oid in t.orders && t.orders == s.orders[oid := t.orders[oid]]
    requires forall k :: k != oid ==> Credited(s, k) == Credited(t, k)
    ensures TopUpTotal(t, u) == TopUpTotal(s, u) + TopUpShare(t.orders[oid], Credited(t, oid), u)
                                - (if oid in s.orders then TopUpShare(s.orders[oid], Credited(s, oid), u) else 0)
  {
    var v := TopUpShare(t.orders[oid], Credited(t, oid), u);
    assert TopUpShares(t, u) == TopUpShares(s, u)[oid := v];
    TotalUpdate(TopUpShares(s, u), oid, v);
  }

  lemma SpendSum(s: Store, t: Store, oid: OrderId, u: UserId)
    requires oid in t.orders && t.orders == s.orders[oid := t.orders[oid]]
    ensures SpendTotal(t, u) == SpendTotal(s, u) + SpendShare(t.orders[oid], u)
                                - (if oid in s.orders then SpendShare(s.orders[oid], u) else 0)
  {
    var v := SpendShare(t.orders[oid], u);
    assert SpendShares(t, u) == SpendShares(s, u)[oid := v];
    TotalUpdate(SpendShares(s, u), oid, v);
  }

  lemma GiftSums(s: Store, t: Store, c: Code, u: UserId)
    requires c in t.gifts && t.gifts == s.gifts[c := t.gifts[c]]
    ensures GiftTotal(t, u) == GiftTotal(s, u) + GiftShare(t.gifts[c], u)
                               - (if c in s.gifts then GiftShare(s.gifts[c], u) else 0)
  {
    var v := GiftShare(t.gifts[c], u);
    assert GiftShares(t, u) == GiftShares(s, u)[c := v];
    TotalUpdate(GiftShares(s, u), c, v);
  }

  /** An order replaced without touching balances, gifts, or its own ledger share. */
  lemma LedgerFrame(s: Store, t: Store, oid: OrderId)
    requires LedgerOk(s) && t.gifts == s.gifts
    requires oid in t.orders && t.orders == s.orders[oid := t.orders[oid]]
    requires forall k :: Credited(s, k) == Credited(t, k)
    requires forall u :: u in t.users ==> u in s.users && s.users[u].balance == t.users[u].balance
    requires forall u :: TopUpShare(t.orders[oid], Credited(t, oid), u)
                      == if oid in s.orders then TopUpShare(s.orders[oid], Credited(s, oid), u) else 0
    requires forall u :: SpendShare(t.orders[oid], u)
                      == if oid in s.orders then SpendShare(s.orders[oid], u) else 0
    ensures LedgerOk(t)
  {
    forall u | u in t.users
      ensures t.users[u].balance >= 0
           && t.users[u].balance == GiftTotal(t, u) + TopUpTotal(t, u) - SpendTotal(t, u)
    {
      assert GiftShares(t, u) == GiftShares(s, u);
      TopUpSum(s, t, oid, u);
      SpendSum(s, t, oid, u);
    }
  }

  // ------------------------------------------------------------ promo arithmetic

  /** Code bookkeeping only looks at who owns an order, its code and its flag. */
  lemma PromoFrame(s: Store, t: Store)
    requires PromosOk(s) && t.promos == s.promos
    requires forall oid, c :: HoldsCode(t, oid, c) <==> HoldsCode(s, oid, c)
    requires forall oid, c :: HoldsCode(s, oid, c) && oid in t.orders ==> s.orders[oid].user == t.orders[oid].user
    ensures PromosOk(t)
  {
    forall c | c in t.promos ensures PromoOk(t, c) {
      assert PromoOk(s, c);
    }
  }

  lemma ReservedCode(s: Store, t: Store, oid: OrderId, c: Code)
    requires c in s.promos && PromoOk(s, c) && oid in s.orders && !s.orders[oid].reserved
    requires s.orders[oid].code == Some(c) && t.orders == s.orders[oid := s.orders[oid].(reserved := true)]
    requires s.promos[c].uses < s.promos[c].maxUses && s.orders[oid].user !in s.promos[c].usedBy
    requires c in t.promos && t.promos[c] == s.promos[c].(
               uses := s.promos[c].uses + 1,
               usedBy := s.promos[c].usedBy + [s.orders[oid].user],
               orders := s.promos[c].orders + [oid])
    ensures PromoOk(t, c)
  {
    var p, q := s.promos[c], t.promos[c];
    forall i | 0 <= i < |q.orders|
      ensures HoldsCode(t, q.orders[i], c) && t.orders[q.orders[i]].user == q.usedBy[i]
    {
      if i < |p.orders| { assert HoldsCode(s, p.orders[i], c); }
    }
    forall k | HoldsCode(t, k, c) ensures k in q.orders {
      if k == oid { assert q.orders[|p.orders|] == oid; } else { assert HoldsCode(s, k, c); }
    }
  }

  /** Reserving a code for an unreserved order keeps the books aligned. */
  lemma ReserveBooks(s: Store, oid: OrderId, now: Time)
    requires PromosOk(s) && oid in s.orders && !s.orders[oid].reserved
    requires Reserve(s, oid, now).1.None?
    ensures PromosOk(Reserve(s, oid, now).0)
  {
    var o := s.orders[oid];
    var t := Reserve(s, oid, now).0;
    forall c | c in t.promos ensures PromoOk(t, c) {
      assert PromoOk(s, c);
      if o.code == Some(c) {
        ReservedCode(s, t, oid, c);
      } else {
        assert forall k :: HoldsCode(t, k, c) <==> HoldsCode(s, k, c);
      }
    }
  }

  /** Releasing drops one and the same position from both lists of the code; the
      clamp at zero is never reached. */
  lemma ReleasePosition(s: Store, oid: OrderId, c: Code) returns (i: nat)
    requires c in s.promos && PromoOk(s, c) && HoldsCode(s, oid, c)
    ensures i < |s.promos[c].orders| && s.promos[c].orders[i] == oid
    ensures Release(s, oid).promos == s.promos[c := s.promos[c].(
              uses := s.promos[c].uses - 1,
              usedBy := DropAt(s.promos[c].usedBy, i),
              orders := DropAt(s.promos[c].orders, i))]
  {
    var p := s.promos[c];
    i :| 0 <= i < |p.orders| && p.orders[i] == oid;
    RemoveFirstIsDropAt(p.usedBy, i);
    forall a, b | 0 <= a < b < |p.orders| ensures p.orders[a] != p.orders[b] {
      assert p.usedBy[a] != p.usedBy[b];
    }
    RemoveFirstIsDropAt(p.orders, i);
  }

  lemma DropAtKeepsNoDup<T>(s: seq<T>, i: nat)
    requires NoDup(s) && i < |s|
    ensures NoDup(DropAt(s, i))
  {
    var r := DropAt(s, i);
    forall a, b | 0 <= a < b < |r| ensures r[a] != r[b] {
      assert r[a] == s[if a < i then a else a + 1];
      assert r[b] == s[if b < i then b else b + 1];
    }
  }

  lemma ReleaseBooks(s: Store, oid: OrderId, c0: Code)
    requires PromosOk(s) && c0 in s.promos && HoldsCode(s, oid, c0)
    ensures PromosOk(Release(s, oid))
  {
    assert PromoOk(s, c0);
    var i := ReleasePosition(s, oid, c0);
    var t := Release(s, oid);
    assert t.orders == s.orders[oid := s.orders[oid].(reserved := false)];
    forall c | c in t.promos ensures PromoOk(t, c) {
      assert PromoOk(s, c);
      if c == c0 {
        ReleasedCode(s, t, oid, c, i);
      } else {
        assert forall k :: HoldsCode(t, k, c) <==> HoldsCode(s, k, c);
      }
    }
  }

  lemma ReleasedCode(s: Store, t: Store, oid: OrderId, c: Code, i: nat)
    requires c in s.promos && PromoOk(s, c) && HoldsCode(s, oid, c)
    requires i < |s.promos[c].orders| && s.promos[c].orders[i] == oid
    requires t.orders == s.orders[oid := s.orders[oid].(reserved := false)]
    requires c in t.promos && t.promos[c] == s.promos[c].(
               uses := s.promos[c].uses - 1,
               usedBy := DropAt(s.promos[c].usedBy, i),
               orders := DropAt(s.promos[c].orders, i))
    ensures PromoOk(t, c)
  {
    var p, q := s.promos[c], t.promos[c];
    DropAtKeepsNoDup(p.usedBy, i);
    forall j | 0 <= j < |q.orders|
      ensures HoldsCode(t, q.orders[j], c) && t.orders[q.orders[j]].user == q.usedBy[j]
    {
      var k := if j < i then j else j + 1;
      assert q.orders[j] == p.orders[k] && q.usedBy[j] == p.usedBy[k];
      assert HoldsCode(s, p.orders[k], c);
      assert p.usedBy[k] != p.usedBy[i];
      assert p.orders[k] != oid;
    }
    forall k | HoldsCode(t, k, c) ensures k in q.orders {
      assert HoldsCode(s, k, c) && k != oid;
      var m :| 0 <= m < |p.orders| && p.orders[m] == k;
      assert q.orders[if m < i then m else m - 1] == k;
    }
  }
}
