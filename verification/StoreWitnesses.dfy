/** Runs that show what goes wrong when a wizard inserts a code whose name has come into
    use since it was checked (`_admin_promo_text`, `_admin_gift_text`). */
module StoreWitnesses {
  import opened Common
  import opened StoreModel
  import opened StoreInvariant
  import opened StoreTheorems

  lemma RunNext(s: Store, step: Step, rest: seq<Step>, t: Store)
    requires Allowed(s, step) && Apply(s, step) == t
    ensures Run(s, [step] + rest) == Run(t, rest)
    ensures AllowedRun(s, [step] + rest) == AllowedRun(t, rest)
  {
    assert ([step] + rest)[1..] == rest;
  }

  // -------------------------------------------------------------------- promo codes

  /** A customer with one draft under code `c`, which takes 1 off the price. */
  function OneOrder(u: UserId, oid: OrderId, o: Order, c: Code, p: Promo): Store
  {
    Store(map[u := User(0, false, [])], map[oid := o], [oid], map[c := p], map[], None)
  }

  function DraftOf(u: UserId, price: int, code: Option<Code>, now: Time): Order
  {
    var discount := if code.Some? then 1 else 0;
    Order(u, NewService, Some(Plan(price, false)), price, discount, price - discount,
          code, false, Unpaid, Draft, now, None)
  }

  const FRESH_PROMO := Promo(false, 1, true, Never, 0, 5, [], [])

  function WaitingOrder(u: UserId, oid: OrderId, price: int, c: Code, now: Time): Store
  {
    OneOrder(u, oid,
      DraftOf(u, price, Some(c), now).(
        reserved := true, paidBy := ByCard, status := AwaitingReceipt, startedAt := Some(now)),
      c, FRESH_PROMO.(uses := 1, usedBy := [u], orders := [oid]))
  }

  function Reserving(u: UserId, oid: OrderId, price: int, c: Code, now: Time): seq<Step>
  {
    [DoEnsureUser(u)] + ([DoAddPromo(c, false, 1, 5, Never)]
    + ([DoCreate(oid, u, NewService, Some(Plan(price, false)), None, now)] + Paying(u, oid, c, now)))
  }

  function Paying(u: UserId, oid: OrderId, c: Code, now: Time): seq<Step>
  {
    [DoDiscount(oid, u, c, now)] + ([DoStartCard(oid, u, true, now)] + [])
  }

  lemma Orders(u: UserId, oid: OrderId, price: int, c: Code, now: Time)
    requires price >= 2
    ensures var s1 := EMPTY.(users := map[u := User(0, false, [])]);
            var s2 := s1.(promos := map[c := FRESH_PROMO]);
      && Apply(EMPTY, DoEnsureUser(u)) == s1
      && Apply(s1, DoAddPromo(c, false, 1, 5, Never)) == s2
      && Apply(s2, DoCreate(oid, u, NewService, Some(Plan(price, false)), None, now))
         == OneOrder(u, oid, DraftOf(u, price, None, now), c, FRESH_PROMO)
  {
  }

  lemma Discounts(u: UserId, oid: OrderId, price: int, c: Code, now: Time)
    requires price >= 2
    ensures Apply(OneOrder(u, oid, DraftOf(u, price, None, now), c, FRESH_PROMO), DoDiscount(oid, u, c, now))
         == OneOrder(u, oid, DraftOf(u, price, Some(c), now), c, FRESH_PROMO)
  {
  }

  lemma Pays(u: UserId, oid: OrderId, price: int, c: Code, now: Time)
    requires price >= 2
    ensures Apply(OneOrder(u, oid, DraftOf(u, price, Some(c), now), c, FRESH_PROMO), DoStartCard(oid, u, true, now))
         == WaitingOrder(u, oid, price, c, now)
  {
    assert FRESH_PROMO.usedBy + [u] == [u] && FRESH_PROMO.orders + [oid] == [oid];
    var t := Apply(OneOrder(u, oid, DraftOf(u, price, Some(c), now), c, FRESH_PROMO), DoStartCard(oid, u, true, now));
    assert t.orders == WaitingOrder(u, oid, price, c, now).orders;
    assert t.promos == WaitingOrder(u, oid, price, c, now).promos;
  }

  lemma ReservingRuns(u: UserId, oid: OrderId, price: int, c: Code, now: Time)
    requires price >= 2
    ensures AllowedRun(EMPTY, Reserving(u, oid, price, c, now))
    ensures Run(EMPTY, Reserving(u, oid, price, c, now)) == WaitingOrder(u, oid, price, c, now)
  {
    Orders(u, oid, price, c, now);
    Discounts(u, oid, price, c, now);
    Pays(u, oid, price, c, now);
    var s1 := EMPTY.(users := map[u := User(0, false, [])]);
    var s2 := s1.(promos := map[c := FRESH_PROMO]);
    var s3 := OneOrder(u, oid, DraftOf(u, price, None, now), c, FRESH_PROMO);
    var s4 := OneOrder(u, oid, DraftOf(u, price, Some(c), now), c, FRESH_PROMO);
    var create := DoCreate(oid, u, NewService, Some(Plan(price, false)), None, now);
    var tail := Paying(u, oid, c, now);
    RunNext(EMPTY, DoEnsureUser(u), [DoAddPromo(c, false, 1, 5, Never)] + ([create] + tail), s1);
    RunNext(s1, DoAddPromo(c, false, 1, 5, Never), [create] + tail, s2);
    RunNext(s2, create, tail, s3);
    RunNext(s3, DoDiscount(oid, u, c, now), [DoStartCard(oid, u, true, now)] + [], s4);
    RunNext(s4, DoStartCard(oid, u, true, now), [], WaitingOrder(u, oid, price, c, now));
  }

  /** A code inserted again while an order holds it forgets that order: it counts no use
      and lists nobody, though the order is still reserved under it. */
  lemma ReplacedCodeForgetsItsOrder(u: UserId, oid: OrderId, price: int, c: Code, now: Time)
    requires price >= 2
    ensures AllowedRun(EMPTY, Reserving(u, oid, price, c, now))
    ensures var t := AddPromo(Run(EMPTY, Reserving(u, oid, price, c, now)), c, false, 1, 5, Never);
      && HoldsCode(t, oid, c) && t.promos[c].uses == 0 && t.promos[c].orders == [] && t.promos[c].usedBy == []
      && !PromosOk(t)
  {
    ReservingRuns(u, oid, price, c, now);
    var t := AddPromo(WaitingOrder(u, oid, price, c, now), c, false, 1, 5, Never);
    assert HoldsCode(t, oid, c) && oid !in t.promos[c].orders;
    assert !PromoOk(t, c);
  }

  // -------------------------------------------------------------------------- gifts

  function OneGift(u: UserId, balance: int, seen: seq<Code>, c: Code, g: Gift): Store
  {
    Store(map[u := User(balance, false, seen)], map[], [], map[], map[c := g], None)
  }

  /** A gift that a customer redeemed, inserted again, is redeemed by that customer again. */
  lemma ReplacedGiftIsRedeemedAgain(u: UserId, c: Code, amount: int, now: Time)
    requires amount > 0
    ensures var g := Gift(amount, 1, true, Never, []);
            var once := RedeemGift(OneGift(u, 0, [], c, g), u, c, now);
            var again := RedeemGift(AddGift(once.0, c, amount, 1, Never), u, c, now);
      && Run(EMPTY, [DoEnsureUser(u)] + ([DoAddGift(c, amount, 1, Never)] + [])) == OneGift(u, 0, [], c, g)
      && once.1 == Done && again.1 == Done
      && again.0 == OneGift(u, 2 * amount, [c, c], c, g.(usedBy := [u]))
      && !LedgerOk(again.0)
  {
    var g := Gift(amount, 1, true, Never, []);
    var s1 := EMPTY.(users := map[u := User(0, false, [])]);
    RunNext(EMPTY, DoEnsureUser(u), [DoAddGift(c, amount, 1, Never)] + [], s1);
    RunNext(s1, DoAddGift(c, amount, 1, Never), [], OneGift(u, 0, [], c, g));
    assert g.usedBy + [u] == [u] && User(0, false, []).gifts + [c] == [c];
    var once := RedeemGift(OneGift(u, 0, [], c, g), u, c, now).0;
    assert once.users == OneGift(u, amount, [c], c, g).users;
    assert once == OneGift(u, amount, [c], c, g.(usedBy := [u]));
    var again := OneGift(u, 2 * amount, [c, c], c, g.(usedBy := [u]));
    assert [c] + [c] == [c, c];
    LedgerOf(again, u, c, amount);
  }

  lemma LedgerOf(s: Store, u: UserId, c: Code, amount: int)
    requires amount > 0 && s == OneGift(u, 2 * amount, [c, c], c, Gift(amount, 1, true, Never, [u]))
    ensures GiftTotal(s, u) == amount && !LedgerOk(s)
  {
    var m := GiftShares(s, u);
    assert m == map[c := amount];
    TotalRemove(m, c);
    assert m - {c} == map[];
    assert TopUpShares(s, u) == map[] && SpendShares(s, u) == map[];
  }
}
