/** The shop as the program keeps it: dictionaries updated in place, one method
    per critical section. Each method is proved against the store function of the
    same section and keeps the invariant. */
module TelegramStore {
  import opened Common
  import opened StoreModel
  import opened StoreInvariant
  import opened StoreSteps

  class Shop {
    var users: map<UserId, User>
    var orders: map<OrderId, Order>
    var keys: seq<OrderId>
    var promos: map<Code, Promo>
    var gifts: map<Code, Gift>
    var flight: Option<Flight>

    ghost function View(): Store
      reads this
    {
      Store(users, orders, keys, promos, gifts, flight)
    }

    ghost predicate Valid()
      reads this
    {
      Inv(View())
    }

    constructor ()
      ensures Valid() && View() == EMPTY
    {
      users, orders, keys, promos, gifts, flight := map[], map[], [], map[], map[], None;
    }

    method EnsureUser(u: UserId)
      requires Valid()
      modifies this
      ensures Valid() && View() == StoreModel.EnsureUser(old(View()), u)
    {
      KeepsEnsureUser(View(), u);
      if u !in users {
        users := users[u := User(0, false, [])];
      }
    }

    method CreateOrder(oid: OrderId, u: UserId, kind: Kind, plan: Option<Plan>, amount: Option<int>, now: Time)
      returns (reply: Reply)
      requires Valid()
      modifies this
      ensures Valid() && (View(), reply) == StoreModel.CreateOrder(old(View()), oid, u, kind, plan, amount, now)
    {
      KeepsCreate(View(), oid, u, kind, plan, amount, now);
      if oid in orders { return Refused(Busy); }
      if amount.None? && plan.None? { return Refused(BadAmount); }
      var baseAmount := Max(0, if amount.Some? then amount.value else plan.value.price);
      var order := Order(u, kind, plan, baseAmount, 0, baseAmount, None, false, Unpaid, Draft, now, None);
      orders := orders[oid := order];
      keys := keys + [oid];
      return Done;
    }

    method CancelOrder(oid: OrderId, u: UserId) returns (reply: Reply)
      requires Valid()
      modifies this
      ensures Valid() && (View(), reply) == StoreModel.CancelOrder(old(View()), oid, u)
    {
      KeepsCancel(View(), oid, u);
      if oid !in orders || orders[oid].user != u || orders[oid].status != Draft { return Refused(WrongStatus); }
      orders := orders[oid := orders[oid].(status := Cancelled)];
      return Done;
    }

    method ApplyDiscount(oid: OrderId, u: UserId, code: Code, now: Time) returns (reply: Reply)
      requires Valid()
      modifies this
      ensures Valid() && (View(), reply) == StoreModel.ApplyDiscount(old(View()), oid, u, code, now)
    {
      KeepsDiscount(View(), oid, u, code, now);
      if oid !in orders || orders[oid].user != u || orders[oid].status != Draft || orders[oid].kind == TopUp {
        return Refused(WrongStatus);
      }
      var entry := Lookup(promos, code);
      var error := DiscountError(entry, u, now);
      if error.Some? { return Refused(error.value); }
      var (amount, discount) := Payable(orders[oid].baseAmount, entry);
      var order := orders[oid].(code := Some(code));
      order := order.(discount := discount);
      order := order.(amount := amount);
      orders := orders[oid := order];
      return Done;
    }

    /** The wizards insert without looking again, so the invariant survives exactly when
        the name is not in use. */
    method AddPromo(c: Code, percent: bool, value: int, maxUses: nat, expires: Expiry)
      requires Valid()
      modifies this
      ensures View() == StoreModel.AddPromo(old(View()), c, percent, value, maxUses, expires)
      ensures Valid() <==> forall oid :: !HoldsCode(old(View()), oid, c)
    {
      KeepsAddPromo(View(), c, percent, value, maxUses, expires);
      promos := promos[c := Promo(percent, value, true, expires, 0, maxUses, [], [])];
    }

    method AddGift(c: Code, amount: int, maxUses: nat, expires: Expiry)
      requires Valid()
      modifies this
      ensures View() == StoreModel.AddGift(old(View()), c, amount, maxUses, expires)
      ensures Valid() <==> GiftUnspent(old(View()), c)
    {
      KeepsAddGift(View(), c, amount, maxUses, expires);
      gifts := gifts[c := Gift(amount, maxUses, true, expires, [])];
    }

    /** `_reserve_discount_locked` */
    method ReserveLocked(oid: OrderId, now: Time) returns (error: Option<Reason>)
      requires oid in orders
      modifies this
      ensures (View(), error) == Reserve(old(View()), oid, now)
    {
      var order := orders[oid];
      if order.code.None? || order.reserved { return None; }
      var c := order.code.value;
      error := DiscountError(Lookup(promos, c), order.user, now);
      if error.Some? { return; }
      var entry := promos[c];
      entry := entry.(uses := entry.uses + 1);
      entry := entry.(usedBy := entry.usedBy + [order.user]);
      entry := entry.(orders := entry.orders + [oid]);
      promos := promos[c := entry];
      orders := orders[oid := order.(reserved := true)];
    }

    /** `_release_discount_locked` */
    method ReleaseLocked(oid: OrderId)
      requires oid in orders
      modifies this
      ensures View() == Release(old(View()), oid)
    {
      var order := orders[oid];
      if order.code.None? || !order.reserved { return; }
      var c := order.code.value;
      if c in promos {
        var entry := promos[c];
        entry := entry.(uses := Max(0, entry.uses - 1));
        if order.user in entry.usedBy { entry := entry.(usedBy := RemoveFirst(entry.usedBy, order.user)); }
        if oid in entry.orders { entry := entry.(orders := RemoveFirst(entry.orders, oid)); }
        promos := promos[c := entry];
      }
      orders := orders[oid := order.(reserved := false)];
    }

    method CancelWaiting(oid: OrderId, u: UserId) returns (changed: bool)
      requires Valid()
      modifies this
      ensures Valid() && View() == StoreModel.CancelWaiting(old(View()), oid, u).0
      ensures changed == (StoreModel.CancelWaiting(old(View()), oid, u).1 == Done)
    {
      KeepsCancelWaiting(View(), oid, u);
      changed := false;
      if oid in orders && orders[oid].user == u && orders[oid].status == AwaitingReceipt {
        ReleaseLocked(oid);
        orders := orders[oid := orders[oid].(status := Cancelled)];
        changed := true;
      }
    }

    method Sweep(cutoff: Time) returns (changed: nat)
      modifies this
      ensures View() == StoreModel.ExpireStale(old(View()), cutoff, |old(keys)|)
      ensures changed == 0 ==> View() == old(View())
    {
      ghost var s := View();
      changed := 0;
      for i := 0 to |keys|
        invariant keys == s.keys && View() == StoreModel.ExpireStale(s, cutoff, i)
        invariant changed == 0 ==> View() == s
      {
        var oid := keys[i];
        if oid in orders && Stale(orders[oid], cutoff) {
          ReleaseLocked(oid);
          orders := orders[oid := orders[oid].(status := Expired)];
          changed := changed + 1;
        }
      }
    }

    method ExpireStale(cutoff: Time) returns (changed: nat)
      requires Valid()
      modifies this
      ensures Valid() && View() == StoreModel.ExpireStale(old(View()), cutoff, |old(keys)|)
      ensures changed == 0 ==> View() == old(View())
    {
      KeepsExpire(View(), cutoff, |keys|, StoreModel.ExpireStale(View(), cutoff, |keys|));
      changed := Sweep(cutoff);
    }

    /** The section of `_start_card_payment` that follows its sweep. */
    method CardSection(oid: OrderId, u: UserId, configured: bool, now: Time) returns (reply: Reply)
      modifies this
      ensures (View(), reply) == StoreModel.StartCardPayment(old(View()), oid, u, configured, now)
    {
      if !configured { return Refused(NotConfigured); }
      if oid !in orders || orders[oid].user != u || orders[oid].status != Draft { return Refused(WrongStatus); }
      if orders[oid].amount <= 0 { return Refused(NotPayable); }
      var error := ReserveLocked(oid, now);
      if error.Some? { return Refused(error.value); }
      orders := orders[oid := orders[oid].(paidBy := ByCard, status := AwaitingReceipt, startedAt := Some(now))];
      return Done;
    }

    method StartCardPayment(oid: OrderId, u: UserId, configured: bool, now: Time, cutoff: Time)
      returns (reply: Reply)
      requires Valid()
      modifies this
      ensures Valid()
      ensures (View(), reply) ==
        StoreModel.StartCardPayment(StoreModel.ExpireStale(old(View()), cutoff, |old(keys)|), oid, u, configured, now)
    {
      KeepsExpire(View(), cutoff, |keys|, StoreModel.ExpireStale(View(), cutoff, |keys|));
      KeepsStartCard(StoreModel.ExpireStale(View(), cutoff, |keys|), oid, u, configured, now);
      var _ := Sweep(cutoff);
      reply := CardSection(oid, u, configured, now);
    }

    method FindWaiting(u: UserId) returns (best: Option<OrderId>)
      ensures best == LatestWaiting(View(), u, |keys|)
    {
      best := None;
      for i := 0 to |keys|
        invariant best == LatestWaiting(View(), u, i)
      {
        var oid := keys[i];
        if oid in orders && orders[oid].user == u && orders[oid].status == AwaitingReceipt {
          if best.None? || Later(orders[oid].startedAt, orders[best.value].startedAt) { best := Some(oid); }
        }
      }
    }

    method SubmitReceipt(u: UserId, chosen: Option<OrderId>) returns (reply: Reply)
      requires Valid()
      modifies this
      ensures Valid() && (View(), reply) == StoreModel.SubmitReceipt(old(View()), u, chosen)
    {
      KeepsSubmit(View(), u, chosen);
      var target := chosen;
      if chosen.None? { target := FindWaiting(u); }
      if target.None? || target.value !in orders || orders[target.value].user != u
         || orders[target.value].status != AwaitingReceipt {
        return Refused(WrongStatus);
      }
      orders := orders[target.value := orders[target.value].(status := PendingAdmin)];
      return Done;
    }

    /** First section of `_finish_order`. A wallet order that turns out to be
        unaffordable is reserved and released again. */
    method BeginSection(oid: OrderId, source: Source, now: Time) returns (reply: Reply)
      requires oid in orders && orders[oid].status == Draft && Reserve(View(), oid, now).1.None? ==>
        Release(Reserve(View(), oid, now).0, oid) == View()
      modifies this
      ensures (View(), reply) == StoreModel.BeginFinish(old(View()), oid, source, now)
    {
      if flight.Some? { return Refused(Busy); }
      if oid !in orders { return Refused(NotFound); }
      var order := orders[oid];
      if order.status == Approved { return Refused(AlreadyApproved); }
      if order.status != (if source == FromCard then PendingAdmin else Draft) { return Refused(WrongStatus); }
      if order.user !in users { return Refused(NoUser); }
      if IsTrial(order) && users[order.user].trialUsed { return Refused(TrialUsed); }
      if source == FromFree && order.amount != 0 { return Refused(NotFree); }
      if source == FromCard && order.amount <= 0 { return Refused(NotPayable); }
      if source == FromWallet || source == FromFree {
        var error := ReserveLocked(oid, now);
        if error.Some? { return Refused(error.value); }
        order := orders[oid];
        if source == FromWallet {
          var user := users[order.user];
          if user.balance < order.amount {
            ReleaseLocked(oid);
            return Refused(InsufficientBalance);
          }
          users := users[order.user := user.(balance := user.balance - order.amount)];
          order := order.(paidBy := ByWallet);
        } else {
          order := order.(paidBy := ForFree);
        }
      }
      orders := orders[oid := order.(status := Processing)];
      flight := Some(Flight(oid, source, false));
      return Done;
    }

    method BeginFinish(oid: OrderId, source: Source, now: Time) returns (reply: Reply)
      requires Valid()
      modifies this
      ensures Valid() && (View(), reply) == StoreModel.BeginFinish(old(View()), oid, source, now)
    {
      KeepsBegin(View(), oid, source, now);
      if oid in orders && orders[oid].status == Draft && Reserve(View(), oid, now).1.None? {
        ReserveThenRelease(View(), oid, now);
      }
      reply := BeginSection(oid, source, now);
    }

    /** The section that books a wallet top-up. */
    method CreditSection()
      requires CanCredit(View())
      modifies this
      ensures View() == Credit(old(View()))
    {
      var order := orders[flight.value.oid];
      var user := users[order.user];
      users := users[order.user := user.(balance := user.balance + order.amount)];
      flight := Some(flight.value.(credited := true));
    }

    method CreditTopUp()
      requires Valid() && CanCredit(View())
      modifies this
      ensures Valid() && View() == Credit(old(View()))
    {
      KeepsCredit(View());
      CreditSection();
    }

    /** The error section: provisioning raised. */
    method FailSection()
      requires CanFail(View()) && orders[flight.value.oid].user in users
      modifies this
      ensures View() == StoreModel.FailFinish(old(View()))
    {
      var oid, source := flight.value.oid, flight.value.source;
      if source == FromWallet {
        var order := orders[oid];
        var user := users[order.user];
        users := users[order.user := user.(balance := user.balance + order.amount)];
        ReleaseLocked(oid);
        orders := orders[oid := orders[oid].(status := Draft)];
      } else if source == FromFree {
        ReleaseLocked(oid);
        orders := orders[oid := orders[oid].(status := Draft)];
      } else {
        orders := orders[oid := orders[oid].(status := PendingAdmin)];
      }
      flight := None;
    }

    method FailFinish()
      requires Valid() && CanFail(View())
      modifies this
      ensures Valid() && View() == StoreModel.FailFinish(old(View()))
    {
      KeepsFail(View());
      FailSection();
    }

    /** The last section. */
    method ApproveFinish()
      requires Valid() && CanApprove(View())
      modifies this
      ensures Valid() && View() == StoreModel.ApproveFinish(old(View()))
    {
      KeepsApprove(View());
      var oid := flight.value.oid;
      orders := orders[oid := orders[oid].(status := Approved)];
      if IsTrial(orders[oid]) {
        var user := orders[oid].user;
        users := users[user := users[user].(trialUsed := true)];
      }
      flight := None;
    }

    method RejectOrder(oid: OrderId) returns (reply: Reply)
      requires Valid()
      modifies this
      ensures Valid() && (View(), reply) == StoreModel.RejectOrder(old(View()), oid)
    {
      KeepsReject(View(), oid);
      if oid !in orders || orders[oid].status != PendingAdmin { return Refused(WrongStatus); }
      ReleaseLocked(oid);
      orders := orders[oid := orders[oid].(status := Rejected)];
      return Done;
    }

    method RedeemSection(u: UserId, c: Code, now: Time) returns (reply: Reply)
      modifies this
      ensures (View(), reply) == StoreModel.RedeemGift(old(View()), u, c, now)
    {
      if u !in users || c !in gifts || !gifts[c].active || IsExpired(gifts[c].expires, now) {
        return Refused(CodeInactive);
      }
      if u in gifts[c].usedBy { return Refused(CodeAlreadyUsed); }
      if |gifts[c].usedBy| >= gifts[c].maxUses { return Refused(CodeExhausted); }
      var amount := gifts[c].amount;
      if amount <= 0 { return Refused(BadAmount); }
      gifts := gifts[c := gifts[c].(usedBy := gifts[c].usedBy + [u])];
      var user := users[u];
      user := user.(balance := user.balance + amount);
      user := user.(gifts := user.gifts + [c]);
      users := users[u := user];
      return Done;
    }

    method RedeemGift(u: UserId, c: Code, now: Time) returns (reply: Reply)
      requires Valid()
      modifies this
      ensures Valid() && (View(), reply) == StoreModel.RedeemGift(old(View()), u, c, now)
    {
      KeepsRedeem(View(), u, c, now);
      reply := RedeemSection(u, c, now);
    }
  }

  /** A reservation made and released at once is invisible. */
  lemma ReserveThenRelease(s: Store, oid: OrderId, now: Time)
    requires Inv(s) && oid in s.orders && s.orders[oid].status == Draft
    requires Reserve(s, oid, now).1.None?
    ensures Release(Reserve(s, oid, now).0, oid) == s
  {
    assert OrderOk(s, oid);
    if s.orders[oid].code.Some? {
      assert PromoOk(s, s.orders[oid].code.value);
      assert forall i :: 0 <= i < |s.promos[s.orders[oid].code.value].orders| ==>
        HoldsCode(s, s.promos[s.orders[oid].code.value].orders[i], s.orders[oid].code.value);
      UndoReserve(s, oid, s.orders[oid].code.value, now);
    }
  }

  lemma UndoReserve(s: Store, oid: OrderId, c: Code, now: Time)
    requires oid in s.orders && c in s.promos && s.orders[oid].code == Some(c) && !s.orders[oid].reserved
    requires s.orders[oid].user !in s.promos[c].usedBy && oid !in s.promos[c].orders && s.promos[c].uses >= 0
    requires Reserve(s, oid, now).1.None?
    ensures Release(Reserve(s, oid, now).0, oid) == s
  {
    var o, p := s.orders[oid], s.promos[c];
    RemoveLast(p.usedBy, o.user);
    RemoveLast(p.orders, oid);
    var t := Release(Reserve(s, oid, now).0, oid);
    assert t.promos[c] == p;
    assert t.promos == s.promos;
    assert t.orders[oid] == o;
    assert t.orders == s.orders;
  }

  lemma RemoveLast<T>(s: seq<T>, x: T)
    requires x !in s
    ensures RemoveFirst(s + [x], x) == s
  {
    var t := s + [x];
    assert t[|s|] == x && x in t;
    assert IndexOf(t, x) == |s|;
    assert DropAt(t, |s|) == s;
  }
}
