/** The accounting objects as the program keeps them, updated in place. */
module QuotaGate {
  import opened Common
  import opened QuotaModel

  class UsageRecord {
    var limit: nat
    var used: nat
    var total: nat

    function View(): Usage reads this { Usage(limit, used, total) }

    constructor (limit: nat, used: nat)
      ensures View() == Usage(limit, used, 0)
    {
      this.limit, this.used, this.total := limit, used, 0;
    }

    method CheckAndUse(nbytes: int, otherwise: bool) returns (ok: bool)
      modifies this
      ensures (View(), ok) == QuotaModel.CheckAndUse(old(View()), nbytes, otherwise)
    {
      if nbytes <= 0 { return true; }
      if !otherwise || (limit > 0 && used >= limit) { return false; }
      used := used + nbytes;
      total := total + nbytes;
      return true;
    }
  }

  class Meter {
    var pending: nat
    var lastCheck: real
    var ok: bool
    var batch: nat
    var ewma: real
    var maxBatch: nat
    var interval: real
    var ticks: nat
    const account: UsageRecord

    function View(): Gate
      reads this
    {
      Gate(pending, lastCheck, ok, batch, ewma, maxBatch, interval, ticks)
    }

    predicate Valid()
      reads this
    {
      GateOk(View())
    }

    constructor (account: UsageRecord, now: real)
      ensures Valid() && View() == NewGate(account.limit > 0, now) && this.account == account
    {
      this.account := account;
      pending, lastCheck, ok, ewma, ticks := 0, now, true, 0.0, 0;
      if account.limit > 0 {
        batch, maxBatch, interval := METERED_START, METERED_MAX_BATCH, METERED_INTERVAL;
      } else {
        batch, maxBatch, interval := UNLIMITED_START, UNLIMITED_MAX_BATCH, UNLIMITED_INTERVAL;
      }
    }

    /** Fits the next batch to the measured rate. */
    method Adapt(amount: nat, elapsed: real)
      requires ewma >= 0.0 && interval > 0.0
      modifies this`ewma, this`batch
      ensures View() == Retune(old(View()), amount, elapsed)
    {
      if elapsed > 0.0 {
        EwmaNonNegative(View(), amount, elapsed);
        var instant := amount as real / elapsed;
        ewma := if ewma == 0.0 then instant else 0.75 * ewma + 0.25 * instant;
        var target := (ewma * interval).Floor;
        batch := Max(MIN_BATCH, Min(maxBatch, if target == 0 then MIN_BATCH else target));
      }
    }

    method Stage(nbytes: int, now: real) returns (out: int)
      requires Valid()
      modifies this
      ensures Valid() && (View(), out) == QuotaModel.Stage(old(View()), nbytes, now)
    {
      StageConserves(View(), nbytes, now);
      if !ok { return -1; }
      if nbytes <= 0 { return 0; }
      pending := pending + nbytes;
      ticks := ticks + 1;
      if pending < batch && ticks % TIME_CHECK_EVERY != 0 { return 0; }
      var elapsed := now - lastCheck;
      if pending < batch && elapsed < interval { return 0; }
      var amount := pending;
      pending := 0;
      Adapt(amount, elapsed);
      lastCheck := now;
      return amount;
    }

    method Commit(amount: int, otherwise: bool) returns (r: bool)
      requires Valid()
      modifies this, account
      ensures Valid() && r == ok
      ensures amount <= 0 ==> View() == old(View()) && account.View() == old(account.View())
      ensures amount > 0 ==>
        var (u, yes) := QuotaModel.CheckAndUse(old(account.View()), amount, otherwise);
        account.View() == u && View() == old(View()).(ok := old(ok) && yes)
    {
      if amount <= 0 { return ok; }
      var result := account.CheckAndUse(amount, otherwise);
      ok := ok && result;
      return ok;
    }

    method Flush(otherwise: bool) returns (r: bool)
      requires Valid()
      modifies this, account
      ensures Valid() && r == ok && pending == 0
      ensures var (u, yes) := QuotaModel.CheckAndUse(old(account.View()), old(pending), otherwise);
        account.View() == u && View() == old(View()).(pending := 0, ok := old(ok) && yes)
    {
      if pending > 0 {
        var amount := pending;
        pending := 0;
        var _ := Commit(amount, otherwise);
      }
      return ok;
    }
  }
}
