/** Batched usage accounting (`speed_limit.py`, `check_and_use` in `relay_vless.py`):
    the gate one relay direction owns, and the shared usage record it charges. */
module QuotaModel {
  import opened Common

  const MIN_BATCH := 64 * 1024
  const METERED_MAX_BATCH := 1024 * 1024
  const UNLIMITED_MAX_BATCH := 8 * 1024 * 1024
  const METERED_START := 64 * 1024
  const UNLIMITED_START := 512 * 1024
  const METERED_INTERVAL := 0.20
  const UNLIMITED_INTERVAL := 0.50
  const TIME_CHECK_EVERY := 32

  // -------------------------------------------------------------- usage record

  /** A link's quota; `limit` 0 means unlimited. `total` is the global byte counter. */
  datatype Usage = Usage(limit: nat, used: nat, total: nat)

  predicate UnderQuota(u: Usage)
  {
    u.limit == 0 || u.used < u.limit
  }

  /** `check_and_use`; `otherwise` is the verdict of everything in the link test
      except the quota (known, active, unexpired, transport available). */
  function CheckAndUse(u: Usage, nbytes: int, otherwise: bool): (Usage, bool)
  {
    if nbytes <= 0 then (u, true)
    else if !otherwise || !UnderQuota(u) then (u, false)
    else (u.(used := u.used + nbytes, total := u.total + nbytes), true)
  }

  // --------------------------------------------------------------------- gate

  datatype Gate = Gate(
    pending: nat, lastCheck: real, ok: bool, batch: nat,
    ewma: real, maxBatch: nat, interval: real, ticks: nat)

  function NewGate(metered: bool, now: real): Gate
  {
    if metered then Gate(0, now, true, METERED_START, 0.0, METERED_MAX_BATCH, METERED_INTERVAL, 0)
    else Gate(0, now, true, UNLIMITED_START, 0.0, UNLIMITED_MAX_BATCH, UNLIMITED_INTERVAL, 0)
  }

  /** What holds of a gate between calls: less than one batch is waiting. */
  predicate GateOk(g: Gate)
  {
    && MIN_BATCH <= g.batch <= g.maxBatch
    && g.pending < g.batch
    && g.interval > 0.0 && g.ewma >= 0.0
  }

  function NextEwma(g: Gate, amount: nat, elapsed: real): real
    requires elapsed > 0.0
  {
    var instant := amount as real / elapsed;
    if g.ewma == 0.0 then instant else 0.75 * g.ewma + 0.25 * instant
  }

  lemma EwmaNonNegative(g: Gate, amount: nat, elapsed: real)
    requires elapsed > 0.0 && g.ewma >= 0.0
    ensures NextEwma(g, amount, elapsed) >= 0.0
  {
  }

  function BatchFor(g: Gate, ewma: real): nat
    requires ewma >= 0.0 && g.interval > 0.0
  {
    var target := (ewma * g.interval).Floor;
    Max(MIN_BATCH, Min(g.maxBatch, if target == 0 then MIN_BATCH else target))
  }

  /** Fits the next batch to the rate measured over `elapsed`. */
  function Retune(g: Gate, amount: nat, elapsed: real): Gate
    requires g.ewma >= 0.0 && g.interval > 0.0
  {
    if elapsed > 0.0 then
      EwmaNonNegative(g, amount, elapsed);
      var ewma := NextEwma(g, amount, elapsed);
      g.(ewma := ewma, batch := BatchFor(g, ewma))
    else g
  }

  /** 0 on the hot path, a batch to commit, or -1 once the gate was denied. */
  function Stage(g: Gate, nbytes: int, now: real): (Gate, int)
    requires GateOk(g)
  {
    if !g.ok then (g, -1)
    else if nbytes <= 0 then (g, 0)
    else
      var g1 := g.(pending := g.pending + nbytes, ticks := g.ticks + 1);
      var elapsed := now - g.lastCheck;
      if g1.pending < g.batch && (g1.ticks % TIME_CHECK_EVERY != 0 || elapsed < g.interval) then (g1, 0)
      else (Retune(g1.(pending := 0), g1.pending, elapsed).(lastCheck := now), g1.pending as int)
  }

  /** Staging never loses or invents a byte, keeps less than a batch waiting, and
      hands over at most what one batch held before plus the frame itself. */
  lemma StageConserves(g: Gate, nbytes: int, now: real)
    requires GateOk(g)
    ensures var (h, out) := Stage(g, nbytes, now);
      && GateOk(h) && h.maxBatch == g.maxBatch && h.ok == g.ok
      && (out == -1 <==> !g.ok)
      && (out == -1 ==> h == g)
      && (g.ok ==> 0 <= out && out + h.pending == g.pending + Max(0, nbytes))
      && (out > 0 ==> h.pending == 0 && out == g.pending + nbytes < g.maxBatch + nbytes && nbytes > 0)
  {
    if g.ok && nbytes > 0 {
      RetuneKeepsOk(g.(pending := 0), g.pending + nbytes, now - g.lastCheck);
    }
  }

  lemma RetuneKeepsOk(g: Gate, amount: nat, elapsed: real)
    requires GateOk(g) && g.pending == 0
    ensures var h := Retune(g, amount, elapsed);
      && GateOk(h) && h == g.(ewma := h.ewma, batch := h.batch)
  {
    if elapsed > 0.0 { EwmaNonNegative(g, amount, elapsed); }
  }
}
