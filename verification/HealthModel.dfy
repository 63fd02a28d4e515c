/** The failure table of proxy endpoints (`_record_proxy_success`, `_record_proxy_failure`). */
module HealthModel {
  import opened Common
  import opened TargetModel

  /** Consecutive failures and the end of the cooldown. */
  type Health = map<Text, (int, real)>

  const FAILURE_BASE := 10.0
  const FAILURE_MAX := 300.0
  const HEALTH_MAX := 4096
  const HEALTH_DROP := 512

  function Pow2(n: nat): int { if n == 0 then 1 else 2 * Pow2(n - 1) }

  function Cooldown(fails: nat): real
    requires fails > 0
  {
    var c := FAILURE_BASE * Pow2(fails - 1) as real;
    if c <= FAILURE_MAX then c else FAILURE_MAX
  }

  predicate HealthOk(h: Health)
  {
    forall e :: e in h ==> 1 <= h[e].0 <= 8
  }

  function Noted(h: Health, endpoint: Text, now: real): Health
    requires HealthOk(h)
  {
    var fails := Min((if endpoint in h then h[endpoint].0 else 0) + 1, 8);
    h[endpoint := (fails, now + Cooldown(fails))]
  }

  /** An overfull table loses the 512 entries closest to recovery. */
  ghost predicate Trimmed(full: Health, h: Health)
  {
    if |full| <= HEALTH_MAX then h == full
    else Dropped(full, h, HEALTH_DROP)
  }

  ghost predicate Dropped(full: Health, h: Health, n: nat)
  {
    && |h| == |full| - n
    && (forall e :: e in h ==> e in full && h[e] == full[e])
    && (forall gone, kept :: gone in full && gone !in h && kept in h ==> full[gone].1 <= full[kept].1)
  }

  function Failing(h: Health, endpoint: Text, times: seq<real>): Health
    requires HealthOk(h)
    ensures HealthOk(Failing(h, endpoint, times))
  {
    if times == [] then h
    else Noted(Failing(h, endpoint, times[..|times| - 1]), endpoint, times[|times| - 1])
  }

  /** After a success, the n-th failure in a row sets a cooldown of 10 seconds doubled
      n - 1 times, at most 300, from its own time on; other endpoints keep theirs. */
  lemma {:induction false} ConsecutiveFailures(h: Health, endpoint: Text, times: seq<real>)
    requires HealthOk(h) && times != []
    ensures var g := Failing(h - {endpoint}, endpoint, times);
      && endpoint in g
      && g[endpoint] == (Min(|times|, 8), times[|times| - 1] + Cooldown(|times|))
      && g - {endpoint} == h - {endpoint}
    decreases |times|
  {
    var front := times[..|times| - 1];
    CooldownSaturates(|times|);
    if front == [] {
      assert Failing(h - {endpoint}, endpoint, front) == h - {endpoint};
    } else {
      ConsecutiveFailures(h, endpoint, front);
    }
  }

  /** Counting up to 8 failures is enough: the cap is reached at the sixth. */
  lemma CooldownSaturates(n: nat)
    requires n > 0
    ensures Cooldown(Min(n, 8)) == Cooldown(n)
    ensures n >= 6 ==> Cooldown(n) == FAILURE_MAX
    ensures n <= 5 ==> Cooldown(n) == FAILURE_BASE * Pow2(n - 1) as real
  {
    assert Pow2(0) == 1 && Pow2(1) == 2 && Pow2(2) == 4 && Pow2(3) == 8 && Pow2(4) == 16 && Pow2(5) == 32;
    if n >= 6 { PowAtLeast(n - 1); }
    if 6 <= n <= 8 || n > 8 { PowAtLeast(Min(n, 8) - 1); }
  }

  lemma {:induction false} PowAtLeast(n: nat)
    requires n >= 5
    ensures Pow2(n) >= 32
  {
    if n == 5 {
      assert Pow2(0) == 1 && Pow2(1) == 2 && Pow2(2) == 4 && Pow2(3) == 8 && Pow2(4) == 16;
    } else {
      PowAtLeast(n - 1);
    }
  }
}
