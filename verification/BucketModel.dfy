/** The token bucket of `speed_limit.py` as a value, and the bound it gives over
    any window of time, whoever the consumers are. */
module BucketModel {
  import opened Common

  const MIN_RATE := 1024.0
  const MIN_BURST := 65536.0
  const MAX_SLEEP := 0.25
  const MIN_SLEEP := 0.002

  function MaxR(a: real, b: real): real { if a < b then b else a }

  function MinR(a: real, b: real): real { if a < b then a else b }

  datatype Bucket = Bucket(rate: real, capacity: real, tokens: real, last: real)

  predicate BucketOk(b: Bucket)
  {
    && b.rate >= MIN_RATE && b.capacity == MaxR(b.rate, MIN_BURST)
    && 0.0 <= b.tokens <= b.capacity
  }

  function NewBucket(rate: real, now: real): Bucket
  {
    var r := MaxR(rate, MIN_RATE);
    var c := MaxR(r, MIN_BURST);
    Bucket(r, c, c, now)
  }

  /** What the rate yields between two moments. */
  function Yield(rate: real, from: real, to: real): (y: real)
    ensures rate >= 0.0 && from <= to ==> y >= 0.0
  {
    rate * (to - from)
  }

  lemma YieldSplit(rate: real, a: real, b: real, c: real)
    ensures Yield(rate, a, b) + Yield(rate, b, c) == Yield(rate, a, c)
    ensures Yield(rate, a, a) == 0.0
  {
  }

  /** Tokens there would be after a refill at `now`. */
  function Available(b: Bucket, now: real): real
  {
    if now - b.last > 0.0 then MinR(b.capacity, b.tokens + Yield(b.rate, b.last, now)) else b.tokens
  }

  function Refill(b: Bucket, now: real): Bucket
  {
    if now - b.last > 0.0 then b.(last := now, tokens := Available(b, now)) else b
  }

  /** One turn of the waiting loop: refill, then take if there is enough. */
  function Attempt(b: Bucket, nbytes: real, now: real): (Bucket, bool)
  {
    var r := Refill(b, now);
    if r.tokens >= nbytes then (r.(tokens := r.tokens - nbytes), true) else (r, false)
  }

  lemma AttemptKeepsOk(b: Bucket, nbytes: real, now: real)
    requires BucketOk(b) && nbytes >= 0.0
    ensures BucketOk(Refill(b, now)) && BucketOk(Attempt(b, nbytes, now).0)
    ensures Attempt(b, nbytes, now).0.rate == b.rate && Attempt(b, nbytes, now).0.last >= b.last
  {
  }

  // ------------------------------------------------------------------- traces

  /** A turn of some consumer's loop. */
  datatype Turn = Turn(nbytes: real, now: real)

  predicate Ordered(from: real, turns: seq<Turn>)
    decreases |turns|
  {
    turns == [] || (from <= turns[0].now && turns[0].nbytes >= 0.0 && Ordered(turns[0].now, turns[1..]))
  }

  function After(b: Bucket, turns: seq<Turn>): Bucket
    decreases |turns|
  {
    if turns == [] then b else After(Attempt(b, turns[0].nbytes, turns[0].now).0, turns[1..])
  }

  function Granted(b: Bucket, turns: seq<Turn>): real
    decreases |turns|
  {
    if turns == [] then 0.0
    else
      var (c, ok) := Attempt(b, turns[0].nbytes, turns[0].now);
      (if ok then turns[0].nbytes else 0.0) + Granted(c, turns[1..])
  }

  function EndOf(from: real, turns: seq<Turn>): real
  {
    if turns == [] then from else turns[|turns| - 1].now
  }

  lemma {:induction false} TurnsKeepOk(b: Bucket, turns: seq<Turn>)
    requires BucketOk(b) && Ordered(b.last, turns)
    ensures BucketOk(After(b, turns)) && After(b, turns).rate == b.rate
    ensures After(b, turns).capacity == b.capacity
    ensures After(b, turns).last == EndOf(b.last, turns)
    decreases |turns|
  {
    if turns != [] {
      AttemptKeepsOk(b, turns[0].nbytes, turns[0].now);
      TurnsKeepOk(Attempt(b, turns[0].nbytes, turns[0].now).0, turns[1..]);
    }
  }

  lemma AttemptAccount(b: Bucket, nbytes: real, now: real)
    requires BucketOk(b) && nbytes >= 0.0 && b.last <= now
    ensures var (c, ok) := Attempt(b, nbytes, now);
      && c.last == now && c.rate == b.rate
      && c.tokens + (if ok then nbytes else 0.0) <= b.tokens + Yield(b.rate, b.last, now)
  {
  }

  /** Grants are paid from the tokens at hand and what time has refilled since. */
  lemma {:induction false} GrantsArePaid(b: Bucket, turns: seq<Turn>)
    requires BucketOk(b) && Ordered(b.last, turns)
    ensures Granted(b, turns) + After(b, turns).tokens <= b.tokens + Yield(b.rate, b.last, EndOf(b.last, turns))
    decreases |turns|
  {
    if turns == [] {
      YieldSplit(b.rate, b.last, b.last, b.last);
    } else {
      var t := turns[0];
      var c := Attempt(b, t.nbytes, t.now).0;
      AttemptKeepsOk(b, t.nbytes, t.now);
      AttemptAccount(b, t.nbytes, t.now);
      GrantsArePaid(c, turns[1..]);
      YieldSplit(b.rate, b.last, t.now, EndOf(b.last, turns));
    }
  }

  /** Within any window a bucket hands out at most its capacity plus what the rate
      yields over the window's length, whatever came before and however the
      consumers' turns interleave. */
  lemma WindowBound(b: Bucket, before: seq<Turn>, window: seq<Turn>, from: real, to: real)
    requires BucketOk(b) && Ordered(b.last, before + window) && from <= to
    requires forall k :: 0 <= k < |window| ==> from <= window[k].now <= to
    ensures Granted(After(b, before), window) <= b.capacity + Yield(b.rate, from, to)
  {
    SplitOrdered(b.last, before, window);
    TurnsKeepOk(b, before);
    if window != [] {
      EndWithin(from, to, After(b, before).last, window);
      WindowFromFirst(After(b, before), window, from, to);
    }
  }

  lemma WindowFromFirst(c: Bucket, window: seq<Turn>, from: real, to: real)
    requires BucketOk(c) && window != [] && Ordered(c.last, window)
    requires from <= window[0].now <= EndOf(c.last, window) <= to
    ensures Granted(c, window) <= c.capacity + Yield(c.rate, from, to)
  {
    var start := Refill(c, window[0].now);
    AttemptKeepsOk(c, window[0].nbytes, window[0].now);
    FirstTurnAfterRefill(c, window);
    GrantsArePaid(start, window);
    TurnsKeepOk(start, window);
    YieldSplit(c.rate, from, start.last, to);
    YieldSplit(c.rate, start.last, EndOf(start.last, window), to);
  }

  lemma {:induction false} EndWithin(from: real, to: real, start: real, window: seq<Turn>)
    requires window != [] && Ordered(start, window)
    requires forall k :: 0 <= k < |window| ==> from <= window[k].now <= to
    ensures window[0].now <= EndOf(start, window) <= to
    decreases |window|
  {
    if |window| > 1 {
      EndWithin(from, to, window[0].now, window[1..]);
    }
  }

  lemma FirstTurnAfterRefill(c: Bucket, window: seq<Turn>)
    requires BucketOk(c) && window != [] && Ordered(c.last, window)
    ensures var s := Refill(c, window[0].now);
      && s.last == window[0].now && Ordered(s.last, window) && Granted(s, window) == Granted(c, window)
  {
    var s := Refill(c, window[0].now);
    assert Refill(s, window[0].now) == s;
  }

  lemma {:induction false} SplitOrdered(from: real, a: seq<Turn>, b: seq<Turn>)
    requires Ordered(from, a + b)
    ensures Ordered(from, a) && Ordered(EndOf(from, a), b)
    decreases |a|
  {
    if a == [] {
      assert a + b == b;
    } else {
      assert (a + b)[0] == a[0] && (a + b)[1..] == a[1..] + b;
      SplitOrdered(a[0].now, a[1..], b);
      assert EndOf(a[0].now, a[1..]) == EndOf(from, a);
    }
  }
}
