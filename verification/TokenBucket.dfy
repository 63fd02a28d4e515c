/** The bucket object and its waiting loops. */
module TokenBucket {
  import opened Common
  import opened BucketModel

  /** The monotonic clock; a sleep lasts at least as long as asked. */
  class Clock {
    var now: real

    constructor ()
      ensures now == 0.0
    {
      now := 0.0;
    }

    method Sleep(d: real)
      requires d > 0.0
      modifies this
      ensures now >= old(now) + d
    {
      var late: real :| late >= 0.0;
      now := now + d + late;
    }
  }

  class TokenBucket {
    const rate: real
    const capacity: real
    var tokens: real
    var last: real

    ghost function View(): Bucket
      reads this
    {
      Bucket(rate, capacity, tokens, last)
    }

    ghost predicate Valid()
      reads this
    {
      BucketOk(View())
    }

    constructor (rateBytesPerSec: real, clock: Clock)
      ensures Valid() && View() == NewBucket(rateBytesPerSec, clock.now)
    {
      var r := MaxR(rateBytesPerSec, MIN_RATE);
      rate := r;
      capacity := MaxR(r, MIN_BURST);
      tokens := MaxR(r, MIN_BURST);
      last := clock.now;
    }

    method Refill(now: real)
      requires Valid()
      modifies this
      ensures Valid() && View() == BucketModel.Refill(old(View()), now)
    {
      AttemptKeepsOk(View(), 0.0, now);
      var elapsed := now - last;
      if elapsed > 0.0 {
        last := now;
        tokens := MinR(capacity, tokens + Yield(rate, now - elapsed, now));
      }
    }

    /** Waits until `nbytes` can be taken at once. Alone on the bucket it always
        gets them, and never more than the elapsed time has paid for. */
    method ConsumeSlice(nbytes: real, clock: Clock)
      requires Valid() && 0.0 <= nbytes <= capacity && last <= clock.now
      modifies this, clock
      ensures Valid() && clock.now >= old(clock.now) && last == clock.now
      ensures tokens + nbytes <= old(tokens) + Yield(rate, old(last), last)
    {
      ghost var start := View();
      YieldSplit(rate, last, last, last);
      while true
        invariant Valid() && start.last <= last <= clock.now && old(clock.now) <= clock.now
        invariant tokens <= start.tokens + Yield(rate, start.last, last)
        decreases Steps(nbytes - Available(View(), clock.now))
      {
        ghost var before := View();
        AttemptAccount(before, 0.0, clock.now);
        Refill(clock.now);
        YieldSplit(rate, start.last, before.last, last);
        if tokens >= nbytes {
          tokens := tokens - nbytes;
          return;
        }
        var wait := (nbytes - tokens) / rate;
        SleepRefills(View(), nbytes, MinR(MaxR(wait, MIN_SLEEP), MAX_SLEEP));
        ghost var woken := clock.now;
        clock.Sleep(MinR(MaxR(wait, MIN_SLEEP), MAX_SLEEP));
        LongerSleepRefillsMore(View(), woken + MinR(MaxR(wait, MIN_SLEEP), MAX_SLEEP), clock.now);
      }
    }

    /** Any amount, in slices no larger than the bucket. */
    method Consume(nbytes: nat, clock: Clock) returns (ghost slices: seq<real>)
      requires Valid() && last <= clock.now
      modifies this, clock
      ensures Valid() && last <= clock.now && clock.now >= old(clock.now)
      ensures forall k :: 0 <= k < |slices| ==> 0.0 < slices[k] <= capacity
      ensures SumR(slices) == nbytes as real
      ensures tokens + nbytes as real <= old(tokens) + Yield(rate, old(last), last)
    {
      var remaining := nbytes as real;
      slices := [];
      ghost var start := View();
      YieldSplit(rate, last, last, last);
      while remaining > 0.0
        invariant Valid() && start.last <= last <= clock.now && old(clock.now) <= clock.now
        invariant 0.0 <= remaining && SumR(slices) + remaining == nbytes as real
        invariant forall k :: 0 <= k < |slices| ==> 0.0 < slices[k] <= capacity
        invariant tokens + SumR(slices) <= start.tokens + Yield(rate, start.last, last)
        decreases Steps(remaining)
      {
        var take := MinR(remaining, capacity);
        ghost var before := View();
        ConsumeSlice(take, clock);
        YieldSplit(rate, start.last, before.last, last);
        SumRAppend(slices, take);
        slices := slices + [take];
        remaining := remaining - take;
      }
    }
  }

  /** Upper bound on turns when each turn covers at least one byte or all the rest. */
  function Steps(need: real): int
  {
    if need > 0.0 then need.Floor + 1 else 0
  }

  function SumR(xs: seq<real>): real
  {
    if xs == [] then 0.0 else xs[0] + SumR(xs[1..])
  }

  lemma {:induction false} SumRAppend(xs: seq<real>, x: real)
    ensures SumR(xs + [x]) == SumR(xs) + x
  {
    if xs == [] {
      assert xs + [x] == [x];
    } else {
      assert (xs + [x])[1..] == xs[1..] + [x];
      SumRAppend(xs[1..], x);
    }
  }

  /** A sleep of the computed length brings the wanted amount at least one byte
      closer, or all the way. */
  lemma SleepRefills(b: Bucket, nbytes: real, d: real)
    requires BucketOk(b) && b.tokens < nbytes <= b.capacity
    requires d == MinR(MaxR((nbytes - b.tokens) / b.rate, MIN_SLEEP), MAX_SLEEP)
    ensures d > 0.0
    ensures Available(b, b.last + d) >= nbytes || Available(b, b.last + d) >= b.tokens + 1.0
  {
    var wait := (nbytes - b.tokens) / b.rate;
    if d == MAX_SLEEP {
      assert Yield(b.rate, b.last, b.last + MAX_SLEEP) >= 1.0;
    } else {
      YieldSplit(b.rate, b.last, b.last + wait, b.last + d);
      YieldOfWait(b.rate, b.last, nbytes - b.tokens);
    }
  }

  lemma YieldOfWait(rate: real, from: real, need: real)
    requires rate > 0.0
    ensures Yield(rate, from, from + need / rate) == need
  {
  }

  lemma LongerSleepRefillsMore(b: Bucket, t1: real, t2: real)
    requires BucketOk(b) && t1 <= t2
    ensures Available(b, t1) <= Available(b, t2)
  {
    YieldSplit(b.rate, b.last, t1, t2);
  }
}
