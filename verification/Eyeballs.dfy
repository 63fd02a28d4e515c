/** The queue-popping loop and the scheduling loop of the raced connect. */
module Eyeballs {
  import opened Common
  import opened EyeballsModel

  method InterleaveFamilies(addresses: seq<Addr>, preferred: Option<Addr>) returns (ordered: seq<Addr>)
    ensures ordered == Interleave(addresses, preferred)
  {
    var unique := addresses;
    if preferred.Some? && preferred.value in unique {
      unique := RemoveFirst(unique, preferred.value);
      unique := [preferred.value] + unique;
    }
    if unique == [] { return []; }
    var first := unique[0].family;
    var queue1 := OfFamily(unique, first);
    var queue2 := OfFamily(unique, Other(first));
    ghost var q1, q2 := queue1, queue2;
    ordered := [];
    while queue1 != [] || queue2 != []
      invariant Merge(q1, q2) == ordered + Merge(queue1, queue2)
      decreases |queue1| + |queue2|
    {
      ghost var before := ordered;
      ghost var r1, r2 := queue1, queue2;
      if queue1 != [] {
        ordered := ordered + [queue1[0]];
        queue1 := queue1[1..];
      }
      if queue2 != [] {
        ordered := ordered + [queue2[0]];
        queue2 := queue2[1..];
      }
      assert Merge(r1, r2) == ordered[|before|..] + Merge(queue1, queue2);
    }
  }

  method ConnectionSchedule(addresses: seq<Addr>, cooling: Addr -> bool) returns (schedule: seq<Start>)
    ensures schedule == Schedule(addresses, cooling)
  {
    var selected := addresses[..Min(|addresses|, PARALLEL_CONNECT)];
    var seenFamily: set<Family> := {};
    var extraIndex := 0;
    schedule := [];
    for i := 0 to |selected|
      invariant schedule + Delays(selected[i..], seenFamily, extraIndex, cooling) == Schedule(addresses, cooling)
    {
      var a := selected[i];
      var delay;
      if a.family !in seenFamily {
        delay := 0.0;
        seenFamily := seenFamily + {a.family};
      } else {
        extraIndex := extraIndex + 1;
        delay := STAGGER * extraIndex as real;
        assert seenFamily + {a.family} == seenFamily;
      }
      if cooling(a) { delay := MaxR(delay, STAGGER * 2.0); }
      assert selected[i..][0] == a && selected[i..][1..] == selected[i + 1..];
      Regroup(schedule, Start(delay, a), Delays(selected[i + 1..], seenFamily, extraIndex, cooling));
      schedule := schedule + [Start(delay, a)];
    }
    assert selected[|selected|..] == [];
  }

  lemma Regroup(done: seq<Start>, next: Start, rest: seq<Start>)
    ensures done + ([next] + rest) == done + [next] + rest
  {
  }
}
