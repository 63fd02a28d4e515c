/** Address ordering and start delays of the raced connect
    (`_interleave_families`, `_connection_schedule`). */
module EyeballsModel {
  import opened Common

  datatype Family = V4 | V6

  datatype Addr = Addr(family: Family, sockaddr: string)

  function Other(f: Family): Family { if f == V6 then V4 else V6 }

  /** A remembered winner moves to the front if it is still offered. */
  function WithPreferred(addresses: seq<Addr>, preferred: Option<Addr>): seq<Addr>
  {
    if preferred.Some? && preferred.value in addresses
    then [preferred.value] + RemoveFirst(addresses, preferred.value)
    else addresses
  }

  function OfFamily(s: seq<Addr>, f: Family): seq<Addr>
  {
    if s == [] then []
    else (if s[0].family == f then [s[0]] else []) + OfFamily(s[1..], f)
  }

  /** Takes from both queues in turn until both are empty. */
  function Merge(a: seq<Addr>, b: seq<Addr>): seq<Addr>
    decreases |a| + |b|
  {
    if a == [] && b == [] then []
    else if a == [] then [b[0]] + Merge(a, b[1..])
    else if b == [] then [a[0]] + Merge(a[1..], b)
    else [a[0], b[0]] + Merge(a[1..], b[1..])
  }

  function Interleave(addresses: seq<Addr>, preferred: Option<Addr>): seq<Addr>
  {
    var u := WithPreferred(addresses, preferred);
    if u == [] then [] else Merge(OfFamily(u, u[0].family), OfFamily(u, Other(u[0].family)))
  }

  // ----------------------------------------------------------------- permutation

  predicate Only(s: seq<Addr>, f: Family)
  {
    forall i :: 0 <= i < |s| ==> s[i].family == f
  }

  lemma {:induction false} MergeLength(a: seq<Addr>, b: seq<Addr>)
    ensures |Merge(a, b)| == |a| + |b|
    decreases |a| + |b|
  {
    if a == [] && b != [] {
      MergeLength(a, b[1..]);
    } else if a != [] && b == [] {
      MergeLength(a[1..], b);
    } else if a != [] && b != [] {
      MergeLength(a[1..], b[1..]);
    }
  }

  lemma {:induction false} MergeKeepsAll(a: seq<Addr>, b: seq<Addr>)
    ensures multiset(Merge(a, b)) == multiset(a) + multiset(b)
    decreases |a| + |b|
  {
    if a != [] { assert a == [a[0]] + a[1..]; }
    if b != [] { assert b == [b[0]] + b[1..]; }
    if a == [] && b != [] {
      MergeKeepsAll(a, b[1..]);
    } else if a != [] && b == [] {
      MergeKeepsAll(a[1..], b);
    } else if a != [] && b != [] {
      MergeKeepsAll(a[1..], b[1..]);
    }
  }

  lemma {:induction false} FamilyMembers(s: seq<Addr>, f: Family)
    ensures Only(OfFamily(s, f), f)
  {
    if s != [] { FamilyMembers(s[1..], f); }
  }

  lemma HeadShares(x: Addr, rest: seq<Addr>, f: Family)
    ensures multiset(OfFamily([x] + rest, f)) + multiset(OfFamily([x] + rest, Other(f)))
         == multiset{x} + (multiset(OfFamily(rest, f)) + multiset(OfFamily(rest, Other(f))))
  {
    OfFamilyCons(x, rest, f);
    OfFamilyCons(x, rest, Other(f));
  }

  lemma {:induction false} FamilyBags(s: seq<Addr>, f: Family)
    ensures multiset(OfFamily(s, f)) + multiset(OfFamily(s, Other(f))) == multiset(s)
  {
    if s != [] {
      FamilyBags(s[1..], f);
      HeadShares(s[0], s[1..], f);
      assert s == [s[0]] + s[1..];
    }
  }

  lemma FamiliesPartition(s: seq<Addr>, f: Family)
    ensures multiset(OfFamily(s, f)) + multiset(OfFamily(s, Other(f))) == multiset(s)
    ensures Only(OfFamily(s, f), f)
  {
    FamilyMembers(s, f);
    FamilyBags(s, f);
  }

  lemma WithPreferredKeepsAll(addresses: seq<Addr>, preferred: Option<Addr>)
    ensures multiset(WithPreferred(addresses, preferred)) == multiset(addresses)
  {
    if preferred.Some? && preferred.value in addresses {
      var i := IndexOf(addresses, preferred.value);
      assert addresses == addresses[..i] + [addresses[i]] + addresses[i + 1..];
    }
  }

  /** No address is added, dropped or repeated. */
  lemma InterleaveIsPermutation(addresses: seq<Addr>, preferred: Option<Addr>)
    ensures multiset(Interleave(addresses, preferred)) == multiset(addresses)
  {
    var u := WithPreferred(addresses, preferred);
    WithPreferredKeepsAll(addresses, preferred);
    if u != [] {
      FamiliesPartition(u, u[0].family);
      MergeKeepsAll(OfFamily(u, u[0].family), OfFamily(u, Other(u[0].family)));
    }
  }

  // ----------------------------------------------------------------------- order

  /** What one address adds to the list of a family. */
  function Share(x: Addr, f: Family): seq<Addr>
  {
    if x.family == f then [x] else []
  }

  lemma OfFamilyCons(x: Addr, rest: seq<Addr>, f: Family)
    ensures OfFamily([x] + rest, f) == Share(x, f) + OfFamily(rest, f)
  {
    assert ([x] + rest)[1..] == rest;
  }

  lemma OfFamilyPair(x: Addr, y: Addr, rest: seq<Addr>, f: Family)
    ensures OfFamily([x, y] + rest, f) == Share(x, f) + (Share(y, f) + OfFamily(rest, f))
  {
    OfFamilyCons(y, rest, f);
    OfFamilyCons(x, [y] + rest, f);
    assert [x, y] + rest == [x] + ([y] + rest);
  }

  lemma {:induction false} AllOfFamily(s: seq<Addr>, f: Family)
    requires Only(s, f)
    ensures OfFamily(s, f) == s && OfFamily(s, Other(f)) == []
  {
    if s != [] { AllOfFamily(s[1..], f); }
  }

  lemma MergeOne(a: seq<Addr>)
    ensures Merge(a, []) == a && Merge([], a) == a
  {
    if a != [] { MergeOne(a[1..]); }
  }

  lemma PairParts(x: Addr, y: Addr, rest: seq<Addr>, f: Family)
    requires x.family == f && y.family == Other(f)
    ensures OfFamily([x, y] + rest, f) == [x] + OfFamily(rest, f)
    ensures OfFamily([x, y] + rest, Other(f)) == [y] + OfFamily(rest, Other(f))
  {
    OfFamilyPair(x, y, rest, f);
    OfFamilyPair(x, y, rest, Other(f));
  }

  lemma {:induction false} MergeKeepsOrder(a: seq<Addr>, b: seq<Addr>, f: Family)
    requires Only(a, f) && Only(b, Other(f))
    ensures OfFamily(Merge(a, b), f) == a && OfFamily(Merge(a, b), Other(f)) == b
    decreases |a| + |b|
  {
    if a == [] {
      MergeOne(b);
      AllOfFamily(b, Other(f));
    } else if b == [] {
      MergeOne(a);
      AllOfFamily(a, f);
    } else {
      MergeKeepsOrder(a[1..], b[1..], f);
      PairParts(a[0], b[0], Merge(a[1..], b[1..]), f);
      assert a == [a[0]] + a[1..] && b == [b[0]] + b[1..];
    }
  }

  lemma {:induction false} OfFamilyConcat(a: seq<Addr>, b: seq<Addr>, f: Family)
    ensures OfFamily(a + b, f) == OfFamily(a, f) + OfFamily(b, f)
  {
    if a == [] {
      assert a + b == b;
    } else {
      var head := if a[0].family == f then [a[0]] else [];
      assert (a + b)[0] == a[0] && (a + b)[1..] == a[1..] + b;
      OfFamilyConcat(a[1..], b, f);
      Associates(head, OfFamily(a[1..], f), OfFamily(b, f));
    }
  }

  lemma Associates(a: seq<Addr>, b: seq<Addr>, c: seq<Addr>)
    ensures a + (b + c) == a + b + c
  {
  }

  lemma OfFamilyRemove(s: seq<Addr>, x: Addr, f: Family)
    requires x in s
    ensures OfFamily(RemoveFirst(s, x), f)
         == if x.family == f then RemoveFirst(OfFamily(s, f), x) else OfFamily(s, f)
  {
    var i := IndexOf(s, x);
    var a, b := s[..i], s[i + 1..];
    assert s == a + ([x] + b);
    OfFamilyConcat(a, [x] + b, f);
    OfFamilyConcat([x], b, f);
    OfFamilyConcat(a, b, f);
    if x.family == f {
      NotInFamilyPart(a, x, f);
      var fa := OfFamily(a, f);
      var t := fa + ([x] + OfFamily(b, f));
      assert OfFamily(s, f) == t && t[|fa|] == x;
      FirstAfter(fa, x, OfFamily(b, f));
    }
  }

  lemma {:induction false} NotInFamilyPart(a: seq<Addr>, x: Addr, f: Family)
    requires x !in a
    ensures x !in OfFamily(a, f)
  {
    if a != [] { NotInFamilyPart(a[1..], x, f); }
  }

  lemma FirstAfter(a: seq<Addr>, x: Addr, b: seq<Addr>)
    requires x !in a
    ensures RemoveFirst(a + ([x] + b), x) == a + b
  {
    var t := a + ([x] + b);
    assert t[|a|] == x;
    assert IndexOf(t, x) == |a|;
  }

  /** The alternation of the two family lists has the same family lists. */
  lemma MergedFamilies(u: seq<Addr>, f0: Family, f: Family)
    ensures OfFamily(Merge(OfFamily(u, f0), OfFamily(u, Other(f0))), f) == OfFamily(u, f)
  {
    FamilyMembers(u, f0);
    FamilyMembers(u, Other(f0));
    MergeKeepsOrder(OfFamily(u, f0), OfFamily(u, Other(f0)), f0);
    assert f == f0 || f == Other(f0);
  }

  lemma MergeFirst(u: seq<Addr>)
    requires u != []
    ensures Merge(OfFamily(u, u[0].family), OfFamily(u, Other(u[0].family))) != []
    ensures Merge(OfFamily(u, u[0].family), OfFamily(u, Other(u[0].family)))[0] == u[0]
  {
    assert OfFamily(u, u[0].family)[0] == u[0];
  }

  /** Each family keeps the resolver's order, apart from the remembered winner,
      which comes first of all. */
  lemma InterleaveKeepsFamilyOrder(addresses: seq<Addr>, preferred: Option<Addr>, f: Family)
    ensures var r := Interleave(addresses, preferred);
            OfFamily(r, f) == WithPreferred(OfFamily(addresses, f), preferred)
    ensures preferred.Some? && preferred.value in addresses ==>
      Interleave(addresses, preferred) != [] && Interleave(addresses, preferred)[0] == preferred.value
  {
    var u := WithPreferred(addresses, preferred);
    PreferredByFamily(addresses, preferred, f);
    if u != [] {
      MergedFamilies(u, u[0].family, f);
      MergeFirst(u);
    }
  }

  lemma PreferredByFamily(addresses: seq<Addr>, preferred: Option<Addr>, f: Family)
    ensures OfFamily(WithPreferred(addresses, preferred), f) == WithPreferred(OfFamily(addresses, f), preferred)
  {
    if preferred.Some? {
      var x := preferred.value;
      FamiliesPartition(addresses, f);
      if x in addresses {
        InFamilyPart(addresses, x);
        OfFamilyConcat([x], RemoveFirst(addresses, x), f);
        OfFamilyRemove(addresses, x, f);
      } else {
        NotInFamilyPart(addresses, x, f);
      }
    }
  }

  lemma {:induction false} InFamilyPart(s: seq<Addr>, x: Addr)
    requires x in s
    ensures x in OfFamily(s, x.family)
  {
    if s[0] != x { InFamilyPart(s[1..], x); }
  }

  /** The element the alternation puts at position `i`. */
  function Picked(a: seq<Addr>, b: seq<Addr>, i: nat): Addr
    requires i < |a| + |b|
  {
    if i < 2 * Min(|a|, |b|) then (if i % 2 == 0 then a[i / 2] else b[i / 2])
    else if |a| > |b| then a[i - |b|] else b[i - |a|]
  }

  lemma {:induction false} MergeAlternates(a: seq<Addr>, b: seq<Addr>, i: nat)
    requires i < |a| + |b|
    ensures i < |Merge(a, b)| && Merge(a, b)[i] == Picked(a, b, i)
    decreases |a| + |b|
  {
    MergeLength(a, b);
    if a == [] {
      if i > 0 { MergeAlternates(a, b[1..], i - 1); }
    } else if b == [] {
      if i > 0 { MergeAlternates(a[1..], b, i - 1); }
    } else if i >= 2 {
      MergeAlternates(a[1..], b[1..], i - 2);
      PickedLater(a, b, i);
      assert Merge(a, b)[i] == Merge(a[1..], b[1..])[i - 2];
    }
  }

  lemma PickedLater(a: seq<Addr>, b: seq<Addr>, i: nat)
    requires a != [] && b != [] && 2 <= i < |a| + |b|
    ensures Picked(a, b, i) == Picked(a[1..], b[1..], i - 2)
  {
    assert (i - 2) / 2 == i / 2 - 1 && (i - 2) % 2 == i % 2;
  }

  lemma MergeFamily(a: seq<Addr>, b: seq<Addr>, f: Family, i: nat)
    requires Only(a, f) && Only(b, Other(f)) && i < |a| + |b|
    ensures i < |Merge(a, b)|
    ensures Merge(a, b)[i].family ==
      if i < 2 * Min(|a|, |b|) then (if i % 2 == 0 then f else Other(f)) else if |a| > |b| then f else Other(f)
  {
    MergeAlternates(a, b, i);
  }

  /** Families alternate until one of them runs out; what remains is of the other. */
  lemma InterleaveAlternates(addresses: seq<Addr>, preferred: Option<Addr>, i: nat)
    requires i < |Interleave(addresses, preferred)|
    ensures var r := Interleave(addresses, preferred);
            var f := r[0].family;
            var m, n := |OfFamily(addresses, f)|, |OfFamily(addresses, Other(f))|;
      && (i < 2 * Min(m, n) ==> r[i].family == if i % 2 == 0 then f else Other(f))
      && (i >= 2 * Min(m, n) ==> r[i].family == if m > n then f else Other(f))
  {
    var u := WithPreferred(addresses, preferred);
    var f := u[0].family;
    var a, b := OfFamily(u, f), OfFamily(u, Other(f));
    FamilyMembers(u, f);
    FamilyMembers(u, Other(f));
    FamilySize(addresses, preferred, f);
    FamilySize(addresses, preferred, Other(f));
    MergeLength(a, b);
    MergeFamily(a, b, f, 0);
    MergeFamily(a, b, f, i);
  }

  lemma FamilySize(addresses: seq<Addr>, preferred: Option<Addr>, f: Family)
    ensures |OfFamily(WithPreferred(addresses, preferred), f)| == |OfFamily(addresses, f)|
  {
    PreferredByFamily(addresses, preferred, f);
    WithPreferredKeepsAll(OfFamily(addresses, f), preferred);
    var x, y := OfFamily(addresses, f), WithPreferred(OfFamily(addresses, f), preferred);
    assert |x| == |multiset(x)| == |multiset(y)| == |y|;
  }

  // -------------------------------------------------------------------- schedule

  const PARALLEL_CONNECT := 6
  const STAGGER := 0.05

  function MaxR(a: real, b: real): real { if a < b then b else a }

  datatype Start = Start(delay: real, addr: Addr)

  /** `cooling` says which addresses failed recently. */
  function Delays(addresses: seq<Addr>, seen: set<Family>, extra: nat, cooling: Addr -> bool): seq<Start>
  {
    if addresses == [] then []
    else
      var a := addresses[0];
      var first := a.family !in seen;
      var extra' := if first then extra else extra + 1;
      var delay := if first then 0.0 else STAGGER * extra' as real;
      var delay' := if cooling(a) then MaxR(delay, STAGGER * 2.0) else delay;
      [Start(delay', a)] + Delays(addresses[1..], seen + {a.family}, extra', cooling)
  }

  function Schedule(addresses: seq<Addr>, cooling: Addr -> bool): seq<Start>
  {
    Delays(addresses[..Min(|addresses|, PARALLEL_CONNECT)], {}, 0, cooling)
  }

  predicate FirstOfFamily(addresses: seq<Addr>, i: nat)
    requires i < |addresses|
  {
    forall j :: 0 <= j < i ==> addresses[j].family != addresses[i].family
  }

  lemma {:induction false} DelaysInOrder(
    addresses: seq<Addr>, seen: set<Family>, extra: nat, cooling: Addr -> bool, i: nat)
    requires i < |addresses|
    ensures |Delays(addresses, seen, extra, cooling)| == |addresses|
    ensures var s := Delays(addresses, seen, extra, cooling)[i];
      && s.addr == addresses[i]
      && (FirstOfFamily(addresses, i) && addresses[i].family !in seen ==>
            s.delay == if cooling(addresses[i]) then STAGGER * 2.0 else 0.0)
      && (!(FirstOfFamily(addresses, i) && addresses[i].family !in seen) ==>
            s.delay >= STAGGER * (extra + 1) as real)
  {
    if i == 0 {
      DelaysLength(addresses, seen, extra, cooling);
    } else {
      DelaysLength(addresses, seen, extra, cooling);
      var a := addresses[0];
      var extra' := if a.family !in seen then extra else extra + 1;
      DelaysInOrder(addresses[1..], seen + {a.family}, extra', cooling, i - 1);
      assert FirstOfFamily(addresses, i)
        <==> FirstOfFamily(addresses[1..], i - 1) && a.family != addresses[i].family by
      {
        assert forall j :: 0 <= j < i - 1 ==> addresses[1..][j] == addresses[j + 1];
        if FirstOfFamily(addresses[1..], i - 1) && a.family != addresses[i].family {
          forall j | 0 <= j < i ensures addresses[j].family != addresses[i].family {
            if j > 0 { assert addresses[1..][j - 1].family != addresses[1..][i - 1].family; }
          }
        }
      }
    }
  }

  lemma {:induction false} DelaysLength(addresses: seq<Addr>, seen: set<Family>, extra: nat, cooling: Addr -> bool)
    ensures |Delays(addresses, seen, extra, cooling)| == |addresses|
  {
    if addresses != [] {
      var a := addresses[0];
      DelaysLength(addresses[1..], seen + {a.family}, if a.family !in seen then extra else extra + 1, cooling);
    }
  }

  lemma FirstTwoDiffer(addresses: seq<Addr>, preferred: Option<Addr>)
    requires OfFamily(addresses, V4) != [] && OfFamily(addresses, V6) != []
    ensures var r := Interleave(addresses, preferred); |r| >= 2 && r[0].family != r[1].family
  {
    InterleaveIsPermutation(addresses, preferred);
    FamiliesPartition(addresses, V4);
    var r := Interleave(addresses, preferred);
    assert |r| == |multiset(r)| == |multiset(addresses)|
        == |multiset(OfFamily(addresses, V4))| + |multiset(OfFamily(addresses, V6))| >= 2;
    InterleaveAlternates(addresses, preferred, 1);
  }

  /** When both families resolve, both are attempted, and each family's first
      address starts at once unless it is cooling down. */
  lemma BothFamiliesStart(addresses: seq<Addr>, preferred: Option<Addr>, cooling: Addr -> bool)
    requires OfFamily(addresses, V4) != [] && OfFamily(addresses, V6) != []
    ensures var r := Interleave(addresses, preferred);
            var s := Schedule(r, cooling);
      && |r| >= 2 && |s| >= 2 && s[0].addr == r[0] && s[1].addr == r[1]
      && s[0].addr.family != s[1].addr.family
      && (forall k :: 0 <= k < 2 ==> s[k].delay == if cooling(s[k].addr) then STAGGER * 2.0 else 0.0)
  {
    FirstTwoDiffer(addresses, preferred);
    FirstTwoStart(Interleave(addresses, preferred), cooling);
  }

  lemma FirstTwoStart(r: seq<Addr>, cooling: Addr -> bool)
    requires |r| >= 2 && r[0].family != r[1].family
    ensures var s := Schedule(r, cooling);
      && |s| >= 2 && s[0].addr == r[0] && s[1].addr == r[1]
      && (forall k :: 0 <= k < 2 ==> s[k].delay == if cooling(s[k].addr) then STAGGER * 2.0 else 0.0)
  {
    var sel := r[..Min(|r|, PARALLEL_CONNECT)];
    DelaysInOrder(sel, {}, 0, cooling, 0);
    DelaysInOrder(sel, {}, 0, cooling, 1);
  }
}
