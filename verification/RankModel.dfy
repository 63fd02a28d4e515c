/** Ranking of managed proxies by their last complete probe (`proxy_performance.py`).
    Latencies are reals; rounding is half to even, as Python's `round`. */
module RankModel {
  import opened Common

  type Id = string

  const CLOUDFLARE := "https://cloudflare.com"
  const GOOGLE := "https://google.com"
  const MAX_METRIC_MS := 120000.0
  const CAP_MS := 30000.0

  /** Latencies are `None` where the probe reported no number. */
  datatype Check = Check(target: string, ok: bool, total: Option<real>, connect: Option<real>, request: Option<real>)

  /** Entries of `checks` that are not dictionaries are `None`. */
  datatype Result = Result(status: string, checks: seq<Option<Check>>, samples: int, successes: int)

  datatype Field = Total | Connect | Request

  function Get(c: Check, f: Field): Option<real>
  {
    match f
    case Total => c.total
    case Connect => c.connect
    case Request => c.request
  }

  // --------------------------------------------------------------------- rounding

  function RoundEven(x: real): int
  {
    var f := x.Floor;
    var d := x - f as real;
    if d < 0.5 || (d == 0.5 && f % 2 == 0) then f else f + 1
  }

  lemma RoundMonotone(x: real, y: real)
    requires x <= y
    ensures RoundEven(x) <= RoundEven(y)
  {
  }

  /** `round(x, 3)`. */
  function Milli(x: real): real
  {
    RoundEven(x * 1000.0) as real / 1000.0
  }

  lemma MilliMonotone(x: real, y: real)
    requires x <= y
    ensures Milli(x) <= Milli(y)
  {
    RoundMonotone(x * 1000.0, y * 1000.0);
  }

  lemma MilliWithin(x: real)
    requires 0.0 <= x <= MAX_METRIC_MS
    ensures 0.0 <= Milli(x) <= MAX_METRIC_MS
  {
    MilliMonotone(0.0, x);
    MilliMonotone(x, MAX_METRIC_MS);
  }

  // --------------------------------------------------------------------- averages

  function Bounded(v: Option<real>): Option<real>
  {
    if v.None? || v.value < 0.0 || v.value > MAX_METRIC_MS then None else Some(Milli(v.value))
  }

  /** Usable latencies of successful checks. */
  function Values(checks: seq<Option<Check>>, f: Field): seq<real>
  {
    if checks == [] then []
    else
      var c := checks[0];
      (if c.Some? && c.value.ok && Bounded(Get(c.value, f)).Some? then [Bounded(Get(c.value, f)).value] else [])
      + Values(checks[1..], f)
  }

  function Sum(xs: seq<real>): real
  {
    if xs == [] then 0.0 else xs[0] + Sum(xs[1..])
  }

  function Mean(sum: real, n: nat): real
    requires n > 0
  {
    sum / n as real
  }

  function Average(r: Result, f: Field): real
  {
    var vs := Values(r.checks, f);
    if vs == [] then MAX_METRIC_MS else Milli(Mean(Sum(vs), |vs|))
  }

  lemma {:induction false} ValuesWithin(checks: seq<Option<Check>>, f: Field)
    ensures 0.0 <= Sum(Values(checks, f)) <= |Values(checks, f)| as real * MAX_METRIC_MS
  {
    if checks != [] {
      ValuesWithin(checks[1..], f);
      var rest := Values(checks[1..], f);
      var c := checks[0];
      if c.Some? && c.value.ok && Bounded(Get(c.value, f)).Some? {
        var v := Bounded(Get(c.value, f)).value;
        MilliWithin(Get(c.value, f).value);
        assert Values(checks, f) == [v] + rest;
        assert ([v] + rest)[1..] == rest;
      } else {
        assert Values(checks, f) == rest;
      }
    }
  }

  lemma QuotientMonotone(x: real, y: real, n: real)
    requires x <= y && n > 0.0
    ensures x / n <= y / n
  {
  }

  lemma MeanWithin(sum: real, n: nat)
    requires n > 0 && 0.0 <= sum <= n as real * MAX_METRIC_MS
    ensures 0.0 <= Mean(sum, n) <= MAX_METRIC_MS
  {
    QuotientMonotone(0.0, sum, n as real);
    QuotientMonotone(sum, n as real * MAX_METRIC_MS, n as real);
  }

  /** An average is a latency in range, whatever the probe reported. */
  lemma AverageWithin(r: Result, f: Field)
    ensures 0.0 <= Average(r, f) <= MAX_METRIC_MS
  {
    var vs := Values(r.checks, f);
    if vs != [] {
      ValuesWithin(r.checks, f);
      MeanWithin(Sum(vs), |vs|);
      MilliWithin(Mean(Sum(vs), |vs|));
    }
  }

  // ----------------------------------------------------------------------- health

  predicate Healthy(r: Option<Result>)
  {
    && r.Some? && r.value.status == "healthy"
    && (set c | c in r.value.checks && c.Some? :: c.value.target) == {CLOUDFLARE, GOOGLE}
    && forall c :: c in r.value.checks && c.Some? ==> c.value.ok
  }

  // ------------------------------------------------------------------------ score

  function Samples(r: Result): int { Max(1, Min(r.samples, 10000)) }

  function Successes(r: Result): int { Max(0, Min(r.successes, Samples(r))) }

  function Ratio(a: int, b: int): real
    requires b > 0
  {
    a as real / b as real
  }

  function Capped(x: real): real { if x <= CAP_MS then x else CAP_MS }

  function Score(r: Result): int
  {
    RoundEven(
      Ratio(Successes(r), Samples(r)) * 1000000.0
      - Capped(Average(r, Total)) * 20.0
      - Capped(Average(r, Connect)) * 5.0
      - Capped(Average(r, Request)) * 2.0)
  }

  lemma RatioMonotone(a: int, a': int, b: int)
    requires a <= a' && b > 0
    ensures Ratio(a, b) <= Ratio(a', b)
  {
    QuotientMonotone(a as real, a' as real, b as real);
  }

  /** At a fixed number of samples, more successes and lower latencies never lower
      the score. */
  lemma ScoreMonotone(r: Result, better: Result)
    requires r.samples == better.samples && r.successes <= better.successes
    requires forall f :: Average(r, f) >= Average(better, f)
    ensures Score(r) <= Score(better)
  {
    RatioMonotone(Successes(r), Successes(better), Samples(r));
    assert Average(r, Total) >= Average(better, Total);
    assert Average(r, Connect) >= Average(better, Connect);
    assert Average(r, Request) >= Average(better, Request);
    RoundMonotone(
      Ratio(Successes(r), Samples(r)) * 1000000.0
      - Capped(Average(r, Total)) * 20.0
      - Capped(Average(r, Connect)) * 5.0
      - Capped(Average(r, Request)) * 2.0,
      Ratio(Successes(better), Samples(better)) * 1000000.0
      - Capped(Average(better, Total)) * 20.0
      - Capped(Average(better, Connect)) * 5.0
      - Capped(Average(better, Request)) * 2.0);
  }

  lemma RatioEnds(n: int)
    requires n > 0
    ensures Ratio(0, n) == 0.0 && Ratio(n, n) == 1.0
  {
  }

  lemma ScoreNear(x: real, a: real, b: real, c: real)
    requires 0.0 <= x <= 1.0 && 0.0 <= a <= CAP_MS && 0.0 <= b <= CAP_MS && 0.0 <= c <= CAP_MS
    ensures var y := x * 1000000.0 - a * 20.0 - b * 5.0 - c * 2.0;
      -810000 <= RoundEven(y) <= 1000000 && (x == 1.0 ==> RoundEven(y) >= 190000)
  {
    var y := x * 1000000.0 - a * 20.0 - b * 5.0 - c * 2.0;
    RoundMonotone(-810000.0, y);
    RoundMonotone(y, 1000000.0);
    if x == 1.0 { RoundMonotone(190000.0, y); }
  }

  /** The range of the score; a proxy that never failed stays well above zero however
      slow it is. */
  lemma ScoreWithin(r: Result)
    ensures -810000 <= Score(r) <= 1000000
    ensures Successes(r) == Samples(r) ==> Score(r) >= 190000
  {
    RatioMonotone(0, Successes(r), Samples(r));
    RatioMonotone(Successes(r), Samples(r), Samples(r));
    RatioEnds(Samples(r));
    AverageWithin(r, Total);
    AverageWithin(r, Connect);
    AverageWithin(r, Request);
    ScoreNear(Ratio(Successes(r), Samples(r)),
      Capped(Average(r, Total)), Capped(Average(r, Connect)), Capped(Average(r, Request)));
  }

  // ------------------------------------------------------------------------ order

  /** The tuple compared by `min`, with the score unnegated. */
  datatype Key = Key(score: int, total: real, connect: real, request: real, id: Id)

  predicate TextLe(s: string, t: string)
  {
    s == [] || (t != [] && (s[0] < t[0] || (s[0] == t[0] && TextLe(s[1..], t[1..]))))
  }

  predicate KeyLe(a: Key, b: Key)
  {
    a.score > b.score || (a.score == b.score &&
    (a.total < b.total || (a.total == b.total &&
    (a.connect < b.connect || (a.connect == b.connect &&
    (a.request < b.request || (a.request == b.request &&
    TextLe(a.id, b.id))))))))
  }

  lemma {:induction false} TextOrder(s: string, t: string)
    ensures TextLe(s, t) || TextLe(t, s)
    ensures TextLe(s, t) && TextLe(t, s) ==> s == t
  {
    if s != [] && t != [] {
      TextOrder(s[1..], t[1..]);
      if s[0] == t[0] && s[1..] == t[1..] { assert s == [s[0]] + s[1..] && t == [t[0]] + t[1..]; }
    }
  }

  lemma {:induction false} TextTransitive(s: string, t: string, u: string)
    requires TextLe(s, t) && TextLe(t, u)
    ensures TextLe(s, u)
  {
    if s != [] && s[0] == t[0] && t[0] == u[0] { TextTransitive(s[1..], t[1..], u[1..]); }
  }

  lemma KeyOrder(a: Key, b: Key)
    ensures KeyLe(a, b) || KeyLe(b, a)
    ensures KeyLe(a, b) && KeyLe(b, a) ==> a == b
  {
    TextOrder(a.id, b.id);
  }

  lemma KeyTransitive(a: Key, b: Key, c: Key)
    requires KeyLe(a, b) && KeyLe(b, c)
    ensures KeyLe(a, c)
  {
    if TextLe(a.id, b.id) && TextLe(b.id, c.id) { TextTransitive(a.id, b.id, c.id); }
  }

  // ----------------------------------------------------------------------- choice

  function KeyOf(id: Id, r: Result): Key
  {
    Key(Score(r), Average(r, Total), Average(r, Connect), Average(r, Request), id)
  }

  predicate Eligible(id: Id, results: map<Id, Result>)
  {
    Healthy(Lookup(results, id))
  }

  function Candidates(ids: seq<Id>, results: map<Id, Result>): seq<Key>
  {
    if ids == [] then []
    else
      var last := ids[|ids| - 1];
      Candidates(ids[..|ids| - 1], results)
      + (if Eligible(last, results) then [KeyOf(last, results[last])] else [])
  }

  type Order = (Key, Key) -> bool

  /** The first of the least elements, as `min` finds it. */
  function Least(le: Order, ks: seq<Key>): Key
    requires ks != []
  {
    if |ks| == 1 then ks[0]
    else
      var front, last := Least(le, ks[..|ks| - 1]), ks[|ks| - 1];
      if le(front, last) then front else last
  }

  function Choose(ids: seq<Id>, results: map<Id, Result>): Option<Id>
  {
    var ks := Candidates(ids, results);
    if ks == [] then None else Some(Least(KeyLe, ks).id)
  }

  lemma {:induction false} CandidateMembers(ids: seq<Id>, results: map<Id, Result>, k: Key)
    ensures k in Candidates(ids, results)
       <==> k.id in ids && Eligible(k.id, results) && k == KeyOf(k.id, results[k.id])
    decreases |ids|
  {
    if ids != [] {
      var front, last := ids[..|ids| - 1], ids[|ids| - 1];
      CandidateMembers(front, results, k);
      assert ids == front + [last];
    }
  }

  ghost predicate IsOrder(le: Order)
  {
    && (forall a, b :: le(a, b) || le(b, a))
    && (forall a, b, c :: le(a, b) && le(b, c) ==> le(a, c))
  }

  lemma KeysAreOrdered()
    ensures IsOrder(KeyLe)
  {
    forall a, b ensures KeyLe(a, b) || KeyLe(b, a) { KeyOrder(a, b); }
    forall a, b, c | KeyLe(a, b) && KeyLe(b, c) ensures KeyLe(a, c) { KeyTransitive(a, b, c); }
  }

  lemma {:induction false} LeastIsLeast(le: Order, ks: seq<Key>)
    requires IsOrder(le) && ks != []
    ensures Least(le, ks) in ks
    ensures forall k :: k in ks ==> le(Least(le, ks), k)
    decreases |ks|
  {
    var front, last := ks[..|ks| - 1], ks[|ks| - 1];
    assert ks == front + [last];
    assert le(last, last);
    if front != [] { LeastIsLeast(le, front); }
  }

  /** What the ranking promises, without mentioning any order of visiting. */
  ghost predicate Best(p: Id, ids: seq<Id>, results: map<Id, Result>)
  {
    && p in ids && Eligible(p, results)
    && forall q :: q in ids && Eligible(q, results) ==> KeyLe(KeyOf(p, results[p]), KeyOf(q, results[q]))
  }

  /** A proxy is chosen exactly when some proxy is healthy, and it is the best one. */
  lemma ChosenIsBest(ids: seq<Id>, results: map<Id, Result>)
    ensures Choose(ids, results).Some? <==> exists q :: q in ids && Eligible(q, results)
    ensures forall p :: Choose(ids, results) == Some(p) <==> Best(p, ids, results)
  {
    var ks := Candidates(ids, results);
    if ks == [] {
      forall q | q in ids ensures !Eligible(q, results) {
        if Eligible(q, results) { CandidateMembers(ids, results, KeyOf(q, results[q])); }
      }
    } else {
      KeysAreOrdered();
      LeastIsLeast(KeyLe, ks);
      var k := Least(KeyLe, ks);
      CandidateMembers(ids, results, k);
      forall q | q in ids && Eligible(q, results) ensures KeyLe(k, KeyOf(q, results[q])) {
        CandidateMembers(ids, results, KeyOf(q, results[q]));
      }
      forall p | Best(p, ids, results) ensures p == k.id {
        KeyOrder(k, KeyOf(p, results[p]));
      }
    }
  }

  /** Only the set of healthy proxies and their own results matter: not the order,
      not repetitions, not unhealthy proxies, not results of other proxies. */
  lemma ChoiceIsCanonical(ids: seq<Id>, results: map<Id, Result>, ids': seq<Id>, results': map<Id, Result>)
    requires forall q :: q in ids && Eligible(q, results) <==> q in ids' && Eligible(q, results')
    requires forall q :: q in ids && Eligible(q, results) ==> Lookup(results, q) == Lookup(results', q)
    ensures Choose(ids, results) == Choose(ids', results')
  {
    ChosenIsBest(ids, results);
    ChosenIsBest(ids', results');
    if Choose(ids, results).Some? {
      assert Best(Choose(ids, results).value, ids', results');
    }
  }

  /** Dropping any candidates but the chosen one leaves the choice alone. */
  lemma ChoiceSurvivesRemoval(ids: seq<Id>, fewer: seq<Id>, results: map<Id, Result>)
    requires Choose(ids, results).Some? && Choose(ids, results).value in fewer
    requires forall q :: q in fewer ==> q in ids
    ensures Choose(fewer, results) == Choose(ids, results)
  {
    ChosenIsBest(ids, results);
    ChosenIsBest(fewer, results);
    assert Best(Choose(ids, results).value, fewer, results);
  }

  lemma RaisedKey(p: Id, r: Result, successes: int)
    requires successes >= r.successes
    ensures KeyLe(KeyOf(p, r.(successes := successes)), KeyOf(p, r))
  {
    ScoreMonotone(r, r.(successes := successes));
    TextOrder(p, p);
  }

  /** Further successes of the chosen proxy never cost it the choice. */
  lemma SuccessKeepsTheChoice(ids: seq<Id>, results: map<Id, Result>, p: Id, successes: int)
    requires Choose(ids, results) == Some(p)
    requires p in results && successes >= results[p].successes
    ensures Choose(ids, results[p := results[p].(successes := successes)]) == Some(p)
  {
    var r := results[p];
    var r' := r.(successes := successes);
    var results' := results[p := r'];
    ChosenIsBest(ids, results);
    ChosenIsBest(ids, results');
    RaisedKey(p, r, successes);
    KeyOrder(KeyOf(p, r'), KeyOf(p, r'));
    forall q | q in ids && Eligible(q, results') ensures KeyLe(KeyOf(p, r'), KeyOf(q, results'[q])) {
      if q != p {
        assert results'[q] == results[q];
        KeyTransitive(KeyOf(p, r'), KeyOf(p, r), KeyOf(q, results[q]));
      }
    }
    assert Best(p, ids, results');
  }
}
