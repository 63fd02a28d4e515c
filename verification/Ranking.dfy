/** The ranking loop, and publishing its choice for a country. */
module Ranking {
  import opened Common
  import opened RankModel

  method PreferredProxyId(recordIds: seq<Id>, results: map<Id, Result>) returns (chosen: Option<Id>)
    ensures chosen == Choose(recordIds, results)
  {
    var candidates: seq<Key> := [];
    for i := 0 to |recordIds|
      invariant candidates == Candidates(recordIds[..i], results)
    {
      var id := recordIds[i];
      assert recordIds[..i + 1][..i] == recordIds[..i];
      if Eligible(id, results) { candidates := candidates + [KeyOf(id, results[id])]; }
    }
    assert recordIds[..|recordIds|] == recordIds;
    if candidates == [] { return None; }
    var least := candidates[0];
    for i := 1 to |candidates|
      invariant least == Least(KeyLe, candidates[..i])
    {
      assert candidates[..i + 1][..i] == candidates[..i];
      if !KeyLe(least, candidates[i]) { least := candidates[i]; }
    }
    assert candidates[..|candidates|] == candidates;
    return Some(least.id);
  }

  class Preferences {
    var preferred: map<string, Id>
    var pending: set<string>

    constructor ()
      ensures preferred == map[] && pending == {}
    {
      preferred, pending := map[], {};
    }

    /** `_select_preferred_for_country`: a scan of a record set that has changed since
        publishes nothing and asks for another scan. */
    method Publish(code: string, current: seq<Id>, expected: set<Id>, tests: map<Id, Result>)
      modifies this
      ensures var complete := (set id | id in current) == expected;
        && (!complete ==> preferred == old(preferred) && pending == old(pending) + {code})
        && (complete ==>
              && pending == old(pending)
              && (forall c :: c != code ==> Lookup(preferred, c) == Lookup(old(preferred), c))
              && Lookup(preferred, code) ==
                   (if Choose(current, tests) == Some("") then None else Choose(current, tests)))
    {
      if (set id | id in current) != expected {
        pending := pending + {code};
        return;
      }
      var chosen := PreferredProxyId(current, tests);
      if chosen.Some? && chosen.value != "" {
        preferred := preferred[code := chosen.value];
      } else {
        preferred := preferred - {code};
      }
    }
  }
}
