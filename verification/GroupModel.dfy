/** The two-way relation between configs and subscription groups (`main.py`). A
    config names its group; a group lists its configs. */
module GroupModel {
  import opened Common

  type LinkId = string
  type SubId = string

  datatype Registry = Registry(links: map<LinkId, Option<SubId>>, subs: map<SubId, seq<LinkId>>)

  const EMPTY := Registry(map[], map[])

  /** Both sides tell the same story. A config may name a group that does not exist. */
  ghost predicate Agree(r: Registry)
  {
    && (forall s :: s in r.subs ==>
          NoDup(r.subs[s]) && forall l :: l in r.subs[s] ==> l in r.links && r.links[l] == Some(s))
    && (forall l :: l in r.links && r.links[l].Some? && r.links[l].value in r.subs ==>
          l in r.subs[r.links[l].value])
  }

  function Attach(subs: map<SubId, seq<LinkId>>, s: Option<SubId>, l: LinkId): map<SubId, seq<LinkId>>
  {
    if s.Some? && s.value in subs && l !in subs[s.value] then subs[s.value := subs[s.value] + [l]] else subs
  }

  function Detach(subs: map<SubId, seq<LinkId>>, s: Option<SubId>, l: LinkId): map<SubId, seq<LinkId>>
  {
    if s.Some? && s.value in subs && l in subs[s.value]
    then subs[s.value := RemoveFirst(subs[s.value], l)] else subs
  }

  // ------------------------------------------------------------------ operations

  function MakeLink(r: Registry, l: LinkId, s: Option<SubId>): (Registry, bool)
  {
    if l in r.links then (r, false)
    else (Registry(r.links[l := s], Attach(r.subs, s, l)), true)
  }

  function RemoveLink(r: Registry, l: LinkId): (Registry, bool)
  {
    if l !in r.links then (r, false)
    else (Registry(r.links - {l}, Detach(r.subs, r.links[l], l)), true)
  }

  function CreateGroup(r: Registry, s: SubId): Registry
  {
    r.(subs := r.subs[s := []])
  }

  /** `set_link_sub` and the group part of `update_link`: out of the old list, into
      the new one. `valid` is the transport's consent. */
  function MoveLink(r: Registry, l: LinkId, target: Option<SubId>, valid: bool): (Registry, bool)
  {
    if l !in r.links || (target.Some? && (target.value !in r.subs || !valid)) then (r, false)
    else (Registry(r.links[l := target], Attach(Detach(r.subs, r.links[l], l), target, l)), true)
  }

  function Orphan(links: map<LinkId, Option<SubId>>, s: SubId): map<LinkId, Option<SubId>>
  {
    map l | l in links :: if links[l] == Some(s) then None else links[l]
  }

  function DeleteGroup(r: Registry, s: SubId): (Registry, bool)
  {
    if s !in r.subs then (r, false)
    else (Registry(Orphan(r.links, s), r.subs - {s}), true)
  }

  /** Known ids, each once, in the order first named. */
  function Clean(raw: seq<LinkId>, links: map<LinkId, Option<SubId>>): seq<LinkId>
  {
    if raw == [] then []
    else
      var front := Clean(raw[..|raw| - 1], links);
      var l := raw[|raw| - 1];
      if l != "" && l in links && l !in front then front + [l] else front
  }

  function Without(ids: seq<LinkId>, gone: set<LinkId>): seq<LinkId>
  {
    if ids == [] then []
    else (if ids[0] in gone then [] else [ids[0]]) + Without(ids[1..], gone)
  }

  /** Configs that a bulk edit of `s` pulls out of group `t`. */
  function Pulled(r: Registry, s: SubId, ids: seq<LinkId>, t: SubId): set<LinkId>
    requires s in r.subs
  {
    set l | l in ids && l !in r.subs[s] && l in r.links && r.links[l] == Some(t)
  }

  function SetMembers(r: Registry, s: SubId, raw: seq<LinkId>, valid: bool): (Registry, bool)
  {
    if s !in r.subs || !valid then (r, false)
    else
      var ids := Clean(raw, r.links);
      var was := r.subs[s];
      (Registry(
         map l | l in r.links ::
           if l in ids && l !in was then Some(s)
           else if l in was && l !in ids && r.links[l] == Some(s) then None
           else r.links[l],
         map t | t in r.subs :: if t == s then ids else Without(r.subs[t], Pulled(r, s, ids, t))), true)
  }

  /** `assign_link_to_sub`, which looks at one list and one config only. */
  function Assign(r: Registry, s: SubId, l: LinkId, add: bool, valid: bool): (Registry, bool)
  {
    if s !in r.subs || (add && (l !in r.links || !valid)) then (r, false)
    else
      (Registry(
         if l in r.links then r.links[l := if add then Some(s) else None] else r.links,
         if add then Attach(r.subs, Some(s), l) else Detach(r.subs, Some(s), l)), true)
  }

  // ------------------------------------------------------------------------ facts

  lemma {:induction false} CleanIsClean(raw: seq<LinkId>, links: map<LinkId, Option<SubId>>)
    ensures NoDup(Clean(raw, links))
    ensures forall l :: l in Clean(raw, links) <==> l in raw && l != "" && l in links
    decreases |raw|
  {
    if raw != [] {
      var front, last := raw[..|raw| - 1], raw[|raw| - 1];
      CleanIsClean(front, links);
      assert raw == front + [last];
    }
  }

  lemma {:induction false} WithoutKeepsRest(ids: seq<LinkId>, gone: set<LinkId>)
    requires NoDup(ids)
    ensures NoDup(Without(ids, gone))
    ensures forall l :: l in Without(ids, gone) <==> l in ids && l !in gone
    decreases |ids|
  {
    if ids != [] {
      WithoutKeepsRest(ids[1..], gone);
    }
  }

  lemma AttachKeeps(r: Registry, l: LinkId, s: Option<SubId>)
    requires Agree(Registry(r.links - {l}, r.subs))
    requires forall t :: t in r.subs ==> l !in r.subs[t]
    ensures Agree(Registry(r.links[l := s], Attach(r.subs, s, l)))
  {
    var t := Registry(r.links[l := s], Attach(r.subs, s, l));
    var q := r.links - {l};
    forall g | g in t.subs
      ensures NoDup(t.subs[g]) && forall k :: k in t.subs[g] ==> k in t.links && t.links[k] == Some(g)
    {
      assert NoDup(r.subs[g]) && forall k :: k in r.subs[g] ==> k in q && q[k] == Some(g);
    }
    forall k | k in t.links && t.links[k].Some? && t.links[k].value in t.subs
      ensures k in t.subs[t.links[k].value]
    {
      if k != l { assert k in q && q[k] == t.links[k]; }
    }
  }

  lemma DetachKeeps(r: Registry, l: LinkId)
    requires Agree(r) && l in r.links
    ensures Agree(Registry(r.links - {l}, Detach(r.subs, r.links[l], l)))
    ensures forall t :: t in Detach(r.subs, r.links[l], l) ==> l !in Detach(r.subs, r.links[l], l)[t]
  {
    if r.links[l].Some? && r.links[l].value in r.subs {
      RemoveFirstMembers(r.subs[r.links[l].value], l);
    }
  }

  lemma MakeKeeps(r: Registry, l: LinkId, s: Option<SubId>)
    requires Agree(r)
    ensures Agree(MakeLink(r, l, s).0)
  {
    if l !in r.links {
      assert r.links - {l} == r.links;
      AttachKeeps(r, l, s);
    }
  }

  lemma RemoveKeeps(r: Registry, l: LinkId)
    requires Agree(r)
    ensures Agree(RemoveLink(r, l).0)
  {
    if l in r.links { DetachKeeps(r, l); }
  }

  lemma MoveKeeps(r: Registry, l: LinkId, target: Option<SubId>, valid: bool)
    requires Agree(r)
    ensures Agree(MoveLink(r, l, target, valid).0)
  {
    if MoveLink(r, l, target, valid).1 {
      DetachKeeps(r, l);
      var d := Registry(r.links, Detach(r.subs, r.links[l], l));
      AttachKeeps(d, l, target);
    }
  }

  lemma DeleteKeeps(r: Registry, s: SubId)
    requires Agree(r)
    ensures Agree(DeleteGroup(r, s).0)
    ensures forall l :: l in DeleteGroup(r, s).0.links && s in r.subs ==> DeleteGroup(r, s).0.links[l] != Some(s)
  {
  }

  /** A new group starts empty, so its name must not be one that a config already uses. */
  lemma CreateKeepsIff(r: Registry, s: SubId)
    requires Agree(r)
    ensures Agree(CreateGroup(r, s)) <==> forall l :: l in r.links ==> r.links[l] != Some(s)
  {
    var t := CreateGroup(r, s);
    if l :| l in r.links && r.links[l] == Some(s) {
      assert l !in t.subs[s];
    } else {
      forall l | l in t.links && t.links[l].Some? && t.links[l].value in t.subs
        ensures l in t.subs[t.links[l].value]
      {
        assert l in r.links;
      }
    }
  }

  lemma SetMembersLists(r: Registry, s: SubId, raw: seq<LinkId>, g: SubId)
    requires Agree(r) && s in r.subs && g in r.subs
    ensures var t := SetMembers(r, s, raw, true).0;
      NoDup(t.subs[g]) && forall l :: l in t.subs[g] ==> l in t.links && t.links[l] == Some(g)
  {
    CleanIsClean(raw, r.links);
    var ids := Clean(raw, r.links);
    if g != s { WithoutKeepsRest(r.subs[g], Pulled(r, s, ids, g)); }
  }

  lemma SetMembersLinks(r: Registry, s: SubId, raw: seq<LinkId>, l: LinkId)
    requires Agree(r) && s in r.subs && l in r.links
    ensures var t := SetMembers(r, s, raw, true).0;
      t.links[l].Some? && t.links[l].value in t.subs ==> l in t.subs[t.links[l].value]
  {
    CleanIsClean(raw, r.links);
    var ids := Clean(raw, r.links);
    var t := SetMembers(r, s, raw, true).0;
    if t.links[l].Some? && t.links[l].value in t.subs {
      var g := t.links[l].value;
      if g != s { WithoutKeepsRest(r.subs[g], Pulled(r, s, ids, g)); }
    }
  }

  /** A bulk edit gives the group exactly the wanted configs and keeps every other
      group consistent with what was pulled out of it. */
  lemma SetMembersKeeps(r: Registry, s: SubId, raw: seq<LinkId>, valid: bool)
    requires Agree(r)
    ensures Agree(SetMembers(r, s, raw, valid).0)
    ensures SetMembers(r, s, raw, valid).1 ==>
      var t := SetMembers(r, s, raw, valid).0;
      && t.links.Keys == r.links.Keys && t.subs.Keys == r.subs.Keys
      && (forall l :: l in t.subs[s] <==> l in raw && l != "" && l in r.links)
      && (forall l :: l in r.links && l !in t.subs[s] && r.links[l] != Some(s) ==> t.links[l] == r.links[l])
  {
    var (t, ok) := SetMembers(r, s, raw, valid);
    if ok {
      CleanIsClean(raw, r.links);
      forall g | g in t.subs
        ensures NoDup(t.subs[g]) && forall l :: l in t.subs[g] ==> l in t.links && t.links[l] == Some(g)
      {
        SetMembersLists(r, s, raw, g);
      }
      forall l | l in t.links && t.links[l].Some? && t.links[l].value in t.subs
        ensures l in t.subs[t.links[l].value]
      {
        SetMembersLinks(r, s, raw, l);
      }
    }
  }

  predicate Elsewhere(r: Registry, s: SubId, l: LinkId)
  {
    l in r.links && r.links[l].Some? && r.links[l].value != s && r.links[l].value in r.subs
  }

  /** Adding or removing one config through this entry point keeps both sides in
      agreement exactly when the config is not in some other group. */
  lemma AssignKeepsIff(r: Registry, s: SubId, l: LinkId, add: bool, valid: bool)
    requires Agree(r) && Assign(r, s, l, add, valid).1
    ensures Agree(Assign(r, s, l, add, valid).0) <==> !Elsewhere(r, s, l)
  {
    var t := Assign(r, s, l, add, valid).0;
    RemoveFirstMembers(r.subs[s], l);
    if Elsewhere(r, s, l) {
      var g := r.links[l].value;
      assert l in t.subs[g] && t.links[l] != Some(g);
    }
  }

  /** The concrete case: a config of group "a", assigned to "b", stays listed in "a". */
  lemma AssignLeavesOldEntry()
    ensures var r := Registry(map["l" := Some("a")], map["a" := ["l"], "b" := []]);
            var (t, ok) := Assign(r, "b", "l", true, true);
      && Agree(r) && ok && t == Registry(map["l" := Some("b")], map["a" := ["l"], "b" := ["l"]]) && !Agree(t)
  {
    var r := Registry(map["l" := Some("a")], map["a" := ["l"], "b" := []]);
    var t := Assign(r, "b", "l", true, true).0;
    assert r.subs["b"] + ["l"] == ["l"];
    assert "l" in t.subs["a"] && t.links["l"] != Some("a");
  }

  // ------------------------------------------------------------------------- runs

  datatype Edit =
    | Make(l: LinkId, s: Option<SubId>)
    | Remove(l: LinkId)
    | Create(s': SubId)
    | Move(l: LinkId, target: Option<SubId>, valid: bool)
    | Delete(s': SubId)
    | Set(s': SubId, raw: seq<LinkId>, valid: bool)
    | AssignOne(s': SubId, l: LinkId, add: bool, valid: bool)

  function Apply(r: Registry, e: Edit): Registry
  {
    match e
    case Make(l, s) => MakeLink(r, l, s).0
    case Remove(l) => RemoveLink(r, l).0
    case Create(s) => CreateGroup(r, s)
    case Move(l, target, valid) => MoveLink(r, l, target, valid).0
    case Delete(s) => DeleteGroup(r, s).0
    case Set(s, raw, valid) => SetMembers(r, s, raw, valid).0
    case AssignOne(s, l, add, valid) => Assign(r, s, l, add, valid).0
  }

  /** New group names are unused; single assignments do not reach into another group. */
  predicate Allowed(r: Registry, e: Edit)
  {
    match e
    case Create(s) => forall l :: l in r.links ==> r.links[l] != Some(s)
    case AssignOne(s, l, _, _) => !Elsewhere(r, s, l)
    case _ => true
  }

  predicate AllowedRun(r: Registry, edits: seq<Edit>)
    decreases |edits|
  {
    edits == [] || (Allowed(r, edits[0]) && AllowedRun(Apply(r, edits[0]), edits[1..]))
  }

  function Run(r: Registry, edits: seq<Edit>): Registry
    decreases |edits|
  {
    if edits == [] then r else Run(Apply(r, edits[0]), edits[1..])
  }

  lemma EditKeeps(r: Registry, e: Edit)
    requires Agree(r) && Allowed(r, e)
    ensures Agree(Apply(r, e))
  {
    match e
    case Make(l, s) => MakeKeeps(r, l, s);
    case Remove(l) => RemoveKeeps(r, l);
    case Create(s) => CreateKeepsIff(r, s);
    case Move(l, target, valid) => MoveKeeps(r, l, target, valid);
    case Delete(s) => DeleteKeeps(r, s);
    case Set(s, raw, valid) => SetMembersKeeps(r, s, raw, valid);
    case AssignOne(s, l, add, valid) => if Assign(r, s, l, add, valid).1 { AssignKeepsIff(r, s, l, add, valid); }
  }

  /** Both sides agree after every edit of every run. */
  lemma {:induction false} RunKeepsAgreement(r: Registry, edits: seq<Edit>)
    requires Agree(r) && AllowedRun(r, edits)
    ensures Agree(Run(r, edits))
    decreases |edits|
  {
    if edits != [] {
      EditKeeps(r, edits[0]);
      RunKeepsAgreement(Apply(r, edits[0]), edits[1..]);
    }
  }
}
