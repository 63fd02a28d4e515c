/** Edits of single configs and of groups whose sections interleave: `main.py` takes the
    locks of the two dictionaries one after the other, so other edits run in between. */
module GroupRaces {
  import opened Common
  import opened GroupModel

  /** Between two sections: checked with both sides still to do (`set_link_sub`), its
      lists done, its config set first (`update_link`, `make_link`), or its config gone
      (`remove_link`). */
  datatype Phase = Checked | Listed | Claimed | Removed

  datatype Errand = Errand(was: Option<SubId>, target: Option<SubId>, phase: Phase)

  /** At most one edit of a config is under way. */
  datatype Desk = Desk(r: Registry, busy: map<LinkId, Errand>)

  /** The group whose list has to hold the config right now. */
  function Home(d: Desk, l: LinkId): Option<SubId>
  {
    if l in d.busy then (if d.busy[l].phase.Listed? then d.busy[l].target else d.busy[l].was)
    else if l in d.r.links then d.r.links[l]
    else None
  }

  ghost predicate ListsOk(d: Desk)
  {
    forall g :: g in d.r.subs ==>
      NoDup(d.r.subs[g]) && forall l :: l in d.r.subs[g] <==> Home(d, l) == Some(g)
  }

  /** A config set first still names its target, or was orphaned with that group. */
  predicate EditOk(d: Desk, l: LinkId)
    requires l in d.busy
  {
    var e := d.busy[l];
    && (e.phase.Removed? <==> l !in d.r.links)
    && (e.phase.Removed? ==> e.target.None?)
    && (e.phase.Claimed? ==>
          d.r.links[l] == e.target || (d.r.links[l].None? && e.target.Some? && e.target.value !in d.r.subs))
  }

  ghost predicate Inv(d: Desk)
  {
    ListsOk(d) && forall l :: l in d.busy ==> EditOk(d, l)
  }

  // --------------------------------------------------------------------- sections

  datatype Step =
    | BeginMove(l: LinkId, target: Option<SubId>)      // `set_link_sub`, its checks
    | BeginUpdate(l: LinkId, target: Option<SubId>)    // `update_link`, config side
    | BeginMake(l: LinkId, target: Option<SubId>)
    | BeginRemove(l: LinkId)
    | Lists(l: LinkId)                                 // the section over the groups
    | Config(l: LinkId)                                // `set_link_sub`, config side
    | Create(s: SubId)
    | Drop(s: SubId)                                   // `delete_sub`, its group side
    | OrphanOf(s: SubId)                               // and its config side

  function Begin(d: Desk, l: LinkId, links: map<LinkId, Option<SubId>>, e: Errand): Desk
  {
    Desk(d.r.(links := links), d.busy[l := e])
  }

  function MoveLists(r: Registry, l: LinkId, was: Option<SubId>, target: Option<SubId>): Registry
  {
    r.(subs := Attach(Detach(r.subs, was, l), target, l))
  }

  function Apply(d: Desk, step: Step): Desk
  {
    var links := d.r.links;
    match step
    case BeginMove(l, t) => if l in links then Begin(d, l, links, Errand(links[l], t, Checked)) else d
    case BeginUpdate(l, t) => if l in links then Begin(d, l, links[l := t], Errand(links[l], t, Claimed)) else d
    case BeginMake(l, t) => if l in links then d else Begin(d, l, links[l := t], Errand(None, t, Claimed))
    case BeginRemove(l) => if l in links then Begin(d, l, links - {l}, Errand(links[l], None, Removed)) else d
    case Lists(l) =>
      if l !in d.busy || d.busy[l].phase.Listed? then d
      else
        var e := d.busy[l];
        var r := MoveLists(d.r, l, e.was, e.target);
        if e.phase.Checked? then Desk(r, d.busy[l := e.(phase := Listed)]) else Desk(r, d.busy - {l})
    case Config(l) =>
      if l !in d.busy || !d.busy[l].phase.Listed? then d
      else Desk(d.r.(links := links[l := d.busy[l].target]), d.busy - {l})
    case Create(s) => d.(r := d.r.(subs := d.r.subs[s := []]))
    case Drop(s) => d.(r := d.r.(subs := d.r.subs - {s}))
    case OrphanOf(s) => d.(r := d.r.(links := Orphan(links, s)))
  }

  /** A name that nothing knows. */
  ghost predicate Unused(d: Desk, s: SubId)
  {
    && s !in d.r.subs
    && (forall l :: l in d.r.links ==> d.r.links[l] != Some(s))
    && (forall l :: l in d.busy ==> d.busy[l].was != Some(s) && d.busy[l].target != Some(s))
  }

  /** No two edits of one config overlap; new groups have new names; configs are orphaned
      after their group is gone. */
  ghost predicate Allowed(d: Desk, step: Step)
  {
    match step
    case BeginMove(l, _) => l !in d.busy
    case BeginUpdate(l, _) => l !in d.busy
    case BeginMake(l, _) => l !in d.busy
    case BeginRemove(l) => l !in d.busy
    case Create(s) => Unused(d, s)
    case OrphanOf(s) => s !in d.r.subs
    case _ => true
  }

  // ------------------------------------------------------------------------ proofs

  /** What moving one config between lists does to one list. */
  lemma MoveListsMembers(r: Registry, l: LinkId, was: Option<SubId>, target: Option<SubId>, g: SubId)
    requires g in r.subs && NoDup(r.subs[g])
    ensures var t := MoveLists(r, l, was, target);
      && t.subs.Keys == r.subs.Keys && NoDup(t.subs[g])
      && (l in t.subs[g] <==> target == Some(g) || (l in r.subs[g] && was != Some(g)))
      && (forall k :: k != l ==> (k in t.subs[g] <==> k in r.subs[g]))
  {
    RemoveFirstMembers(r.subs[g], l);
  }

  /** It is on its target's list and off all others, if it was where it should be. */
  lemma MoveListsEffect(r: Registry, l: LinkId, was: Option<SubId>, target: Option<SubId>, g: SubId)
    requires g in r.subs && NoDup(r.subs[g]) && (l in r.subs[g] <==> was == Some(g))
    ensures var t := MoveLists(r, l, was, target);
      && t.subs.Keys == r.subs.Keys && NoDup(t.subs[g])
      && (l in t.subs[g] <==> target == Some(g))
      && (forall k :: k != l ==> (k in t.subs[g] <==> k in r.subs[g]))
  {
    MoveListsMembers(r, l, was, target, g);
  }

  lemma ListsKeep(d: Desk, l: LinkId)
    requires Inv(d) && l in d.busy && !d.busy[l].phase.Listed?
    ensures Inv(Apply(d, Lists(l)))
  {
    var e, t := d.busy[l], Apply(d, Lists(l));
    assert EditOk(d, l);
    forall g | g in t.r.subs
      ensures NoDup(t.r.subs[g]) && forall k :: k in t.r.subs[g] <==> Home(t, k) == Some(g)
    {
      assert Home(d, l) == e.was;
      MoveListsEffect(d.r, l, e.was, e.target, g);
      assert forall k :: k != l ==> Home(t, k) == Home(d, k);
      assert Home(t, l) == Some(g) <==> e.target == Some(g);
    }
    forall k | k in t.busy ensures EditOk(t, k) { assert EditOk(d, k); }
  }

  lemma BeginKeeps(d: Desk, l: LinkId, links: map<LinkId, Option<SubId>>, e: Errand)
    requires Inv(d) && l !in d.busy && !e.phase.Listed?
    requires forall k :: k != l ==> Lookup(links, k) == Lookup(d.r.links, k)
    requires e.was == (if l in d.r.links then d.r.links[l] else None)
    requires EditOk(Begin(d, l, links, e), l)
    ensures Inv(Begin(d, l, links, e))
  {
    var t := Begin(d, l, links, e);
    assert forall k :: k in links <==> Lookup(links, k).Some?;
    forall k ensures Home(t, k) == Home(d, k) {
      if k != l { assert Lookup(links, k) == Lookup(d.r.links, k); }
    }
    forall k | k in t.busy ensures EditOk(t, k) {
      if k != l { assert EditOk(d, k) && Lookup(links, k) == Lookup(d.r.links, k); }
    }
  }

  lemma ConfigKeeps(d: Desk, l: LinkId)
    requires Inv(d) && l in d.busy && d.busy[l].phase.Listed?
    ensures Inv(Apply(d, Config(l)))
  {
    var t := Apply(d, Config(l));
    assert EditOk(d, l);
    assert forall k :: Home(t, k) == Home(d, k);
    forall k | k in t.busy ensures EditOk(t, k) { assert EditOk(d, k); }
  }

  lemma GroupStepKeeps(d: Desk, step: Step)
    requires Inv(d) && Allowed(d, step) && (step.Create? || step.Drop? || step.OrphanOf?)
    ensures Inv(Apply(d, step))
  {
    var t := Apply(d, step);
    forall g | g in t.r.subs
      ensures NoDup(t.r.subs[g]) && forall l :: l in t.r.subs[g] <==> Home(t, l) == Some(g)
    {
      if g in d.r.subs {
        assert NoDup(d.r.subs[g]) && forall l :: l in d.r.subs[g] <==> Home(d, l) == Some(g);
      }
    }
    forall l | l in t.busy ensures EditOk(t, l) { assert EditOk(d, l); }
  }

  /** Every section keeps both sides consistent with the edits under way. */
  lemma SectionKeepsInv(d: Desk, step: Step)
    requires Inv(d) && Allowed(d, step)
    ensures Inv(Apply(d, step))
  {
    var links := d.r.links;
    match step
    case BeginMove(l, t) => if l in links { BeginKeeps(d, l, links, Errand(links[l], t, Checked)); }
    case BeginUpdate(l, t) => if l in links { BeginKeeps(d, l, links[l := t], Errand(links[l], t, Claimed)); }
    case BeginMake(l, t) => if l !in links { BeginKeeps(d, l, links[l := t], Errand(None, t, Claimed)); }
    case BeginRemove(l) => if l in links { BeginKeeps(d, l, links - {l}, Errand(links[l], None, Removed)); }
    case Lists(l) => if l in d.busy && !d.busy[l].phase.Listed? { ListsKeep(d, l); }
    case Config(l) => if l in d.busy && d.busy[l].phase.Listed? { ConfigKeeps(d, l); }
    case _ => GroupStepKeeps(d, step);
  }

  function Run(d: Desk, steps: seq<Step>): Desk
    decreases |steps|
  {
    if steps == [] then d else Run(Apply(d, steps[0]), steps[1..])
  }

  ghost predicate AllowedRun(d: Desk, steps: seq<Step>)
    decreases |steps|
  {
    steps == [] || (Allowed(d, steps[0]) && AllowedRun(Apply(d, steps[0]), steps[1..]))
  }

  lemma {:induction false} RunKeepsInv(d: Desk, steps: seq<Step>)
    requires Inv(d) && AllowedRun(d, steps)
    ensures Inv(Run(d, steps))
    decreases |steps|
  {
    if steps != [] {
      SectionKeepsInv(d, steps[0]);
      RunKeepsInv(Apply(d, steps[0]), steps[1..]);
    }
  }

  /** With nothing under way the invariant is the agreement of both sides. */
  lemma IdleMeansAgreement(r: Registry)
    ensures Inv(Desk(r, map[])) <==> Agree(r)
  {
    var d := Desk(r, map[]);
    if Agree(r) {
      forall g | g in r.subs ensures NoDup(r.subs[g]) && forall l :: l in r.subs[g] <==> Home(d, l) == Some(g) {}
    } else if Inv(d) {
      forall g | g in r.subs
        ensures NoDup(r.subs[g]) && forall l :: l in r.subs[g] ==> l in r.links && r.links[l] == Some(g)
      {
        assert NoDup(r.subs[g]) && forall l :: l in r.subs[g] <==> Home(d, l) == Some(g);
      }
    }
  }

  /** However the sections of edits interleave, both sides agree again whenever no edit is
      under way, provided no two edits of one config overlapped. */
  lemma InterleavedEditsAgree(r: Registry, steps: seq<Step>)
    requires Agree(r) && AllowedRun(Desk(r, map[]), steps) && Run(Desk(r, map[]), steps).busy == map[]
    ensures Agree(Run(Desk(r, map[]), steps).r)
  {
    IdleMeansAgreement(r);
    RunKeepsInv(Desk(r, map[]), steps);
    var t := Run(Desk(r, map[]), steps);
    assert t == Desk(t.r, map[]);
    IdleMeansAgreement(t.r);
  }

  /** Run without interruption, the sections of an edit are the edit. */
  lemma UninterruptedIsWhole(r: Registry, l: LinkId, target: Option<SubId>)
    requires target.Some? ==> target.value in r.subs
    ensures var d := Desk(r, map[]);
      && (l in r.links ==>
            && Run(d, [BeginMove(l, target)] + ([Lists(l)] + ([Config(l)] + []))).r == MoveLink(r, l, target, true).0
            && Run(d, [BeginUpdate(l, target)] + ([Lists(l)] + [])).r == MoveLink(r, l, target, true).0
            && Run(d, [BeginRemove(l)] + ([Lists(l)] + [])).r == RemoveLink(r, l).0)
      && (l !in r.links ==> Run(d, [BeginMake(l, target)] + ([Lists(l)] + [])).r == MakeLink(r, l, target).0)
  {
    var d := Desk(r, map[]);
    RunThree(d, BeginMove(l, target), Lists(l), Config(l));
    RunTwo(d, BeginUpdate(l, target), Lists(l));
    RunTwo(d, BeginRemove(l), Lists(l));
    RunTwo(d, BeginMake(l, target), Lists(l));
  }

  lemma RunTwo(d: Desk, a: Step, b: Step)
    ensures Run(d, [a] + ([b] + [])) == Apply(Apply(d, a), b)
  {
    var s, u := [a] + ([b] + []), [b] + [];
    assert s[0] == a && s[1..] == u && u[0] == b && u[1..] == [];
    assert Run(Apply(d, a), u) == Run(Apply(Apply(d, a), b), u[1..]);
  }

  lemma RunThree(d: Desk, a: Step, b: Step, c: Step)
    ensures Run(d, [a] + ([b] + ([c] + []))) == Apply(Apply(Apply(d, a), b), c)
  {
    assert ([a] + ([b] + ([c] + [])))[1..] == [b] + ([c] + []);
    RunTwo(Apply(d, a), b, c);
  }

  function SetConfig(r: Registry, l: LinkId, target: Option<SubId>): Registry
  {
    r.(links := r.links[l := target])
  }

  /** Two moves of one config, both checked before either goes on: their list sections run
      one after the other, and then their config sections, `last` being the final one. */
  function Overlapped(
    r: Registry, l: LinkId, first: Option<SubId>, second: Option<SubId>, last: Option<SubId>): Registry
    requires l in r.links
  {
    SetConfig(MoveLists(MoveLists(r, l, r.links[l], first), l, r.links[l], second), l, last)
  }

  predicate Known(r: Registry, s: Option<SubId>) { s.Some? ==> s.value in r.subs }

  /** Whose list holds the config after both list sections. */
  lemma OverlappedLists(r: Registry, l: LinkId, first: Option<SubId>, second: Option<SubId>, g: SubId)
    requires Agree(r) && l in r.links && g in r.subs
    ensures var t := MoveLists(MoveLists(r, l, r.links[l], first), l, r.links[l], second);
      && t.subs.Keys == r.subs.Keys && NoDup(t.subs[g])
      && (l in t.subs[g] <==> second == Some(g) || (first == Some(g) && r.links[l] != Some(g)))
      && (forall k :: k != l ==> (k in t.subs[g] <==> k in r.subs[g]))
  {
    MoveListsMembers(r, l, r.links[l], first, g);
    MoveListsMembers(MoveLists(r, l, r.links[l], first), l, r.links[l], second, g);
  }

  /** When the move that touched the lists last also sets the config last, both sides
      agree exactly if the other move had no list to add to, had the same target, or
      moved the config to where it was. */
  lemma OverlapAgreesIff(r: Registry, l: LinkId, first: Option<SubId>, second: Option<SubId>)
    requires Agree(r) && l in r.links && Known(r, first) && Known(r, second)
    ensures Agree(Overlapped(r, l, first, second, second))
       <==> first.None? || first == second || first == r.links[l]
  {
    OverlapAgreesOn(r, l, first, second, second);
  }

  /** When the other one does, they agree exactly if both had the same target, or the one
      without a group came second and the first did not move the config to where it was. */
  lemma CrossedOverlapAgreesIff(r: Registry, l: LinkId, first: Option<SubId>, second: Option<SubId>)
    requires Agree(r) && l in r.links && Known(r, first) && Known(r, second)
    ensures Agree(Overlapped(r, l, first, second, first))
       <==> first == second || (second.None? && first != r.links[l])
  {
    OverlapAgreesOn(r, l, first, second, first);
  }

  lemma OverlapAgreesOn(r: Registry, l: LinkId, first: Option<SubId>, second: Option<SubId>, last: Option<SubId>)
    requires Agree(r) && l in r.links
    ensures Agree(Overlapped(r, l, first, second, last)) <==>
      forall g :: g in r.subs ==>
        (last == Some(g) <==> second == Some(g) || (first == Some(g) && r.links[l] != Some(g)))
  {
    var t := Overlapped(r, l, first, second, last);
    forall g | g in r.subs
      ensures g in t.subs && NoDup(t.subs[g])
      ensures l in t.subs[g] <==> second == Some(g) || (first == Some(g) && r.links[l] != Some(g))
      ensures forall k :: k != l ==> (k in t.subs[g] <==> k in r.subs[g])
    {
      OverlappedLists(r, l, first, second, g);
    }
    if r.subs != map[] {
      var g :| g in r.subs;
      OverlappedLists(r, l, first, second, g);
    }
    AgreeOnOne(r, t, l);
  }

  /** Two registries that differ in one config agree alike, up to that config. */
  lemma AgreeOnOne(r: Registry, t: Registry, l: LinkId)
    requires Agree(r) && l in r.links && l in t.links && t.links == r.links[l := t.links[l]]
    requires t.subs.Keys == r.subs.Keys
    requires forall g :: g in r.subs ==> NoDup(t.subs[g]) && forall k :: k != l ==> (k in t.subs[g] <==> k in r.subs[g])
    ensures Agree(t) <==> forall g :: g in t.subs ==> (l in t.subs[g] <==> t.links[l] == Some(g))
  {
    if forall g :: g in t.subs ==> (l in t.subs[g] <==> t.links[l] == Some(g)) {
      forall g | g in t.subs
        ensures NoDup(t.subs[g]) && forall k :: k in t.subs[g] ==> k in t.links && t.links[k] == Some(g)
      {
        assert NoDup(r.subs[g]) && forall k :: k in r.subs[g] ==> k in r.links && r.links[k] == Some(g);
      }
      forall k | k in t.links && t.links[k].Some? && t.links[k].value in t.subs
        ensures k in t.subs[t.links[k].value]
      {
        if k != l { assert k in r.subs[r.links[k].value]; }
      }
    }
  }

  /** The proviso is needed: two moves of an ungrouped config, both checked before either
      goes on, leave it on the lists of both targets. */
  lemma OverlappingMovesDisagree(l: LinkId, a: SubId, b: SubId)
    requires a != b
    ensures var r := Registry(map[l := None], map[a := [], b := []]);
      var listed := MoveLists(MoveLists(r, l, None, Some(a)), l, None, Some(b));
      var t := SetConfig(SetConfig(listed, l, Some(a)), l, Some(b));
      Agree(r) && l in t.subs[a] && l in t.subs[b] && t.links[l] == Some(b) && !Agree(t)
  {
    var r := Registry(map[l := None], map[a := [], b := []]);
    var listed := MoveLists(MoveLists(r, l, None, Some(a)), l, None, Some(b));
    assert r.subs[a] + [l] == [l] && r.subs[b] + [l] == [l];
    assert l in listed.subs[a] && l in listed.subs[b];
    var t := SetConfig(SetConfig(listed, l, Some(a)), l, Some(b));
    assert t.links[l] != Some(a) && l in t.subs[a];
  }
}
