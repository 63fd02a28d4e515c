/** The panel's dictionaries and the entry points that edit both of them. */
module GroupPanel {
  import opened Common
  import opened GroupModel

  class Panel {
    var links: map<LinkId, Option<SubId>>
    var subs: map<SubId, seq<LinkId>>

    ghost function View(): Registry
      reads this
    {
      Registry(links, subs)
    }

    ghost predicate Valid()
      reads this
    {
      Agree(View())
    }

    constructor ()
      ensures Valid() && View() == EMPTY
    {
      links, subs := map[], map[];
    }

    method MakeLink(l: LinkId, s: Option<SubId>) returns (ok: bool)
      requires Valid()
      modifies this
      ensures Valid() && (View(), ok) == GroupModel.MakeLink(old(View()), l, s)
    {
      MakeKeeps(View(), l, s);
      if l in links { return false; }
      links := links[l := s];
      if s.Some? && s.value in subs {
        var ids := subs[s.value];
        if l !in ids { subs := subs[s.value := ids + [l]]; }
      }
      return true;
    }

    method RemoveLink(l: LinkId) returns (ok: bool)
      requires Valid()
      modifies this
      ensures Valid() && (View(), ok) == GroupModel.RemoveLink(old(View()), l)
    {
      RemoveKeeps(View(), l);
      if l !in links { return false; }
      var s := links[l];
      links := links - {l};
      if s.Some? && s.value in subs {
        var ids := subs[s.value];
        if l in ids { subs := subs[s.value := RemoveFirst(ids, l)]; }
      }
      return true;
    }

    /** Both sides keep agreeing exactly when no config already names the new group. */
    method CreateGroup(s: SubId)
      requires Valid()
      modifies this
      ensures View() == GroupModel.CreateGroup(old(View()), s)
      ensures Valid() <==> forall l :: l in old(links) ==> old(links)[l] != Some(s)
    {
      CreateKeepsIff(View(), s);
      subs := subs[s := []];
    }

    /** `set_link_sub`: lists first, then the config. */
    method SetLinkSub(l: LinkId, target: Option<SubId>, valid: bool) returns (ok: bool)
      requires Valid()
      modifies this
      ensures Valid() && (View(), ok) == MoveLink(old(View()), l, target, valid)
    {
      MoveKeeps(View(), l, target, valid);
      if l !in links { return false; }
      var was := links[l];
      if target.Some? && (target.value !in subs || !valid) { return false; }
      if was.Some? && was.value in subs && l in subs[was.value] {
        subs := subs[was.value := RemoveFirst(subs[was.value], l)];
      }
      if target.Some? && target.value in subs && l !in subs[target.value] {
        subs := subs[target.value := subs[target.value] + [l]];
      }
      links := links[l := target];
      return true;
    }

    /** The group part of `update_link`: config first, then the lists. */
    method UpdateLink(l: LinkId, target: Option<SubId>, valid: bool) returns (ok: bool)
      requires Valid()
      modifies this
      ensures Valid() && (View(), ok) == MoveLink(old(View()), l, target, valid)
    {
      MoveKeeps(View(), l, target, valid);
      if l !in links { return false; }
      if target.Some? && (target.value !in subs || !valid) { return false; }
      var was := links[l];
      links := links[l := target];
      if was.Some? && was.value in subs {
        var ids := subs[was.value];
        if l in ids { subs := subs[was.value := RemoveFirst(ids, l)]; }
      }
      if target.Some? && target.value in subs {
        var ids := subs[target.value];
        if l !in ids { subs := subs[target.value := ids + [l]]; }
      }
      return true;
    }

    /** `delete_sub` and `remove_sub_group`. */
    method DeleteGroup(s: SubId) returns (ok: bool)
      requires Valid()
      modifies this
      ensures Valid() && (View(), ok) == GroupModel.DeleteGroup(old(View()), s)
    {
      DeleteKeeps(View(), s);
      if s !in subs { return false; }
      subs := subs - {s};
      var todo := links.Keys;
      while todo != {}
        invariant todo <= links.Keys == old(links).Keys && subs == old(subs) - {s}
        invariant forall l :: l in links ==> links[l] == if l in todo then old(links)[l] else Orphan(old(links), s)[l]
        decreases todo
      {
        var l :| l in todo;
        if links[l] == Some(s) { links := links[l := None]; }
        todo := todo - {l};
      }
      assert links == Orphan(old(links), s);
      return true;
    }

    method CleanIds(raw: seq<LinkId>) returns (ids: seq<LinkId>)
      ensures ids == Clean(raw, links)
    {
      ids := [];
      for i := 0 to |raw|
        invariant ids == Clean(raw[..i], links)
      {
        var l := raw[i];
        assert raw[..i + 1][..i] == raw[..i];
        if l != "" && l in links && l !in ids { ids := ids + [l]; }
      }
      assert raw[..|raw|] == raw;
    }

    /** The config side of a bulk edit: releases what left, claims what came, and
        remembers where the latter came from. */
    method SyncLinks(s: SubId, was: seq<LinkId>, ids: seq<LinkId>) returns (moved: seq<(SubId, LinkId)>)
      requires forall l :: l in ids ==> l in links
      requires NoDup(ids)
      modifies this`links
      ensures links == map l | l in old(links) ::
                if l in ids && l !in was then Some(s)
                else if l in was && l !in ids && old(links)[l] == Some(s) then None
                else old(links)[l]
      ensures forall t, l :: (t, l) in moved <==>
                t != s && l in ids && l !in was && l in old(links) && old(links)[l] == Some(t)
    {
      ReleaseLinks(s, was, ids);
      moved := ClaimLinks(s, was, ids);
    }

    method ReleaseLinks(s: SubId, was: seq<LinkId>, ids: seq<LinkId>)
      modifies this`links
      ensures links == map l | l in old(links) ::
                if l in was && l !in ids && old(links)[l] == Some(s) then None else old(links)[l]
    {
      for i := 0 to |was|
        invariant links.Keys == old(links).Keys
        invariant forall l :: l in links ==>
          links[l] == if l in was[..i] && l !in ids && old(links)[l] == Some(s) then None else old(links)[l]
      {
        var l := was[i];
        assert was[..i + 1] == was[..i] + [l];
        if l !in ids && l in links && links[l] == Some(s) { links := links[l := None]; }
      }
      assert was[..|was|] == was;
    }

    method ClaimLinks(s: SubId, was: seq<LinkId>, ids: seq<LinkId>) returns (moved: seq<(SubId, LinkId)>)
      requires forall l :: l in ids ==> l in links
      requires NoDup(ids)
      modifies this`links
      ensures links == map l | l in old(links) :: if l in ids && l !in was then Some(s) else old(links)[l]
      ensures forall t, l :: (t, l) in moved <==>
                t != s && l in ids && l !in was && l in old(links) && old(links)[l] == Some(t)
    {
      moved := [];
      for i := 0 to |ids|
        invariant links.Keys == old(links).Keys
        invariant forall l :: l in links ==>
          links[l] == if l in ids[..i] && l !in was then Some(s) else old(links)[l]
        invariant forall t, l :: (t, l) in moved <==>
          t != s && l in ids[..i] && l !in was && l in old(links) && old(links)[l] == Some(t)
      {
        var l := ids[i];
        assert ids[..i + 1] == ids[..i] + [l] && l !in ids[..i];
        if l !in was {
          var prev := links[l];
          if prev.Some? && prev.value != s { moved := moved + [(prev.value, l)]; }
          links := links[l := Some(s)];
        }
      }
      assert ids[..|ids|] == ids;
    }

    /** Takes the moved configs off the lists of their former groups. */
    method DetachMoved(moved: seq<(SubId, LinkId)>)
      requires forall t :: t in subs ==> NoDup(subs[t])
      modifies this`subs
      ensures subs == map t | t in old(subs) :: Without(old(subs)[t], LeaversOf(moved, t))
    {
      forall t | t in subs ensures Without(subs[t], LeaversOf(moved[..0], t)) == subs[t] {
        WithoutNothing(subs[t], LeaversOf(moved[..0], t));
      }
      for i := 0 to |moved|
        invariant subs.Keys == old(subs).Keys
        invariant forall t :: t in subs ==> subs[t] == Without(old(subs)[t], LeaversOf(moved[..i], t))
      {
        var (prev, l) := moved[i];
        ghost var before := subs;
        forall t ensures LeaversOf(moved[..i + 1], t) == LeaversOf(moved[..i], t) + (if prev == t then {l} else {}) {
          LeaversAppend(moved, i, t);
        }
        if prev in subs {
          WithoutOneMore(old(subs)[prev], LeaversOf(moved[..i], prev), l);
          if l in subs[prev] { subs := subs[prev := RemoveFirst(subs[prev], l)]; }
        }
        forall t | t in subs ensures subs[t] == Without(old(subs)[t], LeaversOf(moved[..i + 1], t)) {
          if t != prev {
            assert subs[t] == before[t];
            assert LeaversOf(moved[..i + 1], t) == LeaversOf(moved[..i], t);
          }
        }
      }
      assert moved[..|moved|] == moved;
    }

    method UpdateSub(s: SubId, raw: seq<LinkId>, valid: bool) returns (ok: bool)
      requires Valid()
      modifies this
      ensures Valid() && (View(), ok) == SetMembers(old(View()), s, raw, valid)
    {
      SetMembersKeeps(View(), s, raw, valid);
      if s !in subs || !valid { return false; }
      EditMembers(s, raw);
      return true;
    }

    method EditMembers(s: SubId, raw: seq<LinkId>)
      requires s in subs && forall t :: t in subs ==> NoDup(subs[t])
      modifies this
      ensures View() == SetMembers(old(View()), s, raw, true).0
    {
      ghost var r := View();
      CleanIsClean(raw, links);
      var ids := CleanIds(raw);
      var was := subs[s];
      subs := subs[s := ids];
      var moved := SyncLinks(s, was, ids);
      DetachMoved(moved);
      ListsFollow(moved, r, s, ids);
    }

    /** Both sides keep agreeing exactly when the config is not in another group. */
    method AssignLink(s: SubId, l: LinkId, add: bool, valid: bool) returns (ok: bool)
      requires Valid()
      modifies this
      ensures (View(), ok) == Assign(old(View()), s, l, add, valid)
      ensures Valid() <==> !ok || !old(Elsewhere(View(), s, l))
    {
      if Assign(View(), s, l, add, valid).1 { AssignKeepsIff(View(), s, l, add, valid); }
      if s !in subs { return false; }
      if add && (l !in links || !valid) { return false; }
      var ids := subs[s];
      if add {
        if l !in ids { subs := subs[s := ids + [l]]; }
      } else {
        if l in ids { subs := subs[s := RemoveFirst(ids, l)]; }
      }
      if l in links { links := links[l := if add then Some(s) else None]; }
      return true;
    }
  }

  /** Taking the moved configs off every list is the group side of the bulk edit. */
  lemma ListsFollow(moved: seq<(SubId, LinkId)>, r: Registry, s: SubId, ids: seq<LinkId>)
    requires s in r.subs
    requires forall g, l :: (g, l) in moved <==>
      g != s && l in ids && l !in r.subs[s] && l in r.links && r.links[l] == Some(g)
    ensures (map t | t in r.subs[s := ids] :: Without(r.subs[s := ids][t], LeaversOf(moved, t)))
         == (map t | t in r.subs :: if t == s then ids else Without(r.subs[t], Pulled(r, s, ids, t)))
  {
    forall t | t in r.subs
      ensures Without(r.subs[s := ids][t], LeaversOf(moved, t))
           == if t == s then ids else Without(r.subs[t], Pulled(r, s, ids, t))
    {
      LeaversArePulled(moved, r, s, ids, t);
      if t == s { WithoutNothing(ids, {}); }
    }
  }

  function LeaversOf(moved: seq<(SubId, LinkId)>, t: SubId): set<LinkId>
  {
    set i | 0 <= i < |moved| && moved[i].0 == t :: moved[i].1
  }

  lemma {:induction false} WithoutNothing(ids: seq<LinkId>, gone: set<LinkId>)
    requires forall l :: l in ids ==> l !in gone
    ensures Without(ids, gone) == ids
    decreases |ids|
  {
    if ids != [] { WithoutNothing(ids[1..], gone); }
  }

  lemma RemoveFirstCons(head: LinkId, rest: seq<LinkId>, l: LinkId)
    ensures RemoveFirst([head] + rest, l) == if head == l then rest else [head] + RemoveFirst(rest, l)
  {
    var s := [head] + rest;
    assert s[0] == head && s[1..] == rest;
    if head == l {
      assert IndexOf(s, l) == 0 && DropAt(s, 0) == rest;
    } else if l in rest {
      var k := IndexOf(rest, l);
      assert IndexOf(s, l) == k + 1;
      assert DropAt(s, k + 1) == [head] + DropAt(rest, k);
    }
  }

  /** Only the ids actually in the list matter. */
  lemma {:induction false} WithoutCongruence(ids: seq<LinkId>, gone: set<LinkId>, gone': set<LinkId>)
    requires forall l :: l in ids ==> (l in gone <==> l in gone')
    ensures Without(ids, gone) == Without(ids, gone')
    decreases |ids|
  {
    if ids != [] { WithoutCongruence(ids[1..], gone, gone'); }
  }

  lemma RemoveFirstAbsent(s: seq<LinkId>, l: LinkId)
    requires l !in s
    ensures RemoveFirst(s, l) == s
  {
  }

  /** Taking one more element off a list without repetitions. */
  lemma {:induction false} WithoutOneMore(ids: seq<LinkId>, gone: set<LinkId>, l: LinkId)
    requires NoDup(ids)
    ensures Without(ids, gone + {l}) == RemoveFirst(Without(ids, gone), l)
    decreases |ids|, 0
  {
    if ids == [] {
      RemoveFirstAbsent([], l);
    } else {
      WithoutStep(ids[0], ids[1..], gone, l);
      assert [ids[0]] + ids[1..] == ids;
    }
  }

  lemma WithoutCons(head: LinkId, tail: seq<LinkId>, gone: set<LinkId>)
    ensures head in gone ==> Without([head] + tail, gone) == Without(tail, gone)
    ensures head !in gone ==> Without([head] + tail, gone) == [head] + Without(tail, gone)
  {
    assert ([head] + tail)[1..] == tail;
  }

  lemma NoDupTail(head: LinkId, tail: seq<LinkId>)
    requires NoDup([head] + tail)
    ensures NoDup(tail) && head !in tail
  {
    var ids := [head] + tail;
    forall k | 0 <= k < |tail| ensures tail[k] == ids[k + 1] && tail[k] != ids[0] {}
  }

  lemma {:induction false} WithoutStep(head: LinkId, tail: seq<LinkId>, gone: set<LinkId>, l: LinkId)
    requires NoDup([head] + tail)
    ensures Without([head] + tail, gone + {l}) == RemoveFirst(Without([head] + tail, gone), l)
    decreases |tail|, 1
  {
    NoDupTail(head, tail);
    WithoutOneMore(tail, gone, l);
    WithoutCons(head, tail, gone);
    WithoutCons(head, tail, gone + {l});
    if head !in gone {
      RemoveFirstCons(head, Without(tail, gone), l);
      if head == l { WithoutCongruence(tail, gone, gone + {l}); }
    }
  }

  lemma LeaversAppend(moved: seq<(SubId, LinkId)>, i: nat, t: SubId)
    requires i < |moved|
    ensures LeaversOf(moved[..i + 1], t) == LeaversOf(moved[..i], t) + (if moved[i].0 == t then {moved[i].1} else {})
  {
    var a, b := moved[..i], moved[..i + 1];
    assert b == a + [moved[i]];
    forall l | l in LeaversOf(a, t) ensures l in LeaversOf(b, t) {
      var k :| 0 <= k < |a| && a[k].0 == t && a[k].1 == l;
      assert b[k] == a[k];
    }
    if moved[i].0 == t { assert b[i] == moved[i]; }
  }

  lemma LeaversArePulled(moved: seq<(SubId, LinkId)>, r: Registry, s: SubId, ids: seq<LinkId>, t: SubId)
    requires s in r.subs
    requires forall g, l :: (g, l) in moved <==>
      g != s && l in ids && l !in r.subs[s] && l in r.links && r.links[l] == Some(g)
    ensures LeaversOf(moved, t) == if t == s then {} else Pulled(r, s, ids, t)
  {
    forall l | l in LeaversOf(moved, t) ensures (t, l) in moved {
      var k :| 0 <= k < |moved| && moved[k].0 == t && moved[k].1 == l;
      assert moved[k] == (t, l);
    }
    forall l | (t, l) in moved ensures l in LeaversOf(moved, t) {
      var k :| 0 <= k < |moved| && moved[k] == (t, l);
      assert moved[k].0 == t && moved[k].1 == l;
    }
  }
}
