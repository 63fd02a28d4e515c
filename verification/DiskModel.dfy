/** State files on disk, saves cut short anywhere, and recovery
    (`_atomic_write_state`, `load_state`). */
module DiskModel {
  import opened Common

  /** A saved state, named by the order in which states were first saved. */
  type Version = nat

  datatype File = Absent | Good(v: Version) | Torn

  datatype Disk = Disk(main: File, b1: File, b2: File, tmp: File)

  /** One effect on the disk; a copy or a write tears its target before filling it. */
  datatype Op = TearB2 | CopyB1 | TearB1 | CopyMain | TearTmp | FillTmp | Replace

  function Exec(d: Disk, op: Op, v: Version): Disk
  {
    match op
    case TearB2 => d.(b2 := Torn)
    case CopyB1 => d.(b2 := d.b1)
    case TearB1 => d.(b1 := Torn)
    case CopyMain => d.(b1 := d.main)
    case TearTmp => d.(tmp := Torn)
    case FillTmp => d.(tmp := Good(v))
    case Replace => d.(main := d.tmp, tmp := Absent)
  }

  /** The effects of one save, in order. */
  function Ops(d: Disk, rotate: bool): seq<Op>
  {
    (if rotate && !d.main.Absent? then
       (if !d.b1.Absent? then [TearB2, CopyB1] else []) + [TearB1, CopyMain]
     else [])
    + [TearTmp, FillTmp, Replace]
  }

  function ExecAll(d: Disk, ops: seq<Op>, v: Version): Disk
    decreases |ops|
  {
    if ops == [] then d else ExecAll(Exec(d, ops[0], v), ops[1..], v)
  }

  /** A save of `v` of which only the first `k` effects happened; the rest was cut
      off by a crash or an I/O error. */
  function Save(d: Disk, v: Version, rotate: bool, k: nat): Disk
  {
    var ops := Ops(d, rotate);
    ExecAll(d, ops[..Min(k, |ops|)], v)
  }

  predicate Completes(d: Disk, rotate: bool, k: nat)
  {
    k >= |Ops(d, rotate)|
  }

  // ------------------------------------------------------------------- recovery

  datatype Snapshot = NoSnapshot | ValidSnapshot(v: Version) | InvalidSnapshot

  datatype Origin = Main | Backup1 | Backup2 | Environment

  datatype Startup = Loaded(v: Version, origin: Origin) | StartEmpty | Refuse

  function Load(d: Disk, snap: Snapshot): Startup
  {
    if d.main.Good? then Loaded(d.main.v, Main)
    else if d.b1.Good? then Loaded(d.b1.v, Backup1)
    else if d.b2.Good? then Loaded(d.b2.v, Backup2)
    else if snap.ValidSnapshot? then Loaded(snap.v, Environment)
    else if snap.InvalidSnapshot? then StartEmpty
    else if d.main.Absent? && d.b1.Absent? && d.b2.Absent? then StartEmpty
    else Refuse
  }

  /** Startup with the repairing write it does when the main file was not the source. */
  function Restart(d: Disk, snap: Snapshot, k: nat): Disk
  {
    var s := Load(d, snap);
    if s.Loaded? && s.origin != Main then Save(d, s.v, false, k) else d
  }

  // --------------------------------------------------------------------- effects

  /** Only the last effect touches the main file, and it installs a whole state. */
  lemma SaveOnMain(d: Disk, v: Version, rotate: bool, k: nat)
    ensures Save(d, v, rotate, k).main == if Completes(d, rotate, k) then Good(v) else d.main
  {
    UnrollSave(d, v, rotate, k);
  }

  /** The disk after each effect, spelled out. */
  function AfterRotation(d: Disk, k: nat): Disk
  {
    if d.b1.Absent? then
      if k == 0 then d else d.(b1 := if k == 1 then Torn else d.main)
    else
      if k == 0 then d
      else if k == 1 then d.(b2 := Torn)
      else if k == 2 then d.(b2 := d.b1)
      else d.(b2 := d.b1, b1 := if k == 3 then Torn else d.main)
  }

  function AfterWrite(d: Disk, v: Version, k: nat): Disk
  {
    if k == 0 then d
    else if k == 1 then d.(tmp := Torn)
    else if k == 2 then d.(tmp := Good(v))
    else d.(main := Good(v), tmp := Absent)
  }

  function RotationLength(d: Disk, rotate: bool): nat
  {
    if !rotate || d.main.Absent? then 0 else if d.b1.Absent? then 2 else 4
  }

  lemma {:induction false} ExecAllSplit(d: Disk, a: seq<Op>, b: seq<Op>, v: Version)
    ensures ExecAll(d, a + b, v) == ExecAll(ExecAll(d, a, v), b, v)
    decreases |a|
  {
    if a == [] {
      assert a + b == b;
    } else {
      assert (a + b)[0] == a[0] && (a + b)[1..] == a[1..] + b;
      ExecAllSplit(Exec(d, a[0], v), a[1..], b, v);
    }
  }

  lemma WriteEffects(d: Disk, v: Version, k: nat)
    ensures ExecAll(d, [TearTmp, FillTmp, Replace][..Min(k, 3)], v) == AfterWrite(d, v, k)
  {
    var ops := [TearTmp, FillTmp, Replace];
    var n := Min(k, 3);
    assert ops[..1] == [TearTmp] && ops[..2] == [TearTmp, FillTmp] && ops[..3] == ops;
    if n == 1 {
      Unroll1(d, TearTmp, v);
    } else if n == 2 {
      Unroll2(d, TearTmp, FillTmp, v);
    } else if n == 3 {
      Unroll2(d, TearTmp, FillTmp, v);
      ExecAllSplit(d, [TearTmp, FillTmp], [Replace], v);
      Unroll1(ExecAll(d, [TearTmp, FillTmp], v), Replace, v);
      assert [TearTmp, FillTmp] + [Replace] == ops;
    }
  }

  lemma Unroll1(d: Disk, a: Op, v: Version)
    ensures ExecAll(d, [a], v) == Exec(d, a, v)
  {
    assert [a][1..] == [];
  }

  lemma Unroll2(d: Disk, a: Op, b: Op, v: Version)
    ensures ExecAll(d, [a, b], v) == Exec(Exec(d, a, v), b, v)
  {
    assert [a, b][1..] == [b];
    Unroll1(Exec(d, a, v), b, v);
  }

  lemma RotationEffects(d: Disk, v: Version, k: nat)
    requires !d.main.Absent?
    ensures var r := (if !d.b1.Absent? then [TearB2, CopyB1] else []) + [TearB1, CopyMain];
            ExecAll(d, r[..Min(k, |r|)], v) == AfterRotation(d, k)
  {
    var r := (if !d.b1.Absent? then [TearB2, CopyB1] else []) + [TearB1, CopyMain];
    var n := Min(k, |r|);
    if d.b1.Absent? {
      assert r == [TearB1, CopyMain] && r[..1] == [TearB1] && r[..2] == r;
      Unroll1(d, TearB1, v);
      Unroll2(d, TearB1, CopyMain, v);
    } else {
      assert r == [TearB2, CopyB1, TearB1, CopyMain];
      assert r[..1] == [TearB2] && r[..2] == [TearB2, CopyB1];
      assert r[..3] == [TearB2, CopyB1] + [TearB1] && r[..4] == [TearB2, CopyB1] + [TearB1, CopyMain];
      Unroll1(d, TearB2, v);
      Unroll2(d, TearB2, CopyB1, v);
      var e := ExecAll(d, [TearB2, CopyB1], v);
      ExecAllSplit(d, [TearB2, CopyB1], [TearB1], v);
      ExecAllSplit(d, [TearB2, CopyB1], [TearB1, CopyMain], v);
      Unroll1(e, TearB1, v);
      Unroll2(e, TearB1, CopyMain, v);
    }
  }

  lemma UnrollSave(d: Disk, v: Version, rotate: bool, k: nat)
    ensures var n := RotationLength(d, rotate);
      && |Ops(d, rotate)| == n + 3
      && Save(d, v, rotate, k) ==
           if n == 0 then AfterWrite(d, v, k)
           else if k <= n then AfterRotation(d, k)
           else AfterWrite(AfterRotation(d, n), v, k - n)
  {
    var n := RotationLength(d, rotate);
    var ops := Ops(d, rotate);
    var w := [TearTmp, FillTmp, Replace];
    if n == 0 {
      assert ops == w;
      WriteEffects(d, v, k);
    } else {
      var r := (if !d.b1.Absent? then [TearB2, CopyB1] else []) + [TearB1, CopyMain];
      assert |r| == n && ops == r + w;
      RotationEffects(d, v, k);
      if k <= n {
        assert ops[..k] == r[..k];
      } else {
        RotationEffects(d, v, n);
        assert r[..n] == r;
        assert ops[..Min(k, n + 3)] == r + w[..Min(k - n, 3)];
        ExecAllSplit(d, r, w[..Min(k - n, 3)], v);
        WriteEffects(AfterRotation(d, n), v, k - n);
      }
    }
  }

  // ------------------------------------------------------------------------ runs

  datatype Event =
    | Saving(rotate: bool, k: nat)          // saves a new state
    | Restarting(snap: Snapshot, k: nat)

  /** `next` names the next state to be saved. */
  datatype World = World(disk: Disk, next: Version)

  function Step(w: World, e: Event): World
  {
    match e
    case Saving(rotate, k) => World(Save(w.disk, w.next, rotate, k), w.next + 1)
    case Restarting(snap, k) => w.(disk := Restart(w.disk, snap, k))
  }

  function Run(w: World, events: seq<Event>): World
    decreases |events|
  {
    if events == [] then w else Run(Step(w, events[0]), events[1..])
  }

  /** The last state whose save completed, from then on. */
  function LastSaved(w: World, events: seq<Event>, known: Option<Version>): Option<Version>
    decreases |events|
  {
    if events == [] then known
    else
      var known' := match events[0]
        case Saving(rotate, k) => if Completes(w.disk, rotate, k) then Some(w.next) else known
        case Restarting(_, _) => known;
      LastSaved(Step(w, events[0]), events[1..], known')
  }

  /** Whatever the crashes, a start after the first completed save loads the last
      completed one: never an older state, never an empty one. */
  lemma {:induction false} StartsFromLastSaved(w: World, events: seq<Event>, snap: Snapshot, known: Option<Version>)
    requires known.Some? ==> w.disk.main == Good(known.value)
    requires LastSaved(w, events, known).Some?
    ensures Load(Run(w, events).disk, snap) == Loaded(LastSaved(w, events, known).value, Main)
    decreases |events|
  {
    if events != [] {
      match events[0]
      case Saving(rotate, k) =>
        SaveOnMain(w.disk, w.next, rotate, k);
        StartsFromLastSaved(Step(w, events[0]), events[1..], snap,
                            if Completes(w.disk, rotate, k) then Some(w.next) else known);
      case Restarting(s, k) =>
        StartsFromLastSaved(Step(w, events[0]), events[1..], snap, known);
    }
  }

  // --------------------------------------------------------------------- backups

  predicate AtMost(f: File, v: Version) { f.Good? ==> f.v <= v }

  /** Newer copies come first among those that are whole. */
  predicate Sorted(d: Disk, next: Version)
  {
    && (d.main.Good? ==> d.main.v < next && AtMost(d.b1, d.main.v) && AtMost(d.b2, d.main.v))
    && (d.b1.Good? ==> d.b1.v < next && AtMost(d.b2, d.b1.v))
    && (d.b2.Good? ==> d.b2.v < next)
  }

  predicate FromDisk(e: Event, d: Disk)
  {
    e.Restarting? && Load(d, e.snap).Loaded? ==> Load(d, e.snap).origin != Environment
  }

  lemma StepKeepsSorted(w: World, e: Event)
    requires Sorted(w.disk, w.next) && FromDisk(e, w.disk)
    ensures Sorted(Step(w, e).disk, Step(w, e).next)
  {
    match e
    case Saving(rotate, k) => UnrollSave(w.disk, w.next, rotate, k);
    case Restarting(snap, k) =>
      var s := Load(w.disk, snap);
      if s.Loaded? && s.origin != Main { UnrollSave(w.disk, s.v, false, k); }
  }

  predicate AllFromDisk(w: World, events: seq<Event>)
    decreases |events|
  {
    events == [] || (FromDisk(events[0], w.disk) && AllFromDisk(Step(w, events[0]), events[1..]))
  }

  /** After any run of saves and restarts, damaging the main file while stopped
      makes the next start take the newest copy that is still whole. */
  lemma {:induction false} DamagedMainLoadsNewest(w: World, events: seq<Event>, snap: Snapshot)
    requires Sorted(w.disk, w.next) && AllFromDisk(w, events)
    ensures var d := Run(w, events).disk.(main := Torn);
            (d.b1.Good? || d.b2.Good?) ==>
              && Load(d, snap).Loaded?
              && (d.b1 == Good(Load(d, snap).v) || d.b2 == Good(Load(d, snap).v))
              && AtMost(d.b1, Load(d, snap).v) && AtMost(d.b2, Load(d, snap).v)
    decreases |events|
  {
    if events != [] {
      StepKeepsSorted(w, events[0]);
      DamagedMainLoadsNewest(Step(w, events[0]), events[1..], snap);
    }
  }

  /** How far one repair after another got. */
  function Repairs(d: Disk, snap: Snapshot, ks: seq<nat>): Disk
    decreases |ks|
  {
    if ks == [] then d else Repairs(Restart(d, snap, ks[0]), snap, ks[1..])
  }

  /** With the main file damaged, any number of interrupted starts neither touch a
      backup nor change what is loaded; the first that gets through repairs the
      main file. The first backup may be damaged too. */
  lemma {:induction false} RepairIsSafe(d: Disk, snap: Snapshot, ks: seq<nat>)
    requires d.main.Torn? && (d.b1.Good? || d.b2.Good?)
    ensures var e := Repairs(d, snap, ks);
            var v := if d.b1.Good? then d.b1.v else d.b2.v;
      && e.b1 == d.b1 && e.b2 == d.b2
      && Load(e, snap).Loaded? && Load(e, snap).v == v
      && e.main == if exists i :: 0 <= i < |ks| && ks[i] >= 3 then Good(v) else Torn
    decreases |ks|
  {
    if ks != [] {
      var e := Restart(d, snap, ks[0]);
      UnrollSave(d, Load(d, snap).v, false, ks[0]);
      if ks[0] >= 3 {
        RepairedStays(e, snap, ks[1..]);
      } else {
        RepairIsSafe(e, snap, ks[1..]);
        if exists i :: 0 <= i < |ks| && ks[i] >= 3 {
          var i :| 0 <= i < |ks| && ks[i] >= 3;
          assert ks[1..][i - 1] >= 3;
        }
      }
    }
  }

  lemma {:induction false} RepairedStays(d: Disk, snap: Snapshot, ks: seq<nat>)
    requires d.main.Good?
    ensures Repairs(d, snap, ks) == d
    decreases |ks|
  {
    if ks != [] { RepairedStays(d, snap, ks[1..]); }
  }

  /** Two completed rotating saves leave three whole copies, whatever the backups
      held before. */
  lemma TwoRotationsHeal(d: Disk, v: Version, w: Version)
    requires d.main.Good?
    ensures var d1 := Save(d, v, true, |Ops(d, true)|);
            Save(d1, w, true, |Ops(d1, true)|) == Disk(Good(w), Good(v), d.main, Absent)
  {
    UnrollSave(d, v, true, |Ops(d, true)|);
    var d1 := Save(d, v, true, |Ops(d, true)|);
    UnrollSave(d1, w, true, |Ops(d1, true)|);
  }

  // -------------------------------------------------------------------- refusals

  predicate AnyCopy(d: Disk) { !d.main.Absent? || !d.b1.Absent? || !d.b2.Absent? }

  predicate AnyGood(d: Disk) { d.main.Good? || d.b1.Good? || d.b2.Good? }

  /** Copies that are all damaged are protected by a refusal to start exactly when
      no environment snapshot is set; an invalid one disables the protection. */
  lemma RefusesExactlyWithoutSnapshot(d: Disk, snap: Snapshot)
    requires AnyCopy(d) && !AnyGood(d)
    ensures Load(d, snap) == Refuse <==> snap.NoSnapshot?
    ensures Load(d, snap) == StartEmpty <==> snap.InvalidSnapshot?
  {
  }

  lemma InvalidSnapshotStartsEmpty()
    ensures Load(Disk(Torn, Torn, Torn, Absent), InvalidSnapshot) == StartEmpty
    ensures Save(Disk(Torn, Torn, Torn, Absent), 1, true, 7) == Disk(Good(1), Torn, Torn, Absent)
  {
    UnrollSave(Disk(Torn, Torn, Torn, Absent), 1, true, 7);
  }
}
