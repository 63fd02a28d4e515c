/** Saving and loading as the program does it, one disk effect after another. */
module StateFiles {
  import opened Common
  import opened DiskModel

  class Volume {
    var main: File
    var b1: File
    var b2: File
    var tmp: File

    function View(): Disk reads this { Disk(main, b1, b2, tmp) }

    constructor (d: Disk)
      ensures View() == d
    {
      main, b1, b2, tmp := d.main, d.b1, d.b2, d.tmp;
    }

    /** `shutil.copy2`, cut off after `left` effects. */
    method CopyToB2(left: nat) returns (rest: nat, ok: bool)
      modifies this`b2
      ensures left == 0 ==> !ok && b2 == old(b2)
      ensures left == 1 ==> !ok && b2 == Torn
      ensures left >= 2 ==> ok && rest == left - 2 && b2 == b1
    {
      if left == 0 { return 0, false; }
      b2 := Torn;
      if left == 1 { return 0, false; }
      b2 := b1;
      return left - 2, true;
    }

    method CopyToB1(left: nat) returns (rest: nat, ok: bool)
      modifies this`b1
      ensures left == 0 ==> !ok && b1 == old(b1)
      ensures left == 1 ==> !ok && b1 == Torn
      ensures left >= 2 ==> ok && rest == left - 2 && b1 == main
    {
      if left == 0 { return 0, false; }
      b1 := Torn;
      if left == 1 { return 0, false; }
      b1 := main;
      return left - 2, true;
    }

    /** `_atomic_write_state`, cut off after `k` effects on the disk. */
    method AtomicWrite(v: Version, rotate: bool, k: nat) returns (done: bool)
      modifies this
      ensures View() == Save(old(View()), v, rotate, k)
      ensures done == Completes(old(View()), rotate, k)
    {
      UnrollSave(View(), v, rotate, k);
      var left, ok := k, true;
      if rotate && !main.Absent? {
        if !b1.Absent? {
          left, ok := CopyToB2(left);
          if !ok { return false; }
        }
        left, ok := CopyToB1(left);
        if !ok { return false; }
      }
      if left == 0 { return false; }
      tmp := Torn;
      if left == 1 { return false; }
      tmp := Good(v);
      if left == 2 { return false; }
      main := tmp;
      tmp := Absent;
      return true;
    }

    /** `load_state`: first whole copy, else the snapshot, else empty or refuse. */
    method LoadState(snap: Snapshot, k: nat) returns (s: Startup)
      modifies this
      ensures s == Load(old(View()), snap)
      ensures View() == Restart(old(View()), snap, k)
    {
      var candidates := [(main, Main), (b1, Backup1), (b2, Backup2)];
      var loaded: Option<(Version, Origin)> := None;
      var existing := false;
      var i := 0;
      while i < 3 && loaded.None?
        invariant 0 <= i <= 3
        invariant !existing ==> forall j :: 0 <= j < i ==> candidates[j].0.Absent?
        invariant existing ==> AnyCopy(View())
        invariant forall j :: 0 <= j < (if loaded.None? then i else i - 1) ==> !candidates[j].0.Good?
        invariant loaded.Some? ==> 0 < i && candidates[i - 1] == (Good(loaded.value.0), loaded.value.1)
      {
        var (file, origin) := candidates[i];
        if !file.Absent? { existing := true; }
        if file.Good? { loaded := Some((file.v, origin)); }
        i := i + 1;
      }
      assert candidates[0].0 == main && candidates[1].0 == b1 && candidates[2].0 == b2;
      if loaded.None? {
        match snap
        case ValidSnapshot(v) => loaded := Some((v, Environment));
        case InvalidSnapshot =>
        case NoSnapshot =>
          if existing { return Refuse; }
      }
      if loaded.None? { return StartEmpty; }
      s := Loaded(loaded.value.0, loaded.value.1);
      if loaded.value.1 != Main {
        var _ := AtomicWrite(loaded.value.0, false, k);
      }
    }
  }
}
