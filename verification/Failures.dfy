/**
 * Traces of runs in which operations failed. A failed operation is logged with its error, and plain replay
 * makes its call all the same. Some operations fail only after the lower file system has done its part.
 */
module Failures {
  import opened Bytes
  import opened Records
  import opened FileSystem
  import opened FsLaws
  import opened Resolve
  import opened Syscalls
  import opened Replay
  import opened Treplay
  import opened Scan
  import opened Replaying
  import opened EndToEnd
  import opened Locality

  /**
   * One traced call: `error` is zero if it succeeded, and else the errno it failed with, for whatever reason;
   * `took` tells whether the lower call took effect.
   */
  datatype Tried = Tried(op: Op, error: nat, took: bool)

  /** The operations that interpose an upper inode on what the lower call has made, and fail if that does. */
  predicate Interposes(op: Op) { op.Create? || op.Hardlink? || op.Symlink? || op.Mkdir? }

  /** The lower tree afterwards. */
  function Traced(f: FileSys, root: Path, t: Tried): FileSys {
    if t.took then After(f, Apply(f, Shift(root, t.op))) else f
  }

  function TracedAll(f: FileSys, root: Path, run: seq<Tried>): FileSys
    decreases run
  {
    if run == [] then f else TracedAll(Traced(f, root, run[0]), root, run[1..])
  }

  function TriedRecord(t: Tried, id: nat): Record {
    if t.error == 0 then RecordOf(t.op, id) else RecordOf(t.op, id).(result := -(t.error as int))
  }

  function TriedRecords(run: seq<Tried>, id: nat): (rs: seq<Record>)
    ensures |rs| == |run|
    decreases run
  {
    if run == [] then [] else [TriedRecord(run[0], id)] + TriedRecords(run[1..], id + 1)
  }

  /**
   * The operations whose lower call took effect could do so, and have a replay; those that succeeded took effect,
   * and of those that failed only the ones that interpose may have. Of the others the record fits.
   */
  ghost predicate Happened(env: Env, f: FileSys, root: Path, run: seq<Tried>)
    decreases run
  {
    run == [] ||
    (var t := run[0];
     && Loggable(t.op) && Rebasable(env, t.op) && t.error < 0x8000_0000
     && (t.took ==> Traceable(t.op) && Apply(f, Shift(root, t.op)).Ok?)
     && (t.error == 0 ==> t.took) && (t.took && t.error != 0 ==> Interposes(t.op))
     && Happened(env, Traced(f, root, t), root, run[1..]))
  }

  // ----- when a record's replay does nothing -----

  /** The guard under which the call of a record changes nothing where its names arrive. */
  predicate HarmlessAt(env: Env, r: Record, g: FileSys, p: Path, q: Path) {
    if r.kind == TR_FCREAT || r.kind == TR_DCREAT then !g.Vacant(p)
    else if r.kind == TR_SYMLINK then !g.Vacant(p) || SecondName(env, r) == []
    else if r.kind == TR_UNLINK then !Removable(g, p)
    else if r.kind == TR_FWRITE then WriteHarmless(env, r, g, p)
    else if r.kind == TR_LINK then !Linkable(g, p, q)
    else !Movable(g, p, q)
  }

  predicate WriteHarmless(env: Env, r: Record, g: FileSys, p: Path) {
    if !g.Has(p) then !Bit(r.flags, O_CREAT) || !g.Vacant(p)
    else MustMake(r.flags) || !g.At(p).File? || Rewritten(env, r, g.At(p).data) == g.At(p).data
  }

  /** The record has no call, its names do not arrive, or its call changes nothing where they do. */
  predicate Harmless(env: Env, r: Record, g: FileSys) {
    || env.mode == NoReplay || !Dispatched(r.kind) || !Arrived(env, r, g)
    || HarmlessAt(env, r, g, Ends(env, r, g).0, Ends(env, r, g).1)
  }

  /** What the call of a record does where its names arrive. */
  function Effect(env: Env, r: Record, g: FileSys, p: Path, q: Path): FileSys {
    if r.kind == TR_FWRITE then WriteResult(env, r, g, p) else After(g, Apply(g, OpOf(env, r, g, p, q)))
  }

  lemma PerformIsEffect(env: Env, r: Record, g: FileSys)
    requires g.Sound() && env.os == Linux()
    ensures Perform(env, r, g).fs
         == if env.mode == NoReplay || !Dispatched(r.kind) || !Arrived(env, r, g) then g
            else Effect(env, r, g, Ends(env, r, g).0, Ends(env, r, g).1)
  {
    if env.mode == NoReplay || !Dispatched(r.kind) {
      NothingDone(env, r, g);
    } else if r.kind == TR_FWRITE {
      WriteActs(env, r, g);
      hide Perform, First, WriteResult;
    } else {
      CallActs(env, r, g);
      hide Perform, First, Second, OpOf, Apply;
    }
  }

  /** The same names, and the same node at each. */
  ghost predicate SameTree(g: FileSys, h: FileSys) {
    forall y :: (y in g.names <==> y in h.names) && (y in g.names ==> g.Has(y) && h.Has(y) && g.At(y) == h.At(y))
  }

  lemma MakeIsHarmless(g: FileSys, op: Op)
    requires g.Sound() && (op.Create? || op.Mkdir? || op.Symlink?)
    ensures var h := After(g, Apply(g, op));
            if !g.Vacant(op.path) || (op.Symlink? && op.target == []) then h == g else !SameTree(g, h)
  {
    if g.Vacant(op.path) && !(op.Symlink? && op.target == []) {
      assert op.path in After(g, Apply(g, op)).names;
    }
  }

  lemma RemoveIsHarmless(g: FileSys, p: Path)
    requires g.Sound()
    ensures var h := After(g, Apply(g, if g.IsDir(p) then Rmdir(p) else Unlink(p)));
            if !Removable(g, p) then h == g else !SameTree(g, h)
  {
    if Removable(g, p) {
      assert p in g.names && p !in g.Remove(p).names;
    }
  }

  lemma LinkIsHarmless(g: FileSys, p: Path, q: Path)
    requires g.Sound()
    ensures var h := After(g, Apply(g, Hardlink(p, q)));
            if !Linkable(g, p, q) then h == g else !SameTree(g, h)
  {
    HardlinkActs(g, p, q);
    if Linkable(g, p, q) {
      assert q in After(g, Apply(g, Hardlink(p, q))).names;
    }
  }

  lemma RenameIsHarmless(g: FileSys, p: Path, q: Path)
    requires g.Sound()
    ensures var h := After(g, Apply(g, Rename(p, q)));
            if !Movable(g, p, q) then h == g else !SameTree(g, h)
  {
    RenameActs(g, p, q);
    hide Apply;
    if Movable(g, p, q) {
      assert p in g.names && p !in Move(g.names, p, q);
    }
  }

  lemma WriteIsHarmless(env: Env, r: Record, g: FileSys, p: Path)
    requires g.Sound()
    ensures var h := WriteResult(env, r, g, p);
            if WriteHarmless(env, r, g, p) then h == g else !SameTree(g, h)
  {
    hide Rewritten, Bits, Bit;
    var h := WriteResult(env, r, g, p);
    if !g.Has(p) {
      assert p !in g.names;
      assert h != g ==> p in h.names;
    } else if g.At(p).File? {
      PutTwice(g, p, Rewritten(env, r, g.At(p).data), []);
      assert g.Has(p) && h.Has(p);
    }
  }

  lemma EffectHarmless(env: Env, r: Record, g: FileSys, p: Path, q: Path)
    requires g.Sound() && Dispatched(r.kind)
    ensures var h := Effect(env, r, g, p, q);
            if HarmlessAt(env, r, g, p, q) then h == g else !SameTree(g, h)
  {
    hide SameTree, Apply, SecondName, Movable, Removable, Linkable, WriteHarmless, WriteResult;
    if r.kind == TR_FWRITE {
      WriteIsHarmless(env, r, g, p);
    } else if r.kind == TR_UNLINK {
      RemoveIsHarmless(g, p);
    } else if r.kind == TR_LINK {
      LinkIsHarmless(g, p, q);
    } else if r.kind == TR_RENAME {
      RenameIsHarmless(g, p, q);
    } else {
      MakeIsHarmless(g, OpOf(env, r, g, p, q));
    }
  }

  /** A record's replay leaves the whole file system as it is, or changes a name or a content in it. */
  lemma HarmlessIff(env: Env, r: Record, g: FileSys)
    requires g.Sound() && env.os == Linux()
    ensures if Harmless(env, r, g) then Perform(env, r, g).fs == g else !SameTree(g, Perform(env, r, g).fs)
  {
    PerformIsEffect(env, r, g);
    hide Perform, Effect, HarmlessAt, SameTree, Arrived, Ends;
    if env.mode != NoReplay && Dispatched(r.kind) && Arrived(env, r, g) {
      EffectHarmless(env, r, g, Ends(env, r, g).0, Ends(env, r, g).1);
    }
  }

  // ----- keeping in step -----

  /** The replay's tree is the twin of the traced one after every record, and nothing outside has changed. */
  ghost predicate InStep(env: Env, cwd: Path, f: FileSys, root: Path, g: FileSys, run: seq<Tried>, id: nat)
    decreases run
  {
    && Twin(f, root, g, cwd)
    && (run == [] ||
        (var h := Perform(env, TriedRecord(run[0], id), g).fs;
         SameOutside(g, h, cwd) && InStep(env, cwd, Traced(f, root, run[0]), root, h, run[1..], id + 1)))
  }

  /** Every call that took no effect when it was traced takes none on replay, when its turn comes. */
  predicate AllHarmless(env: Env, g: FileSys, run: seq<Tried>, id: nat)
    decreases run
  {
    run == [] ||
    (var r := TriedRecord(run[0], id);
     (!run[0].took ==> Harmless(env, r, g)) && AllHarmless(env, Perform(env, r, g).fs, run[1..], id + 1))
  }

  /** What looks the same below and outside `cwd` is the same tree. */
  lemma SameBelowAndOutside(g: FileSys, h: FileSys, cwd: Path)
    requires g.Sound() && Iso(Below(g, cwd), Below(h, cwd)) && SameOutside(g, h, cwd)
    ensures SameTree(g, h)
  {
    forall y ensures (y in g.names <==> y in h.names) && (y in g.names ==> g.Has(y) && h.Has(y) && g.At(y) == h.At(y)) {
      if cwd <= y {
        var t := y[|cwd|..];
        assert y == cwd + t;
        BelowTests(g, cwd, t);
        BelowTests(h, cwd, t);
        SameTests(Below(g, cwd), Below(h, cwd), t);
      } else {
        assert SameAt(g, h, y);
      }
    }
  }

  /** An operation that took no effect keeps the replay in step exactly if its record is harmless. */
  lemma FailedStep(env: Env, cwd: Path, f: FileSys, root: Path, g: FileSys, r: Record)
    requires env.os == Linux() && Twin(f, root, g, cwd)
    ensures var h := Perform(env, r, g).fs;
            && (Harmless(env, r, g) ==> h == g)
            && (Twin(f, root, h, cwd) && SameOutside(g, h, cwd) ==> Harmless(env, r, g))
  {
    TwinSound(f, root, g, cwd);
    HarmlessIff(env, r, g);
    var h := Perform(env, r, g).fs;
    hide Perform, Harmless, SameTree;
    if Twin(f, root, h, cwd) && SameOutside(g, h, cwd) {
      IsoSymmetric(Below(f, root), Below(g, cwd));
      IsoTransitive(Below(g, cwd), Below(f, root), Below(h, cwd));
      SameBelowAndOutside(g, h, cwd);
    }
  }

  /** What a call does to the tree does not depend on the result that was recorded. */
  lemma ResultIgnored(env: Env, r: Record, result: int, g: FileSys)
    requires r.kind != TR_FWRITE
    ensures Perform(env, r.(result := result), g).fs == Perform(env, r, g).fs
  {
    SameCall(env, r, result, g);
    hide Call, FirstName, SecondName;
  }

  lemma SameCall(env: Env, r: Record, result: int, g: FileSys)
    ensures var q := r.(result := result); FirstName(env, q) == FirstName(env, r) && SecondName(env, q) == SecondName(env, r)
  {
  }

  lemma TookStep(env: Env, cwd: Path, f: FileSys, root: Path, g: FileSys, t: Tried, id: nat)
    requires RunsIn(env, cwd) && Twin(f, root, g, cwd) && Sealed(g, cwd)
    requires Traceable(t.op) && Apply(f, Shift(root, t.op)).Ok? && (t.error != 0 ==> Interposes(t.op))
    ensures var h := Perform(env, TriedRecord(t, id), g).fs;
            Twin(Apply(f, Shift(root, t.op)).value, root, h, cwd) && SameOutside(g, h, cwd) && Sealed(h, cwd)
  {
    NoWriteInterposes(t, id);
    var r := RecordOf(t.op, id);
    assert TriedRecord(t, id) == if t.error == 0 then r else r.(result := -(t.error as int));
    hide *;
    if t.error != 0 {
      ResultIgnored(env, r, -(t.error as int), g);
    }
    OffTheRoot(t.op);
    TwinSound(f, root, g, cwd);
    TwinStep(f, root, g, cwd, t.op);
    ReplayIsApply(env, cwd, t.op, id, g);
    StepOutside(g, cwd, t.op);
  }

  lemma NoWriteInterposes(t: Tried, id: nat)
    ensures Interposes(t.op) ==> RecordOf(t.op, id).kind != TR_FWRITE
  {
  }

  /**
   * The exact condition on failures: plain replay of a run keeps in step with it, outside its directory and
   * below, if and only if no call that took no effect when it was traced takes one on replay. A failure after
   * the lower call had taken effect does no harm.
   */
  lemma {:induction false} InStepIff(env: Env, cwd: Path, f: FileSys, root: Path, g: FileSys, run: seq<Tried>, id: nat)
    requires RunsIn(env, cwd) && Happened(env, f, root, run)
    requires Twin(f, root, g, cwd) && Sealed(g, cwd)
    ensures InStep(env, cwd, f, root, g, run, id) <==> AllHarmless(env, g, run, id)
    decreases run
  {
    hide Perform, Harmless, Twin, Sealed, SameOutside, Apply, Linux, RecordOf, TriedRecord, Interposes, Traceable,
      Loggable, Rebasable, Shift;
    if run != [] {
      var t, r := run[0], TriedRecord(run[0], id);
      var h := Perform(env, r, g).fs;
      if t.took {
        TookStep(env, cwd, f, root, g, t, id);
        InStepIff(env, cwd, Traced(f, root, t), root, h, run[1..], id + 1);
      } else {
        FailedStep(env, cwd, f, root, g, r);
        if Harmless(env, r, g) {
          SameOutsideSelf(f, root, g, cwd);
          InStepIff(env, cwd, f, root, g, run[1..], id + 1);
        } else if InStep(env, cwd, f, root, g, run, id) {
          InStepTwin(env, cwd, f, root, h, run[1..], id + 1);
        }
      }
    }
  }

  lemma InStepTwin(env: Env, cwd: Path, f: FileSys, root: Path, g: FileSys, run: seq<Tried>, id: nat)
    requires InStep(env, cwd, f, root, g, run, id)
    ensures Twin(f, root, g, cwd)
  {
  }

  // ----- the log of such a run -----

  lemma {:induction false} ReplayInStep(env: Env, cwd: Path, f: FileSys, root: Path, g: FileSys, run: seq<Tried>, id: nat)
    requires RunsIn(env, cwd) && env.mode == Normal && InStep(env, cwd, f, root, g, run, id)
    requires forall r :: r in TriedRecords(run, id) ==> Dispatched(r.kind)
    ensures var h := ReplayList(env, TriedRecords(run, id), g).fs;
            Twin(TracedAll(f, root, run), root, h, cwd) && SameOutside(g, h, cwd)
    decreases run
  {
    hide Perform, Twin, SameOutside, Traced, TriedRecord, RunsIn, Dispatched;
    if run == [] {
      SameOutsideSelf(f, root, g, cwd);
    } else {
      var rs := TriedRecords(run, id);
      var r := TriedRecord(run[0], id);
      assert rs[0] == r && rs[1..] == TriedRecords(run[1..], id + 1) && r in rs;
      NormalGoesOn(env, r, g);
      var h := Perform(env, r, g).fs;
      ReplayInStep(env, cwd, Traced(f, root, run[0]), root, h, run[1..], id + 1);
      SameOutsideTransitive(g, h, ReplayList(env, rs[1..], h).fs, cwd);
    }
  }

  lemma NormalGoesOn(env: Env, r: Record, g: FileSys)
    requires env.mode == Normal && Dispatched(r.kind)
    ensures !Perform(env, r, g).halt
  {
  }

  lemma TriedReplayable(env: Env, t: Tried, id: nat)
    requires Loggable(t.op) && Rebasable(env, t.op) && t.error < 0x8000_0000
    ensures Replayable(env, TriedRecord(t, id))
  {
    RecordReplayable(env, t.op, id);
  }

  lemma {:induction false} AllTriedReplayable(env: Env, f: FileSys, root: Path, run: seq<Tried>, id: nat)
    requires Happened(env, f, root, run)
    ensures AllReplayable(env, TriedRecords(run, id))
    decreases run
  {
    hide Replayable, Traced, Apply, TriedRecord, Loggable, Rebasable, Traceable;
    if run != [] {
      TriedReplayable(env, run[0], id);
      AllTriedReplayable(env, Traced(f, root, run[0]), root, run[1..], id + 1);
    }
  }

  lemma ReplayableDispatched(env: Env, rs: seq<Record>)
    requires AllReplayable(env, rs)
    ensures forall r :: r in rs ==> Dispatched(r.kind)
  {
    forall r | r in rs ensures Dispatched(r.kind) {
      assert Replayable(env, r);
    }
  }

  /**
   * The end-to-end theorem for runs with failures: if no call that took no effect takes one on replay, treplay
   * without options gets to the end of the aligned log and rebuilds the tree.
   */
  lemma ReplayRebuildsDespiteFailures(env: Env, cwd: Path, f: FileSys, root: Path, g: FileSys, run: seq<Tried>)
    requires RunsIn(env, cwd) && env.mode == Normal && Happened(env, f, root, run)
    requires Twin(f, root, g, cwd) && Sealed(g, cwd) && AllHarmless(env, g, run, 0)
    requires var rs := TriedRecords(run, 0); ChunksStart(0, |EncodeAll(rs)|, rs)
    ensures var out := ReplayFrom(env, EncodeAll(TriedRecords(run, 0)), 0, g, []);
            && out.end == AtEnd
            && Twin(TracedAll(f, root, run), root, out.fs, cwd) && SameOutside(g, out.fs, cwd)
  {
    var rs := TriedRecords(run, 0);
    InStepIff(env, cwd, f, root, g, run, 0);
    AllTriedReplayable(env, f, root, run, 0);
    ReplayableDispatched(env, rs);
    ReplayInStep(env, cwd, f, root, g, run, 0);
    hide *;
    ChunkedScanIff(env, rs, g);
  }

  // ----- which refusals do something -----

  /** The call of a refused operation that a replay makes and that is not refused. */
  predicate Misfires(g: FileSys, op: Op) {
    || (op.Unlink? && op.path != [] && g.IsDir(op.path) && g.Childless(op.path))
    || (op.Rmdir? && g.Has(op.path) && !g.IsDir(op.path))
  }

  /** Names as the kernel has looked them up before it calls trfs: in directories, and not links to follow. */
  ghost predicate LookedUp(g: FileSys, op: Op) {
    && op.path != [] && Other(op) != [] && g.IsDir(Parent(op.path)) && g.IsDir(Parent(Other(op)))
    && (op.Create? || op.Write? ==> !g.IsLink(op.path))
  }

  /** The strings of the record, and whether the last name is followed. */
  lemma TriedNames(env: Env, cwd: Path, t: Tried, id: nat)
    requires RunsIn(env, cwd) && Loggable(t.op)
    ensures var r := TriedRecord(t, id);
            && WorksIn(env, cwd) && Plain(cwd) && Plain(t.op.path) && t.op.path != [] && r.path == Render(t.op.path)
            && (FollowsLast(r) ==> t.op.Create? || t.op.Write?)
            && (TwoNames(r) ==> (t.op.Hardlink? || t.op.Rename?) && r.kind != TR_SYMLINK
                                && r.aux == Render(Other(t.op)) && Plain(Other(t.op)) && Other(t.op) != [])
  {
    hide Render, Plain, Linux, Bit;
  }

  lemma LookedUpBelow(cwd: Path, op: Op, g: FileSys)
    requires LookedUp(g, Shift(cwd, op)) && op.path != [] && Other(op) != []
    ensures g.IsDir(Parent(cwd + op.path)) && g.IsDir(Parent(cwd + Other(op)))
    ensures op.Create? || op.Write? ==> !g.IsLink(cwd + op.path)
  {
  }

  lemma LookedUpFirst(env: Env, cwd: Path, t: Tried, id: nat, g: FileSys)
    requires RunsIn(env, cwd) && Loggable(t.op) && g.Rooted() && LookedUp(g, Shift(cwd, t.op))
    requires t.op.Write? ==> Ordinary(t.op.flags)
    ensures First(env, TriedRecord(t, id), g) == Ok(cwd + t.op.path)
    ensures TwoNames(TriedRecord(t, id)) ==> Second(env, TriedRecord(t, id), g) == Ok(cwd + Other(t.op))
  {
    var r := TriedRecord(t, id);
    assert Other(t.op) != [];
    TriedNames(env, cwd, t, id);
    LookedUpBelow(cwd, t.op, g);
    hide RunsIn, WorksIn, Loggable, LookedUp, TriedRecord, Render, Plain, Lookup, FirstName, SecondName, FollowsLast,
      TwoNames, Other, Shift, FileSys.Rooted;
    FirstNameIs(env, cwd, r, t.op.path);
    LookupRebased(g, cwd, t.op.path, FollowsLast(r));
    if TwoNames(r) {
      SecondNameIs(env, cwd, r, Other(t.op));
      LookupRebased(g, cwd, Other(t.op), false);
    }
  }

  /**
   * An operation the tree itself refuses is harmless on replay, but for two: an unlink of an empty directory is
   * replayed as a rmdir, and a rmdir of what is none as an unlink.
   */
  lemma RefusedHarmlessIff(env: Env, cwd: Path, t: Tried, id: nat, g: FileSys)
    requires RunsIn(env, cwd) && Loggable(t.op) && g.Sound() && g.Rooted()
    requires LookedUp(g, Shift(cwd, t.op)) && Apply(g, Shift(cwd, t.op)).Err?
    requires t.op.Write? ==> Ordinary(t.op.flags)
    ensures Harmless(env, TriedRecord(t, id), g) <==> !Misfires(g, Shift(cwd, t.op))
  {
    hide *;
    var r := TriedRecord(t, id);
    LookedUpFirst(env, cwd, t, id, g);
    ShiftedPaths(cwd, t.op);
    AtItsPaths(env, cwd, t, id);
    if t.op.Create? || t.op.Mkdir? || t.op.Symlink? {
      RefusedMake(env, r, g, Shift(cwd, t.op));
    } else if t.op.Hardlink? || t.op.Rename? {
      RefusedTwo(env, r, g, Shift(cwd, t.op));
    } else if t.op.Unlink? || t.op.Rmdir? {
      RefusedRemove(env, r, g, Shift(cwd, t.op));
    } else {
      RefusedWrite(env, r, g, Shift(cwd, t.op));
    }
  }

  lemma ShiftedPaths(cwd: Path, op: Op)
    ensures var s := Shift(cwd, op);
            && Kind(s) == Kind(op) && s.path == cwd + op.path && (op.path != [] ==> s.path != [])
            && (s.Create? <==> op.Create?) && (s.Mkdir? <==> op.Mkdir?) && (s.Symlink? <==> op.Symlink?)
            && (s.Hardlink? <==> op.Hardlink?) && (s.Rename? <==> op.Rename?) && (s.Unlink? <==> op.Unlink?)
            && (s.Rmdir? <==> op.Rmdir?) && (s.Write? <==> op.Write?)
            && (s.Write? ==> s.flags == op.flags) && (s.Symlink? ==> s.target == op.target)
            && (s.Hardlink? || s.Rename? ==> s.to == cwd + op.to && Other(op) == op.to)
  {
  }

  /** What the record says of the operation. */
  lemma AtItsPaths(env: Env, cwd: Path, t: Tried, id: nat)
    requires RunsIn(env, cwd) && Loggable(t.op)
    ensures var r := TriedRecord(t, id);
            && env.mode != NoReplay && Dispatched(r.kind) && r.kind == Kind(t.op) && t.op.path != []
            && (TwoNames(r) <==> t.op.Hardlink? || t.op.Rename?)
            && (t.op.Write? ==> r.flags == t.op.flags)
            && (t.op.Symlink? ==> SecondName(env, r) == t.op.target)
  {
    if t.op.Symlink? {
      CStringOfString(t.op.target);
    }
  }

  lemma RefusedMake(env: Env, r: Record, g: FileSys, op: Op)
    requires g.Sound() && (op.Create? || op.Mkdir? || op.Symlink?) && Apply(g, op).Err?
    requires r.kind == Kind(op) && First(env, r, g) == Ok(op.path)
    requires op.Symlink? ==> SecondName(env, r) == op.target
    ensures Harmless(env, r, g) && !Misfires(g, op)
  {
    hide First, SecondName;
  }

  lemma RefusedTwo(env: Env, r: Record, g: FileSys, op: Op)
    requires g.Sound() && (op.Hardlink? || op.Rename?) && Apply(g, op).Err?
    requires r.kind == Kind(op) && First(env, r, g) == Ok(op.path) && Second(env, r, g) == Ok(op.to)
    ensures Harmless(env, r, g) && !Misfires(g, op)
  {
    hide First, Second;
    HardlinkActs(g, op.path, op.to);
    if op.Rename? {
      RefusedRename(g, op.path, op.to);
    }
    hide Apply, Linkable, Movable;
  }

  lemma RefusedRemove(env: Env, r: Record, g: FileSys, op: Op)
    requires g.Sound() && (op.Unlink? || op.Rmdir?) && op.path != [] && Apply(g, op).Err?
    requires env.mode != NoReplay && r.kind == Kind(op) && First(env, r, g) == Ok(op.path)
    ensures Harmless(env, r, g) <==> !Misfires(g, op)
  {
    hide First;
  }

  lemma RefusedWrite(env: Env, r: Record, g: FileSys, op: Op)
    requires g.Sound() && op.Write? && Ordinary(op.flags) && Apply(g, op).Err?
    requires r.kind == Kind(op) && r.flags == op.flags && First(env, r, g) == Ok(op.path)
    ensures Harmless(env, r, g) && !Misfires(g, op)
  {
    hide First;
  }

  lemma RefusedRename(g: FileSys, p: Path, q: Path)
    requires g.Sound() && Apply(g, Rename(p, q)).Err?
    ensures !Movable(g, p, q)
  {
  }

  /**
   * The kernel checks the type of what it is to remove before it calls trfs, on the upper side; the lower one
   * is of that type unless the lower tree has been changed behind trfs.
   */
  predicate TypeChecked(g: FileSys, op: Op) {
    (op.Unlink? ==> !g.IsDir(op.path)) && (op.Rmdir? ==> g.IsDir(op.path))
  }

  /** So of the operations that reach trfs, every one the tree refuses is harmless. */
  lemma RefusedIsHarmless(env: Env, cwd: Path, t: Tried, id: nat, g: FileSys)
    requires RunsIn(env, cwd) && Loggable(t.op) && g.Sound() && g.Rooted()
    requires LookedUp(g, Shift(cwd, t.op)) && TypeChecked(g, Shift(cwd, t.op)) && Apply(g, Shift(cwd, t.op)).Err?
    requires t.op.Write? ==> Ordinary(t.op.flags)
    ensures Harmless(env, TriedRecord(t, id), g)
  {
    RefusedHarmlessIff(env, cwd, t, id, g);
    hide Apply, Harmless, Shift;
  }

  // ----- runs in which every ineffective call was refused -----

  /** The traced tree refused the operation, which the kernel had looked up and type-checked there. */
  ghost predicate Refused(f: FileSys, root: Path, op: Op) {
    && LookedUp(f, Shift(root, op)) && TypeChecked(f, Shift(root, op)) && Apply(f, Shift(root, op)).Err?
    && (op.Write? ==> Ordinary(op.flags))
  }

  /** Every call of the run that took no effect was refused by the tree it met. */
  ghost predicate AllRefused(f: FileSys, root: Path, run: seq<Tried>)
    decreases run
  {
    run == [] || ((!run[0].took ==> Refused(f, root, run[0].op)) && AllRefused(Traced(f, root, run[0]), root, run[1..]))
  }

  /** What is asked of single paths carries over to a twin. */
  lemma TwinTests(f: FileSys, root: Path, g: FileSys, cwd: Path, p: Path)
    requires Twin(f, root, g, cwd)
    ensures f.Has(root + p) <==> g.Has(cwd + p)
    ensures f.Has(root + p) ==> f.At(root + p) == g.At(cwd + p)
  {
    hide Below, Iso;
    BelowTests(f, root, p);
    BelowTests(g, cwd, p);
    SameTests(Below(f, root), Below(g, cwd), p);
  }

  lemma ParentBelow(pre: Path, p: Path)
    requires p != []
    ensures pre + p != [] && Parent(pre + p) == pre + Parent(p)
  {
    assert Parent(pre + p) == pre + Parent(p);
  }

  lemma LookedUpTwin(f: FileSys, root: Path, g: FileSys, cwd: Path, op: Op)
    requires Twin(f, root, g, cwd) && OffRoot(op)
    requires LookedUp(f, Shift(root, op)) && TypeChecked(f, Shift(root, op))
    ensures LookedUp(g, Shift(cwd, op)) && TypeChecked(g, Shift(cwd, op))
  {
    var p, q := op.path, Other(op);
    ParentBelow(root, p);
    ParentBelow(root, q);
    ParentBelow(cwd, p);
    ParentBelow(cwd, q);
    TwinTests(f, root, g, cwd, p);
    TwinTests(f, root, g, cwd, Parent(p));
    TwinTests(f, root, g, cwd, Parent(q));
    ShiftedPaths(root, op);
    ShiftedPaths(cwd, op);
    ShiftedOther(root, op);
    ShiftedOther(cwd, op);
    hide Twin, Shift, Other;
  }

  lemma ShiftedOther(pre: Path, op: Op)
    ensures Other(Shift(pre, op)) == pre + Other(op)
  {
  }

  /** An operation refused on the traced tree is refused on its twin. */
  lemma RefusedTwin(f: FileSys, root: Path, g: FileSys, cwd: Path, op: Op)
    requires Twin(f, root, g, cwd) && OffRoot(op) && Refused(f, root, op)
    ensures Refused(g, cwd, op)
  {
    hide Apply, Iso, Below, LookedUp, TypeChecked, Ordinary;
    LookedUpTwin(f, root, g, cwd, op);
    BelowSound(f, root);
    BelowSound(g, cwd);
    ApplyBelow(f, root, op);
    ApplyBelow(g, cwd, op);
    ApplyIso(Below(f, root), Below(g, cwd), op);
  }

  lemma RefusedStep(env: Env, cwd: Path, f: FileSys, root: Path, g: FileSys, t: Tried, id: nat)
    requires RunsIn(env, cwd) && Loggable(t.op) && Twin(f, root, g, cwd) && Refused(f, root, t.op)
    ensures Harmless(env, TriedRecord(t, id), g) && Perform(env, TriedRecord(t, id), g).fs == g
  {
    assert OffRoot(t.op);
    hide Harmless, Perform, LookedUp, TypeChecked, Apply, Shift, Loggable, TriedRecord;
    TwinSound(f, root, g, cwd);
    RefusedTwin(f, root, g, cwd, t.op);
    RefusedIsHarmless(env, cwd, t, id, g);
    HarmlessIff(env, TriedRecord(t, id), g);
  }

  /** Such a run has no harm in it, whatever tree it is replayed on that starts as its twin. */
  lemma {:induction false} AllRefusedAllHarmless(env: Env, cwd: Path, f: FileSys, root: Path, g: FileSys, run: seq<Tried>, id: nat)
    requires RunsIn(env, cwd) && Happened(env, f, root, run) && AllRefused(f, root, run)
    requires Twin(f, root, g, cwd) && Sealed(g, cwd)
    ensures AllHarmless(env, g, run, id)
    decreases run
  {
    hide Perform, Harmless, Twin, Sealed, SameOutside, Apply, Refused, RunsIn, RecordOf, TriedRecord, Interposes, Traceable,
      Loggable, Rebasable, Shift;
    if run != [] {
      var t := run[0];
      if t.took {
        TookStep(env, cwd, f, root, g, t, id);
      } else {
        RefusedStep(env, cwd, f, root, g, t, id);
      }
      AllRefusedAllHarmless(env, cwd, Traced(f, root, t), root, Perform(env, TriedRecord(t, id), g).fs, run[1..], id + 1);
    }
  }

  /**
   * End to end for these runs: operations that succeed, fail in the interposition, or are refused by the tree.
   * treplay rebuilds it from the log, and nothing is asked of the tree it replays on but to start as a twin.
   */
  lemma ReplayRebuildsRefused(env: Env, cwd: Path, f: FileSys, root: Path, g: FileSys, run: seq<Tried>)
    requires RunsIn(env, cwd) && env.mode == Normal && Happened(env, f, root, run) && AllRefused(f, root, run)
    requires Twin(f, root, g, cwd) && Sealed(g, cwd)
    requires var rs := TriedRecords(run, 0); ChunksStart(0, |EncodeAll(rs)|, rs)
    ensures var out := ReplayFrom(env, EncodeAll(TriedRecords(run, 0)), 0, g, []);
            && out.end == AtEnd
            && Twin(TracedAll(f, root, run), root, out.fs, cwd) && SameOutside(g, out.fs, cwd)
  {
    AllRefusedAllHarmless(env, cwd, f, root, g, run, 0);
    hide *;
    ReplayRebuildsDespiteFailures(env, cwd, f, root, g, run);
  }
}
