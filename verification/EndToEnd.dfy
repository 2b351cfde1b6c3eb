/** From operations to log bytes to a replayed tree: the property the repository exists for. */
module EndToEnd {
  import opened Bytes
  import opened Records
  import opened TraceLog
  import opened FileSystem
  import opened FsLaws
  import opened Resolve
  import opened Replay
  import opened Treplay
  import opened Scan
  import opened Replaying

  function ShiftAll(pre: Path, ops: seq<Op>): seq<Op> {
    if ops == [] then [] else [Shift(pre, ops[0])] + ShiftAll(pre, ops[1..])
  }

  ghost predicate AllTraceable(env: Env, ops: seq<Op>) {
    forall op :: op in ops ==> Traceable(op) && Rebasable(env, op)
  }

  /** The subtrees below the traced mount and below the replaying directory agree. */
  ghost predicate Twin(f: FileSys, root: Path, g: FileSys, cwd: Path) {
    f.Sound() && g.Sound() && g.Rooted() && Iso(Below(f, root), Below(g, cwd))
  }

  /** No inode named below `cwd` has another name elsewhere. */
  ghost predicate Sealed(g: FileSys, cwd: Path) {
    forall x, y :: x in g.names && y in g.names && cwd <= x && !(cwd <= y) ==> g.names[x] != g.names[y]
  }

  /** The name `y` stands for the same inode with the same content, or for none. */
  ghost predicate SameAt(g: FileSys, h: FileSys, y: Path) {
    && (y in g.names <==> y in h.names)
    && (y in g.names ==> g.names[y] == h.names[y] && g.Has(y) && h.Has(y) && g.At(y) == h.At(y))
  }

  /** Outside `cwd` the two file systems have the same names, inodes and contents. */
  ghost predicate SameOutside(g: FileSys, h: FileSys, cwd: Path) {
    forall y :: !(cwd <= y) ==> SameAt(g, h, y)
  }

  lemma SameOutsideTransitive(a: FileSys, b: FileSys, c: FileSys, cwd: Path)
    requires SameOutside(a, b, cwd) && SameOutside(b, c, cwd)
    ensures SameOutside(a, c, cwd)
  {
    forall y | !(cwd <= y) ensures SameAt(a, c, y) {
      assert SameAt(a, b, y) && SameAt(b, c, y);
    }
  }

  lemma BelowSound(f: FileSys, pre: Path)
    requires f.Sound()
    ensures Below(f, pre).Sound()
  {
  }

  /** An operation that succeeds on the traced tree succeeds on its twin, and leaves twins. */
  lemma TwinStep(f: FileSys, root: Path, g: FileSys, cwd: Path, op: Op)
    requires Twin(f, root, g, cwd) && OffRoot(op) && Apply(f, Shift(root, op)).Ok?
    ensures Apply(g, Shift(cwd, op)).Ok?
    ensures Twin(Apply(f, Shift(root, op)).value, root, Apply(g, Shift(cwd, op)).value, cwd)
  {
    hide Apply, Iso, Below;
    BelowSound(f, root);
    BelowSound(g, cwd);
    ApplyBelow(f, root, op);
    ApplyBelow(g, cwd, op);
    ApplyIso(Below(f, root), Below(g, cwd), op);
    ApplySound(f, Shift(root, op));
    ApplySound(g, Shift(cwd, op));
    ApplyRooted(g, Shift(cwd, op));
  }

  lemma ShiftStaysBelow(cwd: Path, op: Op)
    ensures cwd <= Shift(cwd, op).path && cwd <= Other(Shift(cwd, op))
  {
  }

  lemma PrefixTransitive(a: Path, b: Path, c: Path)
    requires a <= b && b <= c
    ensures a <= c
  {
  }

  lemma SameAtStep(g: FileSys, cwd: Path, op: Op, y: Path)
    requires g.Sound() && Sealed(g, cwd) && Apply(g, op).Ok?
    requires cwd <= op.path && cwd <= Other(op) && !(cwd <= y)
    ensures SameAt(g, Apply(g, op).value, y)
  {
    assert op.Write? ==> op.path in g.names;
    hide Apply;
    assert !(op.path <= y) by {
      if op.path <= y { PrefixTransitive(cwd, op.path, y); }
    }
    assert !(Other(op) <= y) by {
      if Other(op) <= y { PrefixTransitive(cwd, Other(op), y); }
    }
    ApplyFrame(g, op, y);
    if y in g.names {
      ApplyFrameNodes(g, op, g.names[y]);
    }
  }

  /** Every name of `h` below `cwd` has an inode that is new since `g` or was already named there. */
  ghost predicate FreshOrInside(g: FileSys, h: FileSys, cwd: Path) {
    forall x :: x in h.names && cwd <= x ==> h.names[x] == g.next || NamedInside(g, cwd, h.names[x])
  }

  ghost predicate NamedInside(g: FileSys, cwd: Path, i: Ino) {
    exists x :: x in g.names && cwd <= x && g.names[x] == i
  }

  lemma StaysSealed(g: FileSys, h: FileSys, cwd: Path)
    requires g.Sound() && Sealed(g, cwd) && SameOutside(g, h, cwd) && FreshOrInside(g, h, cwd)
    ensures Sealed(h, cwd)
  {
    forall x, y | x in h.names && y in h.names && cwd <= x && !(cwd <= y) ensures h.names[x] != h.names[y] {
      assert SameAt(g, h, y);
      assert h.names[x] == g.next || NamedInside(g, cwd, h.names[x]);
    }
  }

  /** An operation below a sealed directory changes nothing outside it and keeps it sealed. */
  lemma StepOutside(g: FileSys, cwd: Path, op: Op)
    requires g.Sound() && Sealed(g, cwd) && Apply(g, Shift(cwd, op)).Ok?
    ensures SameOutside(g, Apply(g, Shift(cwd, op)).value, cwd)
    ensures Sealed(Apply(g, Shift(cwd, op)).value, cwd)
  {
    hide Apply, Sealed, SameAt;
    var op' := Shift(cwd, op);
    ShiftStaysBelow(cwd, op);
    hide Shift;
    forall y | !(cwd <= y) ensures SameAt(g, Apply(g, op').value, y) {
      SameAtStep(g, cwd, op', y);
    }
    NewNamesInside(g, cwd, op');
    StaysSealed(g, Apply(g, op').value, cwd);
  }

  lemma BelowAfter(cwd: Path, p: Path, t: Path)
    requires cwd <= p
    ensures cwd <= p + t
  {
  }

  /** After an operation below `cwd`, a name there has a fresh inode or one that was already named there. */
  lemma NewNamesInside(g: FileSys, cwd: Path, op: Op)
    requires g.Sound() && Apply(g, op).Ok? && cwd <= op.path && cwd <= Other(op)
    ensures FreshOrInside(g, Apply(g, op).value, cwd)
  {
    var h := Apply(g, op).value;
    forall x | x in h.names && cwd <= x
      ensures h.names[x] == g.next || NamedInside(g, cwd, h.names[x]) {
      if op.Rename? && op.to <= x && h != g {
        var x' := op.path + x[|op.to|..];
        BelowAfter(cwd, op.path, x[|op.to|..]);
        assert x' in g.names && g.names[x'] == h.names[x];
      } else if op.Hardlink? && x == op.to {
        assert op.path in g.names && g.names[op.path] == h.names[x];
      }
    }
  }

  /** Every operation of the run replays to itself: twins stay twins, and nothing else is touched. */
  lemma {:induction false} ReplayOfRun(env: Env, cwd: Path, f: FileSys, root: Path, g: FileSys, ops: seq<Op>, id: nat)
    requires RunsIn(env, cwd) && AllTraceable(env, ops)
    requires Twin(f, root, g, cwd) && Run(f, ShiftAll(root, ops)).Ok?
    ensures var r := ReplayList(env, RecordsOf(ops, id), g);
            && !r.halted
            && AllGood(env, RecordsOf(ops, id), g)
            && Twin(Run(f, ShiftAll(root, ops)).value, root, r.fs, cwd)
            && (Sealed(g, cwd) ==> SameOutside(g, r.fs, cwd) && Sealed(r.fs, cwd))
    decreases ops
  {
    hide Apply, Perform, RecordOf, Shift, Twin, Sealed, SameOutside, RunsIn, Traceable, Rebasable;
    if ops == [] {
      SameOutsideSelf(f, root, g, cwd);
    } else {
      var op, rest := ops[0], ops[1..];
      assert op in ops;
      assert ShiftAll(root, ops)[1..] == ShiftAll(root, rest);
      assert RecordsOf(ops, id)[1..] == RecordsOf(rest, id + 1);
      OffTheRoot(op);
      TwinStep(f, root, g, cwd, op);
      TwinSound(f, root, g, cwd);
      ReplayIsApply(env, cwd, op, id, g);
      var f', g' := Apply(f, Shift(root, op)).value, Apply(g, Shift(cwd, op)).value;
      ReplayOfRun(env, cwd, f', root, g', rest, id + 1);
      if Sealed(g, cwd) {
        StepOutside(g, cwd, op);
        SameOutsideTransitive(g, g', ReplayList(env, RecordsOf(rest, id + 1), g').fs, cwd);
      }
    }
  }

  lemma OffTheRoot(op: Op)
    requires Traceable(op)
    ensures OffRoot(op)
  {
  }

  lemma TwinSound(f: FileSys, root: Path, g: FileSys, cwd: Path)
    requires Twin(f, root, g, cwd)
    ensures g.Sound() && g.Rooted()
  {
  }

  lemma SameOutsideSelf(f: FileSys, root: Path, g: FileSys, cwd: Path)
    requires Twin(f, root, g, cwd)
    ensures SameOutside(g, g, cwd)
  {
  }

  // ----- the bytes in between -----

  /** The appends of a run: every write is full and every kind is selected by the mask. */
  function Attempts(rs: seq<Record>): (run: seq<Attempt>)
    ensures |run| == |rs|
  {
    if rs == [] then [] else [Attempt(rs[0], 0x8000, 0x8000)] + Attempts(rs[1..])
  }

  /** The trace file of a run on a freshly mounted trfs. */
  function LogOf(ops: seq<Op>): seq<byte>
    requires forall op :: op in ops ==> Traceable(op)
  {
    AttemptsFit(ops, 0);
    AppendRun([], Attempts(RecordsOf(ops, 0)))
  }

  lemma {:induction false} AttemptsFit(ops: seq<Op>, id: nat)
    requires forall op :: op in ops ==> Traceable(op)
    ensures forall a :: a in Attempts(RecordsOf(ops, id)) ==> a.Fit() && a.Atomic()
    ensures Kept(Attempts(RecordsOf(ops, id))) == RecordsOf(ops, id)
    decreases ops
  {
    if ops != [] {
      assert ops[0] in ops;
      RecordWellFormed(ops[0], id);
      AttemptsFit(ops[1..], id + 1);
      var rs := RecordsOf(ops, id);
      assert rs[1..] == RecordsOf(ops[1..], id + 1);
      assert Attempts(rs)[1..] == Attempts(rs[1..]);
    }
  }

  lemma LogIsEncoding(ops: seq<Op>)
    requires forall op :: op in ops ==> Traceable(op)
    ensures LogOf(ops) == EncodeAll(RecordsOf(ops, 0))
  {
    AttemptsFit(ops, 0);
    LogOfRun([], Attempts(RecordsOf(ops, 0)));
    assert [] + RecordsOf(ops, 0) == RecordsOf(ops, 0);
  }

  lemma {:induction false} RecordsReplayable(env: Env, ops: seq<Op>, id: nat)
    requires AllTraceable(env, ops)
    ensures AllReplayable(env, RecordsOf(ops, id))
    decreases ops
  {
    if ops != [] {
      assert ops[0] in ops;
      RecordReplayable(env, ops[0], id);
      RecordsReplayable(env, ops[1..], id + 1);
    }
  }

  /** A log treplay can read: every chunk of 16384 bytes starts with a record. */
  ghost predicate Aligned(ops: seq<Op>) {
    var rs := RecordsOf(ops, 0);
    ChunksStart(0, |EncodeAll(rs)|, rs)
  }

  /**
   * The end-to-end theorem. Take any run of successful traced operations below `root`, and any tree whose
   * part below `cwd` equals the starting tree up to inode numbers. Running treplay in `cwd` on the bytes the
   * run logged, in strict mode or not, reaches the end of the log and rebuilds the final tree: names,
   * modes, contents, link texts and hard-link sharing. If `cwd` shares no inode with the rest of the file
   * system, nothing outside it changes.
   */
  lemma ReplayRebuildsTree(env: Env, cwd: Path, f: FileSys, root: Path, g: FileSys, ops: seq<Op>)
    requires RunsIn(env, cwd) && AllTraceable(env, ops) && Aligned(ops)
    requires Twin(f, root, g, cwd) && Run(f, ShiftAll(root, ops)).Ok?
    ensures var out := ReplayFrom(env, LogOf(ops), 0, g, []);
            && out.end == AtEnd
            && Twin(Run(f, ShiftAll(root, ops)).value, root, out.fs, cwd)
            && (Sealed(g, cwd) ==> SameOutside(g, out.fs, cwd))
  {
    hide *;
    var rs := RecordsOf(ops, 0);
    var final := Run(f, ShiftAll(root, ops)).value;
    assert forall op :: op in ops ==> Traceable(op) by { EachTraceable(env, ops); }
    LogIsEncoding(ops);
    RecordsReplayable(env, ops, 0);
    ReplayOfRun(env, cwd, f, root, g, ops, 0);
    ScanExact(env, [], rs, g, []);
    assert [] + EncodeAll(rs) == EncodeAll(rs);
    AlignedIsWhole(ops);
    ScannedWhole(env, rs, g);
  }

  lemma EachTraceable(env: Env, ops: seq<Op>)
    requires AllTraceable(env, ops)
    ensures forall op :: op in ops ==> Traceable(op)
  {
  }

  lemma AlignedIsWhole(ops: seq<Op>)
    ensures var rs := RecordsOf(ops, 0); Aligned(ops) <==> Whole(0, |EncodeAll(rs)|, rs) == |rs|
  {
    hide RecordsOf, EncodeAll, Whole, ChunksStart;
    AlignedIff(0, RecordsOf(ops, 0));
  }

  lemma ScannedWhole(env: Env, rs: seq<Record>, g: FileSys)
    requires Whole(0, |EncodeAll(rs)|, rs) == |rs| && !ReplayList(env, rs, g).halted
    ensures var out := Scanned(env, 0, |EncodeAll(rs)|, rs, g, []);
            out.end == AtEnd && out.fs == ReplayList(env, rs, g).fs
  {
    hide Perform, EncodeAll, Whole;
    assert rs[..|rs|] == rs;
  }

  /** A log of at most one chunk is aligned. */
  lemma SmallLogAligned(ops: seq<Op>)
    requires forall op :: op in ops ==> Traceable(op)
    requires |LogOf(ops)| <= 16384
    ensures Aligned(ops)
  {
    hide *;
    LogIsEncoding(ops);
    SmallLogIsWhole(RecordsOf(ops, 0));
    AlignedIsWhole(ops);
  }

  lemma TwinIso(f: FileSys, root: Path, g: FileSys, cwd: Path)
    requires Twin(f, root, g, cwd)
    ensures Iso(Below(f, root), Below(g, cwd))
  {
  }
}
