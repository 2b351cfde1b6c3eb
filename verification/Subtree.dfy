/**
 * What a replay does below its directory depends on nothing but what is there: the same log leaves the same
 * subtree in any two directories that start out alike, whatever fails on the way.
 */
module Subtree {
  import opened Bytes
  import opened Records
  import opened FileSystem
  import opened FsLaws
  import opened Resolve
  import opened Syscalls
  import opened Replay
  import opened Treplay
  import opened Scan
  import opened Replaying
  import opened EndToEnd
  import opened Locality

  // ----- two directories that are alike -----

  ghost predicate Place(g: FileSys, cwd: Path) { g.Sound() && g.Rooted() && g.IsDir(cwd) }

  ghost predicate Alike(g: FileSys, cwd: Path, g': FileSys, cwd': Path) {
    Place(g, cwd) && Place(g', cwd') && Iso(Below(g, cwd), Below(g', cwd'))
  }

  lemma AlikeAt(g: FileSys, cwd: Path, g': FileSys, cwd': Path, p: Path)
    requires Alike(g, cwd, g', cwd')
    ensures cwd + p in g.names <==> cwd' + p in g'.names
    ensures g.Has(cwd + p) <==> g'.Has(cwd' + p)
    ensures g.Has(cwd + p) ==> g.At(cwd + p) == g'.At(cwd' + p)
  {
    hide Below, FileSys.Sound, FileSys.Rooted, Iso;
    BelowTests(g, cwd, p);
    BelowTests(g', cwd', p);
    SameTests(Below(g, cwd), Below(g', cwd'), p);
  }

  lemma ShiftGoesDown(cwd: Path, op: Op)
    requires OffRoot(op)
    ensures !(Shift(cwd, op).path <= cwd) && !(Other(Shift(cwd, op)) <= cwd)
  {
    assert |Shift(cwd, op).path| > |cwd| && |Other(Shift(cwd, op))| > |cwd|;
  }

  lemma WorkingDirectoryStays(g: FileSys, cwd: Path, op: Op)
    requires g.Sound() && g.IsDir(cwd) && OffRoot(op) && Apply(g, Shift(cwd, op)).Ok?
    ensures Apply(g, Shift(cwd, op)).value.IsDir(cwd)
  {
    var op' := Shift(cwd, op);
    assert op'.Write? ==> op'.path in g.names && g.At(op'.path).File?;
    hide Apply;
    ShiftGoesDown(cwd, op);
    ApplyFrame(g, op', cwd);
    ApplyFrameNodes(g, op', g.names[cwd]);
  }

  lemma PlaceStays(g: FileSys, cwd: Path, op: Op)
    requires Place(g, cwd) && OffRoot(op) && Apply(g, Shift(cwd, op)).Ok?
    ensures Place(Apply(g, Shift(cwd, op)).value, cwd)
  {
    hide Apply;
    ApplySound(g, Shift(cwd, op));
    ApplyRooted(g, Shift(cwd, op));
    WorkingDirectoryStays(g, cwd, op);
  }

  /** The same operation below both succeeds or fails alike and leaves them alike. */
  lemma AlikeApply(g: FileSys, cwd: Path, g': FileSys, cwd': Path, op: Op)
    requires Alike(g, cwd, g', cwd') && OffRoot(op)
    ensures match (Apply(g, Shift(cwd, op)), Apply(g', Shift(cwd', op)))
            case (Ok(x), Ok(y)) => Alike(x, cwd, y, cwd')
            case (Err(x), Err(y)) => x == y
            case _ => false
  {
    hide Apply, Iso, Below, Shift;
    BelowSound(g, cwd);
    BelowSound(g', cwd');
    ApplyBelow(g, cwd, op);
    ApplyBelow(g', cwd', op);
    ApplyIso(Below(g, cwd), Below(g', cwd'), op);
    if Apply(g, Shift(cwd, op)).Ok? {
      PlaceStays(g, cwd, op);
      PlaceStays(g', cwd', op);
    }
  }

  lemma PutPlace(g: FileSys, cwd: Path, p: Path, data: seq<byte>)
    requires Place(g, cwd) && g.Has(cwd + p) && g.At(cwd + p).File?
    ensures Place(g.Put(cwd + p, data), cwd)
    ensures Below(g, cwd).Has(p) && Below(g, cwd).At(p) == g.At(cwd + p)
    ensures Below(g.Put(cwd + p, data), cwd) == Below(g, cwd).Put(p, data)
  {
    PutRooted(g, cwd + p, data);
    BelowTests(g, cwd, p);
  }

  lemma AlikePut(g: FileSys, cwd: Path, g': FileSys, cwd': Path, p: Path, data: seq<byte>)
    requires Alike(g, cwd, g', cwd') && g.Has(cwd + p) && g.At(cwd + p).File?
    ensures g'.Has(cwd' + p) && g'.At(cwd' + p).File?
    ensures Alike(g.Put(cwd + p, data), cwd, g'.Put(cwd' + p, data), cwd')
  {
    AlikeAt(g, cwd, g', cwd', p);
    hide Place, Iso, Below;
    PutPlace(g, cwd, p, data);
    PutPlace(g', cwd', p, data);
    PutIso(Below(g, cwd), Below(g', cwd'), p, data);
  }

  // ----- lookups -----

  /** The lookup of `s` goes the same way wherever the directory lies. */
  predicate AtHome(b: FileSys, s: seq<byte>, follow: bool) {
    StartsSlash(s) && Homely(b, [], Split(s), follow, MAXSYMLINKS)
  }

  /** It then arrives at corresponding places in both directories, or in neither anywhere. */
  lemma AlikeLookup(g: FileSys, cwd: Path, g': FileSys, cwd': Path, s: seq<byte>, follow: bool)
    requires Alike(g, cwd, g', cwd') && Plain(cwd) && Plain(cwd') && AtHome(Below(g, cwd), s, follow)
    ensures var w := Lookup(Below(g, cwd), s, follow);
            Lookup(g, Render(cwd) + s, follow) == Lifted(cwd, w) && Lookup(g', Render(cwd') + s, follow) == Lifted(cwd', w)
  {
    hide Render, Walk, Homely, Below, Iso, Split;
    WalkIso(Below(g, cwd), Below(g', cwd'), [], Split(s), follow, MAXSYMLINKS);
    LookupBelow(g, cwd, s, follow);
    LookupBelow(g', cwd', s, follow);
  }

  // ----- one record -----

  /** Where the names of the record lead in the subtree on its own. */
  function FirstHome(r: Record, b: FileSys): Result<Path> { Lookup(b, CString(r.path), FollowsLast(r)) }

  function SecondHome(r: Record, b: FileSys): Result<Path> { Lookup(b, CString(r.aux), false) }

  /** Removing or renaming the directory itself depends on where it lies. */
  predicate OffTop(r: Record, b: FileSys) {
    && (r.kind == TR_UNLINK || r.kind == TR_RENAME ==> FirstHome(r, b) != Ok([]))
    && (r.kind == TR_RENAME ==> SecondHome(r, b) != Ok([]))
  }

  /** A record, of any bytes, whose names go the same way wherever the directory lies. */
  predicate HomeRecord(r: Record, b: FileSys) {
    && AtHome(b, CString(r.path), FollowsLast(r)) && (TwoNames(r) ==> AtHome(b, CString(r.aux), false))
    && OffTop(r, b)
  }

  /** The same options, so that nothing but the directory differs. */
  ghost predicate SameOptions(env: Env, env': Env) { env' == env.(cwd := env'.cwd) }

  lemma NamesInside(env: Env, cwd: Path, r: Record)
    requires WorksIn(env, cwd)
    ensures FirstName(env, r) == Render(cwd) + CString(r.path) && Plain(cwd)
    ensures TwoNames(r) ==> SecondName(env, r) == Render(cwd) + CString(r.aux)
  {
  }

  /** The ends of its names correspond. */
  lemma AlikeEnds(env: Env, cwd: Path, env': Env, cwd': Path, r: Record, g: FileSys, g': FileSys)
    requires WorksIn(env, cwd) && WorksIn(env', cwd') && Alike(g, cwd, g', cwd') && HomeRecord(r, Below(g, cwd))
    ensures First(env, r, g) == Lifted(cwd, FirstHome(r, Below(g, cwd)))
    ensures First(env', r, g') == Lifted(cwd', FirstHome(r, Below(g, cwd)))
    ensures TwoNames(r) ==> Second(env, r, g) == Lifted(cwd, SecondHome(r, Below(g, cwd)))
                            && Second(env', r, g') == Lifted(cwd', SecondHome(r, Below(g, cwd)))
  {
    NamesInside(env, cwd, r);
    NamesInside(env', cwd', r);
    hide FirstName, SecondName, Lookup, Render, Alike, CString;
    AlikeLookup(g, cwd, g', cwd', CString(r.path), FollowsLast(r));
    if TwoNames(r) {
      AlikeLookup(g, cwd, g', cwd', CString(r.aux), false);
    }
  }

  /** The operation of the record, on paths below the directory. */
  function Inner(env: Env, r: Record, g: FileSys, cwd: Path, p: Path, q: Path): Op {
    OpOf(env, r, Below(g, cwd), p, q)
  }

  lemma DirBelow(g: FileSys, cwd: Path, p: Path)
    ensures Below(g, cwd).IsDir(p) <==> g.IsDir(cwd + p)
  {
    BelowTests(g, cwd, p);
  }

  lemma AlikeDir(g: FileSys, cwd: Path, g': FileSys, cwd': Path, p: Path)
    requires Alike(g, cwd, g', cwd')
    ensures g.IsDir(cwd + p) <==> g'.IsDir(cwd' + p)
  {
    AlikeAt(g, cwd, g', cwd', p);
  }

  lemma InnerShifted(env: Env, cwd: Path, r: Record, g: FileSys, p: Path, q: Path)
    requires p != [] && q != []
    ensures OffRoot(Inner(env, r, g, cwd, p, q))
    ensures OpOf(env, r, g, cwd + p, cwd + q) == Shift(cwd, Inner(env, r, g, cwd, p, q))
  {
    hide SecondName, Perm, Below, FileSys.IsDir;
    DirBelow(g, cwd, p);
  }

  lemma InnerAlike(env: Env, cwd: Path, env': Env, cwd': Path, r: Record, g: FileSys, g': FileSys, p: Path, q: Path)
    requires SameOptions(env, env') && Alike(g, cwd, g', cwd')
    ensures Inner(env, r, g, cwd, p, q) == Inner(env', r, g', cwd', p, q)
  {
    hide Bits, Below, FileSys.IsDir, Alike;
    AlikeDir(g, cwd, g', cwd', p);
    DirBelow(g, cwd, p);
    DirBelow(g', cwd', p);
  }

  /** Two dispatches that come to the same. */
  ghost predicate SameDid(d: Did, cwd: Path, d': Did, cwd': Path) {
    d.good == d'.good && d.halt == d'.halt && Alike(d.fs, cwd, d'.fs, cwd')
  }

  /** What makes a name fails at the top, and so does linking the top or to it. */
  lemma TopRefuses(g: FileSys, cwd: Path, op: Op)
    requires g.IsDir(cwd)
    requires op.Create? || op.Mkdir? || op.Symlink? || op.Hardlink?
    requires op.path == cwd || (op.Hardlink? && op.to == cwd)
    ensures Apply(g, op).Err?
  {
  }

  lemma CallAlike(env: Env, cwd: Path, env': Env, cwd': Path, r: Record, g: FileSys, g': FileSys)
    requires WorksIn(env, cwd) && WorksIn(env', cwd') && SameOptions(env, env') && Alike(g, cwd, g', cwd')
    requires HomeRecord(r, Below(g, cwd))
    requires env.mode != NoReplay && Dispatched(r.kind) && r.kind != TR_FWRITE
    ensures SameDid(Perform(env, r, g), cwd, Perform(env', r, g'), cwd')
  {
    var b := Below(g, cwd);
    AlikeEnds(env, cwd, env', cwd', r, g, g');
    CallActs(env, r, g);
    CallActs(env', r, g');
    if FirstHome(r, b).Ok? && (TwoNames(r) ==> SecondHome(r, b).Ok?) {
      var p := FirstHome(r, b).value;
      var q := if TwoNames(r) then SecondHome(r, b).value else p;
      OpAlike(env, cwd, env', cwd', r, p, q, g, g');
      AlikeAt(g, cwd, g', cwd', p);
      hide First, Second, FirstHome, SecondHome, Perform, Alike, OpOf, Apply;
    } else {
      hide First, Second, FirstHome, SecondHome, Perform, Alike, OpOf, Apply;
    }
  }

  lemma OpAlike(env: Env, cwd: Path, env': Env, cwd': Path, r: Record, p: Path, q: Path, g: FileSys, g': FileSys)
    requires SameOptions(env, env') && Alike(g, cwd, g', cwd') && (TwoNames(r) || q == p)
    requires Dispatched(r.kind) && r.kind != TR_FWRITE
    requires r.kind == TR_UNLINK || r.kind == TR_RENAME ==> p != [] && q != []
    ensures match (Apply(g, OpOf(env, r, g, cwd + p, cwd + q)), Apply(g', OpOf(env', r, g', cwd' + p, cwd' + q)))
            case (Ok(x), Ok(y)) => Alike(x, cwd, y, cwd')
            case (Err(x), Err(y)) => true
            case _ => false
  {
    if p == [] || q == [] {
      assert cwd + [] == cwd && cwd' + [] == cwd';
      hide Apply;
      TopRefuses(g, cwd, OpOf(env, r, g, cwd + p, cwd + q));
      TopRefuses(g', cwd', OpOf(env', r, g', cwd' + p, cwd' + q));
    } else {
      hide *;
      InnerShifted(env, cwd, r, g, p, q);
      InnerShifted(env', cwd', r, g', p, q);
      InnerAlike(env, cwd, env', cwd', r, g, g', p, q);
      AlikeApply(g, cwd, g', cwd', Inner(env, r, g, cwd, p, q));
    }
  }

  lemma OpenAlike(g: FileSys, cwd: Path, g': FileSys, cwd': Path, p: Path, flags: nat, mode: nat)
    requires Alike(g, cwd, g', cwd')
    ensures match (OpenAt(g, cwd + p, flags, mode), OpenAt(g', cwd' + p, flags, mode))
            case (Ok(x), Ok(y)) => Alike(x, cwd, y, cwd')
            case (Err(_), Err(_)) => true
            case _ => false
  {
    hide *;
    AlikeAt(g, cwd, g', cwd', p);
    OpenMatches(g, cwd + p, g', cwd' + p, flags, mode);
    if !g.Has(cwd + p) {
      TopIsThere(g, cwd, g', cwd', p);
      ShiftedCreate(cwd, p, mode);
      ShiftedCreate(cwd', p, mode);
      AlikeApply(g, cwd, g', cwd', Create(p, mode));
    } else if g.At(cwd + p).File? {
      AlikePut(g, cwd, g', cwd', p, []);
    }
  }

  lemma TopIsThere(g: FileSys, cwd: Path, g': FileSys, cwd': Path, p: Path)
    requires Alike(g, cwd, g', cwd') && !g.Has(cwd + p)
    ensures p != []
  {
    assert cwd + [] == cwd;
  }

  lemma ShiftedCreate(cwd: Path, p: Path, mode: nat)
    requires p != []
    ensures Shift(cwd, Create(p, mode)) == Create(cwd + p, mode) && OffRoot(Create(p, mode))
  {
  }

  /** open goes by what is at its path. */
  lemma OpenMatches(g: FileSys, p: Path, g': FileSys, p': Path, flags: nat, mode: nat)
    requires (g.Has(p) <==> g'.Has(p')) && (g.Has(p) ==> g.At(p) == g'.At(p'))
    ensures var o, o' := OpenAt(g, p, flags, mode), OpenAt(g', p', flags, mode);
            || (o.Err? && o'.Err?)
            || (o == Ok(g) && o' == Ok(g'))
            || (!g.Has(p) && o == Apply(g, Create(p, mode)) && o' == Apply(g', Create(p', mode)))
            || (g.Has(p) && g.At(p).File? && o == Ok(g.Put(p, [])) && o' == Ok(g'.Put(p', [])))
  {
    hide Apply;
  }

  lemma NoDirectoryWritten(g: FileSys, cwd: Path, flags: nat, data: seq<byte>)
    requires g.IsDir(cwd)
    ensures WriteCall(g, cwd, flags, data).Err?
  {
  }

  lemma WriteShifted(g: FileSys, cwd: Path, p: Path, flags: nat, data: seq<byte>)
    requires p != []
    ensures var op := Write(p, flags, Appends(flags), 0, data);
            OffRoot(op) && WriteCall(g, cwd + p, flags, data) == Apply(g, Shift(cwd, op))
  {
    hide Apply;
  }

  lemma PlacesAreDirs(g: FileSys, cwd: Path, g': FileSys, cwd': Path)
    requires Alike(g, cwd, g', cwd')
    ensures g.IsDir(cwd) && g'.IsDir(cwd') && cwd + [] == cwd && cwd' + [] == cwd'
  {
  }

  lemma WriteCallAlike(g: FileSys, cwd: Path, g': FileSys, cwd': Path, p: Path, flags: nat, data: seq<byte>)
    requires Alike(g, cwd, g', cwd')
    ensures match (WriteCall(g, cwd + p, flags, data), WriteCall(g', cwd' + p, flags, data))
            case (Ok(x), Ok(y)) => Alike(x, cwd, y, cwd')
            case (Err(_), Err(_)) => true
            case _ => false
  {
    hide *;
    if p == [] {
      PlacesAreDirs(g, cwd, g', cwd');
      NoDirectoryWritten(g, cwd, flags, data);
      NoDirectoryWritten(g', cwd', flags, data);
    } else {
      WriteShifted(g, cwd, p, flags, data);
      WriteShifted(g', cwd', p, flags, data);
      AlikeApply(g, cwd, g', cwd', Write(p, flags, Appends(flags), 0, data));
    }
  }

  lemma OpensAt(env: Env, r: Record, g: FileSys)
    requires env.os == Linux() && r.kind == TR_FWRITE
    ensures var o, l := OpenForWrite(env, FirstName(env, r), r.flags, g), First(env, r, g);
            if l.Err? then o.Err?
            else
              var at := OpenAt(g, l.value, r.flags, Bits(env.stray, env.umask, FILE_MODE_BITS));
              if at.Err? then o.Err? else o == Ok(Opened(at.value, l.value))
  {
    hide Lookup, OpenAt, FirstName, Bits;
    assert OpenForWrite(env, FirstName(env, r), r.flags, g)
        == OpenCall(g, FirstName(env, r), r.flags, Bits(env.stray, env.umask, FILE_MODE_BITS));
  }

  /** The two opens. */
  lemma OpensAlike(env: Env, cwd: Path, env': Env, cwd': Path, r: Record, g: FileSys, g': FileSys)
    requires WorksIn(env, cwd) && WorksIn(env', cwd') && SameOptions(env, env') && Alike(g, cwd, g', cwd')
    requires HomeRecord(r, Below(g, cwd)) && r.kind == TR_FWRITE
    ensures var o, o' := OpenForWrite(env, FirstName(env, r), r.flags, g), OpenForWrite(env', FirstName(env', r), r.flags, g');
            || (o.Err? && o'.Err?)
            || (o.Ok? && o'.Ok? && Alike(o.value.fs, cwd, o'.value.fs, cwd')
                && exists p :: o.value.path == cwd + p && o'.value.path == cwd' + p)
  {
    AlikeEnds(env, cwd, env', cwd', r, g, g');
    OpensAt(env, r, g);
    OpensAt(env', r, g');
    hide First, FirstHome, Alike, OpenAt, OpenForWrite, FirstName, SecondName, Bits, HomeRecord, WorksIn;
    if FirstHome(r, Below(g, cwd)).Ok? {
      OpenAlike(g, cwd, g', cwd', FirstHome(r, Below(g, cwd)).value, r.flags, Bits(env.stray, env.umask, FILE_MODE_BITS));
    }
  }

  /** What a write record does after its open. */
  lemma WriteOutcome(env: Env, r: Record, g: FileSys)
    requires env.mode != NoReplay && r.kind == TR_FWRITE && env.os == Linux()
    ensures var o, d := OpenForWrite(env, FirstName(env, r), r.flags, g), Perform(env, r, g);
            if o.Err? then d == Did(g, false, env.mode == Strict)
            else if env.mode == Strict && r.result < 0 then d == Did(o.value.fs, false, true)
            else
              var w := WriteCall(o.value.fs, o.value.path, r.flags, r.aux);
              var good := w.Ok? && r.result >= 0;
              d == Did(After(o.value.fs, w), good, env.mode == Strict && !good)
  {
    hide OpenForWrite, FirstName, SecondName, WriteCall;
  }

  lemma WriteAlike(env: Env, cwd: Path, env': Env, cwd': Path, r: Record, g: FileSys, g': FileSys)
    requires WorksIn(env, cwd) && WorksIn(env', cwd') && SameOptions(env, env') && Alike(g, cwd, g', cwd')
    requires HomeRecord(r, Below(g, cwd)) && env.mode != NoReplay && r.kind == TR_FWRITE
    ensures SameDid(Perform(env, r, g), cwd, Perform(env', r, g'), cwd')
  {
    WriteOutcome(env, r, g);
    WriteOutcome(env', r, g');
    hide Alike, OpenForWrite, FirstName, SecondName, WriteCall, Perform, HomeRecord, WorksIn;
    OpensAlike(env, cwd, env', cwd', r, g, g');
    var o, o' := OpenForWrite(env, FirstName(env, r), r.flags, g), OpenForWrite(env', FirstName(env', r), r.flags, g');
    if o.Ok? {
      var p :| o.value.path == cwd + p && o'.value.path == cwd' + p;
      WriteCallAlike(o.value.fs, cwd, o'.value.fs, cwd', p, r.flags, r.aux);
    }
  }

  /** A record that goes the same way wherever the directory lies does the same in both. */
  lemma PerformAlike(env: Env, cwd: Path, env': Env, cwd': Path, r: Record, g: FileSys, g': FileSys)
    requires WorksIn(env, cwd) && WorksIn(env', cwd') && SameOptions(env, env') && Alike(g, cwd, g', cwd')
    requires HomeRecord(r, Below(g, cwd))
    ensures SameDid(Perform(env, r, g), cwd, Perform(env', r, g'), cwd')
  {
    hide Alike, HomeRecord, WorksIn;
    if env.mode != NoReplay && Dispatched(r.kind) {
      hide Perform;
      if r.kind == TR_FWRITE {
        WriteAlike(env, cwd, env', cwd', r, g, g');
      } else {
        CallAlike(env, cwd, env', cwd', r, g, g');
      }
    }
  }

  // ----- lists and logs -----

  /** Every record goes the same way wherever the directory lies, when its turn comes. */
  predicate AllHome(env: Env, cwd: Path, rs: seq<Record>, g: FileSys)
    decreases rs
  {
    rs == [] ||
    (HomeRecord(rs[0], Below(g, cwd))
     && (Perform(env, rs[0], g).halt || AllHome(env, cwd, rs[1..], Perform(env, rs[0], g).fs)))
  }

  /** The same records leave like directories alike, and stop at the same one if they stop. */
  lemma {:induction false} ReplayAlike(env: Env, cwd: Path, env': Env, cwd': Path, rs: seq<Record>, g: FileSys, g': FileSys)
    requires WorksIn(env, cwd) && WorksIn(env', cwd') && SameOptions(env, env') && Alike(g, cwd, g', cwd')
    requires AllHome(env, cwd, rs, g)
    ensures var r, r' := ReplayList(env, rs, g), ReplayList(env', rs, g');
            r.count == r'.count && r.halted == r'.halted && Alike(r.fs, cwd, r'.fs, cwd')
    decreases rs
  {
    hide Perform, Alike, HomeRecord, WorksIn, SameOptions, Below;
    if rs != [] {
      PerformAlike(env, cwd, env', cwd', rs[0], g, g');
      var d, d' := Perform(env, rs[0], g), Perform(env', rs[0], g');
      if !d.halt {
        ReplayAlike(env, cwd, env', cwd', rs[1..], d.fs, d'.fs);
      }
    }
  }

  lemma {:induction false} AllHomePrefix(env: Env, cwd: Path, rs: seq<Record>, k: nat, g: FileSys)
    requires AllHome(env, cwd, rs, g) && k <= |rs|
    ensures AllHome(env, cwd, rs[..k], g)
    decreases k
  {
    hide Perform, HomeRecord;
    if k > 0 {
      assert rs[..k][0] == rs[0] && rs[..k][1..] == rs[1..][..k - 1];
      if !Perform(env, rs[0], g).halt {
        AllHomePrefix(env, cwd, rs[1..], k - 1, Perform(env, rs[0], g).fs);
      }
    }
  }

  /**
   * One log, two target directories that start out alike, two empty ones among them, and no lookup that follows
   * an absolute link or steps up from the top: treplay visits the same records in both, ends in the same way,
   * and leaves the same subtree, whether or not records fail, and whether or not it gets to the end of the log.
   */
  lemma TargetsAgree(env: Env, cwd: Path, env': Env, cwd': Path, rs: seq<Record>, g: FileSys, g': FileSys)
    requires WorksIn(env, cwd) && WorksIn(env', cwd') && SameOptions(env, env') && Alike(g, cwd, g', cwd')
    requires AllReplayable(env, rs) && AllReplayable(env', rs) && AllHome(env, cwd, rs, g)
    ensures var out, out' := ReplayFrom(env, EncodeAll(rs), 0, g, []), ReplayFrom(env', EncodeAll(rs), 0, g', []);
            && out.offsets == out'.offsets && out.end == out'.end
            && Iso(Below(out.fs, cwd), Below(out'.fs, cwd'))
  {
    hide *;
    assert [] + EncodeAll(rs) == EncodeAll(rs);
    ScanExact(env, [], rs, g, []);
    ScanExact(env', [], rs, g', []);
    var k := Whole(0, |EncodeAll(rs)|, rs);
    AllHomePrefix(env, cwd, rs, k, g);
    ReplayAlike(env, cwd, env', cwd', rs[..k], g, g');
    ScannedAlike(env, cwd, env', cwd', |EncodeAll(rs)|, rs, g, g');
  }

  lemma ScannedAlike(env: Env, cwd: Path, env': Env, cwd': Path, size: nat, rs: seq<Record>, g: FileSys, g': FileSys)
    requires var k := Whole(0, size, rs);
             var r, r' := ReplayList(env, rs[..k], g), ReplayList(env', rs[..k], g');
             r.count == r'.count && r.halted == r'.halted && Alike(r.fs, cwd, r'.fs, cwd')
    ensures var out, out' := Scanned(env, 0, size, rs, g, []), Scanned(env', 0, size, rs, g', []);
            && out.offsets == out'.offsets && out.end == out'.end
            && Iso(Below(out.fs, cwd), Below(out'.fs, cwd'))
  {
    hide ReplayList, Whole, Iso, Below, Place;
  }

  // ----- and nothing outside -----

  lemma HomeArrives(env: Env, cwd: Path, r: Record, g: FileSys)
    requires WorksIn(env, cwd) && Place(g, cwd) && HomeRecord(r, Below(g, cwd))
    ensures Arrives(env, cwd, r, g)
  {
    AlikeSelf(g, cwd);
    AlikeEnds(env, cwd, env, cwd, r, g, g);
    hide First, Second, FirstHome, SecondHome, HomeRecord;
  }

  lemma AlikeSelf(g: FileSys, cwd: Path)
    requires Place(g, cwd)
    ensures Alike(g, cwd, g, cwd)
  {
    forall p | p in Below(g, cwd).names ensures Below(g, cwd).Has(p) {
      BelowTests(g, cwd, p);
    }
  }

  lemma PerformPlace(env: Env, cwd: Path, r: Record, g: FileSys)
    requires WorksIn(env, cwd) && Place(g, cwd) && HomeRecord(r, Below(g, cwd))
    ensures Place(Perform(env, r, g).fs, cwd)
  {
    AlikeSelf(g, cwd);
    PerformAlike(env, cwd, env, cwd, r, g, g);
  }

  lemma {:induction false} HomeListArrives(env: Env, cwd: Path, rs: seq<Record>, g: FileSys)
    requires WorksIn(env, cwd) && Place(g, cwd) && AllHome(env, cwd, rs, g)
    ensures AllArrive(env, cwd, rs, g)
    decreases rs
  {
    hide Perform, HomeRecord, Arrives, WorksIn, Place, Below;
    if rs != [] {
      HomeArrives(env, cwd, rs[0], g);
      PerformPlace(env, cwd, rs[0], g);
      if !Perform(env, rs[0], g).halt {
        HomeListArrives(env, cwd, rs[1..], Perform(env, rs[0], g).fs);
      }
    }
  }

  /** Such a replay changes nothing outside its directory. */
  lemma HomeReplayStaysInside(env: Env, cwd: Path, rs: seq<Record>, g: FileSys)
    requires WorksIn(env, cwd) && Place(g, cwd) && Sealed(g, cwd) && AllHome(env, cwd, rs, g)
    ensures SameOutside(g, ReplayList(env, rs, g).fs, cwd) && Sealed(ReplayList(env, rs, g).fs, cwd)
  {
    HomeListArrives(env, cwd, rs, g);
    ReplayStaysInside(env, cwd, rs, g);
  }

  // ----- directories without links -----

  ghost predicate LinkFree(g: FileSys, cwd: Path) {
    forall x :: x in g.names && cwd <= x ==> !g.IsLink(x)
  }

  /** The paths of the record are rendered physical paths below the mount root. */
  ghost predicate PathRecord(r: Record, p: Path, q: Path) {
    TracePath(p) && TracePath(q) && r.path == Render(p) && (TwoNames(r) ==> r.aux == Render(q))
  }

  /** A record of any kind but a symbolic link, with paths as the log has them. */
  ghost predicate Contained(r: Record) {
    r.kind != TR_SYMLINK && exists p, q :: PathRecord(r, p, q)
  }

  lemma PlainAtHome(g: FileSys, cwd: Path, p: Path, follow: bool)
    requires LinkFree(g, cwd) && TracePath(p)
    ensures CString(Render(p)) == Render(p) && AtHome(Below(g, cwd), Render(p), follow)
    ensures Lookup(Below(g, cwd), Render(p), follow) != Ok([])
  {
    NameIsRebased(p);
    SplitRendered(p);
    forall x | x in Below(g, cwd).names ensures !Below(g, cwd).IsLink(x) {
      BelowTests(g, cwd, x);
      assert cwd <= cwd + x;
    }
    PlainHomely(Below(g, cwd), [], p, follow, MAXSYMLINKS);
    assert [] + p == p;
  }

  lemma ContainedIsHome(r: Record, g: FileSys, cwd: Path)
    requires Contained(r) && LinkFree(g, cwd)
    ensures HomeRecord(r, Below(g, cwd))
  {
    var p, q :| PathRecord(r, p, q);
    PlainAtHome(g, cwd, p, FollowsLast(r));
    PlainAtHome(g, cwd, q, false);
    hide AtHome, Lookup, Render, CString, LinkFree;
  }

  /** No node becomes a link. */
  ghost predicate NoNewLink(g: FileSys, h: FileSys) {
    && (g.next in h.nodes ==> g.next in g.nodes || !h.nodes[g.next].Link?)
    && (forall i :: i in g.nodes && i in h.nodes && !g.nodes[i].Link? ==> !h.nodes[i].Link?)
  }

  lemma StaysLinkFree(g: FileSys, h: FileSys, cwd: Path)
    requires g.Sound() && LinkFree(g, cwd) && FreshOrInside(g, h, cwd) && NoNewLink(g, h)
    ensures LinkFree(h, cwd)
  {
    forall x | x in h.names && cwd <= x ensures !h.IsLink(x) {
      if h.Has(x) && h.names[x] != g.next {
        assert NamedInside(g, cwd, h.names[x]);
        var y :| y in g.names && cwd <= y && g.names[y] == h.names[x];
        assert !g.IsLink(y);
      }
    }
  }

  lemma ApplyMakesNoLink(g: FileSys, op: Op)
    requires g.Sound() && !op.Symlink?
    ensures NoNewLink(g, After(g, Apply(g, op)))
  {
  }

  lemma WriteMakesNoLink(env: Env, r: Record, g: FileSys, p: Path)
    requires g.Sound()
    ensures NoNewLink(g, WriteResult(env, r, g, p))
  {
    hide Rewritten, Bits;
  }

  lemma PerformLinkFree(env: Env, cwd: Path, r: Record, g: FileSys)
    requires g.Sound() && env.os == Linux() && LinkFree(g, cwd) && r.kind != TR_SYMLINK && Arrives(env, cwd, r, g)
    ensures LinkFree(Perform(env, r, g).fs, cwd)
  {
    hide LinkFree, First, Second;
    if env.mode == NoReplay || !Dispatched(r.kind) {
      NothingDone(env, r, g);
    } else if r.kind == TR_FWRITE {
      WriteActs(env, r, g);
      if First(env, r, g).Ok? {
        hide Perform, WriteResult;
        var p := First(env, r, g).value;
        WriteFresh(env, cwd, r, g, p);
        WriteMakesNoLink(env, r, g, p);
        StaysLinkFree(g, WriteResult(env, r, g, p), cwd);
      }
    } else {
      CallActs(env, r, g);
      hide Perform, Apply;
      if Arrived(env, r, g) {
        var (p, q) := Ends(env, r, g);
        var op := OpOf(env, r, g, p, q);
        OpFreshAt(g, cwd, op, p, q);
        ApplyMakesNoLink(g, op);
        StaysLinkFree(g, After(g, Apply(g, op)), cwd);
      }
    }
  }

  /** In a directory without links, records that make none meet none, so all go the same way. */
  lemma {:induction false} LinkFreeAllHome(env: Env, cwd: Path, rs: seq<Record>, g: FileSys)
    requires WorksIn(env, cwd) && Place(g, cwd) && LinkFree(g, cwd) && forall r :: r in rs ==> Contained(r)
    ensures AllHome(env, cwd, rs, g)
    decreases rs
  {
    hide Perform, HomeRecord, Contained, LinkFree, WorksIn, Place, Below;
    if rs != [] {
      assert rs[0] in rs;
      ContainedIsHome(rs[0], g, cwd);
      if !Perform(env, rs[0], g).halt {
        HomeArrives(env, cwd, rs[0], g);
        PerformPlace(env, cwd, rs[0], g);
        LinkFreeStep(env, cwd, rs[0], g);
        LinkFreeAllHome(env, cwd, rs[1..], Perform(env, rs[0], g).fs);
      }
    }
  }

  lemma LinkFreeStep(env: Env, cwd: Path, r: Record, g: FileSys)
    requires WorksIn(env, cwd) && Place(g, cwd) && LinkFree(g, cwd) && Contained(r) && Arrives(env, cwd, r, g)
    ensures LinkFree(Perform(env, r, g).fs, cwd)
  {
    hide LinkFree, Arrives, Perform;
    PerformLinkFree(env, cwd, r, g);
  }

  /** So for any records that make no link, two alike directories without links end alike. */
  lemma LinkFreeTargetsAgree(env: Env, cwd: Path, env': Env, cwd': Path, rs: seq<Record>, g: FileSys, g': FileSys)
    requires WorksIn(env, cwd) && WorksIn(env', cwd') && SameOptions(env, env') && Alike(g, cwd, g', cwd')
    requires LinkFree(g, cwd) && forall r :: r in rs ==> Contained(r)
    ensures var r, r' := ReplayList(env, rs, g), ReplayList(env', rs, g');
            r.count == r'.count && r.halted == r'.halted && Iso(Below(r.fs, cwd), Below(r'.fs, cwd'))
  {
    hide ReplayList, AllHome, LinkFree, Contained, WorksIn, Iso, Below, Place;
    LinkFreeAllHome(env, cwd, rs, g);
    ReplayAlike(env, cwd, env', cwd', rs, g, g');
  }
}
