/** One traced operation and the replay of its record, on trees that agree up to inode numbers. */
module Replaying {
  import opened Bytes
  import opened Records
  import opened TraceLog
  import opened FileSystem
  import opened FsLaws
  import opened Resolve
  import opened Syscalls
  import opened Replay
  import opened Scan

  // ----- what the trfs operations hand to fill_record -----

  function Kind(op: Op): nat {
    match op
    case Create(_, _) => TR_FCREAT
    case Mkdir(_, _) => TR_DCREAT
    case Symlink(_, _) => TR_SYMLINK
    case Hardlink(_, _) => TR_LINK
    case Rename(_, _) => TR_RENAME
    case Unlink(_) => TR_UNLINK
    case Rmdir(_) => TR_UNLINK
    case Write(_, _, _, _, _) => TR_FWRITE
  }

  function Aux(op: Op): seq<byte> {
    match op
    case Symlink(_, target) => target
    case Hardlink(_, to) => Render(to)
    case Rename(_, to) => Render(to)
    case Write(_, _, _, _, data) => data
    case _ => []
  }

  /** The record of a successful operation; a write returns the number of bytes it wrote. */
  function RecordOf(op: Op, id: nat): Record {
    var flags := if op.Write? then op.flags else 0;
    var perm := if op.Create? || op.Mkdir? then op.mode else 0;
    var result := if op.Write? then |op.data| else 0;
    Meant(id % 0x1_0000_0000, Kind(op), flags, perm, result, Render(op.path), Aux(op))
  }

  function RecordsOf(ops: seq<Op>, id: nat): (rs: seq<Record>)
    ensures |rs| == |ops|
    decreases ops
  {
    if ops == [] then [] else [RecordOf(ops[0], id)] + RecordsOf(ops[1..], id + 1)
  }

  /** Names below the mount root, in strings of at most 4095 bytes. */
  predicate TracePath(p: Path) { p != [] && Plain(p) && |Render(p)| < PATH_MAX }

  const O_DIRECT: nat := 0x4000
  const O_DIRECTORY: nat := 0x1_0000
  const O_PATH: nat := 0x20_0000

  /** Flags as an open file has them: the kernel has cleared those that act once, at the open. Nor does
      any of the others change what an open or a write of a regular file is. */
  predicate Ordinary(flags: nat) {
    && !Bit(flags, O_CREAT) && !Bit(flags, O_EXCL) && !Bit(flags, O_TRUNC)
    && !Bit(flags, O_DIRECT) && !Bit(flags, O_DIRECTORY) && !Bit(flags, O_PATH)
  }

  /** A write that went where a replayed one will go: the flags say whether it appends, and else it starts
      the file. */
  predicate Placed(flags: nat, append: bool, pos: nat) {
    append == Appends(flags) && (append || pos == 0)
  }

  /** What a record can carry: C ints for modes and flags, a symlink text that is a C string, a write that fits. */
  predicate Loggable(op: Op) {
    && TracePath(op.path) && TracePath(Other(op))
    && (op.Create? || op.Mkdir? ==> op.mode < 0x1_0000_0000)
    && (op.Symlink? ==> 0 < |op.target| < PATH_MAX && NUL !in op.target)
    && (op.Write? ==> op.flags < 0x1_0000_0000 && 1 <= |op.data| <= 32735 - |Render(op.path)|)
  }

  /** What it can carry so that a replay does the same: a write must have gone where a replayed one will go. */
  predicate Traceable(op: Op) {
    Loggable(op) && (op.Write? ==> Ordinary(op.flags) && Placed(op.flags, op.append, op.pos))
  }

  lemma RecordWellFormed(op: Op, id: nat)
    requires Loggable(op)
    ensures var r := RecordOf(op, id);
            r.WellFormed() && Known(r.kind) && Dispatched(r.kind) && (HasAux(r.kind) <==> r.aux != [])
  {
    RenderHasNoNul(op.path);
    RenderHasNoNul(Other(op));
  }

  // ----- the replaying process -----

  /** treplay run in the directory `cwd` of the file system, under umask 0, with replay switched on. */
  ghost predicate RunsIn(env: Env, cwd: Path) {
    && env.cwd == Render(cwd) && Plain(cwd) && |env.cwd| < PATH_MAX
    && env.umask == 0 && env.mode != NoReplay && env.os == Linux()
  }

  /** The paths still fit their buffers once rebased. */
  predicate Rebasable(env: Env, op: Op) {
    |env.cwd| + |Render(op.path)| < PATH_MAX && |env.cwd| + |Render(Other(op))| < PATH_MAX
  }

  lemma RecordReplayable(env: Env, op: Op, id: nat)
    requires Loggable(op) && Rebasable(env, op)
    ensures Replayable(env, RecordOf(op, id))
  {
    RecordWellFormed(op, id);
  }

  /** Lookup of a rebased path finds it where its parent is a real directory. */
  lemma LookupRebased(fs: FileSys, cwd: Path, p: Path, follow: bool)
    requires fs.Rooted() && Plain(cwd) && Plain(p) && p != []
    requires fs.IsDir(Parent(cwd + p)) && (follow ==> !fs.IsLink(cwd + p))
    ensures Lookup(fs, Render(cwd) + Render(p), follow) == Ok(cwd + p)
  {
    RebasedPath(cwd, p);
    var q := cwd + p;
    forall k | 0 <= k < |q| ensures fs.IsDir(q[..k]) {
      if k < |q| - 1 {
        PrefixIsDir(fs, Parent(q), k);
        assert Parent(q)[..k] == q[..k];
      } else {
        assert q[..k] == Parent(q);
      }
    }
    assert [] + q == q;
    WalkPhysical(fs, [], q, follow, MAXSYMLINKS);
  }

  /** The string a call receives for a recorded path. */
  lemma NameIsRebased(p: Path)
    requires Plain(p)
    ensures CString(Render(p)) == Render(p)
  {
    RenderHasNoNul(p);
    CStringOfString(Render(p));
  }

  /** treplay in `cwd` under any umask and with any option. */
  ghost predicate WorksIn(env: Env, cwd: Path) {
    env.cwd == Render(cwd) && Plain(cwd) && env.os == Linux()
  }

  lemma FirstNameIs(env: Env, cwd: Path, r: Record, p: Path)
    requires WorksIn(env, cwd) && Plain(p) && r.path == Render(p)
    ensures FirstName(env, r) == Render(cwd) + Render(p)
  {
    NameIsRebased(p);
  }

  lemma SecondNameIs(env: Env, cwd: Path, r: Record, q: Path)
    requires WorksIn(env, cwd) && Plain(q) && r.aux == Render(q) && r.kind != TR_SYMLINK
    ensures SecondName(env, r) == Render(cwd) + Render(q)
  {
    NameIsRebased(q);
  }

  /** What a single-call record does when its call succeeds. */
  lemma CallDone(env: Env, r: Record, fs: FileSys, g: FileSys)
    requires env.mode != NoReplay && Dispatched(r.kind) && r.kind != TR_FWRITE && r.result >= 0
    requires Call(env, r.kind, r.perm, FirstName(env, r), SecondName(env, r), fs) == Ok(g)
    ensures Perform(env, r, fs) == Did(g, true, false)
  {
  }

  /** The string a call receives for the path of an operation, and the tests that decide it. */
  lemma MakeArgument(env: Env, cwd: Path, op: Op, id: nat, fs: FileSys)
    requires RunsIn(env, cwd) && Traceable(op) && fs.Rooted()
    requires (op.Create? || op.Mkdir? || op.Symlink?) && Apply(fs, Shift(cwd, op)).Ok?
    ensures FirstName(env, RecordOf(op, id)) == Render(cwd) + Render(op.path)
    ensures Lookup(fs, Render(cwd) + Render(op.path), op.Create?) == Ok(cwd + op.path)
    ensures !fs.Has(cwd + op.path)
  {
    NameIsRebased(op.path);
    assert cwd + op.path !in fs.names && fs.Vacant(cwd + op.path);
    LookupRebased(fs, cwd, op.path, op.Create?);
  }

  lemma CreateTwice(fs: FileSys, p: Path, mode: nat)
    ensures Apply(fs, Create(p, Bits(mode, 0, FILE_MODE_BITS))) == Apply(fs, Create(p, mode))
  {
    BitsTwice(mode, FILE_MODE_BITS, FILE_MODE_BITS);
  }

  lemma OpensNew(fs: FileSys, s: seq<byte>, mode: nat, p: Path)
    requires Lookup(fs, s, true) == Ok(p) && !fs.Has(p) && Apply(fs, Create(p, mode)).Ok?
    ensures OpenCall(fs, s, O_CREAT, mode) == Ok(Opened(Apply(fs, Create(p, mode)).value, p))
  {
    hide Lookup, Apply;
  }

  lemma ReplayCreate(env: Env, cwd: Path, p: Path, mode: nat, id: nat, fs: FileSys)
    requires RunsIn(env, cwd) && Traceable(Create(p, mode)) && fs.Rooted()
    requires Apply(fs, Create(cwd + p, mode)).Ok?
    ensures Perform(env, RecordOf(Create(p, mode), id), fs) == Did(Apply(fs, Create(cwd + p, mode)).value, true, false)
  {
    MakeArgument(env, cwd, Create(p, mode), id, fs);
    CreateTwice(fs, cwd + p, mode);
    OpensNew(fs, Render(cwd) + Render(p), Bits(mode, 0, FILE_MODE_BITS), cwd + p);
    hide Render, Lookup, FirstName, Bits, Apply, OpenCall;
    CallDone(env, RecordOf(Create(p, mode), id), fs, Apply(fs, Create(cwd + p, mode)).value);
  }

  lemma ReplayMkdir(env: Env, cwd: Path, p: Path, mode: nat, id: nat, fs: FileSys)
    requires RunsIn(env, cwd) && Traceable(Mkdir(p, mode)) && fs.Rooted()
    requires Apply(fs, Mkdir(cwd + p, mode)).Ok?
    ensures Perform(env, RecordOf(Mkdir(p, mode), id), fs) == Did(Apply(fs, Mkdir(cwd + p, mode)).value, true, false)
  {
    MakeArgument(env, cwd, Mkdir(p, mode), id, fs);
    BitsTwice(mode, DIR_MODE_BITS, FILE_MODE_BITS);
    hide Render, Lookup, FirstName, Bits;
    CallDone(env, RecordOf(Mkdir(p, mode), id), fs, Apply(fs, Mkdir(cwd + p, mode)).value);
  }

  lemma ReplaySymlink(env: Env, cwd: Path, p: Path, target: seq<byte>, id: nat, fs: FileSys)
    requires RunsIn(env, cwd) && Traceable(Symlink(p, target)) && fs.Rooted()
    requires Apply(fs, Symlink(cwd + p, target)).Ok?
    ensures Perform(env, RecordOf(Symlink(p, target), id), fs)
         == Did(Apply(fs, Symlink(cwd + p, target)).value, true, false)
  {
    MakeArgument(env, cwd, Symlink(p, target), id, fs);
    CStringOfString(target);
    hide Render, Lookup, FirstName;
    CallDone(env, RecordOf(Symlink(p, target), id), fs, Apply(fs, Symlink(cwd + p, target)).value);
  }

  lemma ReplayTwoPaths(env: Env, cwd: Path, op: Op, id: nat, fs: FileSys)
    requires RunsIn(env, cwd) && Traceable(op) && fs.Sound() && fs.Rooted()
    requires (op.Rename? || op.Hardlink?) && Apply(fs, Shift(cwd, op)).Ok?
    ensures Perform(env, RecordOf(op, id), fs) == Did(Apply(fs, Shift(cwd, op)).value, true, false)
  {
    var r, g := RecordOf(op, id), Apply(fs, Shift(cwd, op)).value;
    NameIsRebased(op.path);
    NameIsRebased(op.to);
    LookupRebased(fs, cwd, op.path, false);
    LookupRebased(fs, cwd, op.to, false);
    CallDone(env, r, fs, g);
  }

  lemma ReplayRemove(env: Env, cwd: Path, op: Op, id: nat, fs: FileSys)
    requires RunsIn(env, cwd) && Traceable(op) && fs.Sound() && fs.Rooted()
    requires (op.Unlink? || op.Rmdir?) && Apply(fs, Shift(cwd, op)).Ok?
    ensures Perform(env, RecordOf(op, id), fs) == Did(Apply(fs, Shift(cwd, op)).value, true, false)
  {
    NameIsRebased(op.path);
    LookupRebased(fs, cwd, op.path, false);
    CallDone(env, RecordOf(op, id), fs, Apply(fs, Shift(cwd, op)).value);
  }

  /** Under ordinary flags the file is just opened. */
  lemma OpensOld(fs: FileSys, s: seq<byte>, flags: nat, mode: nat, p: Path)
    requires Lookup(fs, s, Follows(flags)) == Ok(p) && fs.Has(p) && fs.At(p).File? && Ordinary(flags)
    ensures OpenCall(fs, s, flags, mode) == Ok(Opened(fs, p))
  {
    hide Lookup;
  }

  lemma WriteDone(env: Env, r: Record, fs: FileSys, p: Path, g: FileSys)
    requires env.mode != NoReplay && r.kind == TR_FWRITE && r.result >= 0
    requires OpenForWrite(env, FirstName(env, r), r.flags, fs) == Ok(Opened(fs, p))
    requires env.os.write(fs, p, r.flags, r.aux) == Ok(g)
    ensures Perform(env, r, fs) == Did(g, true, false)
  {
  }

  lemma ReplayWrite(env: Env, cwd: Path, op: Op, id: nat, fs: FileSys)
    requires RunsIn(env, cwd) && Traceable(op) && fs.Sound() && fs.Rooted()
    requires op.Write? && Apply(fs, Shift(cwd, op)).Ok?
    ensures Perform(env, RecordOf(op, id), fs) == Did(Apply(fs, Shift(cwd, op)).value, true, false)
  {
    var r, p, s := RecordOf(op, id), cwd + op.path, Render(cwd) + Render(op.path);
    var mode := Bits(env.stray, env.umask, FILE_MODE_BITS);
    var follow := Follows(op.flags);
    NameIsRebased(op.path);
    LookupRebased(fs, cwd, op.path, follow);
    OpensOld(fs, s, op.flags, mode, p);
    hide Lookup, Render, Bits, OpenCall, Ordinary, Bit;
    assert OpenForWrite(env, FirstName(env, r), r.flags, fs) == OpenCall(fs, s, op.flags, mode);
    assert env.os.write(fs, p, op.flags, op.data) == Apply(fs, Shift(cwd, op));
    WriteDone(env, r, fs, p, Apply(fs, Shift(cwd, op)).value);
  }

  lemma ShiftMake(cwd: Path, op: Op)
    ensures op.Create? ==> Shift(cwd, op) == Create(cwd + op.path, op.mode)
    ensures op.Mkdir? ==> Shift(cwd, op) == Mkdir(cwd + op.path, op.mode)
    ensures op.Symlink? ==> Shift(cwd, op) == Symlink(cwd + op.path, op.target)
  {
  }

  /** Replaying the record of an operation that can succeed here has exactly that operation's effect. */
  lemma ReplayIsApply(env: Env, cwd: Path, op: Op, id: nat, fs: FileSys)
    requires RunsIn(env, cwd) && Traceable(op) && fs.Sound() && fs.Rooted()
    requires Apply(fs, Shift(cwd, op)).Ok?
    ensures Perform(env, RecordOf(op, id), fs) == Did(Apply(fs, Shift(cwd, op)).value, true, false)
  {
    hide *;
    if op.Create? {
      ShiftMake(cwd, op);
      ReplayCreate(env, cwd, op.path, op.mode, id, fs);
    } else if op.Mkdir? {
      ShiftMake(cwd, op);
      ReplayMkdir(env, cwd, op.path, op.mode, id, fs);
    } else if op.Symlink? {
      ShiftMake(cwd, op);
      ReplaySymlink(env, cwd, op.path, op.target, id, fs);
    } else if op.Rename? || op.Hardlink? {
      ReplayTwoPaths(env, cwd, op, id, fs);
    } else if op.Unlink? || op.Rmdir? {
      ReplayRemove(env, cwd, op, id, fs);
    } else {
      ReplayWrite(env, cwd, op, id, fs);
    }
  }

  /** What a traced write leaves when it has written the first `n` bytes of `d`. */
  function TracedWrite(content: seq<byte>, append: bool, pos: nat, d: seq<byte>, n: nat): seq<byte>
    requires n <= |d|
  {
    Splice(content, WriteOffset(content, append, pos), d[..n])
  }

  /** What the replay of its record leaves: all of `d`, at the start or where the recorded flags say. */
  function ReplayedWrite(content: seq<byte>, flags: nat, d: seq<byte>): seq<byte> {
    Splice(content, WriteOffset(content, Appends(flags), 0), d)
  }

  /** The two leave the same, for all contents and all data of length `len`. */
  ghost predicate WritesAgree(flags: nat, append: bool, pos: nat, len: nat, n: nat)
    requires n <= len
  {
    forall content: seq<byte>, d: seq<byte> ::
      |d| == len ==> TracedWrite(content, append, pos, d, n) == ReplayedWrite(content, flags, d)
  }

  /**
   * A replayed write gives what the traced one gave exactly when that one was not cut short, the recorded flags
   * tell whether it appended, and it started the file if it did not. (The log holds neither the offset nor the
   * number of bytes written.)
   */
  lemma WritePlaceIff(flags: nat, append: bool, pos: nat, len: nat, n: nat)
    requires 1 <= len && n <= len
    ensures WritesAgree(flags, append, pos, len, n) <==> n == len && Placed(flags, append, pos)
  {
    if n == len && Placed(flags, append, pos) {
      forall content: seq<byte>, d: seq<byte> | |d| == len
        ensures TracedWrite(content, append, pos, d, n) == ReplayedWrite(content, flags, d) {
        assert d[..n] == d;
      }
    } else {
      var d: seq<byte> := seq(len, _ => 1);
      if n == len && (append || pos == 0) {
        OnOneByte(flags, append, pos, d);
        assert d[..n] == d;
        assert TracedWrite([0], append, pos, d, n) != ReplayedWrite([0], flags, d);
      } else {
        OnNothing(flags, append, pos, d, n);
        assert TracedWrite([], append, pos, d, n) != ReplayedWrite([], flags, d);
      }
    }
  }

  /** Cut short or further on, the write of ones to an empty file shows. */
  lemma OnNothing(flags: nat, append: bool, pos: nat, d: seq<byte>, n: nat)
    requires d != [] && (forall i :: 0 <= i < |d| ==> d[i] == 1) && n <= |d|
    requires n < |d| || (!append && pos != 0)
    ensures TracedWrite([], append, pos, d, n) != ReplayedWrite([], flags, d)
  {
    var at := WriteOffset([], append, pos);
    var traced, replayed := TracedWrite([], append, pos, d, n), ReplayedWrite([], flags, d);
    assert replayed == d;
    if n > 0 {
      assert |traced| == at + n && (at > 0 ==> traced[0] == 0);
    }
  }

  /** Appending where the other does not, to a file of one byte, shows. */
  lemma OnOneByte(flags: nat, append: bool, pos: nat, d: seq<byte>)
    requires d != [] && append != Appends(flags) && (append || pos == 0)
    ensures Splice([0], WriteOffset([0], append, pos), d) != Splice([0], WriteOffset([0], Appends(flags), 0), d)
  {
    assert |Splice([0], 1, d)| == 1 + |d| && |Splice([0], 0, d)| == |d|;
  }
}
