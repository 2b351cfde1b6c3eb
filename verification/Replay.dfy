/** What treplay does with one record: the system calls it makes and how it reacts to their results. */
module Replay {
  import opened Bytes
  import opened Records
  import opened FileSystem
  import opened Syscalls

  /** The command-line options; they exclude one another. */
  datatype Mode = Normal | NoReplay | Strict

  /**
   * The process: working directory (as getcwd prints it), umask, options, and the system below it. `stray` is
   * what open finds in place of its mode argument where treplay passes none.
   */
  datatype Env = Env(cwd: seq<byte>, umask: nat, stray: nat, mode: Mode, os: Os)
  {
    predicate Valid() { |cwd| < PATH_MAX && NUL !in cwd }
  }

  // ----- one record -----

  predicate Dispatched(kind: nat) {
    || kind == TR_FCREAT || kind == TR_FWRITE || kind == TR_DCREAT || kind == TR_RENAME
    || kind == TR_LINK || kind == TR_SYMLINK || kind == TR_UNLINK
  }

  /** The single call made for every kind but a write. */
  function Call(env: Env, kind: nat, perm: nat, name: seq<byte>, second: seq<byte>, fs: FileSys): Result<FileSys>
    requires Dispatched(kind) && kind != TR_FWRITE
  {
    if kind == TR_FCREAT then
      var fd := env.os.open(fs, name, O_CREAT, Bits(perm, env.umask, FILE_MODE_BITS));
      if fd.Err? then Err(fd.error) else Ok(fd.value.fs)
    else if kind == TR_DCREAT then env.os.mkdir(fs, name, Bits(perm, env.umask, FILE_MODE_BITS))
    else if kind == TR_RENAME then env.os.rename(fs, name, second)
    else if kind == TR_LINK then env.os.link(fs, name, second)
    else if kind == TR_SYMLINK then env.os.symlink(fs, second, name)
    else env.os.remove(fs, name)
  }

  /** `good`: every call made and the recorded result are non-negative. `halt`: treplay jumps to its exit. */
  datatype Did = Did(fs: FileSys, good: bool, halt: bool)

  function OpenForWrite(env: Env, name: seq<byte>, flags: nat, fs: FileSys): Result<Opened> {
    env.os.open(fs, name, flags, Bits(env.stray, env.umask, FILE_MODE_BITS))
  }

  function After(fs: FileSys, r: Result<FileSys>): FileSys {
    if r.Ok? then r.value else fs
  }

  /**
   * The dispatch on the record's kind. A write opens the file by the recorded flags and writes at offset
   * zero; in strict mode a failure, or a recorded one, stops it before the write, but after what the open
   * has done to the tree.
   */
  function Dispatch(env: Env, kind: nat, flags: nat, perm: nat, result: int,
                    name: seq<byte>, second: seq<byte>, data: seq<byte>, fs: FileSys): Did
  {
    if !Dispatched(kind) then Did(fs, false, true)
    else if env.mode == NoReplay then Did(fs, true, false)
    else if kind == TR_FWRITE then
      var fd := OpenForWrite(env, name, flags, fs);
      if fd.Err? then Did(fs, false, env.mode == Strict)
      else if env.mode == Strict && result < 0 then Did(fd.value.fs, false, true)
      else
        var w := env.os.write(fd.value.fs, fd.value.path, flags, data);
        var good := w.Ok? && result >= 0;
        Did(After(fd.value.fs, w), good, env.mode == Strict && !good)
    else
      var r := Call(env, kind, perm, name, second, fs);
      var good := r.Ok? && result >= 0;
      Did(After(fs, r), good, env.mode == Strict && !good)
  }

  /** The strings the calls receive: the path rebased onto the working directory, and the aux likewise
      unless it is the text of a symbolic link. */
  function FirstName(env: Env, r: Record): seq<byte> { env.cwd + CString(r.path) }

  function SecondName(env: Env, r: Record): seq<byte> {
    if r.kind == TR_SYMLINK then CString(r.aux) else env.cwd + CString(r.aux)
  }

  function Perform(env: Env, r: Record, fs: FileSys): Did {
    Dispatch(env, r.kind, r.flags, r.perm, r.result, FirstName(env, r), SecondName(env, r), r.aux, fs)
  }

  // ----- a list of records -----

  datatype Replayed = Replayed(fs: FileSys, count: nat, halted: bool)

  /** Performs the records in order until one of them halts the program; `count` includes that one. */
  function ReplayList(env: Env, rs: seq<Record>, fs: FileSys): (r: Replayed)
    ensures r.count <= |rs|
    ensures !r.halted ==> r.count == |rs|
    decreases rs
  {
    if rs == [] then Replayed(fs, 0, false)
    else
      var d := Perform(env, rs[0], fs);
      if d.halt then Replayed(d.fs, 1, true)
      else
        var r := ReplayList(env, rs[1..], d.fs);
        r.(count := r.count + 1)
  }

  /** No record of the list is bad when its turn comes. */
  predicate AllGood(env: Env, rs: seq<Record>, fs: FileSys)
    decreases rs
  {
    rs == [] || (Perform(env, rs[0], fs).good && AllGood(env, rs[1..], Perform(env, rs[0], fs).fs))
  }

  /** The state strict replay leaves when `bad` is the record that stops it in state `fs`. */
  function Stopped(env: Env, bad: Record, fs: FileSys): FileSys {
    if bad.kind != TR_FWRITE then Perform(env, bad, fs).fs
    else
      var fd := OpenForWrite(env, FirstName(env, bad), bad.flags, fs);
      if fd.Ok? then fd.value.fs else fs
  }

  lemma StrictStep(env: Env, r: Record, fs: FileSys)
    requires env.mode == Normal && Dispatched(r.kind)
    ensures var s := Perform(env.(mode := Strict), r, fs);
            var p := Perform(env, r, fs);
            && !p.halt && (s.halt <==> !p.good)
            && (p.good ==> s.fs == p.fs)
            && (!p.good ==> s.fs == Stopped(env, r, fs))
  {
  }

  /** Strict replay halts exactly when some record is bad, and otherwise ends where plain replay does. */
  lemma {:induction false} StrictHaltsIff(env: Env, rs: seq<Record>, fs: FileSys)
    requires env.mode == Normal && forall r :: r in rs ==> Dispatched(r.kind)
    ensures var s := ReplayList(env.(mode := Strict), rs, fs);
            && (s.halted <==> !AllGood(env, rs, fs))
            && (!s.halted ==> s == ReplayList(env, rs, fs))
    decreases rs
  {
    if rs != [] {
      assert rs[0] in rs;
      StrictStep(env, rs[0], fs);
      StrictHaltsIff(env, rs[1..], Perform(env, rs[0], fs).fs);
    }
  }

  /**
   * A strict replay that halts is the plain replay cut after its first bad record: it has performed the
   * good records before it and that record's own call (of a bad write, only the open).
   */
  lemma {:induction false} StrictStopsAtFirstBad(env: Env, rs: seq<Record>, fs: FileSys)
    requires env.mode == Normal && forall r :: r in rs ==> Dispatched(r.kind)
    requires ReplayList(env.(mode := Strict), rs, fs).halted
    ensures var s := ReplayList(env.(mode := Strict), rs, fs);
            && s.count >= 1
            && AllGood(env, rs[..s.count - 1], fs)
            && var before := ReplayList(env, rs[..s.count - 1], fs);
               && !before.halted
               && !Perform(env, rs[s.count - 1], before.fs).good
               && s.fs == Stopped(env, rs[s.count - 1], before.fs)
    decreases rs
  {
    assert rs[0] in rs;
    StrictStep(env, rs[0], fs);
    var d := Perform(env, rs[0], fs);
    if d.good {
      StrictStopsAtFirstBad(env, rs[1..], d.fs);
      var k := ReplayList(env.(mode := Strict), rs[1..], d.fs).count;
      assert rs[..k][1..] == rs[1..][..k - 1] && rs[..k][0] == rs[0] && rs[k] == rs[1..][k - 1];
    } else {
      assert rs[..0] == [];
    }
  }
}
