/**
 * When replay leaves its directory. The records are arbitrary: of any kind, with any bytes for paths, whatever
 * their flags, modes and results, and whether or not their calls succeed.
 */
module Locality {
  import opened Bytes
  import opened Records
  import opened FileSystem
  import opened FsLaws
  import opened Resolve
  import opened Syscalls
  import opened Replay
  import opened Replaying
  import opened EndToEnd

  // ----- where a record's names arrive -----

  /** Only open follows a link at the end of its path, and not under all flags. */
  predicate FollowsLast(r: Record) {
    r.kind == TR_FCREAT || (r.kind == TR_FWRITE && Follows(r.flags))
  }

  function First(env: Env, r: Record, g: FileSys): Result<Path> {
    Lookup(g, FirstName(env, r), FollowsLast(r))
  }

  function Second(env: Env, r: Record, g: FileSys): Result<Path> {
    Lookup(g, SecondName(env, r), false)
  }

  // ----- what the calls need in order to act there -----

  predicate Removable(g: FileSys, p: Path) {
    p != [] && g.Has(p) && (g.IsDir(p) ==> g.Childless(p))
  }

  predicate Linkable(g: FileSys, p: Path, q: Path) {
    g.Has(p) && !g.IsDir(p) && g.Vacant(q)
  }

  predicate Movable(g: FileSys, p: Path, q: Path) {
    && p != [] && q != [] && g.Has(p) && g.IsDir(Parent(q))
    && !(p <= q) && !(q <= p)
    && (g.Has(q) ==> g.names[q] != g.names[p] && (g.IsDir(p) <==> g.IsDir(q)) && g.Childless(q))
  }

  /** The content of a file after a write record has been replayed onto it. */
  function Rewritten(env: Env, r: Record, content: seq<byte>): seq<byte> {
    var start := if Bit(r.flags, O_TRUNC) then [] else content;
    if Writable(r.flags) && !(env.mode == Strict && r.result < 0)
    then Splice(start, WriteOffset(start, Appends(r.flags), 0), r.aux)
    else start
  }

  /** The inode has a name outside `cwd`. */
  ghost predicate NamedOutside(g: FileSys, cwd: Path, i: Ino) {
    exists y :: y in g.names && !(cwd <= y) && g.names[y] == i
  }

  ghost predicate WriteStays(env: Env, cwd: Path, r: Record, g: FileSys, p: Path) {
    if !g.Has(p) then cwd <= p || !Bit(r.flags, O_CREAT) || !g.Vacant(p)
    else MustMake(r.flags) || !g.At(p).File? || Rewritten(env, r, g.At(p).data) == g.At(p).data
         || !NamedOutside(g, cwd, g.names[p])
  }

  /** The guard of a record: its names do not arrive, or arrive below `cwd`, or its call does not act there. */
  ghost predicate Stays(env: Env, cwd: Path, r: Record, g: FileSys) {
    || env.mode == NoReplay || !Dispatched(r.kind) || First(env, r, g).Err?
    || var p := First(env, r, g).value;
       if r.kind == TR_FCREAT || r.kind == TR_DCREAT then cwd <= p || !g.Vacant(p)
       else if r.kind == TR_SYMLINK then cwd <= p || !g.Vacant(p) || SecondName(env, r) == []
       else if r.kind == TR_UNLINK then cwd <= p || !Removable(g, p)
       else if r.kind == TR_FWRITE then WriteStays(env, cwd, r, g, p)
       else
         || Second(env, r, g).Err?
         || var q := Second(env, r, g).value;
            if r.kind == TR_LINK then cwd <= q || !Linkable(g, p, q)
            else (cwd <= p && cwd <= q) || !Movable(g, p, q)
  }

  // ----- what each operation does outside -----

  lemma UnchangedOutside(g: FileSys, cwd: Path)
    requires g.Sound()
    ensures SameOutside(g, g, cwd)
  {
  }

  lemma EnterOutsideIff(g: FileSys, cwd: Path, p: Path, n: Node)
    requires g.Sound() && p !in g.names
    ensures SameOutside(g, g.Enter(p, n), cwd) <==> cwd <= p
  {
    var h := g.Enter(p, n);
    if cwd <= p {
      forall y | !(cwd <= y) ensures SameAt(g, h, y) {
      }
    } else {
      assert !SameAt(g, h, p);
    }
  }

  lemma MakeOutsideIff(g: FileSys, cwd: Path, op: Op)
    requires g.Sound() && (op.Create? || op.Mkdir? || op.Symlink?)
    ensures SameOutside(g, After(g, Apply(g, op)), cwd)
            <==> cwd <= op.path || !g.Vacant(op.path) || (op.Symlink? && op.target == [])
  {
    UnchangedOutside(g, cwd);
    hide SameOutside;
    if g.Vacant(op.path) && !(op.Symlink? && op.target == []) {
      match op
      case Create(p, mode) => EnterOutsideIff(g, cwd, p, File(Bits(mode, 0, FILE_MODE_BITS), []));
      case Mkdir(p, mode) => EnterOutsideIff(g, cwd, p, Dir(Bits(mode, 0, DIR_MODE_BITS)));
      case Symlink(p, target) => EnterOutsideIff(g, cwd, p, Link(target));
    }
  }

  lemma RemoveOutsideIff(g: FileSys, cwd: Path, p: Path)
    requires g.Sound()
    ensures SameOutside(g, After(g, Apply(g, if g.IsDir(p) then Rmdir(p) else Unlink(p))), cwd)
            <==> cwd <= p || !Removable(g, p)
  {
    UnchangedOutside(g, cwd);
    if Removable(g, p) {
      var h := g.Remove(p);
      if cwd <= p {
        forall y | !(cwd <= y) ensures SameAt(g, h, y) {
        }
      } else {
        assert !SameAt(g, h, p);
      }
    }
  }

  lemma LinkOutsideIff(g: FileSys, cwd: Path, p: Path, q: Path)
    requires g.Sound()
    ensures SameOutside(g, After(g, Apply(g, Hardlink(p, q))), cwd) <==> cwd <= q || !Linkable(g, p, q)
  {
    UnchangedOutside(g, cwd);
    if Linkable(g, p, q) {
      var h := g.(names := g.names[q := g.names[p]]);
      if cwd <= q {
        forall y | !(cwd <= y) ensures SameAt(g, h, y) {
        }
      } else {
        assert !SameAt(g, h, q);
      }
    }
  }

  /** rename moves exactly under this guard, and else changes nothing. */
  lemma RenameActs(g: FileSys, p: Path, q: Path)
    requires g.Sound()
    ensures After(g, Apply(g, Rename(p, q))) == if Movable(g, p, q) then g.(names := Move(g.names, p, q)) else g
  {
  }

  lemma MoveOutside(g: FileSys, cwd: Path, p: Path, q: Path, y: Path)
    requires g.Sound() && cwd <= p && cwd <= q && !(cwd <= y)
    ensures SameAt(g, g.(names := Move(g.names, p, q)), y)
  {
    assert !(p <= y) by { if p <= y { PrefixTransitive(cwd, p, y); } }
    assert !(q <= y) by { if q <= y { PrefixTransitive(cwd, q, y); } }
  }

  lemma RenameOutsideIff(g: FileSys, cwd: Path, p: Path, q: Path)
    requires g.Sound()
    ensures SameOutside(g, After(g, Apply(g, Rename(p, q))), cwd) <==> (cwd <= p && cwd <= q) || !Movable(g, p, q)
  {
    RenameActs(g, p, q);
    UnchangedOutside(g, cwd);
    hide Apply;
    if Movable(g, p, q) {
      var h := g.(names := Move(g.names, p, q));
      if cwd <= p && cwd <= q {
        forall y | !(cwd <= y) ensures SameAt(g, h, y) {
          MoveOutside(g, cwd, p, q, y);
        }
      } else if !(cwd <= p) {
        assert p in g.names && p !in h.names;
        assert !SameAt(g, h, p);
      } else {
        assert p + q[|q|..] == p;
        assert q in h.names && h.names[q] == g.names[p];
        assert !SameAt(g, h, q);
      }
    }
  }

  lemma PutOutsideIff(g: FileSys, cwd: Path, p: Path, data: seq<byte>)
    requires g.Sound() && g.Has(p) && g.At(p).File?
    ensures SameOutside(g, g.Put(p, data), cwd) <==> data == g.At(p).data || !NamedOutside(g, cwd, g.names[p])
  {
    var h := g.Put(p, data);
    if data == g.At(p).data || !NamedOutside(g, cwd, g.names[p]) {
      forall y | !(cwd <= y) ensures SameAt(g, h, y) {
      }
    } else {
      var y :| y in g.names && !(cwd <= y) && g.names[y] == g.names[p];
      assert !SameAt(g, h, y);
    }
  }

  // ----- what each record does -----

  function Perm(env: Env, r: Record): nat { Bits(r.perm, env.umask, FILE_MODE_BITS) }

  /** The open and the write of a write record, taken together. */
  function WriteResult(env: Env, r: Record, g: FileSys, p: Path): FileSys {
    var mode := Bits(Bits(env.stray, env.umask, FILE_MODE_BITS), 0, FILE_MODE_BITS);
    if !g.Has(p) then
      if Bit(r.flags, O_CREAT) && g.Vacant(p) then g.Enter(p, File(mode, Rewritten(env, r, []))) else g
    else if MustMake(r.flags) || !g.At(p).File? then g
    else g.Put(p, Rewritten(env, r, g.At(p).data))
  }

  lemma PutTwice(g: FileSys, p: Path, a: seq<byte>, b: seq<byte>)
    requires g.Has(p) && g.At(p).File?
    ensures g.Put(p, a).Has(p) && g.Put(p, a).At(p).File? && g.Put(p, a).At(p).data == a
    ensures g.Put(p, a).Put(p, b) == g.Put(p, b)
    ensures a == g.At(p).data ==> g.Put(p, a) == g
  {
  }

  lemma EnterThenPut(g: FileSys, p: Path, mode: nat, b: seq<byte>)
    ensures var h := g.Enter(p, File(mode, []));
            h.Has(p) && h.At(p) == File(mode, []) && h.Put(p, b) == g.Enter(p, File(mode, b))
  {
  }

  /** The write call on what an open has opened. */
  lemma WriteOpened(h: FileSys, p: Path, r: Record)
    requires h.Has(p)
    ensures After(h, WriteCall(h, p, r.flags, r.aux))
         == if h.At(p).File? && Writable(r.flags)
            then h.Put(p, Splice(h.At(p).data, WriteOffset(h.At(p).data, Appends(r.flags), 0), r.aux))
            else h
  {
  }

  lemma OpenActs(g: FileSys, p: Path, flags: nat, mode: nat)
    requires g.Sound()
    ensures var o := OpenAt(g, p, flags, mode);
            if !g.Has(p) then
              if Bit(flags, O_CREAT) && g.Vacant(p)
              then o == Ok(g.Enter(p, File(Bits(mode, 0, FILE_MODE_BITS), []))) else o.Err?
            else if MustMake(flags) then o.Err?
            else if g.At(p).File? then o == Ok(if Bit(flags, O_TRUNC) then g.Put(p, []) else g)
            else o.Err? || o == Ok(g)
  {
  }

  /** After the open, with or without the write. */
  lemma WriteAfterOpen(env: Env, r: Record, g: FileSys, p: Path, h: FileSys)
    requires g.Sound()
    requires OpenAt(g, p, r.flags, Bits(env.stray, env.umask, FILE_MODE_BITS)) == Ok(h)
    ensures WriteResult(env, r, g, p)
         == if env.mode == Strict && r.result < 0 then h else After(h, WriteCall(h, p, r.flags, r.aux))
  {
    var mode := Bits(env.stray, env.umask, FILE_MODE_BITS);
    OpenActs(g, p, r.flags, mode);
    hide OpenAt, WriteCall, Splice, Bits;
    if !g.Has(p) {
      EnterThenPut(g, p, Bits(mode, 0, FILE_MODE_BITS), Rewritten(env, r, []));
    } else if g.At(p).File? {
      PutTwice(g, p, [], Rewritten(env, r, g.At(p).data));
      PutTwice(g, p, g.At(p).data, Rewritten(env, r, g.At(p).data));
    }
    WriteOpened(h, p, r);
  }

  lemma WriteFails(env: Env, r: Record, g: FileSys, p: Path)
    requires g.Sound()
    requires OpenAt(g, p, r.flags, Bits(env.stray, env.umask, FILE_MODE_BITS)).Err?
    ensures WriteResult(env, r, g, p) == g
  {
    OpenActs(g, p, r.flags, Bits(env.stray, env.umask, FILE_MODE_BITS));
  }

  lemma WriteActs(env: Env, r: Record, g: FileSys)
    requires g.Sound() && env.os == Linux() && env.mode != NoReplay && r.kind == TR_FWRITE
    ensures Perform(env, r, g).fs
         == if First(env, r, g).Ok? then WriteResult(env, r, g, First(env, r, g).value) else g
  {
    var o := OpenForWrite(env, FirstName(env, r), r.flags, g);
    assert o == OpenCall(g, FirstName(env, r), r.flags, Bits(env.stray, env.umask, FILE_MODE_BITS));
    hide OpenAt, WriteCall, Lookup, FirstName, Bits, WriteResult;
    if First(env, r, g).Ok? {
      var p := First(env, r, g).value;
      if o.Ok? {
        WriteAfterOpen(env, r, g, p, o.value.fs);
      } else {
        WriteFails(env, r, g, p);
      }
    }
  }

  lemma WriteOutsideIff(env: Env, cwd: Path, r: Record, g: FileSys, p: Path)
    requires g.Sound()
    ensures SameOutside(g, WriteResult(env, r, g, p), cwd) <==> WriteStays(env, cwd, r, g, p)
  {
    UnchangedOutside(g, cwd);
    hide SameOutside, Rewritten, Bits;
    if !g.Has(p) {
      if Bit(r.flags, O_CREAT) && g.Vacant(p) {
        var mode := Bits(Bits(env.stray, env.umask, FILE_MODE_BITS), 0, FILE_MODE_BITS);
        EnterOutsideIff(g, cwd, p, File(mode, Rewritten(env, r, [])));
      }
    } else if g.At(p).File? {
      PutOutsideIff(g, cwd, p, Rewritten(env, r, g.At(p).data));
    }
  }

  /** The operation a call comes to once its names have arrived at `p` and `q`. */
  function OpOf(env: Env, r: Record, g: FileSys, p: Path, q: Path): Op {
    if r.kind == TR_FCREAT then Create(p, Perm(env, r))
    else if r.kind == TR_DCREAT then Mkdir(p, Perm(env, r))
    else if r.kind == TR_RENAME then Rename(p, q)
    else if r.kind == TR_LINK then Hardlink(p, q)
    else if r.kind == TR_SYMLINK then Symlink(p, SecondName(env, r))
    else if g.IsDir(p) then Rmdir(p) else Unlink(p)
  }

  predicate TwoNames(r: Record) { r.kind == TR_RENAME || r.kind == TR_LINK }

  /** Whether all names the call looks up arrive somewhere. */
  predicate Arrived(env: Env, r: Record, g: FileSys) {
    First(env, r, g).Ok? && (TwoNames(r) ==> Second(env, r, g).Ok?)
  }

  /** Where they arrive; a second name that is not looked up counts as the first. */
  function Ends(env: Env, r: Record, g: FileSys): (Path, Path)
    requires Arrived(env, r, g)
  {
    var p := First(env, r, g).value;
    (p, if TwoNames(r) then Second(env, r, g).value else p)
  }

  lemma CreateActs(g: FileSys, p: Path, mode: nat)
    requires g.Sound()
    ensures After(g, OpenAt(g, p, O_CREAT, mode)) == After(g, Apply(g, Create(p, mode)))
    ensures OpenAt(g, p, O_CREAT, mode).Ok? <==> Apply(g, Create(p, mode)).Ok? || (g.Has(p) && g.At(p).File?)
  {
  }

  /** A record of any other kind does what one operation does at the ends of its names, or nothing. */
  lemma CallActs(env: Env, r: Record, g: FileSys)
    requires g.Sound() && env.os == Linux() && env.mode != NoReplay && Dispatched(r.kind) && r.kind != TR_FWRITE
    ensures Perform(env, r, g).fs
         == if Arrived(env, r, g)
            then After(g, Apply(g, OpOf(env, r, g, Ends(env, r, g).0, Ends(env, r, g).1)))
            else g
    ensures Perform(env, r, g).good
            <==> (&& r.result >= 0 && Arrived(env, r, g)
                  && var (p, q) := Ends(env, r, g);
                     Apply(g, OpOf(env, r, g, p, q)).Ok? || (r.kind == TR_FCREAT && g.Has(p) && g.At(p).File?))
    ensures Perform(env, r, g).halt <==> env.mode == Strict && !Perform(env, r, g).good
  {
    hide Lookup, FirstName, SecondName, Bits, Apply, OpenAt;
    if r.kind == TR_FCREAT {
      var name := FirstName(env, r);
      assert env.os.open(g, name, O_CREAT, Perm(env, r)) == OpenCall(g, name, O_CREAT, Perm(env, r));
      CreateFollows();
      if First(env, r, g).Ok? {
        CreateActs(g, First(env, r, g).value, Perm(env, r));
      }
    }
  }

  lemma CreateFollows()
    ensures Follows(O_CREAT)
  {
  }

  /**
   * Exactly when a record changes nothing outside `cwd`, neither a name nor the content of an inode that has
   * one there.
   */
  lemma PerformOutsideIff(env: Env, cwd: Path, r: Record, g: FileSys)
    requires g.Sound() && env.os == Linux()
    ensures SameOutside(g, Perform(env, r, g).fs, cwd) <==> Stays(env, cwd, r, g)
  {
    UnchangedOutside(g, cwd);
    if env.mode == NoReplay || !Dispatched(r.kind) {
      NothingDone(env, r, g);
    } else if r.kind == TR_FWRITE {
      WriteActs(env, r, g);
      hide Perform, SameOutside, First, WriteResult, WriteStays;
      if First(env, r, g).Ok? {
        WriteOutsideIff(env, cwd, r, g, First(env, r, g).value);
      }
    } else {
      CallActs(env, r, g);
      hide *;
      if Arrived(env, r, g) {
        OpOutsideIff(env, cwd, r, g);
      } else {
        NotArrived(env, cwd, r, g);
      }
    }
  }

  lemma NothingDone(env: Env, r: Record, g: FileSys)
    requires env.mode == NoReplay || !Dispatched(r.kind)
    ensures Perform(env, r, g).fs == g
  {
  }

  lemma NotArrived(env: Env, cwd: Path, r: Record, g: FileSys)
    requires r.kind != TR_FWRITE && !Arrived(env, r, g)
    ensures Stays(env, cwd, r, g)
  {
  }

  lemma OpOutsideIff(env: Env, cwd: Path, r: Record, g: FileSys)
    requires g.Sound() && env.mode != NoReplay && Dispatched(r.kind) && r.kind != TR_FWRITE && Arrived(env, r, g)
    ensures var (p, q) := Ends(env, r, g);
            SameOutside(g, After(g, Apply(g, OpOf(env, r, g, p, q))), cwd) <==> Stays(env, cwd, r, g)
  {
    var (p, q) := Ends(env, r, g);
    hide SameOutside, Apply, First, Second, SecondName, Movable, Removable, Linkable;
    if r.kind == TR_UNLINK {
      RemoveOutsideIff(g, cwd, p);
    } else if r.kind == TR_LINK {
      LinkOutsideIff(g, cwd, p, q);
    } else if r.kind == TR_RENAME {
      RenameOutsideIff(g, cwd, p, q);
    } else {
      MakeOutsideIff(g, cwd, OpOf(env, r, g, p, q));
    }
  }

  // ----- sealing -----

  lemma PerformSound(env: Env, r: Record, g: FileSys)
    requires g.Sound() && env.os == Linux()
    ensures Perform(env, r, g).fs.Sound()
  {
    if env.mode == NoReplay || !Dispatched(r.kind) {
      NothingDone(env, r, g);
    } else if r.kind == TR_FWRITE {
      WriteActs(env, r, g);
      hide Perform, Rewritten, First;
    } else {
      CallActs(env, r, g);
      hide Perform, Apply, OpOf, First, Second;
      if Arrived(env, r, g) {
        ApplySound(g, OpOf(env, r, g, Ends(env, r, g).0, Ends(env, r, g).1));
      }
    }
  }

  /** The record makes a hard link to a file outside `cwd`. */
  predicate LinksIn(env: Env, cwd: Path, r: Record, g: FileSys) {
    && env.mode != NoReplay && r.kind == TR_LINK && Arrived(env, r, g)
    && var (p, q) := Ends(env, r, g);
       !(cwd <= p) && Linkable(g, p, q)
  }

  lemma SealedSame(g: FileSys, cwd: Path)
    ensures FreshOrInside(g, g, cwd)
  {
    forall x | x in g.names && cwd <= x ensures NamedInside(g, cwd, g.names[x]) {
    }
  }

  lemma WriteFresh(env: Env, cwd: Path, r: Record, g: FileSys, p: Path)
    ensures FreshOrInside(g, WriteResult(env, r, g, p), cwd)
  {
    hide Rewritten, Bits;
    SealedSame(g, cwd);
    var h := WriteResult(env, r, g, p);
    assert forall x :: x in h.names ==> (x in g.names && h.names[x] == g.names[x]) || h.names[x] == g.next;
    forall x | x in h.names && cwd <= x && h.names[x] != g.next ensures NamedInside(g, cwd, h.names[x]) {
      assert x in g.names;
    }
  }

  /** An operation whose paths lie below `cwd`, or that makes or removes one name, brings in no inode. */
  lemma OpFresh(g: FileSys, cwd: Path, op: Op)
    requires g.Sound() && !op.Write?
    requires op.Hardlink? || op.Rename? ==> (cwd <= op.path && cwd <= op.to) || !Apply(g, op).Ok?
                                            || Apply(g, op).value == g || (op.Hardlink? && cwd <= op.path)
    ensures FreshOrInside(g, After(g, Apply(g, op)), cwd)
  {
    SealedSame(g, cwd);
    var h := After(g, Apply(g, op));
    if op.Hardlink? && h != g {
      forall x | x in h.names && cwd <= x ensures NamedInside(g, cwd, h.names[x]) {
        var x' := if x == op.to then op.path else x;
        assert x' in g.names && cwd <= x' && g.names[x'] == h.names[x];
      }
    } else if op.Rename? && h != g {
      NewNamesInside(g, cwd, op);
    } else {
      assert forall x :: x in h.names ==> (x in g.names && h.names[x] == g.names[x]) || h.names[x] == g.next;
    }
  }

  lemma LinkUnseals(g: FileSys, cwd: Path, p: Path, q: Path)
    requires g.Sound() && Linkable(g, p, q) && !(cwd <= p) && cwd <= q
    ensures !Sealed(After(g, Apply(g, Hardlink(p, q))), cwd)
  {
    var h := After(g, Apply(g, Hardlink(p, q)));
    assert h.names[q] == h.names[p];
  }

  lemma HardlinkActs(g: FileSys, p: Path, q: Path)
    requires g.Sound()
    ensures Apply(g, Hardlink(p, q)).Ok? <==> Linkable(g, p, q)
  {
  }

  /** A record that stays keeps the directory sealed, unless it makes a link to a file outside. */
  lemma SealedIff(env: Env, cwd: Path, r: Record, g: FileSys)
    requires g.Sound() && env.os == Linux() && Sealed(g, cwd) && Stays(env, cwd, r, g)
    ensures Sealed(Perform(env, r, g).fs, cwd) <==> !LinksIn(env, cwd, r, g)
  {
    PerformOutsideIff(env, cwd, r, g);
    if env.mode == NoReplay || !Dispatched(r.kind) {
      NothingDone(env, r, g);
    } else if r.kind == TR_FWRITE {
      WriteActs(env, r, g);
      if First(env, r, g).Ok? {
        WriteFresh(env, cwd, r, g, First(env, r, g).value);
        hide *;
        StaysSealed(g, Perform(env, r, g).fs, cwd);
      }
    } else if Arrived(env, r, g) {
      CallActs(env, r, g);
      OpSealedIff(env, cwd, r, g);
    } else {
      CallActs(env, r, g);
    }
  }

  lemma OpSealedIff(env: Env, cwd: Path, r: Record, g: FileSys)
    requires g.Sound() && Sealed(g, cwd) && Stays(env, cwd, r, g) && Arrived(env, r, g)
    requires env.mode != NoReplay && Dispatched(r.kind) && r.kind != TR_FWRITE
    ensures var (p, q) := Ends(env, r, g);
            Sealed(After(g, Apply(g, OpOf(env, r, g, p, q))), cwd) <==> !LinksIn(env, cwd, r, g)
  {
    var (p, q) := Ends(env, r, g);
    var op := OpOf(env, r, g, p, q);
    OpOutsideIff(env, cwd, r, g);
    HardlinkActs(g, p, q);
    RenameActs(g, p, q);
    hide First, Second, SecondName, Sealed, SameOutside, Apply, Linkable, Movable, Removable;
    if LinksIn(env, cwd, r, g) {
      LinkUnseals(g, cwd, p, q);
    } else {
      assert r.kind == TR_RENAME && Movable(g, p, q) ==> cwd <= p && cwd <= q;
      OpFreshAt(g, cwd, op, p, q);
      StaysSealed(g, After(g, Apply(g, op)), cwd);
    }
  }

  lemma OpFreshAt(g: FileSys, cwd: Path, op: Op, p: Path, q: Path)
    requires g.Sound() && !op.Write?
    requires op.Hardlink? ==> op == Hardlink(p, q) && (cwd <= p || !Linkable(g, p, q))
    requires op.Rename? ==> op == Rename(p, q) && ((cwd <= p && cwd <= q) || !Movable(g, p, q))
    ensures FreshOrInside(g, After(g, Apply(g, op)), cwd)
  {
    HardlinkActs(g, p, q);
    RenameActs(g, p, q);
    hide Apply, Linkable, Movable;
    OpFresh(g, cwd, op);
  }

  // ----- lists of records -----

  lemma OutsideSymmetric(a: FileSys, b: FileSys, cwd: Path)
    requires SameOutside(a, b, cwd)
    ensures SameOutside(b, a, cwd)
  {
    forall y | !(cwd <= y) ensures SameAt(b, a, y) {
      assert SameAt(a, b, y);
    }
  }

  /** The tree after the first `k` records, or after the one that halts. */
  function TreeAfter(env: Env, rs: seq<Record>, k: nat, g: FileSys): FileSys
    requires k <= |rs|
  {
    ReplayList(env, rs[..k], g).fs
  }

  lemma TreeAfterNone(env: Env, rs: seq<Record>, g: FileSys)
    ensures TreeAfter(env, rs, 0, g) == g
  {
  }

  lemma TreeAfterCons(env: Env, rs: seq<Record>, k: nat, g: FileSys)
    requires 0 < k <= |rs|
    ensures var d := Perform(env, rs[0], g);
            TreeAfter(env, rs, k, g) == if d.halt then d.fs else TreeAfter(env, rs[1..], k - 1, d.fs)
  {
    hide Perform;
    assert rs[..k][0] == rs[0] && rs[..k][1..] == rs[1..][..k - 1];
  }

  /** All records stay when their turn comes, and none links a file in from outside. */
  ghost predicate AllStay(env: Env, cwd: Path, rs: seq<Record>, g: FileSys)
    decreases rs
  {
    rs == [] ||
    (&& Stays(env, cwd, rs[0], g) && !LinksIn(env, cwd, rs[0], g)
     && (Perform(env, rs[0], g).halt || AllStay(env, cwd, rs[1..], Perform(env, rs[0], g).fs)))
  }

  ghost predicate Unaffected(g: FileSys, h: FileSys, cwd: Path) { SameOutside(g, h, cwd) && Sealed(h, cwd) }

  /** Every tree the replay goes through is the starting one outside `cwd`, and shares no file with it. */
  ghost predicate StaysInside(env: Env, cwd: Path, rs: seq<Record>, g: FileSys) {
    forall k :: 0 <= k <= |rs| ==> Unaffected(g, TreeAfter(env, rs, k, g), cwd)
  }

  lemma UnaffectedThrough(a: FileSys, b: FileSys, c: FileSys, cwd: Path)
    requires Unaffected(a, b, cwd)
    ensures Unaffected(a, c, cwd) <==> Unaffected(b, c, cwd)
  {
    OutsideSymmetric(a, b, cwd);
    if SameOutside(a, c, cwd) {
      SameOutsideTransitive(b, a, c, cwd);
    }
    if SameOutside(b, c, cwd) {
      SameOutsideTransitive(a, b, c, cwd);
    }
  }

  lemma StepUnaffectedIff(env: Env, cwd: Path, r: Record, g: FileSys)
    requires g.Sound() && env.os == Linux() && Sealed(g, cwd)
    ensures Unaffected(g, Perform(env, r, g).fs, cwd) <==> Stays(env, cwd, r, g) && !LinksIn(env, cwd, r, g)
  {
    PerformOutsideIff(env, cwd, r, g);
    hide Stays, LinksIn, Perform, SameOutside, Sealed;
    if Stays(env, cwd, r, g) {
      SealedIff(env, cwd, r, g);
    }
  }

  /** The trees of a list are the start and those of its rest. */
  lemma StaysInsideCons(env: Env, cwd: Path, rs: seq<Record>, g: FileSys)
    requires rs != [] && g.Sound() && Sealed(g, cwd)
    ensures var d := Perform(env, rs[0], g);
            StaysInside(env, cwd, rs, g)
            <==> Unaffected(g, d.fs, cwd) && (d.halt || StaysInside(env, cwd, rs[1..], d.fs))
  {
    hide Perform, Unaffected, TreeAfter;
    var d, rest := Perform(env, rs[0], g), rs[1..];
    StartUnaffected(g, cwd);
    TreeAfterNone(env, rs, g);
    TreeAfterNone(env, rest, d.fs);
    forall k | 0 < k <= |rs|
      ensures TreeAfter(env, rs, k, g) == if d.halt then d.fs else TreeAfter(env, rest, k - 1, d.fs) {
      TreeAfterCons(env, rs, k, g);
    }
    if StaysInside(env, cwd, rs, g) {
      assert Unaffected(g, TreeAfter(env, rs, 1, g), cwd);
      if !d.halt {
        forall k | 0 <= k <= |rest| ensures Unaffected(d.fs, TreeAfter(env, rest, k, d.fs), cwd) {
          assert Unaffected(g, TreeAfter(env, rs, k + 1, g), cwd);
          UnaffectedThrough(g, d.fs, TreeAfter(env, rest, k, d.fs), cwd);
        }
      }
    } else if Unaffected(g, d.fs, cwd) && (d.halt || StaysInside(env, cwd, rest, d.fs)) {
      forall k | 0 <= k <= |rs| ensures Unaffected(g, TreeAfter(env, rs, k, g), cwd) {
        if k > 0 && !d.halt {
          assert Unaffected(d.fs, TreeAfter(env, rest, k - 1, d.fs), cwd);
          UnaffectedThrough(g, d.fs, TreeAfter(env, rest, k - 1, d.fs), cwd);
        }
      }
    }
  }

  lemma StartUnaffected(g: FileSys, cwd: Path)
    requires g.Sound() && Sealed(g, cwd)
    ensures Unaffected(g, g, cwd)
  {
    UnchangedOutside(g, cwd);
  }

  /**
   * Locality, exactly: started in a directory that shares no file with the rest of the file system, a replay
   * of any records leaves everything outside alone, and goes on sharing no file with it, if and only if every
   * record stays when its turn comes and none links a file in from outside.
   */
  lemma {:induction false} ReplayStaysInsideIff(env: Env, cwd: Path, rs: seq<Record>, g: FileSys)
    requires g.Sound() && env.os == Linux() && Sealed(g, cwd)
    ensures StaysInside(env, cwd, rs, g) <==> AllStay(env, cwd, rs, g)
    decreases rs
  {
    if rs == [] {
      StartUnaffected(g, cwd);
      TreeAfterNone(env, rs, g);
      hide TreeAfter;
    } else {
      hide Perform, Stays, LinksIn, StaysInside, Linux;
      StaysInsideCons(env, cwd, rs, g);
      StepUnaffectedIff(env, cwd, rs[0], g);
      PerformSound(env, rs[0], g);
      var d := Perform(env, rs[0], g);
      if Unaffected(g, d.fs, cwd) && !d.halt {
        ReplayStaysInsideIff(env, cwd, rs[1..], d.fs);
      }
    }
  }

  /** The names the record looks up arrive at or below `cwd`, the source of a link included, or nowhere. */
  predicate Arrives(env: Env, cwd: Path, r: Record, g: FileSys) {
    && (First(env, r, g).Ok? ==> cwd <= First(env, r, g).value)
    && (TwoNames(r) && Second(env, r, g).Ok? ==> cwd <= Second(env, r, g).value)
  }

  predicate AllArrive(env: Env, cwd: Path, rs: seq<Record>, g: FileSys)
    decreases rs
  {
    rs == [] ||
    (Arrives(env, cwd, rs[0], g)
     && (Perform(env, rs[0], g).halt || AllArrive(env, cwd, rs[1..], Perform(env, rs[0], g).fs)))
  }

  lemma ArrivingStays(env: Env, cwd: Path, r: Record, g: FileSys)
    requires Sealed(g, cwd) && Arrives(env, cwd, r, g)
    ensures Stays(env, cwd, r, g) && !LinksIn(env, cwd, r, g)
  {
    hide Movable, Linkable, Removable, Lookup, FirstName, SecondName, Rewritten;
    if First(env, r, g).Ok? && r.kind == TR_FWRITE && g.Has(First(env, r, g).value) {
      NotNamedOutside(g, cwd, First(env, r, g).value);
    }
  }

  lemma NotNamedOutside(g: FileSys, cwd: Path, p: Path)
    requires Sealed(g, cwd) && p in g.names && cwd <= p
    ensures !NamedOutside(g, cwd, g.names[p])
  {
  }

  lemma {:induction false} ArrivingListStays(env: Env, cwd: Path, rs: seq<Record>, g: FileSys)
    requires g.Sound() && env.os == Linux() && Sealed(g, cwd) && AllArrive(env, cwd, rs, g)
    ensures AllStay(env, cwd, rs, g)
    decreases rs
  {
    if rs != [] {
      hide Perform, Stays, LinksIn, Arrives, Linux, Sealed, SameOutside;
      ArrivingStays(env, cwd, rs[0], g);
      StepUnaffectedIff(env, cwd, rs[0], g);
      PerformSound(env, rs[0], g);
      if !Perform(env, rs[0], g).halt {
        ArrivingListStays(env, cwd, rs[1..], Perform(env, rs[0], g).fs);
      }
    }
  }

  /**
   * So replay stays inside whenever no name leads out: symbolic links may be made, and be there, as long as
   * none that is followed leads out of the directory.
   */
  lemma ReplayStaysInside(env: Env, cwd: Path, rs: seq<Record>, g: FileSys)
    requires g.Sound() && env.os == Linux() && Sealed(g, cwd) && AllArrive(env, cwd, rs, g)
    ensures SameOutside(g, ReplayList(env, rs, g).fs, cwd) && Sealed(ReplayList(env, rs, g).fs, cwd)
  {
    ArrivingListStays(env, cwd, rs, g);
    ReplayStaysInsideIff(env, cwd, rs, g);
    hide AllStay, AllArrive, Unaffected;
    assert Unaffected(g, TreeAfter(env, rs, |rs|, g), cwd);
    assert rs[..|rs|] == rs;
    UnaffectedMeans(g, ReplayList(env, rs, g).fs, cwd);
  }

  lemma UnaffectedMeans(g: FileSys, h: FileSys, cwd: Path)
    requires Unaffected(g, h, cwd)
    ensures SameOutside(g, h, cwd) && Sealed(h, cwd)
  {
  }
}
