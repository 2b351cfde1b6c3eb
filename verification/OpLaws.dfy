/**
 * What each operation does and when it is refused, name by name, byte by byte and bit by bit: the effects that
 * chapter 3 of the System Interfaces volume of IEEE Std 1003.1-2017 describes, for the operations and for the
 * calls treplay makes.
 */
module OpLaws {
  import opened Bytes
  import opened Records
  import opened FileSystem
  import opened FsLaws
  import opened Resolve
  import opened Syscalls
  import opened Replay
  import opened Replaying
  import opened Locality

  // ----- content -----

  /** A file after `d` has been written at `pos`: the written bytes, and around them what was there, or zeros. */
  ghost predicate WrittenAt(c: seq<byte>, pos: nat, d: seq<byte>, r: seq<byte>) {
    && |r| == (if pos + |d| > |c| then pos + |d| else |c|)
    && (forall i :: pos <= i < pos + |d| ==> r[i] == d[i - pos])
    && (forall i :: 0 <= i < |c| && !(pos <= i < pos + |d|) ==> r[i] == c[i])
    && (forall i :: |c| <= i < pos ==> r[i] == 0)
  }

  lemma SpliceWrites(c: seq<byte>, pos: nat, d: seq<byte>)
    requires d != []
    ensures WrittenAt(c, pos, d, Splice(c, pos, d))
  {
  }

  /** Names, inodes and nodes are the same but for the one inode, which has a new content. */
  ghost predicate OnlyContent(f: FileSys, g: FileSys, p: Path, r: seq<byte>) {
    && f.Has(p) && f.At(p).File? && g.names == f.names && g.next == f.next && g.nodes.Keys == f.nodes.Keys
    && g.Has(p) && g.At(p) == File(f.At(p).mode, r)
    && (forall i :: i in f.nodes && i != f.names[p] ==> g.nodes[i] == f.nodes[i])
  }

  /** write(2): where it may, and what every name of the file then reads. */
  lemma WriteMeans(fs: FileSys, p: Path, flags: nat, append: bool, pos: nat, data: seq<byte>)
    ensures var r := Apply(fs, Write(p, flags, append, pos, data));
            && (r.Ok? <==> fs.Has(p) && fs.At(p).File? && (flags % 4 == 1 || flags % 4 == 2))
            && (!fs.Has(p) ==> r == Err(ENOENT))
            && (fs.Has(p) && !fs.At(p).File? ==> r == Err(EISDIR))
            && (fs.Has(p) && fs.At(p).File? && r.Err? ==> r == Err(EBADF))
            && (r.Ok? && data != [] ==>
                  && r.value.Has(p) && r.value.At(p).File? && OnlyContent(fs, r.value, p, r.value.At(p).data)
                  && WrittenAt(fs.At(p).data, if append then |fs.At(p).data| else pos, data, r.value.At(p).data))
            && (r.Ok? && data == [] ==> r.value.names == fs.names && r.value.nodes == fs.nodes)
  {
    if fs.Has(p) && fs.At(p).File? && data != [] {
      SpliceWrites(fs.At(p).data, if append then |fs.At(p).data| else pos, data);
    }
    hide Splice;
  }

  /**
   * The replay of a write record on a file that is there: under O_TRUNC the data alone, under O_APPEND the old
   * content and the data, else the data over the start of the old content.
   */
  lemma ReplayedWriteMeans(env: Env, r: Record, g: FileSys, p: Path)
    requires g.Sound() && env.os == Linux() && env.mode == Normal && r.kind == TR_FWRITE && r.aux != []
    requires First(env, r, g) == Ok(p) && g.Has(p) && g.At(p).File?
    requires (r.flags % 4 == 1 || r.flags % 4 == 2) && !(r.flags / 0x40 % 2 == 1 && r.flags / 0x80 % 2 == 1)
    ensures var h := Perform(env, r, g).fs;
            && h.Has(p) && h.At(p).File? && OnlyContent(g, h, p, h.At(p).data)
            && var c := if r.flags / 0x200 % 2 == 1 then [] else g.At(p).data;
               WrittenAt(c, if r.flags / 0x400 % 2 == 1 then |c| else 0, r.aux, h.At(p).data)
  {
    WriteActs(env, r, g);
    var c := if r.flags / 0x200 % 2 == 1 then [] else g.At(p).data;
    var off := if r.flags / 0x400 % 2 == 1 then |c| else 0;
    SpliceWrites(c, off, r.aux);
    hide Perform, First, Splice, WrittenAt;
    assert Rewritten(env, r, g.At(p).data) == Splice(c, off, r.aux);
  }

  // ----- modes -----

  predicate SetBit(n: nat, i: nat) {
    if i == 0 then n % 2 == 1 else SetBit(n / 2, i - 1)
  }

  lemma {:induction false} NoBitOfZero(i: nat)
    ensures !SetBit(0, i)
  {
    if i > 0 {
      NoBitOfZero(i - 1);
    }
  }

  lemma BitsStep(mode: nat, umask: nat, k: nat)
    requires k > 0
    ensures Bits(mode, umask, k) / 2 == Bits(mode / 2, umask / 2, k - 1)
    ensures Bits(mode, umask, k) % 2 == 1 <==> mode % 2 == 1 && umask % 2 != 1
  {
  }

  /** A mode under a umask: the bits of the mode, up to the width, that the umask does not have. */
  lemma {:induction false} BitsAt(mode: nat, umask: nat, k: nat, i: nat)
    ensures SetBit(Bits(mode, umask, k), i) <==> i < k && SetBit(mode, i) && !SetBit(umask, i)
    decreases k
  {
    if k == 0 {
      NoBitOfZero(i);
    } else {
      BitsStep(mode, umask, k);
      hide Bits;
      if i > 0 {
        BitsAt(mode / 2, umask / 2, k - 1, i - 1);
      }
    }
  }

  /** The bits of a mode that a node keeps, twelve of a file and ten of a directory, without those of the umask. */
  ghost predicate MaskedTo(m: nat, mode: nat, umask: nat, width: nat) {
    forall i: nat :: SetBit(m, i) <==> i < width && SetBit(mode, i) && !SetBit(umask, i)
  }

  lemma BitsMasked(mode: nat, umask: nat, k: nat)
    ensures MaskedTo(Bits(mode, umask, k), mode, umask, k)
  {
    forall i: nat ensures SetBit(Bits(mode, umask, k), i) <==> i < k && SetBit(mode, i) && !SetBit(umask, i) {
      BitsAt(mode, umask, k, i);
    }
  }

  lemma BitsMaskedTwice(mode: nat, umask: nat, j: nat, k: nat)
    requires j <= k
    ensures MaskedTo(Bits(Bits(mode, umask, k), 0, j), mode, umask, j)
  {
    hide Bits;
    forall i: nat ensures SetBit(Bits(Bits(mode, umask, k), 0, j), i) <==> i < j && SetBit(mode, i) && !SetBit(umask, i) {
      BitsAt(Bits(mode, umask, k), 0, j, i);
      BitsAt(mode, umask, k, i);
      NoBitOfZero(i);
    }
  }

  /** A replayed mkdir makes an empty place with the mode mkdir(2) gives. */
  lemma ReplayedMkdirMeans(env: Env, r: Record, g: FileSys, p: Path)
    requires g.Sound() && env.os == Linux() && env.mode != NoReplay && r.kind == TR_DCREAT
    requires First(env, r, g) == Ok(p) && g.Vacant(p)
    ensures var h := Perform(env, r, g).fs;
            NewName(g, h, p) && h.At(p).Dir? && MaskedTo(h.At(p).mode, r.perm, env.umask, 10)
  {
    CallActs(env, r, g);
    BitsMaskedTwice(r.perm, env.umask, 10, 12);
    hide Perform, First, Bits, MaskedTo;
  }

  /** A replayed create makes an empty file with the mode open(2) gives. */
  lemma ReplayedCreateMeans(env: Env, r: Record, g: FileSys, p: Path)
    requires g.Sound() && env.os == Linux() && env.mode != NoReplay && r.kind == TR_FCREAT
    requires First(env, r, g) == Ok(p) && g.Vacant(p)
    ensures var h := Perform(env, r, g).fs;
            NewName(g, h, p) && h.At(p).File? && h.At(p).data == [] && MaskedTo(h.At(p).mode, r.perm, env.umask, 12)
  {
    CallActs(env, r, g);
    BitsMaskedTwice(r.perm, env.umask, 12, 12);
    hide Perform, First, Bits, MaskedTo;
  }

  // ----- names -----

  /** `g` is `f` with one more name, which has an inode of its own. */
  ghost predicate NewName(f: FileSys, g: FileSys, p: Path) {
    && p !in f.names && g.names.Keys == f.names.Keys + {p} && g.Has(p)
    && (forall x :: x in f.names ==> g.names[x] == f.names[x] && g.names[x] != g.names[p])
    && (forall i :: i in f.nodes ==> i in g.nodes && g.nodes[i] == f.nodes[i])
  }

  /** Verdict and effect of the operations that make a node. */
  lemma MakeMeans(fs: FileSys, op: Op)
    requires fs.Sound() && (op.Create? || op.Mkdir? || op.Symlink?)
    ensures var r, p := Apply(fs, op), op.path;
            && (p in fs.names ==> r == Err(EEXIST))
            && (p !in fs.names && !(p != [] && fs.IsDir(Parent(p))) ==> r == Err(ENOENT))
            && (op.Symlink? && op.target == [] ==> r.Err?)
            && (p !in fs.names && p != [] && fs.IsDir(Parent(p)) && !(op.Symlink? && op.target == []) ==> r.Ok?)
            && (r.Ok? ==> NewName(fs, r.value, p))
            && (r.Ok? && op.Create? ==>
                  r.value.At(p).File? && r.value.At(p).data == [] && MaskedTo(r.value.At(p).mode, op.mode, 0, 12))
            && (r.Ok? && op.Mkdir? ==> r.value.At(p).Dir? && MaskedTo(r.value.At(p).mode, op.mode, 0, 10))
            && (r.Ok? && op.Symlink? ==> r.value.At(p) == Link(op.target))
  {
    if op.Create? {
      BitsMasked(op.mode, 0, 12);
    } else if op.Mkdir? {
      BitsMasked(op.mode, 0, 10);
    }
    hide Bits, MaskedTo;
  }

  /** link(2): one more name of the same inode; never of a directory. */
  lemma LinkMeans(fs: FileSys, p: Path, q: Path)
    ensures var r := Apply(fs, Hardlink(p, q));
            && (!fs.Has(p) ==> r == Err(ENOENT))
            && (fs.IsDir(p) ==> r == Err(EPERM))
            && (fs.Has(p) && !fs.IsDir(p) && q in fs.names ==> r == Err(EEXIST))
            && (fs.Has(p) && !fs.IsDir(p) && q !in fs.names && !(q != [] && fs.IsDir(Parent(q))) ==> r == Err(ENOENT))
            && (fs.Has(p) && !fs.IsDir(p) && q !in fs.names && q != [] && fs.IsDir(Parent(q)) ==>
                  && r.Ok? && r.value.names.Keys == fs.names.Keys + {q} && r.value.names[q] == fs.names[p]
                  && (forall x :: x in fs.names ==> r.value.names[x] == fs.names[x]) && r.value.nodes == fs.nodes)
  {
  }

  /** Something lies below `p`. */
  ghost predicate Populated(fs: FileSys, p: Path) {
    exists x :: x in fs.names && p <= x && x != p
  }

  /** unlink(2) and rmdir(2): one name less; unlink no directory, rmdir an empty one. */
  lemma RemoveMeans(fs: FileSys, op: Op)
    requires op.Unlink? || op.Rmdir?
    ensures var r, p := Apply(fs, op), op.path;
            && (!fs.Has(p) ==> r == Err(ENOENT))
            && (op.Unlink? && fs.Has(p) && fs.IsDir(p) ==> r == Err(EISDIR))
            && (op.Rmdir? && fs.Has(p) && p != [] && !fs.IsDir(p) ==> r == Err(ENOTDIR))
            && (op.Rmdir? && fs.IsDir(p) && p == [] ==> r == Err(EBUSY))
            && (op.Rmdir? && fs.IsDir(p) && p != [] && Populated(fs, p) ==> r == Err(ENOTEMPTY))
            && (fs.Has(p) && p != [] && (fs.IsDir(p) <==> op.Rmdir?)
                && !(op.Rmdir? && Populated(fs, p)) ==>
                  && r.Ok? && r.value.names.Keys == fs.names.Keys - {p}
                  && (forall x :: x in r.value.names ==> r.value.names[x] == fs.names[x]) && r.value.nodes == fs.nodes)
  {
  }

  /** rename(2): when it is refused. */
  lemma RenameRefused(fs: FileSys, p: Path, q: Path)
    requires fs.Sound()
    ensures var r := Apply(fs, Rename(p, q));
            && (p == [] || q == [] ==> r == Err(EBUSY))
            && (p != [] && q != [] ==>
                  && (!fs.Has(p) ==> r == Err(ENOENT))
                  && (fs.Has(p) && !fs.IsDir(Parent(q)) ==> r == Err(ENOTDIR))
                  && (fs.Has(p) && fs.IsDir(Parent(q)) && fs.Has(q) && fs.names[q] == fs.names[p] ==> r == Ok(fs))
                  && (fs.Has(p) && fs.IsDir(Parent(q)) && !(fs.Has(q) && fs.names[q] == fs.names[p]) ==>
                        && (p <= q ==> r == Err(EINVAL))
                        && (!(p <= q) && q <= p ==> r == Err(ENOTEMPTY))
                        && (!(p <= q) && !(q <= p) && fs.Has(q) && fs.IsDir(p) && !fs.IsDir(q) ==> r == Err(ENOTDIR))
                        && (!(p <= q) && !(q <= p) && fs.Has(q) && !fs.IsDir(p) && fs.IsDir(q) ==> r == Err(EISDIR))
                        && (!(p <= q) && !(q <= p) && fs.Has(q) && (fs.IsDir(p) <==> fs.IsDir(q)) ==>
                              if Populated(fs, q) then r == Err(ENOTEMPTY) else r.Ok?)
                        && (!(p <= q) && !(q <= p) && !fs.Has(q) ==> r.Ok?)))
  {
    hide Move;
  }

  /** And what it does: all names below the source are then below the target, and below the source there is none. */
  lemma RenameMeans(fs: FileSys, p: Path, q: Path)
    requires fs.Sound() && Apply(fs, Rename(p, q)).Ok?
    requires !(fs.Has(q) && fs.names[q] == fs.names[p])
    ensures var h := Apply(fs, Rename(p, q)).value;
            && h.nodes == fs.nodes
            && (forall s :: q + s in h.names <==> p + s in fs.names)
            && (forall s :: p + s in fs.names ==> q + s in h.names && h.names[q + s] == fs.names[p + s])
            && (forall x :: p <= x ==> x !in h.names)
            && (forall x :: !(p <= x) && !(q <= x) ==>
                  (x in h.names <==> x in fs.names) && (x in fs.names ==> h.names[x] == fs.names[x]))
  {
    var h := Apply(fs, Rename(p, q)).value;
    assert h == fs.(names := Move(fs.names, p, q)) && !(p <= q) && !(q <= p);
    hide Apply;
    forall s ensures q + s in h.names <==> p + s in fs.names
      ensures p + s in fs.names ==> h.names[q + s] == fs.names[p + s] {
      assert q <= q + s && (q + s)[|q|..] == s;
    }
    forall x | p <= x ensures x !in h.names {
      if q <= x {
        PrefixesCompare(p, q, x);
      }
    }
  }

  lemma PrefixesCompare(a: Path, b: Path, x: Path)
    requires a <= x && b <= x
    ensures a <= b || b <= a
  {
    assert a == x[..|a|] && b == x[..|b|];
    if |a| <= |b| {
      assert a == b[..|a|];
    } else {
      assert b == a[..|b|];
    }
  }

  // ----- open -----

  /** open(2) by the bits of its flags: 0x40 makes, 0x80 with it insists, 0x200 empties, 0x20000 takes no link. */
  lemma OpenMeans(fs: FileSys, p: Path, flags: nat, mode: nat)
    requires fs.Sound()
    ensures var r := OpenAt(fs, p, flags, mode);
            var creat, excl, trunc := flags / 0x40 % 2 == 1, flags / 0x80 % 2 == 1, flags / 0x200 % 2 == 1;
            && (!fs.Has(p) && !creat ==> r == Err(ENOENT))
            && (!fs.Has(p) && creat && !(p != [] && fs.IsDir(Parent(p))) ==> r.Err?)
            && (!fs.Has(p) && creat && p != [] && fs.IsDir(Parent(p)) ==>
                  && r.Ok? && NewName(fs, r.value, p) && r.value.At(p).File? && r.value.At(p).data == []
                  && MaskedTo(r.value.At(p).mode, mode, 0, 12))
            && (fs.Has(p) && creat && excl ==> r == Err(EEXIST))
            && (fs.Has(p) && !(creat && excl) && fs.At(p).Link? ==> r == Err(ELOOP))
            && (fs.Has(p) && !(creat && excl) && fs.At(p).Dir? ==>
                  if creat || trunc || flags % 4 == 1 || flags % 4 == 2 then r == Err(EISDIR) else r == Ok(fs))
            && (fs.Has(p) && !(creat && excl) && fs.At(p).File? ==>
                  r.Ok? && if trunc then OnlyContent(fs, r.value, p, []) else r.value == fs)
  {
    MakeMeans(fs, Create(p, mode));
    hide Bits, MaskedTo;
  }

  /** Which lookups follow a link at the end: those of open, but with 0x20000, or 0x40 and 0x80. */
  lemma FollowsMeans(flags: nat)
    ensures Follows(flags) <==> flags / 0x2_0000 % 2 != 1 && !(flags / 0x40 % 2 == 1 && flags / 0x80 % 2 == 1)
  {
  }

  // ----- the calls -----

  /** Each call looks its paths up and does its one operation there; remove(3) goes by the type. */
  lemma CallsMean(env: Env, r: Record, g: FileSys, p: Path, q: Path)
    requires g.Sound() && env.os == Linux() && env.mode != NoReplay
    requires Lookup(g, FirstName(env, r), false) == Ok(p)
    requires r.kind == TR_RENAME || r.kind == TR_LINK ==> Lookup(g, SecondName(env, r), false) == Ok(q)
    ensures var h := Perform(env, r, g).fs;
            && (r.kind == TR_RENAME ==> h == After(g, Apply(g, Rename(p, q))))
            && (r.kind == TR_LINK ==> h == After(g, Apply(g, Hardlink(p, q))))
            && (r.kind == TR_SYMLINK ==> h == After(g, Apply(g, Symlink(p, CString(r.aux)))))
            && (r.kind == TR_UNLINK ==> h == After(g, Apply(g, if g.IsDir(p) then Rmdir(p) else Unlink(p))))
  {
    if r.kind == TR_RENAME || r.kind == TR_LINK || r.kind == TR_SYMLINK || r.kind == TR_UNLINK {
      CallActs(env, r, g);
      hide Perform, Lookup, FirstName, Apply;
    }
  }

  /** A failing call changes nothing, and whether one is good does not depend on anything but that and the record. */
  lemma GoodMeans(env: Env, r: Record, g: FileSys)
    requires env.mode != NoReplay && Dispatched(r.kind) && r.kind != TR_FWRITE
    ensures var c, d := Call(env, r.kind, r.perm, FirstName(env, r), SecondName(env, r), g), Perform(env, r, g);
            && (d.good <==> c.Ok? && r.result >= 0) && (c.Err? ==> d.fs == g) && (c.Ok? ==> d.fs == c.value)
  {
    hide Call, FirstName, SecondName;
  }

  // ----- what the traced operations log -----

  /** The string of a path: "/" for the top, and else a slash before each name. */
  lemma RenderMeans(p: Path, n: Name)
    ensures Render([]) == [47] && Render([n]) == [47] + n
    ensures p != [] ==> Render(p + [n]) == Render(p) + [47] + n
  {
    JoinSnoc([], n);
    assert [] + [n] == [n] && [] + [47] + n == [47] + n;
    JoinSnoc(p, n);
  }

  lemma {:induction false} JoinSnoc(p: Path, n: Name)
    ensures Join(p + [n]) == Join(p) + [47] + n
  {
    if p == [] {
      assert [] + [n] == [n] && [n][1..] == [];
      assert [SLASH] + n + [] == [] + [47] + n;
    } else {
      assert (p + [n])[1..] == p[1..] + [n] && (p + [n])[0] == p[0];
      JoinSnoc(p[1..], n);
      assert [SLASH] + p[0] + (Join(p[1..]) + [47] + n) == [SLASH] + p[0] + Join(p[1..]) + [47] + n;
    }
  }

  /** The record of a successful operation, as trfs/inode.c and trfs/file.c hand its parts to fill_record. */
  lemma RecordMeans(op: Op, id: nat)
    requires id < 0x1_0000_0000
    ensures var r := RecordOf(op, id);
            && r.id == id && r.path == Render(op.path)
            && (op.Create? ==> r.kind == 0x1 && r.perm == op.mode && r.aux == [])
            && (op.Write? ==> r.kind == 0x4 && r.flags == op.flags && r.aux == op.data)
            && (op.Mkdir? ==> r.kind == 0x400 && r.perm == op.mode && r.aux == [])
            && (op.Rename? ==> r.kind == 0x10_0000 && r.aux == Render(op.to))
            && (op.Hardlink? ==> r.kind == 0x20_0000 && r.aux == Render(op.to))
            && (op.Symlink? ==> r.kind == 0x40_0000 && r.aux == op.target)
            && (op.Unlink? || op.Rmdir? ==> r.kind == 0x80_0000 && r.aux == [])
            && (!op.Write? ==> r.flags == 0 && r.result == 0) && (op.Write? ==> r.result == |op.data|)
            && (!op.Create? && !op.Mkdir? ==> r.perm == 0)
  {
    hide Render;
  }
}
