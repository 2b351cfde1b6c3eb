/**
 * The lower file system as the VFS calls see it: a tree of names over an inode table, so that hard
 * links share one inode. Paths here are physical (dentry) paths: sequences of component names.
 */
module FileSystem {
  import opened Bytes

  type Name = seq<byte>
  type Path = seq<Name>
  type Ino = nat

  datatype Node = Dir(mode: nat) | File(mode: nat, data: seq<byte>) | Link(target: seq<byte>)

  datatype FileSys = FileSys(names: map<Path, Ino>, nodes: map<Ino, Node>, next: Ino) {

    predicate Has(p: Path) { p in names && names[p] in nodes }

    function At(p: Path): Node
      requires Has(p)
    {
      nodes[names[p]]
    }

    predicate IsDir(p: Path) { Has(p) && At(p).Dir? }

    predicate IsLink(p: Path) { Has(p) && At(p).Link? }

    /** No name lies below `p`. */
    predicate Childless(p: Path) {
      forall r :: r in names && p <= r ==> r == p
    }

    /** A new name may be entered at `p`. */
    predicate Vacant(p: Path) {
      p != [] && p !in names && IsDir(Parent(p))
    }

    /** Every name has an inode and inode numbers at or above `next` are unused. */
    ghost predicate Sound() {
      && (forall p :: p in names ==> names[p] in nodes)
      && (forall i :: i in nodes ==> i < next)
    }

    /** The root is a directory and so is the parent of every other name. */
    ghost predicate Rooted() {
      && IsDir([])
      && (forall p :: p in names && p != [] ==> IsDir(Parent(p)))
    }

    /** Enters a fresh inode at `p`. */
    function Enter(p: Path, n: Node): FileSys {
      FileSys(names[p := next], nodes[next := n], next + 1)
    }

    /** Replaces the content of the file at `p`. */
    function Put(p: Path, data: seq<byte>): FileSys
      requires Has(p) && At(p).File?
    {
      this.(nodes := nodes[names[p] := At(p).(data := data)])
    }

    function Remove(p: Path): FileSys {
      FileSys(map q | q in names && q != p :: names[q], nodes, next)
    }
  }

  function Parent(p: Path): Path
    requires p != []
  {
    p[..|p| - 1]
  }

  datatype Errno = EPERM | ENOENT | EBUSY | EEXIST | ENOTDIR | EISDIR | EINVAL | ENOTEMPTY | ELOOP | EBADF

  datatype Result<+T> = Ok(value: T) | Err(error: Errno)

  /**
   * One traced operation with the arguments the VFS hands to trfs. A write carries the flags of the file
   * it is called on, which are logged, and whether the lower file, opened with it, appends: a later change
   * of the flags does not reach the lower file.
   */
  datatype Op =
    | Create(path: Path, mode: nat)
    | Mkdir(path: Path, mode: nat)
    | Symlink(path: Path, target: seq<byte>)
    | Hardlink(path: Path, to: Path)
    | Rename(path: Path, to: Path)
    | Unlink(path: Path)
    | Rmdir(path: Path)
    | Write(path: Path, flags: nat, append: bool, pos: nat, data: seq<byte>)

  /** The name map after the subtree at `p` has replaced whatever was at `q`. */
  function Move(names: map<Path, Ino>, p: Path, q: Path): (r: map<Path, Ino>)
    ensures forall x :: x in r <==> (if q <= x then p + x[|q|..] in names else x in names && !(p <= x))
    ensures forall x :: x in r ==> r[x] == (if q <= x then names[p + x[|q|..]] else names[x])
  {
    var kept := set x | x in names && !(q <= x) && !(p <= x);
    var moved := set y | y in names && p <= y :: q + y[|p|..];
    assert forall x :: x in moved <==> q <= x && p + x[|q|..] in names by {
      forall x | q <= x && p + x[|q|..] in names ensures x in moved {
        var y := p + x[|q|..];
        assert y[|p|..] == x[|q|..] && q + y[|p|..] == x;
      }
      forall x | x in moved ensures q <= x && p + x[|q|..] in names {
        var y :| y in names && p <= y && q + y[|p|..] == x;
        assert x[|q|..] == y[|p|..] && p + y[|p|..] == y;
      }
    }
    map x | x in kept + moved :: if q <= x then names[p + x[|q|..]] else names[x]
  }

  /** File content after `d` is written at offset `pos`; a gap is filled with zeros. Nothing written, nothing filled. */
  function Splice(content: seq<byte>, pos: nat, d: seq<byte>): seq<byte> {
    if d == [] then content
    else
      var head := if pos <= |content| then content[..pos] else content + seq(pos - |content|, _ => 0);
      head + d + (if pos + |d| <= |content| then content[pos + |d|..] else [])
  }

  /** The low `k` bits of `mode & ~umask`. */
  function Bits(mode: nat, umask: nat, k: nat): nat
    decreases k
  {
    if k == 0 then 0
    else (if umask % 2 == 1 then 0 else mode % 2) + 2 * Bits(mode / 2, umask / 2, k - 1)
  }

  /** vfs_create keeps S_IALLUGO, vfs_mkdir keeps S_IRWXUGO and the sticky bit. */
  const FILE_MODE_BITS: nat := 12
  const DIR_MODE_BITS: nat := 10

  const O_APPEND: nat := 0x400

  /** O_ACCMODE is O_WRONLY or O_RDWR. */
  predicate Writable(flags: nat) { flags % 4 == 1 || flags % 4 == 2 }

  predicate Appends(flags: nat) { (flags / O_APPEND) % 2 == 1 }

  function WriteOffset(content: seq<byte>, append: bool, pos: nat): nat {
    if append then |content| else pos
  }

  /** The rename branches of trfs_rename and vfs_rename. */
  function RenameResult(fs: FileSys, p: Path, q: Path): Result<FileSys> {
    if p == [] || q == [] then Err(EBUSY)
    else if !fs.Has(p) then Err(ENOENT)
    else if !fs.IsDir(Parent(q)) then Err(ENOTDIR)
    else if q in fs.names && fs.names[q] == fs.names[p] then Ok(fs)
    else if p <= q then Err(EINVAL)
    else if q <= p then Err(ENOTEMPTY)
    else if !fs.Has(q) then Ok(fs.(names := Move(fs.names, p, q)))
    else if fs.IsDir(p) && !fs.IsDir(q) then Err(ENOTDIR)
    else if !fs.IsDir(p) && fs.IsDir(q) then Err(EISDIR)
    else if !fs.Childless(q) then Err(ENOTEMPTY)
    else Ok(fs.(names := Move(fs.names, p, q)))
  }

  /** The effect of one operation on the lower file system. */
  function Apply(fs: FileSys, op: Op): Result<FileSys> {
    match op
    case Create(p, mode) =>
      if p in fs.names then Err(EEXIST)
      else if !fs.Vacant(p) then Err(ENOENT)
      else Ok(fs.Enter(p, File(Bits(mode, 0, FILE_MODE_BITS), [])))
    case Mkdir(p, mode) =>
      if p in fs.names then Err(EEXIST)
      else if !fs.Vacant(p) then Err(ENOENT)
      else Ok(fs.Enter(p, Dir(Bits(mode, 0, DIR_MODE_BITS))))
    case Symlink(p, target) =>
      if p in fs.names then Err(EEXIST)
      else if !fs.Vacant(p) || target == [] then Err(ENOENT)
      else Ok(fs.Enter(p, Link(target)))
    case Hardlink(p, q) =>
      if !fs.Has(p) then Err(ENOENT)
      else if fs.IsDir(p) then Err(EPERM)
      else if q in fs.names then Err(EEXIST)
      else if !fs.Vacant(q) then Err(ENOENT)
      else Ok(fs.(names := fs.names[q := fs.names[p]]))
    case Rename(p, q) => RenameResult(fs, p, q)
    case Unlink(p) =>
      if !fs.Has(p) then Err(ENOENT)
      else if p == [] || fs.IsDir(p) then Err(EISDIR)
      else Ok(fs.Remove(p))
    case Rmdir(p) =>
      if !fs.Has(p) then Err(ENOENT)
      else if p == [] then Err(EBUSY)
      else if !fs.IsDir(p) then Err(ENOTDIR)
      else if !fs.Childless(p) then Err(ENOTEMPTY)
      else Ok(fs.Remove(p))
    case Write(p, flags, append, pos, data) =>
      if !fs.Has(p) then Err(ENOENT)
      else if !fs.At(p).File? then Err(EISDIR)
      else if !Writable(flags) then Err(EBADF)
      else Ok(fs.Put(p, Splice(fs.At(p).data, WriteOffset(fs.At(p).data, append, pos), data)))
  }

  /** Runs operations in order; the first failure is the result. */
  function Run(fs: FileSys, ops: seq<Op>): Result<FileSys>
    decreases ops
  {
    if ops == [] then Ok(fs)
    else
      var r := Apply(fs, ops[0]);
      if r.Err? then r else Run(r.value, ops[1..])
  }

  lemma {:induction false} RunAppend(fs: FileSys, a: seq<Op>, b: seq<Op>)
    ensures Run(fs, a + b) == (var r := Run(fs, a); if r.Err? then r else Run(r.value, b))
    decreases a
  {
    if a == [] {
      assert a + b == b;
    } else {
      assert (a + b)[1..] == a[1..] + b;
      var r := Apply(fs, a[0]);
      if r.Ok? {
        RunAppend(r.value, a[1..], b);
      }
    }
  }
}
