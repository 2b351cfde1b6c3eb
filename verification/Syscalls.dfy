/** The system calls treplay makes, as the kernel carries them out: look the path up, then act on the tree. */
module Syscalls {
  import opened Bytes
  import opened FileSystem
  import opened Resolve

  const O_CREAT: nat := 0x40
  const O_EXCL: nat := 0x80
  const O_TRUNC: nat := 0x200
  const O_NOFOLLOW: nat := 0x2_0000

  predicate Bit(flags: nat, bit: nat)
    requires bit > 0
  {
    flags / bit % 2 == 1
  }

  predicate MustMake(flags: nat) { Bit(flags, O_CREAT) && Bit(flags, O_EXCL) }

  /** Whether open follows a link at the end of its path; one that must make the file does not. */
  predicate Follows(flags: nat) { !MustMake(flags) && !Bit(flags, O_NOFOLLOW) }

  /** open(2) on the path its lookup arrived at; the mode counts only for a file it makes. */
  function OpenAt(fs: FileSys, p: Path, flags: nat, mode: nat): Result<FileSys> {
    if !fs.Has(p) then
      if Bit(flags, O_CREAT) then Apply(fs, Create(p, mode)) else Err(ENOENT)
    else if MustMake(flags) then Err(EEXIST)
    else if fs.IsLink(p) then Err(ELOOP)
    else if fs.IsDir(p) && (Writable(flags) || Bit(flags, O_CREAT) || Bit(flags, O_TRUNC)) then Err(EISDIR)
    else if fs.At(p).File? && Bit(flags, O_TRUNC) then Ok(fs.Put(p, []))
    else Ok(fs)
  }

  /** The tree after an open, and the file the descriptor stands for. */
  datatype Opened = Opened(fs: FileSys, path: Path)

  function OpenCall(fs: FileSys, s: seq<byte>, flags: nat, mode: nat): Result<Opened> {
    var p := Lookup(fs, s, Follows(flags));
    if p.Err? then Err(p.error)
    else
      var r := OpenAt(fs, p.value, flags, mode);
      if r.Err? then Err(r.error) else Ok(Opened(r.value, p.value))
  }

  /** write(2) on a file just opened: at offset zero, or at the end when the descriptor appends. */
  function WriteCall(fs: FileSys, fd: Path, flags: nat, data: seq<byte>): Result<FileSys> {
    Apply(fs, Write(fd, flags, Appends(flags), 0, data))
  }

  function MakeDir(fs: FileSys, s: seq<byte>, mode: nat): Result<FileSys> {
    var p := Lookup(fs, s, false);
    if p.Err? then Err(p.error) else Apply(fs, Mkdir(p.value, mode))
  }

  function RenameCall(fs: FileSys, s: seq<byte>, t: seq<byte>): Result<FileSys> {
    var p, q := Lookup(fs, s, false), Lookup(fs, t, false);
    if p.Err? then Err(p.error) else if q.Err? then Err(q.error)
    else Apply(fs, Rename(p.value, q.value))
  }

  function LinkCall(fs: FileSys, s: seq<byte>, t: seq<byte>): Result<FileSys> {
    var p, q := Lookup(fs, s, false), Lookup(fs, t, false);
    if p.Err? then Err(p.error) else if q.Err? then Err(q.error)
    else Apply(fs, Hardlink(p.value, q.value))
  }

  function SymlinkCall(fs: FileSys, target: seq<byte>, s: seq<byte>): Result<FileSys> {
    var p := Lookup(fs, s, false);
    if p.Err? then Err(p.error) else Apply(fs, Symlink(p.value, target))
  }

  /** remove(3): unlink, or rmdir for a directory. */
  function RemoveCall(fs: FileSys, s: seq<byte>): Result<FileSys> {
    var p := Lookup(fs, s, false);
    if p.Err? then Err(p.error)
    else Apply(fs, if fs.IsDir(p.value) then Rmdir(p.value) else Unlink(p.value))
  }

  /**
   * The calls of the operating system that treplay runs on. What treplay itself does is proved for any
   * such table; `Linux` is the one the replay of a trace is proved for.
   */
  datatype Os = Os(
    open: (FileSys, seq<byte>, nat, nat) -> Result<Opened>,
    write: (FileSys, Path, nat, seq<byte>) -> Result<FileSys>,
    mkdir: (FileSys, seq<byte>, nat) -> Result<FileSys>,
    rename: (FileSys, seq<byte>, seq<byte>) -> Result<FileSys>,
    link: (FileSys, seq<byte>, seq<byte>) -> Result<FileSys>,
    symlink: (FileSys, seq<byte>, seq<byte>) -> Result<FileSys>,
    remove: (FileSys, seq<byte>) -> Result<FileSys>)

  function Linux(): Os {
    Os(OpenCall, WriteCall, MakeDir, RenameCall, LinkCall, SymlinkCall, RemoveCall)
  }

  // ----- umask -----

  predicate Disjoint(mode: nat, umask: nat, k: nat) {
    k == 0 || (!(mode % 2 == 1 && umask % 2 == 1) && Disjoint(mode / 2, umask / 2, k - 1))
  }

  /** Replay under a umask asks for the recorded mode exactly when the two have no bit in common. */
  lemma {:induction false} ModeKeptIff(mode: nat, umask: nat, k: nat)
    ensures Bits(mode, umask, k) == Bits(mode, 0, k) <==> Disjoint(mode, umask, k)
  {
    if k > 0 {
      ModeKeptIff(mode / 2, umask / 2, k - 1);
    }
  }

  lemma BitsCons(mode: nat, k: nat)
    requires k > 0
    ensures Bits(mode, 0, k) % 2 == mode % 2 && Bits(mode, 0, k) / 2 == Bits(mode / 2, 0, k - 1)
  {
  }

  lemma BitsEqual(m: nat, n: nat, j: nat)
    requires j > 0 && m % 2 == n % 2 && Bits(m / 2, 0, j - 1) == Bits(n / 2, 0, j - 1)
    ensures Bits(m, 0, j) == Bits(n, 0, j)
  {
  }

  lemma NoBits(m: nat, n: nat)
    ensures Bits(m, 0, 0) == Bits(n, 0, 0)
  {
  }

  /** Masking twice is masking once, to the narrower width. */
  lemma {:induction false} BitsTwice(mode: nat, j: nat, k: nat)
    requires j <= k
    ensures Bits(Bits(mode, 0, k), 0, j) == Bits(mode, 0, j)
  {
    hide *;
    if j == 0 {
      NoBits(Bits(mode, 0, k), mode);
    } else {
      BitsTwice(mode / 2, j - 1, k - 1);
      BitsCons(mode, k);
      BitsEqual(Bits(mode, 0, k), mode, j);
    }
  }
}
