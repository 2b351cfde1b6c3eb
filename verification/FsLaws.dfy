/** What every operation keeps: soundness, tree shape, and equality of trees up to inode numbers. */
module FsLaws {
  import opened Bytes
  import opened FileSystem

  // ----- invariants of one tree -----

  lemma ApplySound(fs: FileSys, op: Op)
    requires fs.Sound()
    ensures Apply(fs, op).Ok? ==> Apply(fs, op).value.Sound()
  {
  }

  lemma ApplyRooted(fs: FileSys, op: Op)
    requires fs.Sound() && fs.Rooted() && Apply(fs, op).Ok?
    ensures Apply(fs, op).value.Rooted()
  {
    match op
    case Rename(p, q) => RenameRooted(fs, p, q);
    case Unlink(p) => RemoveRooted(fs, p);
    case Rmdir(p) => RemoveRooted(fs, p);
    case Hardlink(p, q) => LinkRooted(fs, p, q);
    case Write(p, flags, append, pos, data) =>
      PutRooted(fs, p, Splice(fs.At(p).data, WriteOffset(fs.At(p).data, append, pos), data));
    case Create(p, mode) => EnterRooted(fs, p, File(Bits(mode, 0, FILE_MODE_BITS), []));
    case Mkdir(p, mode) => EnterRooted(fs, p, Dir(Bits(mode, 0, DIR_MODE_BITS)));
    case Symlink(p, target) => EnterRooted(fs, p, Link(target));
  }

  lemma EnterRooted(fs: FileSys, p: Path, n: Node)
    requires fs.Sound() && fs.Rooted() && fs.Vacant(p)
    ensures fs.Enter(p, n).Rooted()
  {
  }

  lemma LinkRooted(fs: FileSys, p: Path, q: Path)
    requires fs.Sound() && fs.Rooted() && fs.Has(p) && fs.Vacant(q)
    ensures fs.(names := fs.names[q := fs.names[p]]).Rooted()
  {
  }

  lemma PutRooted(fs: FileSys, p: Path, data: seq<byte>)
    requires fs.Sound() && fs.Rooted() && fs.Has(p) && fs.At(p).File?
    ensures fs.Put(p, data).Rooted()
  {
    var g := fs.Put(p, data);
    forall r | fs.IsDir(r) ensures g.IsDir(r) {
    }
  }

  lemma RemoveRooted(fs: FileSys, p: Path)
    requires fs.Sound() && fs.Rooted() && fs.Has(p) && p != []
    requires fs.IsDir(p) ==> fs.Childless(p)
    ensures fs.Remove(p).Rooted()
  {
    forall r | r in fs.Remove(p).names && r != [] ensures fs.Remove(p).IsDir(Parent(r)) {
      assert fs.IsDir(Parent(r));
      assert Parent(r) <= r;
    }
  }

  lemma ParentOfConcat(a: Path, s: Path)
    requires s != []
    ensures a + s != [] && Parent(a + s) == a + Parent(s) && a + s != a
  {
  }

  lemma AboveParent(a: Path, x: Path)
    requires x != [] && a <= Parent(x)
    ensures a <= x && a != x
  {
  }

  lemma TailOf(a: Path, s: Path)
    ensures a <= a + s && (a + s)[|a|..] == s
  {
  }

  /** Directories after the subtree at `p` has moved to `q`. */
  lemma MovedDirectories(fs: FileSys, p: Path, q: Path, x: Path)
    ensures var g := fs.(names := Move(fs.names, p, q));
            g.IsDir(x) <==> if q <= x then fs.IsDir(p + x[|q|..]) else fs.IsDir(x) && !(p <= x)
  {
  }

  lemma RenamedParent(fs: FileSys, p: Path, q: Path, x: Path)
    requires fs.Rooted() && p != [] && q != [] && x != [] && fs.IsDir(Parent(q)) && !(p <= q)
    requires x in Move(fs.names, p, q)
    ensures fs.(names := Move(fs.names, p, q)).IsDir(Parent(x))
  {
    var source := if q <= x then p + x[|q|..] else x;
    assert source in fs.names && source != [] && fs.IsDir(Parent(source));
    hide *;
    if q <= x && q != x {
      RenamedBelow(fs, p, q, x[|q|..]);
      assert x == q + x[|q|..];
    } else {
      assert fs.IsDir(Parent(x));
      NotAbove(p, x);
      NotAbove(q, x);
      MovedDirectories(fs, p, q, Parent(x));
    }
  }

  lemma NotAbove(a: Path, x: Path)
    requires x != [] && (!(a <= x) || a == x)
    ensures !(a <= Parent(x))
  {
    if a <= Parent(x) {
      AboveParent(a, x);
    }
  }

  lemma RenamedBelow(fs: FileSys, p: Path, q: Path, s: Path)
    requires s != [] && p + s != [] && fs.IsDir(Parent(p + s))
    ensures q + s != [] && fs.(names := Move(fs.names, p, q)).IsDir(Parent(q + s))
  {
    hide *;
    ParentOfConcat(p, s);
    ParentOfConcat(q, s);
    TailOf(q, Parent(s));
    MovedDirectories(fs, p, q, q + Parent(s));
  }

  lemma RenameMoves(fs: FileSys, p: Path, q: Path)
    requires RenameResult(fs, p, q).Ok?
    ensures p != [] && q != [] && fs.IsDir(Parent(q))
    ensures var g := RenameResult(fs, p, q).value;
            g == fs || (!(p <= q) && g == fs.(names := Move(fs.names, p, q)))
  {
  }

  lemma RenameRooted(fs: FileSys, p: Path, q: Path)
    requires fs.Rooted() && RenameResult(fs, p, q).Ok?
    ensures RenameResult(fs, p, q).value.Rooted()
  {
    RenameMoves(fs, p, q);
    hide RenameResult, Move;
    var g := RenameResult(fs, p, q).value;
    if g != fs {
      MovedDirectories(fs, p, q, []);
      forall x | x in g.names && x != [] ensures g.IsDir(Parent(x)) {
        RenamedParent(fs, p, q, x);
      }
    }
  }

  /** In a rooted tree every proper prefix of a name's parent chain is a directory. */
  lemma {:induction false} PrefixIsDir(fs: FileSys, p: Path, k: nat)
    requires fs.Rooted() && p in fs.names && k < |p|
    ensures fs.IsDir(p[..k])
    decreases |p|
  {
    assert fs.IsDir(Parent(p));
    if k < |p| - 1 {
      PrefixIsDir(fs, Parent(p), k);
      assert Parent(p)[..k] == p[..k];
    }
  }

  lemma {:induction false} RunKeeps(fs: FileSys, ops: seq<Op>)
    requires fs.Sound() && fs.Rooted() && Run(fs, ops).Ok?
    ensures Run(fs, ops).value.Sound() && Run(fs, ops).value.Rooted()
    decreases ops
  {
    if ops != [] {
      ApplySound(fs, ops[0]);
      ApplyRooted(fs, ops[0]);
      RunKeeps(Apply(fs, ops[0]).value, ops[1..]);
    }
  }

  // ----- equality up to inode numbers -----

  /** Same names, same node at each name, and the same names share an inode. */
  ghost predicate Iso(a: FileSys, b: FileSys) {
    && a.names.Keys == b.names.Keys
    && (forall p :: p in a.names ==> a.Has(p) && b.Has(p) && a.At(p) == b.At(p))
    && (forall p, q :: p in a.names && q in a.names ==>
          (a.names[p] == a.names[q] <==> b.names[p] == b.names[q]))
  }

  lemma IsoSymmetric(a: FileSys, b: FileSys)
    requires Iso(a, b)
    ensures Iso(b, a)
  {
  }

  lemma IsoTransitive(a: FileSys, b: FileSys, c: FileSys)
    requires Iso(a, b) && Iso(b, c)
    ensures Iso(a, c)
  {
    forall p | p in a.names ensures a.Has(p) && c.Has(p) && a.At(p) == c.At(p) {
      assert p in b.names;
    }
    forall p, q | p in a.names && q in a.names
      ensures a.names[p] == a.names[q] <==> c.names[p] == c.names[q] {
      assert p in b.names && q in b.names;
    }
  }

  lemma EnterIso(a: FileSys, b: FileSys, p: Path, n: Node)
    requires a.Sound() && b.Sound() && Iso(a, b)
    ensures Iso(a.Enter(p, n), b.Enter(p, n))
  {
    forall q, r | q in a.Enter(p, n).names && r in a.Enter(p, n).names
      ensures a.Enter(p, n).names[q] == a.Enter(p, n).names[r] <==> b.Enter(p, n).names[q] == b.Enter(p, n).names[r] {
      if q != p && r != p {
        assert q in a.names && r in a.names;
      }
    }
  }

  lemma MoveIso(a: FileSys, b: FileSys, p: Path, q: Path)
    requires Iso(a, b)
    ensures Iso(a.(names := Move(a.names, p, q)), b.(names := Move(b.names, p, q)))
  {
    var m, n := Move(a.names, p, q), Move(b.names, p, q);
    forall x ensures x in m <==> x in n {
      var y := if q <= x then p + x[|q|..] else x;
      assert y in a.names <==> y in b.names;
    }
    forall x | x in m ensures a.nodes[m[x]] == b.nodes[n[x]] && m[x] in a.nodes && n[x] in b.nodes {
      var y := if q <= x then p + x[|q|..] else x;
      assert y in a.names && m[x] == a.names[y] && n[x] == b.names[y];
    }
    forall x, x' | x in m && x' in m ensures m[x] == m[x'] <==> n[x] == n[x'] {
      var y := if q <= x then p + x[|q|..] else x;
      var y' := if q <= x' then p + x'[|q|..] else x';
      assert y in a.names && y' in a.names;
    }
  }

  lemma PutIso(a: FileSys, b: FileSys, p: Path, data: seq<byte>)
    requires Iso(a, b) && a.Has(p) && a.At(p).File?
    ensures b.Has(p) && b.At(p).File?
    ensures Iso(a.Put(p, data), b.Put(p, data))
  {
  }

  /** rename decides by a handful of tests; equal tests give equal verdicts. */
  lemma RenameVerdict(f: FileSys, g: FileSys, p: Path, q: Path, p': Path, q': Path)
    requires p != [] && q != [] && p' != [] && q' != []
    requires f.Has(p) <==> g.Has(p')
    requires f.IsDir(p) <==> g.IsDir(p')
    requires q in f.names <==> q' in g.names
    requires f.Has(q) <==> g.Has(q')
    requires f.IsDir(q) <==> g.IsDir(q')
    requires f.IsDir(Parent(q)) <==> g.IsDir(Parent(q'))
    requires p in f.names && q in f.names && p' in g.names && q' in g.names ==>
               (f.names[q] == f.names[p] <==> g.names[q'] == g.names[p'])
    requires (p <= q <==> p' <= q') && (q <= p <==> q' <= p')
    requires f.Childless(q) <==> g.Childless(q')
    ensures match (RenameResult(f, p, q), RenameResult(g, p', q'))
            case (Ok(x), Ok(y)) =>
              || (x == f && y == g)
              || (x == f.(names := Move(f.names, p, q)) && y == g.(names := Move(g.names, p', q')))
            case (Err(x), Err(y)) => x == y
            case _ => false
  {
  }

  lemma RenameIso(a: FileSys, b: FileSys, p: Path, q: Path)
    requires Iso(a, b)
    ensures match (RenameResult(a, p, q), RenameResult(b, p, q))
            case (Ok(x), Ok(y)) => Iso(x, y)
            case (Err(x), Err(y)) => x == y
            case _ => false
  {
    if p != [] && q != [] {
      SameTests(a, b, p);
      SameTests(a, b, q);
      SameTests(a, b, Parent(q));
      RenameVerdict(a, b, p, q, p, q);
      MoveIso(a, b, p, q);
    }
  }

  /** `Iso` is a congruence: on equal trees every operation succeeds or fails alike, with equal results. */
  lemma ApplyIso(a: FileSys, b: FileSys, op: Op)
    requires a.Sound() && b.Sound() && Iso(a, b)
    ensures match (Apply(a, op), Apply(b, op))
            case (Ok(x), Ok(y)) => Iso(x, y)
            case (Err(x), Err(y)) => x == y
            case _ => false
  {
    SameTests(a, b, op.path);
    match op
    case Create(p, mode) =>
      VacantIso(a, b, p);
      EnterIso(a, b, p, File(Bits(mode, 0, FILE_MODE_BITS), []));
    case Mkdir(p, mode) =>
      VacantIso(a, b, p);
      EnterIso(a, b, p, Dir(Bits(mode, 0, DIR_MODE_BITS)));
    case Symlink(p, target) =>
      VacantIso(a, b, p);
      EnterIso(a, b, p, Link(target));
    case Hardlink(p, q) =>
      VacantIso(a, b, q);
      SameTests(a, b, q);
    case Rename(p, q) => RenameIso(a, b, p, q);
    case Unlink(p) =>
    case Rmdir(p) =>
    case Write(p, flags, append, pos, data) =>
      if a.Has(p) && a.At(p).File? {
        PutIso(a, b, p, Splice(a.At(p).data, WriteOffset(a.At(p).data, append, pos), data));
      }
  }

  lemma SameTests(a: FileSys, b: FileSys, p: Path)
    requires Iso(a, b)
    ensures p in a.names <==> p in b.names
    ensures a.Has(p) <==> b.Has(p)
    ensures a.Has(p) ==> a.At(p) == b.At(p)
    ensures a.Childless(p) <==> b.Childless(p)
  {
    assert p in a.names.Keys <==> p in b.names.Keys;
    assert forall r :: r in a.names.Keys <==> r in b.names.Keys;
  }

  lemma VacantIso(a: FileSys, b: FileSys, p: Path)
    requires Iso(a, b)
    ensures a.Vacant(p) <==> b.Vacant(p)
  {
    SameTests(a, b, p);
    if p != [] {
      SameTests(a, b, Parent(p));
    }
  }

  // ----- the subtree below a directory -----

  /** The tree below `pre`, seen as a file system of its own. */
  function Below(fs: FileSys, pre: Path): FileSys {
    fs.(names := Under(fs.names, pre))
  }

  function Under(names: map<Path, Ino>, pre: Path): (r: map<Path, Ino>)
    ensures forall p :: p in r <==> pre + p in names
    ensures forall p :: p in r ==> r[p] == names[pre + p]
  {
    var keys := set q | q in names && pre <= q :: q[|pre|..];
    assert forall p :: p in keys <==> pre + p in names by {
      forall p | pre + p in names ensures p in keys {
        assert (pre + p)[|pre|..] == p;
      }
      forall p | p in keys ensures pre + p in names {
        var q :| q in names && pre <= q && q[|pre|..] == p;
        assert pre + p == q;
      }
    }
    map p | p in keys :: names[pre + p]
  }

  /** The same operation on paths below `pre`. */
  function Shift(pre: Path, op: Op): Op {
    match op
    case Create(p, mode) => Create(pre + p, mode)
    case Mkdir(p, mode) => Mkdir(pre + p, mode)
    case Symlink(p, target) => Symlink(pre + p, target)
    case Hardlink(p, q) => Hardlink(pre + p, pre + q)
    case Rename(p, q) => Rename(pre + p, pre + q)
    case Unlink(p) => Unlink(pre + p)
    case Rmdir(p) => Rmdir(pre + p)
    case Write(p, flags, append, pos, data) => Write(pre + p, flags, append, pos, data)
  }

  /** The second path of a two-path operation, the first one otherwise. */
  function Other(op: Op): Path {
    if op.Hardlink? || op.Rename? then op.to else op.path
  }

  predicate OffRoot(op: Op) { op.path != [] && Other(op) != [] }

  lemma BelowTests(fs: FileSys, pre: Path, p: Path)
    ensures p in Below(fs, pre).names <==> pre + p in fs.names
    ensures Below(fs, pre).Has(p) <==> fs.Has(pre + p)
    ensures fs.Has(pre + p) ==> Below(fs, pre).At(p) == fs.At(pre + p)
    ensures p != [] ==> Parent(pre + p) == pre + Parent(p)
    ensures p in Below(fs, pre).names ==> Below(fs, pre).names[p] == fs.names[pre + p]
  {
    if p != [] {
      assert Parent(pre + p) == pre + Parent(p);
    }
  }

  lemma PrefixCancels(pre: Path, p: Path, q: Path)
    ensures pre + p <= pre + q <==> p <= q
    ensures pre + p == pre + q <==> p == q
  {
    assert (pre + p)[|pre|..] == p && (pre + q)[|pre|..] == q;
    if p <= q {
      assert pre + q == pre + p + q[|p|..];
    }
    if pre + p <= pre + q {
      assert (pre + q)[..|pre + p|][|pre|..] == q[..|p|];
    }
  }

  lemma BelowChildless(fs: FileSys, pre: Path, p: Path)
    ensures Below(fs, pre).Childless(p) <==> fs.Childless(pre + p)
  {
    if Below(fs, pre).Childless(p) {
      forall r | r in fs.names && pre + p <= r ensures r == pre + p {
        var s := r[|pre|..];
        assert r == pre + s;
        PrefixCancels(pre, p, s);
        assert s in Below(fs, pre).names;
      }
    }
    if fs.Childless(pre + p) {
      forall s | s in Below(fs, pre).names && p <= s ensures s == p {
        PrefixCancels(pre, p, s);
        assert pre + s in fs.names;
      }
    }
  }

  lemma BelowEnter(names: map<Path, Ino>, pre: Path, p: Path, i: Ino)
    ensures Under(names[pre + p := i], pre) == Under(names, pre)[p := i]
  {
    forall q ensures pre + q == pre + p <==> q == p {
      PrefixCancels(pre, q, p);
    }
  }

  lemma BelowRemove(fs: FileSys, pre: Path, p: Path)
    ensures Below(fs.Remove(pre + p), pre) == Below(fs, pre).Remove(p)
  {
    var a, b := Below(fs.Remove(pre + p), pre).names, Below(fs, pre).Remove(p).names;
    forall q ensures q in a <==> q in b {
      PrefixCancels(pre, q, p);
    }
  }

  /** Where a name of the moved tree comes from. */
  function Origin(p: Path, q: Path, x: Path): Path {
    if q <= x then p + x[|q|..] else x
  }

  lemma MoveFrom(names: map<Path, Ino>, p: Path, q: Path, x: Path)
    ensures x in Move(names, p, q) <==> Origin(p, q, x) in names && (q <= x || !(p <= x))
    ensures x in Move(names, p, q) ==> Move(names, p, q)[x] == names[Origin(p, q, x)]
  {
  }

  lemma OriginBelow(pre: Path, p: Path, q: Path, x: Path)
    ensures Origin(pre + p, pre + q, pre + x) == pre + Origin(p, q, x)
  {
    PrefixCancels(pre, q, x);
    if q <= x {
      var t := x[|q|..];
      assert x == q + t;
      assert pre + x == pre + q + t;
      TailOf(pre + q, t);
      assert pre + p + t == pre + (p + t);
    }
  }

  lemma BelowMoveAt(names: map<Path, Ino>, pre: Path, p: Path, q: Path, x: Path)
    ensures pre + x in Move(names, pre + p, pre + q) <==> x in Move(Under(names, pre), p, q)
    ensures x in Move(Under(names, pre), p, q) ==>
              Move(names, pre + p, pre + q)[pre + x] == Move(Under(names, pre), p, q)[x]
  {
    var under := Under(names, pre);
    assert Origin(p, q, x) in under <==> pre + Origin(p, q, x) in names;
    assert Origin(p, q, x) in under ==> under[Origin(p, q, x)] == names[pre + Origin(p, q, x)];
    hide *;
    PrefixCancels(pre, q, x);
    PrefixCancels(pre, p, x);
    OriginBelow(pre, p, q, x);
    MoveFrom(names, pre + p, pre + q, pre + x);
    MoveFrom(under, p, q, x);
  }

  lemma BelowMove(names: map<Path, Ino>, pre: Path, p: Path, q: Path)
    ensures Under(Move(names, pre + p, pre + q), pre) == Move(Under(names, pre), p, q)
  {
    var a, b := Under(Move(names, pre + p, pre + q), pre), Move(Under(names, pre), p, q);
    forall x ensures (x in a <==> x in b) && (x in b ==> a[x] == b[x]) {
      BelowMoveAt(names, pre, p, q, x);
    }
  }

  /** An operation below `pre` acts on the subtree exactly as the unshifted one acts on it alone. */
  lemma ApplyBelow(fs: FileSys, pre: Path, op: Op)
    requires OffRoot(op)
    ensures AgreesBelow(fs, pre, op)
  {
    var p, q := op.path, Other(op);
    BelowTests(fs, pre, p);
    match op
    case Hardlink(_, _) => HardlinkBelow(fs, pre, op);
    case Rename(_, _) => RenameBelow(fs, pre, p, q);
    case Unlink(_) => BelowRemove(fs, pre, p);
    case Rmdir(_) =>
      BelowChildless(fs, pre, p);
      BelowRemove(fs, pre, p);
    case Write(_, _, _, _, _) =>
    case _ => MakeBelow(fs, pre, op);
  }

  ghost predicate AgreesBelow(fs: FileSys, pre: Path, op: Op) {
    match (Apply(fs, Shift(pre, op)), Apply(Below(fs, pre), op))
    case (Ok(x), Ok(y)) => Below(x, pre) == y
    case (Err(x), Err(y)) => x == y
    case _ => false
  }

  lemma EnterBelow(fs: FileSys, pre: Path, p: Path, n: Node)
    ensures Below(fs.Enter(pre + p, n), pre) == Below(fs, pre).Enter(p, n)
  {
    BelowEnter(fs.names, pre, p, fs.next);
  }

  lemma VacantBelow(fs: FileSys, pre: Path, p: Path)
    requires p != []
    ensures Below(fs, pre).Vacant(p) <==> fs.Vacant(pre + p)
    ensures p in Below(fs, pre).names <==> pre + p in fs.names
  {
    BelowTests(fs, pre, p);
    BelowTests(fs, pre, Parent(p));
  }

  lemma MakeBelow(fs: FileSys, pre: Path, op: Op)
    requires OffRoot(op) && (op.Create? || op.Mkdir? || op.Symlink?)
    ensures AgreesBelow(fs, pre, op)
  {
    VacantBelow(fs, pre, op.path);
    match op
    case Create(p, mode) => EnterBelow(fs, pre, p, File(Bits(mode, 0, FILE_MODE_BITS), []));
    case Mkdir(p, mode) => EnterBelow(fs, pre, p, Dir(Bits(mode, 0, DIR_MODE_BITS)));
    case Symlink(p, target) => EnterBelow(fs, pre, p, Link(target));
  }

  lemma HardlinkBelow(fs: FileSys, pre: Path, op: Op)
    requires OffRoot(op) && op.Hardlink?
    ensures AgreesBelow(fs, pre, op)
  {
    BelowTests(fs, pre, op.path);
    VacantBelow(fs, pre, op.to);
    if pre + op.path in fs.names {
      EntryBelow(fs, pre, op.to, fs.names[pre + op.path]);
    }
    hide Below;
  }

  lemma EntryBelow(fs: FileSys, pre: Path, p: Path, i: Ino)
    ensures Below(fs.(names := fs.names[pre + p := i]), pre) == Below(fs, pre).(names := Below(fs, pre).names[p := i])
  {
    BelowEnter(fs.names, pre, p, i);
  }

  lemma RenameVerdictBelow(fs: FileSys, pre: Path, p: Path, q: Path)
    requires p != [] && q != []
    ensures var g := Below(fs, pre);
            match (RenameResult(fs, pre + p, pre + q), RenameResult(g, p, q))
            case (Ok(x), Ok(y)) =>
              || (x == fs && y == g)
              || (x == fs.(names := Move(fs.names, pre + p, pre + q)) && y == g.(names := Move(g.names, p, q)))
            case (Err(x), Err(y)) => x == y
            case _ => false
  {
    BelowTests(fs, pre, p);
    BelowTests(fs, pre, q);
    BelowTests(fs, pre, Parent(q));
    PrefixCancels(pre, p, q);
    PrefixCancels(pre, q, p);
    BelowChildless(fs, pre, q);
    RenameVerdict(fs, Below(fs, pre), pre + p, pre + q, p, q);
  }

  lemma MoveBelow(fs: FileSys, pre: Path, p: Path, q: Path)
    ensures Below(fs.(names := Move(fs.names, pre + p, pre + q)), pre)
         == Below(fs, pre).(names := Move(Below(fs, pre).names, p, q))
  {
    BelowMove(fs.names, pre, p, q);
  }

  lemma RenameBelow(fs: FileSys, pre: Path, p: Path, q: Path)
    requires p != [] && q != []
    ensures match (RenameResult(fs, pre + p, pre + q), RenameResult(Below(fs, pre), p, q))
            case (Ok(x), Ok(y)) => Below(x, pre) == y
            case (Err(x), Err(y)) => x == y
            case _ => false
  {
    RenameVerdictBelow(fs, pre, p, q);
    MoveBelow(fs, pre, p, q);
  }

  // ----- what an operation leaves alone -----

  /** A name that is not at or below one of the operation's paths keeps its inode. */
  lemma ApplyFrame(fs: FileSys, op: Op, x: Path)
    requires Apply(fs, op).Ok? && !(op.path <= x) && !(Other(op) <= x)
    ensures var g := Apply(fs, op).value;
            (x in g.names <==> x in fs.names) && (x in fs.names ==> g.names[x] == fs.names[x])
  {
  }

  /** Only a write changes the content of an inode that already exists, and only of the one it names. */
  lemma ApplyFrameNodes(fs: FileSys, op: Op, i: Ino)
    requires fs.Sound() && Apply(fs, op).Ok? && i in fs.nodes
    requires op.Write? ==> fs.names[op.path] != i
    ensures i in Apply(fs, op).value.nodes && Apply(fs, op).value.nodes[i] == fs.nodes[i]
  {
  }
}
