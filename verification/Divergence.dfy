/**
 * When replays of one record part two directories that were alike: exactly when it acts in one only, or at
 * places that do not correspond.
 */
module Divergence {
  import opened Bytes
  import opened Records
  import opened FileSystem
  import opened FsLaws
  import opened Resolve
  import opened Syscalls
  import opened Replay
  import opened Replaying
  import opened EndToEnd
  import opened Locality
  import opened Escapes
  import opened Subtree
  import opened Failures

  // ----- two effects on one tree -----

  /** Leaves `q` and `q'` with the same node as the leaf `p`, whose inodes have no names but these. */
  ghost predicate Interchangeable(b: FileSys, p: Path, q: Path, q': Path) {
    && b.Has(p) && b.Has(q) && b.Has(q') && b.Childless(p)
    && b.At(p) == b.At(q) == b.At(q')
    && (forall x :: x in b.names && x != p && x != q && x != q' ==>
          b.names[x] != b.names[p] && b.names[x] != b.names[q] && b.names[x] != b.names[q'])
  }

  /** The same record, acting on `b` at `p` and `q` and at `p'` and `q'`, does the same. */
  ghost predicate SameEffect(r: Record, b: FileSys, p: Path, q: Path, p': Path, q': Path) {
    if r.kind == TR_FWRITE then
      if b.Has(p) && b.Has(p') then b.names[p] == b.names[p'] else p == p'
    else if r.kind == TR_LINK then q == q' && b.Has(p) && b.Has(p') && b.names[p] == b.names[p']
    else if r.kind == TR_RENAME then p == p' && (q == q' || Interchangeable(b, p, q, q'))
    else p == p'
  }

  lemma IsoSelf(b: FileSys)
    requires b.Sound()
    ensures Iso(b, b)
  {
  }

  lemma IsoNames(a: FileSys, b: FileSys, x: Path)
    requires Iso(a, b)
    ensures x in a.names <==> x in b.names
    ensures x in a.names ==> a.Has(x) && b.Has(x) && a.At(x) == b.At(x)
  {
    assert x in a.names.Keys <==> x in b.names.Keys;
  }

  lemma EnterTwo(b: FileSys, p: Path, p': Path, n: Node)
    requires b.Sound() && p !in b.names && p' !in b.names
    ensures Iso(b.Enter(p, n), b.Enter(p', n)) <==> p == p'
  {
    if p == p' {
      IsoSelf(b.Enter(p, n));
    } else if Iso(b.Enter(p, n), b.Enter(p', n)) {
      IsoNames(b.Enter(p, n), b.Enter(p', n), p);
    }
  }

  lemma MakeTwo(b: FileSys, op: Op, op': Op)
    requires b.Sound() && b.Vacant(op.path) && b.Vacant(op'.path)
    requires || (op.Create? && op'.Create? && op'.mode == op.mode)
             || (op.Mkdir? && op'.Mkdir? && op'.mode == op.mode)
             || (op.Symlink? && op'.Symlink? && op'.target == op.target != [])
    ensures Iso(After(b, Apply(b, op)), After(b, Apply(b, op'))) <==> op.path == op'.path
  {
    var n := match op
      case Create(_, mode) => File(Bits(mode, 0, FILE_MODE_BITS), [])
      case Mkdir(_, mode) => Dir(Bits(mode, 0, DIR_MODE_BITS))
      case Symlink(_, target) => Link(target)
      case _ => Link([]);
    assert After(b, Apply(b, op)) == b.Enter(op.path, n) && After(b, Apply(b, op')) == b.Enter(op'.path, n);
    hide Apply;
    EnterTwo(b, op.path, op'.path, n);
  }

  function RemoveOp(b: FileSys, p: Path): Op { if b.IsDir(p) then Rmdir(p) else Unlink(p) }

  lemma RemoveTwo(b: FileSys, p: Path, p': Path)
    requires b.Sound() && Removable(b, p) && Removable(b, p')
    ensures var op, op' := RemoveOp(b, p), RemoveOp(b, p');
            Iso(After(b, Apply(b, op)), After(b, Apply(b, op'))) <==> p == p'
  {
    assert After(b, Apply(b, RemoveOp(b, p))) == b.Remove(p);
    assert After(b, Apply(b, RemoveOp(b, p'))) == b.Remove(p');
    hide Apply;
    if p == p' {
      IsoSelf(b.Remove(p));
    } else if Iso(b.Remove(p), b.Remove(p')) {
      IsoNames(b.Remove(p), b.Remove(p'), p);
    }
  }

  lemma LinkTwo(b: FileSys, p: Path, q: Path, p': Path, q': Path)
    requires b.Sound() && Linkable(b, p, q) && Linkable(b, p', q')
    ensures Iso(After(b, Apply(b, Hardlink(p, q))), After(b, Apply(b, Hardlink(p', q'))))
            <==> q == q' && b.names[p] == b.names[p']
  {
    var h, h' := b.(names := b.names[q := b.names[p]]), b.(names := b.names[q' := b.names[p']]);
    assert After(b, Apply(b, Hardlink(p, q))) == h && After(b, Apply(b, Hardlink(p', q'))) == h';
    assert p in h.names && q in h.names && h.names[q] == h.names[p];
    hide Apply;
    if q == q' && b.names[p] == b.names[p'] {
      IsoSelf(h);
    } else if Iso(h, h') {
      IsoNames(h, h', q);
    }
  }

  // ----- two writes -----

  lemma PutTwo(b: FileSys, p: Path, p': Path, d: seq<byte>, d': seq<byte>)
    requires b.Sound() && b.Has(p) && b.At(p).File? && b.Has(p') && b.At(p').File? && d != b.At(p).data
    requires b.At(p) == b.At(p') ==> d == d'
    ensures Iso(b.Put(p, d), b.Put(p', d')) <==> b.names[p] == b.names[p']
  {
    if b.names[p] == b.names[p'] {
      IsoSelf(b.Put(p, d));
    } else if Iso(b.Put(p, d), b.Put(p', d')) {
      IsoNames(b.Put(p, d), b.Put(p', d'), p);
    }
  }

  lemma PutAndEnter(b: FileSys, p: Path, d: seq<byte>, p': Path, n: Node)
    requires b.Has(p) && b.At(p).File? && p' !in b.names
    ensures !Iso(b.Put(p, d), b.Enter(p', n)) && !Iso(b.Enter(p', n), b.Put(p, d))
  {
    assert p' in b.Enter(p', n).names.Keys && p' !in b.Put(p, d).names.Keys;
  }

  lemma WriteTwo(env: Env, r: Record, b: FileSys, p: Path, p': Path)
    requires b.Sound() && !WriteHarmless(env, r, b, p) && !WriteHarmless(env, r, b, p')
    ensures Iso(WriteResult(env, r, b, p), WriteResult(env, r, b, p'))
            <==> if b.Has(p) && b.Has(p') then b.names[p] == b.names[p'] else p == p'
  {
    var mode := Bits(Bits(env.stray, env.umask, FILE_MODE_BITS), 0, FILE_MODE_BITS);
    var n := File(mode, Rewritten(env, r, []));
    hide Rewritten, Bits, Iso;
    if b.Has(p) && b.Has(p') {
      PutTwo(b, p, p', Rewritten(env, r, b.At(p).data), Rewritten(env, r, b.At(p').data));
    } else if b.Has(p) {
      PutAndEnter(b, p, Rewritten(env, r, b.At(p).data), p', n);
    } else if b.Has(p') {
      PutAndEnter(b, p', Rewritten(env, r, b.At(p').data), p, n);
    } else {
      EnterTwo(b, p, p', n);
    }
  }

  // ----- two renames -----

  function Moved(b: FileSys, p: Path, q: Path): FileSys { b.(names := Move(b.names, p, q)) }

  /** In a rooted tree every prefix of a name is a name. */
  lemma PrefixNamed(b: FileSys, x: Path, y: Path)
    requires b.Sound() && b.Rooted() && x in b.names && y <= x
    ensures y in b.names && b.Has(y)
  {
    if y != x {
      PrefixIsDir(b, x, |y|);
      assert x[..|y|] == y;
    } else {
      assert y == [] || b.IsDir(Parent(y));
    }
  }

  lemma MovedName(b: FileSys, p: Path, q: Path, x: Path)
    ensures x in Moved(b, p, q).names <==> if q <= x then p + x[|q|..] in b.names else x in b.names && !(p <= x)
    ensures x in Moved(b, p, q).names ==> Moved(b, p, q).names[x] == b.names[if q <= x then p + x[|q|..] else x]
  {
  }

  /** A move that leaves no `p` moves `p`. */
  lemma SourceGone(b: FileSys, p: Path, p': Path, q': Path)
    requires b.Sound() && b.Rooted() && b.Has(p) && Movable(b, p', q') && p !in Moved(b, p', q').names
    ensures p' <= p
  {
    MovedName(b, p', q', p);
    if q' <= p {
      TargetIsSource(b, p, p', q');
    }
  }

  lemma TargetIsSource(b: FileSys, p: Path, p': Path, q': Path)
    requires b.Sound() && b.Rooted() && b.Has(p) && Movable(b, p', q') && q' <= p
    ensures p' + p[|q'|..] == p' && p' in b.names
  {
    PrefixNamed(b, p, q');
    assert q' == p;
  }

  lemma SameSource(b: FileSys, p: Path, q: Path, p': Path, q': Path)
    requires b.Sound() && b.Rooted() && Movable(b, p, q) && Movable(b, p', q')
    requires Iso(Moved(b, p, q), Moved(b, p', q'))
    ensures p == p'
  {
    MovedName(b, p, q, p);
    MovedName(b, p', q', p');
    IsoNames(Moved(b, p, q), Moved(b, p', q'), p);
    IsoNames(Moved(b, p, q), Moved(b, p', q'), p');
    hide Iso, Move;
    SourceGone(b, p, p', q');
    SourceGone(b, p', p, q);
    assert |p| == |p'|;
  }

  // Neither target may be missing: the same names would then have to go on for ever below `p`.

  function Times(n: Name, k: nat): Path { if k == 0 then [] else Times(n, k - 1) + [n] }

  lemma {:induction false} TimesFront(n: Name, k: nat)
    ensures |Times(n, k)| == k && [n] + Times(n, k) == Times(n, k + 1)
  {
    if k > 0 {
      TimesFront(n, k - 1);
      assert [n] + Times(n, k - 1) + [n] == [n] + (Times(n, k - 1) + [n]);
    }
  }

  lemma {:induction false} LengthBound(names: set<Path>) returns (bound: nat)
    ensures forall x :: x in names ==> |x| <= bound
    decreases |names|
  {
    if names == {} {
      bound := 0;
    } else {
      var x :| x in names;
      var rest := LengthBound(names - {x});
      bound := if |x| > rest then |x| else rest;
      forall y | y in names ensures |y| <= bound {
        assert y == x || y in names - {x};
      }
    }
  }

  /** If the moves to `q` and to its parent have the same names, what is below `p` goes on. */
  lemma OneDeeper(b: FileSys, p: Path, q': Path, n: Name, t: Path)
    requires Moved(b, p, q' + [n]).names.Keys == Moved(b, p, q').names.Keys && p + t in b.names
    ensures p + ([n] + t) in b.names
  {
    var q := q' + [n];
    var x := q + t;
    assert x[|q|..] == t && x[|q'|..] == [n] + t && q <= x && q' <= x;
    MovedName(b, p, q, x);
    MovedName(b, p, q', x);
    hide Move;
    assert x in Moved(b, p, q).names.Keys;
    assert x in Moved(b, p, q').names;
  }

  lemma {:induction false} EverDeeper(b: FileSys, p: Path, q': Path, n: Name, k: nat)
    requires Moved(b, p, q' + [n]).names.Keys == Moved(b, p, q').names.Keys && p in b.names
    ensures p + Times(n, k) in b.names
  {
    if k == 0 {
      assert p + [] == p;
    } else {
      EverDeeper(b, p, q', n, k - 1);
      OneDeeper(b, p, q', n, Times(n, k - 1));
      TimesFront(n, k - 1);
    }
  }

  lemma NotIntoTarget(b: FileSys, p: Path, q': Path, n: Name)
    requires p in b.names
    ensures Moved(b, p, q' + [n]).names.Keys != Moved(b, p, q').names.Keys
  {
    hide Moved, Times;
    var bound := LengthBound(b.names.Keys);
    TooDeep(b.names.Keys, bound, p, n);
    if Moved(b, p, q' + [n]).names.Keys == Moved(b, p, q').names.Keys {
      EverDeeper(b, p, q', n, bound + 1);
    }
  }

  lemma TooDeep(names: set<Path>, bound: nat, p: Path, n: Name)
    requires forall x :: x in names ==> |x| <= bound
    ensures p + Times(n, bound + 1) !in names
  {
    TimesFront(n, bound + 1);
    assert |p + Times(n, bound + 1)| > bound;
  }

  /** A missing target that the other move has made lies in the other's target. */
  lemma MissingTarget(b: FileSys, p: Path, q: Path, q': Path)
    requires b.Sound() && b.Rooted() && b.Has(p) && Movable(b, p, q) && Movable(b, p, q') && q != q'
    requires q !in b.names && q in Moved(b, p, q').names
    ensures q == q' + [q[|q| - 1]]
  {
    assert b.IsDir(Parent(q)) && (b.Has(q') ==> b.Childless(q'));
    hide Moved, Movable, FileSys.Rooted, FileSys.Sound;
    MovedName(b, p, q', q);
    AboveStrictly(q', q);
    PrefixNamed(b, Parent(q), q');
    assert q' == Parent(q);
  }

  lemma AboveStrictly(a: Path, x: Path)
    requires a <= x && a != x
    ensures x != [] && a <= Parent(x) && x == Parent(x) + [x[|x| - 1]]
  {
  }

  lemma SourceArrives(b: FileSys, p: Path, q: Path)
    requires p in b.names
    ensures q in Moved(b, p, q).names
  {
    MovedName(b, p, q, q);
    assert p + q[|q|..] == p;
  }

  lemma TargetThere(b: FileSys, p: Path, q: Path, q': Path)
    requires b.Sound() && b.Rooted() && Movable(b, p, q) && Movable(b, p, q') && q != q'
    requires Iso(Moved(b, p, q), Moved(b, p, q'))
    ensures q in b.names && b.Has(q)
  {
    assert b.Has(p);
    hide Move, Iso, Moved, Movable;
    if q !in b.names {
      SourceArrives(b, p, q);
      IsoKeys(Moved(b, p, q), Moved(b, p, q'));
      assert q in Moved(b, p, q').names.Keys;
      MissingTarget(b, p, q, q');
      NotIntoTarget(b, p, q', q[|q| - 1]);
    }
  }

  lemma IsoKeys(a: FileSys, b: FileSys)
    requires Iso(a, b)
    ensures a.names.Keys == b.names.Keys && Iso(b, a)
  {
  }

  /** Two childless targets: neither lies below the other, and nothing else below them. */
  lemma Apart(b: FileSys, q: Path, q': Path, x: Path)
    requires b.Has(q) && b.Has(q') && b.Childless(q) && b.Childless(q') && q != q' && q <= x
    ensures !(q' <= x)
  {
    if q' <= x {
      Comparable(q, q', x);
    }
  }

  lemma Comparable(q: Path, q': Path, x: Path)
    requires q <= x && q' <= x
    ensures q <= q' || q' <= q
  {
    assert q == x[..|q|] && q' == x[..|q'|];
    if |q| <= |q'| {
      assert q == q'[..|q|];
    } else {
      assert q' == q[..|q'|];
    }
  }

  lemma MovedIsLeaf(b: FileSys, p: Path, q: Path, q': Path)
    requires b.Sound() && b.Rooted() && Movable(b, p, q) && Movable(b, p, q') && q != q' && b.Has(q) && b.Has(q')
    requires Moved(b, p, q).names.Keys == Moved(b, p, q').names.Keys
    ensures b.Childless(p)
  {
    forall y | y in b.names && p <= y ensures y == p {
      var s := y[|p|..];
      var x := q + s;
      assert y == p + s && x[|q|..] == s && q <= x;
      MovedName(b, p, q, x);
      assert x in Moved(b, p, q').names.Keys;
      Apart(b, q, q', x);
      MovedName(b, p, q', x);
      assert x == q;
      assert s == [];
    }
  }

  /** The tree after a leaf has replaced a leaf. */
  lemma LeafMoved(b: FileSys, p: Path, q: Path, x: Path)
    requires b.Has(p) && b.Has(q) && b.Childless(p) && b.Childless(q) && p != q
    ensures x in Moved(b, p, q).names <==> x in b.names && x != p
    ensures x in Moved(b, p, q).names ==> Moved(b, p, q).names[x] == if x == q then b.names[p] else b.names[x]
  {
    MovedName(b, p, q, x);
    if q <= x {
      var s := x[|q|..];
      assert x == q + s;
      if p + s in b.names {
        assert p <= p + s;
        assert p + s == p;
        assert s == [];
      }
      if x == q {
        assert s == [] && p + s == p;
      }
    }
  }

  /** The names of `b` but `p`, each as before, but `q` with the inode of `p`. */
  ghost predicate Replaced(b: FileSys, p: Path, q: Path, h: FileSys) {
    && h.nodes == b.nodes && p in b.names
    && (forall x :: x in h.names <==> x in b.names && x != p)
    && (forall x :: x in h.names ==> h.names[x] == if x == q then b.names[p] else b.names[x])
  }

  lemma LeafReplaced(b: FileSys, p: Path, q: Path)
    requires b.Has(p) && b.Has(q) && b.Childless(p) && b.Childless(q) && p != q
    ensures Replaced(b, p, q, Moved(b, p, q))
  {
    forall x ensures x in Moved(b, p, q).names <==> x in b.names && x != p
      ensures x in Moved(b, p, q).names ==> Moved(b, p, q).names[x] == if x == q then b.names[p] else b.names[x] {
      LeafMoved(b, p, q, x);
    }
  }

  lemma ReplacedIso(b: FileSys, p: Path, q: Path, q': Path, h: FileSys, h': FileSys)
    requires b.Sound() && Replaced(b, p, q, h) && Replaced(b, p, q', h') && Interchangeable(b, p, q, q')
    requires b.names[q] != b.names[p] && b.names[q'] != b.names[p]
    ensures Iso(h, h')
  {
    forall x | x in h.names ensures x in h'.names && h.Has(x) && h'.Has(x) && h.At(x) == h'.At(x) {
    }
    forall x, y | x in h.names && y in h.names ensures h.names[x] == h.names[y] <==> h'.names[x] == h'.names[y] {
    }
  }

  lemma IsoReplaced(b: FileSys, p: Path, q: Path, q': Path, h: FileSys, h': FileSys)
    requires b.Sound() && Replaced(b, p, q, h) && Replaced(b, p, q', h') && Iso(h, h')
    requires b.Has(p) && b.Has(q) && b.Has(q') && p != q && p != q' && q != q' && b.Childless(p)
    requires b.names[q] != b.names[p] && b.names[q'] != b.names[p]
    ensures Interchangeable(b, p, q, q')
  {
    assert q in h.names && q' in h.names;
    assert h.At(q) == h'.At(q) && h.At(q') == h'.At(q');
    forall x | x in b.names && x != p && x != q && x != q'
      ensures b.names[x] != b.names[p] && b.names[x] != b.names[q] && b.names[x] != b.names[q'] {
      assert x in h.names;
      assert h.names[x] == h.names[q] <==> h'.names[x] == h'.names[q];
      assert h.names[x] == h.names[q'] <==> h'.names[x] == h'.names[q'];
    }
  }

  lemma InterchangeableMoves(b: FileSys, p: Path, q: Path, q': Path)
    requires b.Sound() && Movable(b, p, q) && Movable(b, p, q') && q != q' && Interchangeable(b, p, q, q')
    ensures Iso(Moved(b, p, q), Moved(b, p, q'))
  {
    assert p != q && p != q' && b.Childless(q) && b.Childless(q');
    assert b.names[q] != b.names[p] && b.names[q'] != b.names[p];
    hide Moved, Replaced, Iso;
    LeafReplaced(b, p, q);
    LeafReplaced(b, p, q');
    ReplacedIso(b, p, q, q', Moved(b, p, q), Moved(b, p, q'));
  }

  lemma MovesInterchangeable(b: FileSys, p: Path, q: Path, q': Path)
    requires b.Sound() && b.Rooted() && Movable(b, p, q) && Movable(b, p, q') && q != q'
    requires Iso(Moved(b, p, q), Moved(b, p, q'))
    ensures Interchangeable(b, p, q, q')
  {
    hide Moved, Replaced, Iso, Interchangeable;
    IsoKeys(Moved(b, p, q), Moved(b, p, q'));
    TargetThere(b, p, q, q');
    TargetThere(b, p, q', q);
    MovedIsLeaf(b, p, q, q');
    assert p != q && p != q' && b.Childless(q) && b.Childless(q');
    LeafReplaced(b, p, q);
    LeafReplaced(b, p, q');
    IsoReplaced(b, p, q, q', Moved(b, p, q), Moved(b, p, q'));
  }

  lemma RenameTwo(b: FileSys, p: Path, q: Path, p': Path, q': Path)
    requires b.Sound() && b.Rooted() && Movable(b, p, q) && Movable(b, p', q')
    ensures Iso(After(b, Apply(b, Rename(p, q))), After(b, Apply(b, Rename(p', q'))))
            <==> p == p' && (q == q' || Interchangeable(b, p, q, q'))
  {
    RenameActs(b, p, q);
    RenameActs(b, p', q');
    ApplySound(b, Rename(p, q));
    var h, h' := Moved(b, p, q), Moved(b, p', q');
    hide Apply, Iso, Interchangeable, Movable;
    if p == p' && q == q' {
      MovedSound(b, p, q);
      IsoSelf(h);
    } else if p == p' && Interchangeable(b, p, q, q') {
      InterchangeableMoves(b, p, q, q');
    } else if Iso(h, h') {
      SameSource(b, p, q, p', q');
      MovesInterchangeable(b, p, q, q');
    }
  }

  lemma MovedSound(b: FileSys, p: Path, q: Path)
    requires b.Sound()
    ensures Moved(b, p, q).Sound()
  {
    forall x | x in Moved(b, p, q).names ensures Moved(b, p, q).names[x] in b.nodes {
      MovedName(b, p, q, x);
    }
  }

  /** On one tree a record that acts at two places does the same exactly if they correspond. */
  lemma SameEffectIff(env: Env, r: Record, b: FileSys, p: Path, q: Path, p': Path, q': Path)
    requires b.Sound() && b.Rooted() && Dispatched(r.kind)
    requires !HarmlessAt(env, r, b, p, q) && !HarmlessAt(env, r, b, p', q')
    ensures Iso(Effect(env, r, b, p, q), Effect(env, r, b, p', q')) <==> SameEffect(r, b, p, q, p', q')
  {
    hide Iso, Apply, SecondName, Perm, Movable, Removable, WriteHarmless, WriteResult, Interchangeable;
    if r.kind == TR_FWRITE {
      WriteTwo(env, r, b, p, p');
    } else if r.kind == TR_UNLINK {
      RemoveTwo(b, p, p');
    } else if r.kind == TR_LINK {
      LinkTwo(b, p, q, p', q');
    } else if r.kind == TR_RENAME {
      RenameTwo(b, p, q, p', q');
    } else {
      MakeTwo(b, OpOf(env, r, b, p, q), OpOf(env, r, b, p', q'));
    }
  }

  // ----- an effect below a directory -----

  lemma RemovableBelow(g: FileSys, cwd: Path, p: Path)
    requires p != []
    ensures Removable(g, cwd + p) <==> Removable(Below(g, cwd), p)
  {
    BelowTests(g, cwd, p);
    BelowChildless(g, cwd, p);
  }

  lemma LinkableBelow(g: FileSys, cwd: Path, p: Path, q: Path)
    requires q != []
    ensures Linkable(g, cwd + p, cwd + q) <==> Linkable(Below(g, cwd), p, q)
  {
    BelowTests(g, cwd, p);
    VacantBelow(g, cwd, q);
  }

  lemma MovableBelow(g: FileSys, cwd: Path, p: Path, q: Path)
    requires p != [] && q != []
    ensures Movable(g, cwd + p, cwd + q) <==> Movable(Below(g, cwd), p, q)
  {
    BelowTests(g, cwd, p);
    BelowTests(g, cwd, q);
    BelowTests(g, cwd, Parent(q));
    BelowChildless(g, cwd, q);
    PrefixCancels(cwd, p, q);
    PrefixCancels(cwd, q, p);
  }

  lemma HarmlessBelow(env: Env, r: Record, g: FileSys, cwd: Path, p: Path, q: Path)
    requires p != [] && q != []
    ensures HarmlessAt(env, r, g, cwd + p, cwd + q) <==> HarmlessAt(env, r, Below(g, cwd), p, q)
  {
    hide Removable, Linkable, Movable, SecondName, Rewritten, Below;
    VacantBelow(g, cwd, p);
    BelowTests(g, cwd, p);
    RemovableBelow(g, cwd, p);
    LinkableBelow(g, cwd, p, q);
    MovableBelow(g, cwd, p, q);
  }

  lemma WriteResultBelow(env: Env, r: Record, g: FileSys, cwd: Path, p: Path)
    requires p != [] && Place(g, cwd)
    ensures Below(WriteResult(env, r, g, cwd + p), cwd) == WriteResult(env, r, Below(g, cwd), p)
    ensures Place(WriteResult(env, r, g, cwd + p), cwd)
  {
    var n := File(Bits(Bits(env.stray, env.umask, FILE_MODE_BITS), 0, FILE_MODE_BITS), Rewritten(env, r, []));
    hide Rewritten, Bits, Place, Below;
    VacantBelow(g, cwd, p);
    BelowTests(g, cwd, p);
    if g.Has(cwd + p) && g.At(cwd + p).File? {
      PutPlace(g, cwd, p, Rewritten(env, r, g.At(cwd + p).data));
    } else if g.Vacant(cwd + p) {
      EnterBelow(g, cwd, p, n);
      EnterPlace(g, cwd, p, n);
    }
  }

  lemma EnterPlace(g: FileSys, cwd: Path, p: Path, n: Node)
    requires Place(g, cwd) && g.Vacant(cwd + p)
    ensures Place(g.Enter(cwd + p, n), cwd)
  {
    EnterRooted(g, cwd + p, n);
  }

  /** What a record does strictly below the directory is what it does in the subtree on its own. */
  lemma EffectBelow(env: Env, r: Record, g: FileSys, cwd: Path, p: Path, q: Path)
    requires p != [] && q != [] && Place(g, cwd)
    ensures Below(Effect(env, r, g, cwd + p, cwd + q), cwd) == Effect(env, r, Below(g, cwd), p, q)
    ensures Place(Effect(env, r, g, cwd + p, cwd + q), cwd)
  {
    hide Apply, Below, Place, OpOf, WriteResult, Shift, Inner, OffRoot;
    if r.kind == TR_FWRITE {
      WriteResultBelow(env, r, g, cwd, p);
    } else {
      InnerShifted(env, cwd, r, g, p, q);
      InnerIs(env, r, g, cwd, p, q);
      var op := Inner(env, r, g, cwd, p, q);
      ApplyBelow(g, cwd, op);
      if Apply(g, Shift(cwd, op)).Ok? {
        PlaceStays(g, cwd, op);
      }
    }
  }

  lemma InnerIs(env: Env, r: Record, g: FileSys, cwd: Path, p: Path, q: Path)
    ensures Inner(env, r, g, cwd, p, q) == OpOf(env, r, Below(g, cwd), p, q)
  {
  }

  lemma WriteResultIso(env: Env, r: Record, a: FileSys, b: FileSys, p: Path)
    requires a.Sound() && b.Sound() && Iso(a, b)
    ensures Iso(WriteResult(env, r, a, p), WriteResult(env, r, b, p))
  {
    var n := File(Bits(Bits(env.stray, env.umask, FILE_MODE_BITS), 0, FILE_MODE_BITS), Rewritten(env, r, []));
    hide Rewritten, Bits, Iso;
    VacantIso(a, b, p);
    SameTests(a, b, p);
    if a.Has(p) && a.At(p).File? {
      PutIso(a, b, p, Rewritten(env, r, a.At(p).data));
    } else if a.Vacant(p) {
      EnterIso(a, b, p, n);
    }
  }

  /** Equal trees have equal effects. */
  lemma EffectIso(env: Env, r: Record, a: FileSys, b: FileSys, p: Path, q: Path)
    requires a.Sound() && b.Sound() && Iso(a, b)
    ensures Iso(Effect(env, r, a, p, q), Effect(env, r, b, p, q))
  {
    SameTests(a, b, p);
    assert a.IsDir(p) <==> b.IsDir(p);
    hide Apply, Iso, WriteResult, SecondName, Perm, FileSys.IsDir;
    if r.kind == TR_FWRITE {
      WriteResultIso(env, r, a, b, p);
    } else {
      assert OpOf(env, r, a, p, q) == OpOf(env, r, b, p, q);
      ApplyIso(a, b, OpOf(env, r, a, p, q));
    }
  }

  lemma IsoIsSameTree(a: FileSys, b: FileSys)
    requires Iso(a, b)
    ensures SameTree(a, b)
  {
    forall y ensures (y in a.names <==> y in b.names) && (y in a.names ==> a.Has(y) && b.Has(y) && a.At(y) == b.At(y)) {
      IsoNames(a, b, y);
    }
  }

  /** An effect that changes one of two equal trees changes the other. */
  lemma ActsOnBoth(env: Env, r: Record, a: FileSys, b: FileSys, p: Path, q: Path)
    requires a.Sound() && b.Sound() && Iso(a, b) && Dispatched(r.kind) && HarmlessAt(env, r, a, p, q)
    ensures HarmlessAt(env, r, b, p, q)
  {
    EffectHarmless(env, r, a, p, q);
    EffectHarmless(env, r, b, p, q);
    EffectIso(env, r, a, b, p, q);
    hide HarmlessAt, Effect, Iso, SameTree;
    IsoSymmetric(a, b);
    IsoTransitive(b, a, Effect(env, r, b, p, q));
    IsoIsSameTree(b, Effect(env, r, b, p, q));
  }

  /** A record's effect in the subtree never leaves it equal. */
  lemma ActingShows(env: Env, r: Record, b: FileSys, p: Path, q: Path)
    requires b.Sound() && Dispatched(r.kind) && !HarmlessAt(env, r, b, p, q)
    ensures !Iso(b, Effect(env, r, b, p, q))
  {
    EffectHarmless(env, r, b, p, q);
    hide HarmlessAt, Effect, Iso, SameTree;
    if Iso(b, Effect(env, r, b, p, q)) {
      IsoIsSameTree(b, Effect(env, r, b, p, q));
    }
  }

  // ----- where a record acts, seen from a directory -----

  /** The inode `i` is named at `cwd + x`. */
  predicate NamedAt(g: FileSys, cwd: Path, x: Path, i: Ino) {
    cwd + x in g.names && g.names[cwd + x] == i
  }

  /**
   * The record's call acts, and what it changes lies at `p` and `q` below `cwd`. A file that is written, and the
   * source of a link, count by their inode: any of its names will do.
   */
  predicate ActsAt(env: Env, cwd: Path, r: Record, g: FileSys, p: Path, q: Path) {
    && p != [] && q != [] && !Harmless(env, r, g)
    && var (x, y) := Ends(env, r, g);
       if r.kind == TR_FWRITE && g.Has(x) then NamedAt(g, cwd, p, g.names[x]) && q == p
       else if r.kind == TR_LINK then x in g.names && NamedAt(g, cwd, p, g.names[x]) && y == cwd + q
       else x == cwd + p && y == cwd + q
  }

  ghost predicate ActsInside(env: Env, cwd: Path, r: Record, g: FileSys) {
    exists p, q :: ActsAt(env, cwd, r, g, p, q)
  }

  /** It acts, and changes nothing below `cwd`. */
  ghost predicate ActsApart(env: Env, cwd: Path, r: Record, g: FileSys) {
    && !Harmless(env, r, g)
    && var (x, y) := Ends(env, r, g);
       if r.kind == TR_FWRITE && g.Has(x) then !NamedInside(g, cwd, g.names[x])
       else if r.kind == TR_LINK then !(cwd <= y)
       else if r.kind == TR_RENAME then !(cwd <= x) && !(x <= cwd) && !(cwd <= y)
       else !(cwd <= x)
  }

  /** It removes or renames the directory itself, or renames one above it. */
  predicate ActsOnTop(env: Env, cwd: Path, r: Record, g: FileSys) {
    && !Harmless(env, r, g)
    && var (x, _) := Ends(env, r, g);
       (r.kind == TR_UNLINK && x == cwd) || (r.kind == TR_RENAME && x <= cwd)
  }

  /** It takes something across the border: a rename in or out, or a link to a file that has no name inside. */
  ghost predicate Crosses(env: Env, cwd: Path, r: Record, g: FileSys) {
    && !Harmless(env, r, g)
    && var (x, y) := Ends(env, r, g);
       || (r.kind == TR_RENAME && !(x <= cwd) && (cwd <= x <==> !(cwd <= y)))
       || (r.kind == TR_LINK && cwd <= y && x in g.names && !NamedInside(g, cwd, g.names[x]))
  }

  // ----- every record does one of these -----

  lemma CutFront(cwd: Path, p: Path)
    requires cwd <= p && p != cwd
    ensures p[|cwd|..] != [] && p == cwd + p[|cwd|..]
  {
  }

  /** What a vacant or removable place is not. */
  lemma NotTheTop(g: FileSys, cwd: Path, p: Path)
    requires g.IsDir(cwd)
    ensures g.Vacant(p) ==> p != cwd
    ensures g.Has(p) && !g.IsDir(p) ==> p != cwd
  {
  }

  lemma InsideByInode(g: FileSys, cwd: Path, i: Ino)
    requires g.IsDir(cwd) && NamedInside(g, cwd, i) && i in g.nodes && !g.nodes[i].Dir?
    ensures exists p :: p != [] && NamedAt(g, cwd, p, i)
  {
    var x :| x in g.names && cwd <= x && g.names[x] == i;
    CutFront(cwd, x);
    assert NamedAt(g, cwd, x[|cwd|..], i);
  }

  lemma WriteClass(env: Env, cwd: Path, r: Record, g: FileSys)
    requires Place(g, cwd) && r.kind == TR_FWRITE && !Harmless(env, r, g)
    ensures ActsInside(env, cwd, r, g) || ActsApart(env, cwd, r, g)
  {
    var (x, y) := Ends(env, r, g);
    assert y == x && Dispatched(r.kind) && !WriteHarmless(env, r, g, x);
    NotTheTop(g, cwd, x);
    hide Harmless, Rewritten, Ends, Place;
    if g.Has(x) {
      if NamedInside(g, cwd, g.names[x]) {
        InsideByInode(g, cwd, g.names[x]);
        var p :| p != [] && NamedAt(g, cwd, p, g.names[x]);
        assert ActsAt(env, cwd, r, g, p, p);
      }
    } else if cwd <= x {
      CutFront(cwd, x);
      assert ActsAt(env, cwd, r, g, x[|cwd|..], x[|cwd|..]);
    }
  }

  lemma MakeClass(env: Env, cwd: Path, r: Record, g: FileSys)
    requires Place(g, cwd) && (r.kind == TR_FCREAT || r.kind == TR_DCREAT || r.kind == TR_SYMLINK || r.kind == TR_UNLINK)
    requires !Harmless(env, r, g)
    ensures ActsInside(env, cwd, r, g) || ActsApart(env, cwd, r, g) || ActsOnTop(env, cwd, r, g)
  {
    var (x, y) := Ends(env, r, g);
    assert y == x && (r.kind != TR_UNLINK ==> g.Vacant(x));
    NotTheTop(g, cwd, x);
    hide Harmless, Ends, Place;
    if cwd <= x && x != cwd {
      CutFront(cwd, x);
      assert ActsAt(env, cwd, r, g, x[|cwd|..], x[|cwd|..]);
    }
  }

  lemma LinkClass(env: Env, cwd: Path, r: Record, g: FileSys)
    requires Place(g, cwd) && r.kind == TR_LINK && !Harmless(env, r, g) && !Crosses(env, cwd, r, g)
    ensures ActsInside(env, cwd, r, g) || ActsApart(env, cwd, r, g)
  {
    var (x, y) := Ends(env, r, g);
    assert Linkable(g, x, y);
    NotTheTop(g, cwd, y);
    hide Harmless, Ends, Place;
    if cwd <= y {
      CutFront(cwd, y);
      InsideByInode(g, cwd, g.names[x]);
      var p :| p != [] && NamedAt(g, cwd, p, g.names[x]);
      assert ActsAt(env, cwd, r, g, p, y[|cwd|..]);
    }
  }

  lemma RenameClass(env: Env, cwd: Path, r: Record, g: FileSys)
    requires Place(g, cwd) && r.kind == TR_RENAME && !Harmless(env, r, g) && !Crosses(env, cwd, r, g)
    ensures ActsInside(env, cwd, r, g) || ActsApart(env, cwd, r, g) || ActsOnTop(env, cwd, r, g)
  {
    var (x, y) := Ends(env, r, g);
    assert Movable(g, x, y);
    hide Harmless, Ends, Place;
    if !(x <= cwd) && cwd <= x {
      assert x != cwd && y != cwd && cwd <= y;
      CutFront(cwd, x);
      CutFront(cwd, y);
      assert ActsAt(env, cwd, r, g, x[|cwd|..], y[|cwd|..]);
    }
  }

  /** A record that takes nothing across the border is harmless, acts inside or apart, or on the directory itself. */
  lemma Classified(env: Env, cwd: Path, r: Record, g: FileSys)
    requires Place(g, cwd) && !Crosses(env, cwd, r, g)
    ensures || Harmless(env, r, g) || ActsInside(env, cwd, r, g) || ActsApart(env, cwd, r, g)
            || ActsOnTop(env, cwd, r, g)
  {
    if !Harmless(env, r, g) {
      assert Dispatched(r.kind);
      hide Harmless, ActsInside, ActsApart, ActsOnTop, Crosses, Place;
      if r.kind == TR_FWRITE {
        WriteClass(env, cwd, r, g);
      } else if r.kind == TR_LINK {
        LinkClass(env, cwd, r, g);
      } else if r.kind == TR_RENAME {
        RenameClass(env, cwd, r, g);
      } else {
        MakeClass(env, cwd, r, g);
      }
    }
  }

  // ----- what each of them leaves below the directory -----

  /** Writes and links go by the inode. */
  lemma SameInodeSameEffect(env: Env, r: Record, g: FileSys, x: Path, p: Path, y: Path, q: Path)
    requires g.Sound() && x in g.names && p in g.names && g.names[x] == g.names[p]
    requires (r.kind == TR_FWRITE && !WriteHarmless(env, r, g, x)) || (r.kind == TR_LINK && y == q)
    ensures Effect(env, r, g, x, y) == Effect(env, r, g, p, q)
    ensures HarmlessAt(env, r, g, x, y) <==> HarmlessAt(env, r, g, p, q)
  {
    hide Rewritten, Bits, SecondName;
  }

  lemma AtItsPlaces(env: Env, cwd: Path, r: Record, g: FileSys, p: Path, q: Path)
    requires g.Sound() && env.os == Linux() && ActsAt(env, cwd, r, g, p, q)
    ensures Dispatched(r.kind) && Perform(env, r, g).fs == Effect(env, r, g, cwd + p, cwd + q)
    ensures !HarmlessAt(env, r, g, cwd + p, cwd + q)
  {
    PerformIsEffect(env, r, g);
    var (x, y) := Ends(env, r, g);
    assert Dispatched(r.kind) && !HarmlessAt(env, r, g, x, y);
    assert r.kind == TR_FWRITE ==> !WriteHarmless(env, r, g, x);
    hide Perform, Harmless, Effect, HarmlessAt, WriteHarmless, Ends;
    if (r.kind == TR_FWRITE && g.Has(x)) || r.kind == TR_LINK {
      SameInodeSameEffect(env, r, g, x, cwd + p, y, cwd + q);
    }
  }

  /** Inside: what the record does at those places in the subtree on its own. */
  lemma InsideBelow(env: Env, cwd: Path, r: Record, g: FileSys, p: Path, q: Path)
    requires env.os == Linux() && Place(g, cwd) && ActsAt(env, cwd, r, g, p, q)
    ensures Place(Perform(env, r, g).fs, cwd)
    ensures var b, h := Below(g, cwd), Perform(env, r, g).fs;
            Dispatched(r.kind) && !HarmlessAt(env, r, b, p, q) && Below(h, cwd) == Effect(env, r, b, p, q)
  {
    assert p != [] && q != [];
    PlaceSound(g, cwd);
    AtItsPlaces(env, cwd, r, g, p, q);
    hide Perform, HarmlessAt, Effect, Place, Below, ActsAt, Linux;
    HarmlessBelow(env, r, g, cwd, p, q);
    EffectBelow(env, r, g, cwd, p, q);
  }

  /** The names at and below `cwd` are the same, with the same nodes. */
  ghost predicate SameInside(g: FileSys, h: FileSys, cwd: Path) {
    forall y :: cwd <= y ==> SameAt(g, h, y)
  }

  lemma SameInsideIso(g: FileSys, h: FileSys, cwd: Path)
    requires SameInside(g, h, cwd)
    ensures Iso(Below(g, cwd), Below(h, cwd))
  {
    forall p ensures SameAt(g, h, cwd + p) && (p in Below(g, cwd).names <==> cwd + p in g.names)
      && (p in Below(h, cwd).names <==> cwd + p in h.names) {
      assert cwd <= cwd + p;
    }
    assert forall p :: p in Below(g, cwd).names ==> Below(g, cwd).names[p] == Below(h, cwd).names[p];
  }

  lemma PlaceFromSame(g: FileSys, h: FileSys, cwd: Path)
    requires Place(g, cwd) && SameInside(g, h, cwd) && h.Sound() && h.Rooted()
    ensures Place(h, cwd)
  {
    assert cwd <= cwd;
    assert SameAt(g, h, cwd);
  }

  lemma EnterApart(g: FileSys, cwd: Path, x: Path, n: Node)
    requires Place(g, cwd) && g.Vacant(x) && !(cwd <= x)
    ensures SameInside(g, g.Enter(x, n), cwd) && Place(g.Enter(x, n), cwd)
  {
    var h := g.Enter(x, n);
    EnterRooted(g, x, n);
    forall y | cwd <= y ensures SameAt(g, h, y) {
    }
  }

  lemma PutApart(g: FileSys, cwd: Path, x: Path, data: seq<byte>)
    requires Place(g, cwd) && g.Has(x) && g.At(x).File? && !NamedInside(g, cwd, g.names[x])
    ensures SameInside(g, g.Put(x, data), cwd) && Place(g.Put(x, data), cwd)
  {
    var h := g.Put(x, data);
    PutRooted(g, x, data);
    forall y | cwd <= y ensures SameAt(g, h, y) {
    }
    PlaceFromSame(g, h, cwd);
  }

  lemma RemoveApart(g: FileSys, cwd: Path, x: Path)
    requires Place(g, cwd) && Removable(g, x) && !(cwd <= x)
    ensures SameInside(g, g.Remove(x), cwd) && Place(g.Remove(x), cwd)
  {
    var h := g.Remove(x);
    RemoveRooted(g, x);
    forall y | cwd <= y ensures SameAt(g, h, y) {
    }
    PlaceFromSame(g, h, cwd);
  }

  lemma LinkApart(g: FileSys, cwd: Path, x: Path, y: Path)
    requires Place(g, cwd) && Linkable(g, x, y) && !(cwd <= y)
    ensures var h := g.(names := g.names[y := g.names[x]]); SameInside(g, h, cwd) && Place(h, cwd)
  {
    var h := g.(names := g.names[y := g.names[x]]);
    LinkRooted(g, x, y);
    forall z | cwd <= z ensures SameAt(g, h, z) {
    }
    PlaceFromSame(g, h, cwd);
  }

  /** A target of a rename that is neither below nor the directory is not above it either: it has nothing below. */
  lemma MoveApartAt(g: FileSys, cwd: Path, x: Path, y: Path, z: Path)
    requires Place(g, cwd) && Movable(g, x, y) && !(cwd <= x) && !(x <= cwd) && !(cwd <= y) && cwd <= z
    ensures SameAt(g, Moved(g, x, y), z)
  {
    if x <= z {
      Comparable(x, cwd, z);
    }
    if y <= z {
      Comparable(y, cwd, z);
      PrefixNamed(g, cwd, y);
    }
    MovedName(g, x, y, z);
  }

  lemma MoveApart(g: FileSys, cwd: Path, x: Path, y: Path)
    requires Place(g, cwd) && Movable(g, x, y) && !(cwd <= x) && !(x <= cwd) && !(cwd <= y)
    ensures SameInside(g, Moved(g, x, y), cwd) && Place(Moved(g, x, y), cwd)
  {
    forall z | cwd <= z ensures SameAt(g, Moved(g, x, y), z) {
      MoveApartAt(g, cwd, x, y, z);
    }
    MovedKeepsShape(g, x, y);
    hide Moved, Movable;
    PlaceFromSame(g, Moved(g, x, y), cwd);
  }

  lemma MovedKeepsShape(g: FileSys, x: Path, y: Path)
    requires g.Sound() && g.Rooted() && Movable(g, x, y)
    ensures Moved(g, x, y).Sound() && Moved(g, x, y).Rooted()
  {
    MovedSound(g, x, y);
    assert RenameResult(g, x, y) == Ok(Moved(g, x, y));
    hide Moved, RenameResult, Movable;
    RenameRooted(g, x, y);
  }

  /** The tree a record's effect gives where it acts. */
  lemma EffectIs(env: Env, r: Record, g: FileSys, x: Path, y: Path)
    requires g.Sound() && Dispatched(r.kind) && !HarmlessAt(env, r, g, x, y)
    ensures var h := Effect(env, r, g, x, y);
            if r.kind == TR_FWRITE then h == WriteResult(env, r, g, x)
            else if r.kind == TR_UNLINK then Removable(g, x) && h == g.Remove(x)
            else if r.kind == TR_LINK then Linkable(g, x, y) && h == g.(names := g.names[y := g.names[x]])
            else if r.kind == TR_RENAME then Movable(g, x, y) && h == Moved(g, x, y)
            else g.Vacant(x) && exists n :: h == g.Enter(x, n)
  {
    RenameActs(g, x, y);
    hide SecondName, Bits, Move, WriteResult;
    if r.kind == TR_FCREAT {
      assert Effect(env, r, g, x, y) == g.Enter(x, File(Bits(Perm(env, r), 0, FILE_MODE_BITS), []));
    } else if r.kind == TR_DCREAT {
      assert Effect(env, r, g, x, y) == g.Enter(x, Dir(Bits(Perm(env, r), 0, DIR_MODE_BITS)));
    } else if r.kind == TR_SYMLINK {
      assert Effect(env, r, g, x, y) == g.Enter(x, Link(SecondName(env, r)));
    }
  }

  lemma WriteApart(env: Env, cwd: Path, r: Record, g: FileSys, x: Path)
    requires Place(g, cwd) && !WriteHarmless(env, r, g, x)
    requires if g.Has(x) then !NamedInside(g, cwd, g.names[x]) else !(cwd <= x)
    ensures SameInside(g, WriteResult(env, r, g, x), cwd) && Place(WriteResult(env, r, g, x), cwd)
  {
    var n := File(Bits(Bits(env.stray, env.umask, FILE_MODE_BITS), 0, FILE_MODE_BITS), Rewritten(env, r, []));
    hide Rewritten, Bits, Place, SameInside;
    if g.Has(x) {
      PutApart(g, cwd, x, Rewritten(env, r, g.At(x).data));
    } else {
      EnterApart(g, cwd, x, n);
    }
  }

  lemma MakeApart(env: Env, cwd: Path, r: Record, g: FileSys, x: Path, h: FileSys)
    requires Place(g, cwd) && g.Vacant(x) && !(cwd <= x) && exists n :: h == g.Enter(x, n)
    ensures SameInside(g, h, cwd) && Place(h, cwd)
  {
    var n :| h == g.Enter(x, n);
    EnterApart(g, cwd, x, n);
  }

  /** Apart: the subtree is as it was. */
  lemma ApartBelow(env: Env, cwd: Path, r: Record, g: FileSys)
    requires env.os == Linux() && Place(g, cwd) && ActsApart(env, cwd, r, g)
    ensures Place(Perform(env, r, g).fs, cwd) && Iso(Below(g, cwd), Below(Perform(env, r, g).fs, cwd))
  {
    PlaceSound(g, cwd);
    PerformIsEffect(env, r, g);
    var (x, y) := Ends(env, r, g);
    var h := Effect(env, r, g, x, y);
    assert Dispatched(r.kind) && !HarmlessAt(env, r, g, x, y);
    assert r.kind == TR_FWRITE ==> !WriteHarmless(env, r, g, x);
    hide Perform, Harmless, HarmlessAt, WriteHarmless, Effect, Ends, Place, SameInside, Moved, Movable, Removable, Linkable,
      Linux, NamedInside;
    EffectIs(env, r, g, x, y);
    if r.kind == TR_FWRITE {
      WriteApart(env, cwd, r, g, x);
    } else if r.kind == TR_UNLINK {
      RemoveApart(g, cwd, x);
    } else if r.kind == TR_LINK {
      LinkApart(g, cwd, x, y);
    } else if r.kind == TR_RENAME {
      MoveApart(g, cwd, x, y);
    } else {
      MakeApart(env, cwd, r, g, x, h);
    }
    SameInsideIso(g, h, cwd);
  }

  /** On the directory itself: it is no longer there. */
  lemma TopGone(env: Env, cwd: Path, r: Record, g: FileSys)
    requires env.os == Linux() && Place(g, cwd) && ActsOnTop(env, cwd, r, g)
    ensures !Place(Perform(env, r, g).fs, cwd)
  {
    PlaceSound(g, cwd);
    PerformIsEffect(env, r, g);
    var (x, y) := Ends(env, r, g);
    assert Dispatched(r.kind) && !HarmlessAt(env, r, g, x, y);
    assert cwd in g.names && g.Rooted();
    hide Perform, Harmless, HarmlessAt, Effect, Ends, Moved, Movable, Removable, Linux;
    EffectIs(env, r, g, x, y);
    if r.kind == TR_RENAME {
      MovedAway(g, cwd, x, y);
    }
  }

  lemma MovedAway(g: FileSys, cwd: Path, x: Path, y: Path)
    requires g.Sound() && g.Rooted() && cwd in g.names && Movable(g, x, y) && x <= cwd
    ensures cwd !in Moved(g, x, y).names
  {
    if y <= cwd {
      PrefixNamed(g, cwd, y);
    }
    MovedName(g, x, y, cwd);
  }

  // ----- two directories -----

  /** The record changes nothing below `cwd`. */
  ghost predicate KeepsSubtree(env: Env, cwd: Path, r: Record, g: FileSys) {
    Harmless(env, r, g) || ActsApart(env, cwd, r, g)
  }

  /** The record changes neither subtree, or changes both at places that correspond. */
  ghost predicate Corresponds(env: Env, cwd: Path, env': Env, cwd': Path, r: Record, g: FileSys, g': FileSys) {
    || (KeepsSubtree(env, cwd, r, g) && KeepsSubtree(env', cwd', r, g'))
    || (exists p, q, p', q' :: ActsAt(env, cwd, r, g, p, q) && ActsAt(env', cwd', r, g', p', q')
                               && SameEffect(r, Below(g, cwd), p, q, p', q'))
  }

  lemma PlaceSound(g: FileSys, cwd: Path)
    requires Place(g, cwd)
    ensures g.Sound()
  {
  }

  /** Which of them a record does shows in what it leaves. */
  lemma KeptBelow(env: Env, cwd: Path, r: Record, g: FileSys)
    requires env.os == Linux() && Place(g, cwd) && KeepsSubtree(env, cwd, r, g)
    ensures Place(Perform(env, r, g).fs, cwd) && Iso(Below(g, cwd), Below(Perform(env, r, g).fs, cwd))
  {
    PlaceSound(g, cwd);
    hide Perform, Harmless, ActsApart, Place, Linux, Below;
    if Harmless(env, r, g) {
      HarmlessIff(env, r, g);
      SoundBelow(g, cwd);
      IsoSelf(Below(g, cwd));
    } else {
      ApartBelow(env, cwd, r, g);
    }
  }

  lemma SoundBelow(g: FileSys, cwd: Path)
    requires Place(g, cwd)
    ensures Below(g, cwd).Sound()
  {
    BelowSound(g, cwd);
  }

  lemma InsideShows(env: Env, cwd: Path, r: Record, g: FileSys, p: Path, q: Path)
    requires env.os == Linux() && Place(g, cwd) && ActsAt(env, cwd, r, g, p, q)
    ensures !Iso(Below(g, cwd), Below(Perform(env, r, g).fs, cwd)) && !KeepsSubtree(env, cwd, r, g)
  {
    hide Perform, ActsAt, Place, Below, Iso, KeepsSubtree, Linux, Effect, HarmlessAt;
    InsideBelow(env, cwd, r, g, p, q);
    SoundBelow(g, cwd);
    ActingShows(env, r, Below(g, cwd), p, q);
    if KeepsSubtree(env, cwd, r, g) {
      KeptBelow(env, cwd, r, g);
    }
  }

  lemma AlikeTrees(g: FileSys, cwd: Path, g': FileSys, cwd': Path)
    requires Alike(g, cwd, g', cwd')
    ensures var b, b' := Below(g, cwd), Below(g', cwd');
            Place(g, cwd) && Place(g', cwd') && Iso(b, b') && Iso(b', b) && b.Sound() && b'.Sound() && b.Rooted() && b'.Rooted()
  {
    IsoSymmetric(Below(g, cwd), Below(g', cwd'));
    BelowSound(g, cwd);
    BelowSound(g', cwd');
    BelowRooted(g, cwd);
    BelowRooted(g', cwd');
  }

  lemma BelowRooted(g: FileSys, cwd: Path)
    requires g.Sound() && g.Rooted() && g.IsDir(cwd)
    ensures Below(g, cwd).Rooted()
  {
    BelowTests(g, cwd, []);
    assert cwd + [] == cwd;
    forall p | p in Below(g, cwd).names && p != [] ensures Below(g, cwd).IsDir(Parent(p)) {
      BelowTests(g, cwd, p);
      BelowTests(g, cwd, Parent(p));
      assert cwd + p != [] && g.IsDir(Parent(cwd + p));
    }
  }

  lemma SameOptionsSameEffect(env: Env, env': Env, r: Record, b: FileSys, p: Path, q: Path)
    requires SameOptions(env, env')
    ensures Effect(env, r, b, p, q) == Effect(env', r, b, p, q)
    ensures HarmlessAt(env, r, b, p, q) <==> HarmlessAt(env', r, b, p, q)
  {
    hide Apply, Removable, Movable, Linkable, Splice, Bits, CString;
    SameText(env, env', r);
  }

  lemma SameText(env: Env, env': Env, r: Record)
    requires SameOptions(env, env')
    ensures r.kind == TR_SYMLINK ==> SecondName(env, r) == SecondName(env', r)
  {
  }

  /** Neither subtree is changed. */
  lemma BothKeep(env: Env, cwd: Path, env': Env, cwd': Path, r: Record, g: FileSys, g': FileSys)
    requires env.os == Linux() && env'.os == Linux() && Alike(g, cwd, g', cwd')
    requires KeepsSubtree(env, cwd, r, g) && KeepsSubtree(env', cwd', r, g')
    ensures Alike(Perform(env, r, g).fs, cwd, Perform(env', r, g').fs, cwd')
  {
    AlikeTrees(g, cwd, g', cwd');
    hide Perform, KeepsSubtree, Place, Below, Iso, Linux;
    KeptBelow(env, cwd, r, g);
    KeptBelow(env', cwd', r, g');
    var b, b', c, c' := Below(g, cwd), Below(g', cwd'), Below(Perform(env, r, g).fs, cwd), Below(Perform(env', r, g').fs, cwd');
    IsoBothWays(b, c);
    IsoTransitive(c, b, b');
    IsoTransitive(c, b', c');
  }

  /** One is changed and the other is not. */
  lemma OneKeeps(env: Env, cwd: Path, env': Env, cwd': Path, r: Record, g: FileSys, g': FileSys, p: Path, q: Path)
    requires env.os == Linux() && env'.os == Linux() && Alike(g, cwd, g', cwd')
    requires KeepsSubtree(env, cwd, r, g) && ActsAt(env', cwd', r, g', p, q)
    ensures !Iso(Below(Perform(env, r, g).fs, cwd), Below(Perform(env', r, g').fs, cwd'))
  {
    AlikeTrees(g, cwd, g', cwd');
    hide Perform, KeepsSubtree, ActsAt, Place, Below, Iso, Linux;
    KeptBelow(env, cwd, r, g);
    InsideShows(env', cwd', r, g', p, q);
    var b, b', c, c' := Below(g, cwd), Below(g', cwd'), Below(Perform(env, r, g).fs, cwd), Below(Perform(env', r, g').fs, cwd');
    if Iso(c, c') {
      IsoTransitive(b', b, c);
      IsoTransitive(b', c, c');
    }
  }

  /** Both are changed. */
  lemma BothInside(env: Env, cwd: Path, env': Env, cwd': Path, r: Record, g: FileSys, g': FileSys,
                   p: Path, q: Path, p': Path, q': Path)
    requires env.os == Linux() && env'.os == Linux() && SameOptions(env, env') && Alike(g, cwd, g', cwd')
    requires ActsAt(env, cwd, r, g, p, q) && ActsAt(env', cwd', r, g', p', q')
    ensures Alike(Perform(env, r, g).fs, cwd, Perform(env', r, g').fs, cwd')
            <==> SameEffect(r, Below(g, cwd), p, q, p', q')
  {
    AlikeTrees(g, cwd, g', cwd');
    hide Perform, ActsAt, Place, Below, Iso, Linux, SameOptions, SameEffect, Effect, HarmlessAt;
    InsideBelow(env, cwd, r, g, p, q);
    InsideBelow(env', cwd', r, g', p', q');
    BothAct(env, env', r, Below(g, cwd), Below(g', cwd'), p, q, p', q');
  }

  /** Each record keeps the subtree, acts at some places inside, or takes its directory away. */
  lemma ThreeWays(env: Env, cwd: Path, r: Record, g: FileSys)
    requires env.os == Linux() && Place(g, cwd) && !Crosses(env, cwd, r, g)
    ensures || KeepsSubtree(env, cwd, r, g) || ActsInside(env, cwd, r, g)
            || (!Place(Perform(env, r, g).fs, cwd) && !KeepsSubtree(env, cwd, r, g) && !ActsInside(env, cwd, r, g))
  {
    hide Perform, Harmless, ActsInside, ActsApart, ActsOnTop, Place, Crosses, Linux;
    Classified(env, cwd, r, g);
    if !KeepsSubtree(env, cwd, r, g) && !ActsInside(env, cwd, r, g) {
      TopGone(env, cwd, r, g);
    }
  }

  /**
   * Exactly when one record leaves two alike directories alike, however its names are resolved, for all records
   * but those that take something across the border of one of them: it changes neither subtree, or both at
   * corresponding places. A written file and the source of a link count by their inode, and two targets of a
   * rename may differ if they are interchangeable. A record that removes or renames one of the directories
   * never leaves them alike.
   */
  lemma StepAlikeIff(env: Env, cwd: Path, env': Env, cwd': Path, r: Record, g: FileSys, g': FileSys)
    requires env.os == Linux() && env'.os == Linux() && SameOptions(env, env') && Alike(g, cwd, g', cwd')
    requires !Crosses(env, cwd, r, g) && !Crosses(env', cwd', r, g')
    ensures Alike(Perform(env, r, g).fs, cwd, Perform(env', r, g').fs, cwd')
            <==> Corresponds(env, cwd, env', cwd', r, g, g')
  {
    AlikeTrees(g, cwd, g', cwd');
    hide Perform, KeepsSubtree, ActsAt, Place, Below, Iso, Linux, SameOptions, SameEffect, Crosses;
    ThreeWays(env, cwd, r, g);
    ThreeWays(env', cwd', r, g');
    if KeepsSubtree(env, cwd, r, g) && KeepsSubtree(env', cwd', r, g') {
      BothKeep(env, cwd, env', cwd', r, g, g');
    } else if ActsInside(env, cwd, r, g) && ActsInside(env', cwd', r, g') {
      InsidePlaces(env, cwd, env', cwd', r, g, g');
    } else if KeepsSubtree(env, cwd, r, g) && ActsInside(env', cwd', r, g') {
      var p, q :| ActsAt(env', cwd', r, g', p, q);
      OneKeeps(env, cwd, env', cwd', r, g, g', p, q);
      InsideShows(env', cwd', r, g', p, q);
      NotBothInside(env, cwd, r, g);
    } else if ActsInside(env, cwd, r, g) && KeepsSubtree(env', cwd', r, g') {
      var p, q :| ActsAt(env, cwd, r, g, p, q);
      IsoSwapped(g, cwd, g', cwd');
      OneKeeps(env', cwd', env, cwd, r, g', g, p, q);
      InsideShows(env, cwd, r, g, p, q);
      NotBothInside(env', cwd', r, g');
      IsoBothWays(Below(Perform(env, r, g).fs, cwd), Below(Perform(env', r, g').fs, cwd'));
    }
  }

  lemma IsoSwapped(g: FileSys, cwd: Path, g': FileSys, cwd': Path)
    requires Alike(g, cwd, g', cwd')
    ensures Alike(g', cwd', g, cwd)
  {
    IsoSymmetric(Below(g, cwd), Below(g', cwd'));
  }

  lemma NotBothInside(env: Env, cwd: Path, r: Record, g: FileSys)
    requires env.os == Linux() && Place(g, cwd) && KeepsSubtree(env, cwd, r, g)
    ensures forall p, q :: !ActsAt(env, cwd, r, g, p, q)
  {
    hide Perform, ActsAt, Place, KeepsSubtree, Linux;
    forall p, q ensures !ActsAt(env, cwd, r, g, p, q) {
      if ActsAt(env, cwd, r, g, p, q) {
        InsideShows(env, cwd, r, g, p, q);
      }
    }
  }

  /** Which places are taken to stand for the inodes makes no difference. */
  lemma InsidePlaces(env: Env, cwd: Path, env': Env, cwd': Path, r: Record, g: FileSys, g': FileSys)
    requires env.os == Linux() && env'.os == Linux() && SameOptions(env, env') && Alike(g, cwd, g', cwd')
    requires ActsInside(env, cwd, r, g) && ActsInside(env', cwd', r, g')
    ensures Alike(Perform(env, r, g).fs, cwd, Perform(env', r, g').fs, cwd')
            <==> Corresponds(env, cwd, env', cwd', r, g, g')
  {
    hide Perform, KeepsSubtree, ActsAt, Alike, Below, Linux, SameOptions, SameEffect;
    var p, q :| ActsAt(env, cwd, r, g, p, q);
    var p', q' :| ActsAt(env', cwd', r, g', p', q');
    BothInside(env, cwd, env', cwd', r, g, g', p, q, p', q');
    AlikePlaces(g, cwd, g', cwd');
    InsideShows(env, cwd, r, g, p, q);
    if Corresponds(env, cwd, env', cwd', r, g, g') {
      var x, y, x', y' :| ActsAt(env, cwd, r, g, x, y) && ActsAt(env', cwd', r, g', x', y')
                          && SameEffect(r, Below(g, cwd), x, y, x', y');
      BothInside(env, cwd, env', cwd', r, g, g', x, y, x', y');
    }
  }

  lemma AlikePlaces(g: FileSys, cwd: Path, g': FileSys, cwd': Path)
    requires Alike(g, cwd, g', cwd')
    ensures Place(g, cwd) && Place(g', cwd')
  {
  }

  lemma IsoBothWays(a: FileSys, b: FileSys)
    ensures Iso(a, b) <==> Iso(b, a)
  {
    if Iso(a, b) {
      IsoSymmetric(a, b);
    }
    if Iso(b, a) {
      IsoSymmetric(b, a);
    }
  }

  lemma BothAct(env: Env, env': Env, r: Record, b: FileSys, b': FileSys, p: Path, q: Path, p': Path, q': Path)
    requires b.Sound() && b.Rooted() && b'.Sound() && Iso(b, b') && Iso(b', b) && SameOptions(env, env')
    requires Dispatched(r.kind) && !HarmlessAt(env, r, b, p, q) && !HarmlessAt(env', r, b', p', q')
    ensures Iso(Effect(env, r, b, p, q), Effect(env', r, b', p', q')) <==> SameEffect(r, b, p, q, p', q')
  {
    hide *;
    SameOptionsSameEffect(env, env', r, b', p', q');
    if HarmlessAt(env, r, b, p', q') {
      ActsOnBoth(env, r, b, b', p', q');
    }
    SameEffectIff(env, r, b, p, q, p', q');
    EffectIso(env, r, b, b', p', q');
    var x, y, z := Effect(env, r, b, p, q), Effect(env, r, b, p', q'), Effect(env, r, b', p', q');
    IsoBothWays(y, z);
    if Iso(x, y) {
      IsoTransitive(x, y, z);
    }
    if Iso(x, z) {
      IsoTransitive(x, z, y);
    }
  }

  /**
   * The last record of the log that parts two empty directories, at work: a create through a link that names the
   * second directory acts apart from the first and inside the second.
   */
  lemma LinkParts(env: Env, cwd: Path, env': Env, cwd': Path, n: Name, m: Name, r: Record, g: FileSys, g': FileSys)
    requires WorksIn(env, cwd) && WorksIn(env', cwd') && SameOptions(env, env') && env.mode != NoReplay
    requires Alike(g, cwd, g', cwd') && PlainName(n) && PlainName(m)
    requires g.IsLink(cwd + [n]) && g.At(cwd + [n]).target == Render(cwd') && g.IsDir(cwd') && !(cwd <= cwd' + [m])
    requires cwd' + [m] !in g.names && cwd' + [m] !in g'.names
    requires r.kind == TR_FCREAT && r.path == Render([n, m])
    ensures ActsApart(env, cwd, r, g) && ActsAt(env', cwd', r, g', [m], [m])
    ensures !Crosses(env, cwd, r, g) && !Crosses(env', cwd', r, g')
    ensures !Corresponds(env, cwd, env', cwd', r, g, g')
    ensures !Alike(Perform(env, r, g).fs, cwd, Perform(env', r, g').fs, cwd')
  {
    hide *;
    OnLinux(env, cwd);
    OnLinux(env', cwd');
    LinkLeads(env, cwd, env', cwd', n, m, r, g, g');
    MakesApart(env, cwd, r, g, cwd' + [m]);
    MakesInside(env', cwd', r, g', [m]);
    StepAlikeIff(env, cwd, env', cwd', r, g, g');
    ApartKeeps(env, cwd, r, g);
    OneKeeps(env, cwd, env', cwd', r, g, g', [m], [m]);
    NotAlike(Perform(env, r, g).fs, cwd, Perform(env', r, g').fs, cwd');
  }

  lemma ApartKeeps(env: Env, cwd: Path, r: Record, g: FileSys)
    requires ActsApart(env, cwd, r, g)
    ensures KeepsSubtree(env, cwd, r, g)
  {
  }

  /** In both directories the name ends at the same place, and the create acts there. */
  lemma LinkLeads(env: Env, cwd: Path, env': Env, cwd': Path, n: Name, m: Name, r: Record, g: FileSys, g': FileSys)
    requires WorksIn(env, cwd) && WorksIn(env', cwd') && SameOptions(env, env') && env.mode != NoReplay
    requires Alike(g, cwd, g', cwd') && PlainName(n) && PlainName(m)
    requires g.IsLink(cwd + [n]) && g.At(cwd + [n]).target == Render(cwd') && g.IsDir(cwd')
    requires cwd' + [m] !in g.names && cwd' + [m] !in g'.names
    requires r.kind == TR_FCREAT && r.path == Render([n, m])
    ensures Arrived(env, r, g) && Ends(env, r, g) == (cwd' + [m], cwd' + [m]) && !Harmless(env, r, g)
    ensures Arrived(env', r, g') && Ends(env', r, g') == (cwd' + [m], cwd' + [m]) && !Harmless(env', r, g')
  {
    AlikeAt(g, cwd, g', cwd', [n]);
    assert Place(g, cwd) && Place(g', cwd') && Plain(cwd') && env'.mode != NoReplay;
    hide Perform, First, Harmless, Ends, Alike, Render, Lookup;
    LinkLeadsOut(env, cwd, n, m, cwd', r, g);
    LinkLeadsOut(env', cwd', n, m, cwd', r, g');
    EndIsVacant(env, r, g, cwd', m);
    EndIsVacant(env', r, g', cwd', m);
  }

  lemma MakesApart(env: Env, cwd: Path, r: Record, g: FileSys, x: Path)
    requires r.kind == TR_FCREAT && Arrived(env, r, g) && Ends(env, r, g) == (x, x) && !Harmless(env, r, g) && !(cwd <= x)
    ensures ActsApart(env, cwd, r, g) && !Crosses(env, cwd, r, g)
  {
    hide Ends, Harmless;
  }

  lemma MakesInside(env: Env, cwd: Path, r: Record, g: FileSys, p: Path)
    requires r.kind == TR_FCREAT && Arrived(env, r, g) && Ends(env, r, g) == (cwd + p, cwd + p) && !Harmless(env, r, g)
    requires p != []
    ensures ActsAt(env, cwd, r, g, p, p) && !Crosses(env, cwd, r, g)
  {
    hide Ends, Harmless;
  }

  lemma OnLinux(env: Env, cwd: Path)
    requires WorksIn(env, cwd)
    ensures env.os == Linux()
  {
  }

  lemma NotAlike(g: FileSys, cwd: Path, g': FileSys, cwd': Path)
    requires !Iso(Below(g, cwd), Below(g', cwd'))
    ensures !Alike(g, cwd, g', cwd')
  {
  }

  /**
   * The two empty directories of that log: alike until its last record has its turn, and parted by it, because it
   * acts apart from the one and inside the other.
   */
  lemma LastRecordParts(env: Env, cwd: Path, env': Env, cwd': Path, l: Name, d: Name, x: Name, mode: nat, g: FileSys)
    requires WorksIn(env, cwd) && WorksIn(env', cwd') && SameOptions(env, env') && env.mode == Normal && cwd != cwd'
    requires Distinct(l, d, x) && x != l && Empty(g, cwd) && Empty(g, cwd') && Alike(g, cwd, g, cwd')
    ensures var rs := RecordsOf(Detour(l, d, x, cwd', mode), 0);
            var r, link := RecordOf(Create([l, x], mode), 3), Link(Render(cwd'));
            var h, h' := g.Enter(cwd + [l], link), g.Enter(cwd' + [l], link);
            && ReplayList(env, rs, g).fs == Perform(env, r, h).fs && ReplayList(env', rs, g).fs == Perform(env', r, h').fs
            && Alike(h, cwd, h', cwd') && !Corresponds(env, cwd, env', cwd', r, h, h')
            && !Alike(ReplayList(env, rs, g).fs, cwd, ReplayList(env', rs, g).fs, cwd')
  {
    var r, link := RecordOf(Create([l, x], mode), 3), Link(Render(cwd'));
    var h, h' := g.Enter(cwd + [l], link), g.Enter(cwd' + [l], link);
    EmptyFacts(g, cwd, cwd', l, d, x, link);
    EmptyFacts(g, cwd', cwd', l, d, x, link);
    assert env'.mode == Normal && Plain(cwd');
    hide *;
    OtherPlaces(cwd, cwd', l, x);
    DetourTurns(env, cwd, l, d, x, cwd', mode, g);
    DetourTurns(env', cwd', l, d, x, cwd', mode, g);
    CreateRecord(l, x, mode, 3);
    EnteredAlike(g, cwd, cwd', l, link);
    NotInEmpty(g, cwd, cwd', x);
    LinkParts(env, cwd, env', cwd', l, x, r, h, h');
  }

  /** The tree with the link in `cwd`, where `away` is another empty directory or the same. */
  lemma EmptyFacts(g: FileSys, cwd: Path, away: Path, l: Name, d: Name, x: Name, link: Node)
    requires Distinct(l, d, x) && x != l && Empty(g, cwd) && Empty(g, away) && link.Link?
    ensures PlainName(l) && PlainName(x) && g.IsDir(away) && away + [x] !in g.names && away + [x] != cwd + [l]
    ensures var h := g.Enter(cwd + [l], link);
            && h.IsLink(cwd + [l]) && h.At(cwd + [l]) == link && h.IsDir(away) && away + [x] !in h.names
  {
    EmptyMeans(g, away, x, []);
    EmptyMeans(g, cwd, l, []);
    if cwd == away {
      assert (cwd + [x])[|cwd|] == x && (cwd + [l])[|cwd|] == l;
    } else {
      OtherPlaces(cwd, away, l, x);
    }
    LinkEntered(g, cwd, l, d, away, link.target, x);
  }

  lemma EnteredAlike(g: FileSys, cwd: Path, cwd': Path, l: Name, link: Node)
    requires Alike(g, cwd, g, cwd') && Empty(g, cwd) && Empty(g, cwd')
    ensures Alike(g.Enter(cwd + [l], link), cwd, g.Enter(cwd' + [l], link), cwd')
  {
    EmptyMeans(g, cwd, l, []);
    EmptyMeans(g, cwd', l, []);
    AlikeTrees(g, cwd, g, cwd');
    EnterPlace(g, cwd, [l], link);
    EnterPlace(g, cwd', [l], link);
    EnterBelow(g, cwd, [l], link);
    EnterBelow(g, cwd', [l], link);
    hide Below, Iso, Place;
    EnterIso(Below(g, cwd), Below(g, cwd'), [l], link);
  }

  lemma NotInEmpty(g: FileSys, cwd: Path, cwd': Path, x: Name)
    requires Empty(g, cwd) && Empty(g, cwd') && cwd != cwd'
    ensures !(cwd <= cwd' + [x])
  {
    EmptyMeans(g, cwd', x, []);
    assert cwd in g.names && cwd' in g.names && !(cwd <= cwd');
    JustBelow(cwd, cwd', x);
  }

  lemma EndIsVacant(env: Env, r: Record, g: FileSys, away: Path, m: Name)
    requires env.mode != NoReplay && r.kind == TR_FCREAT && First(env, r, g) == Ok(away + [m])
    requires g.IsDir(away) && away + [m] !in g.names
    ensures Arrived(env, r, g) && Ends(env, r, g) == (away + [m], away + [m]) && !Harmless(env, r, g)
  {
    assert Parent(away + [m]) == away;
  }

  // ----- lists -----

  /** The two replays' trees are alike after every record. */
  ghost predicate StayAlike(env: Env, cwd: Path, env': Env, cwd': Path, rs: seq<Record>, g: FileSys, g': FileSys)
    decreases rs
  {
    && Alike(g, cwd, g', cwd')
    && (rs == [] || StayAlike(env, cwd, env', cwd', rs[1..], Perform(env, rs[0], g).fs, Perform(env', rs[0], g').fs))
  }

  /** No record takes anything across the border when its turn comes. */
  ghost predicate NoneCrosses(env: Env, cwd: Path, rs: seq<Record>, g: FileSys)
    decreases rs
  {
    rs == [] || (!Crosses(env, cwd, rs[0], g) && NoneCrosses(env, cwd, rs[1..], Perform(env, rs[0], g).fs))
  }

  ghost predicate AllCorrespond(env: Env, cwd: Path, env': Env, cwd': Path, rs: seq<Record>, g: FileSys, g': FileSys)
    decreases rs
  {
    rs == [] ||
    (&& Corresponds(env, cwd, env', cwd', rs[0], g, g')
     && AllCorrespond(env, cwd, env', cwd', rs[1..], Perform(env, rs[0], g).fs, Perform(env', rs[0], g').fs))
  }

  /**
   * One list of records, each performed in its turn, and two targets, exactly: the two subtrees are alike after
   * every record if and only if every record corresponds.
   */
  lemma {:induction false} StayAlikeIff(env: Env, cwd: Path, env': Env, cwd': Path, rs: seq<Record>, g: FileSys, g': FileSys)
    requires env.os == Linux() && env'.os == Linux() && SameOptions(env, env') && Alike(g, cwd, g', cwd')
    requires NoneCrosses(env, cwd, rs, g) && NoneCrosses(env', cwd', rs, g')
    ensures StayAlike(env, cwd, env', cwd', rs, g, g') <==> AllCorrespond(env, cwd, env', cwd', rs, g, g')
    decreases rs
  {
    hide Perform, Alike, Crosses, Corresponds, Linux, SameOptions;
    if rs != [] {
      var h, h' := Perform(env, rs[0], g).fs, Perform(env', rs[0], g').fs;
      StepAlikeIff(env, cwd, env', cwd', rs[0], g, g');
      if Alike(h, cwd, h', cwd') {
        StayAlikeIff(env, cwd, env', cwd', rs[1..], h, h');
      } else if StayAlike(env, cwd, env', cwd', rs, g, g') {
        StartAlike(env, cwd, env', cwd', rs[1..], h, h');
      }
    }
  }

  lemma StartAlike(env: Env, cwd: Path, env': Env, cwd': Path, rs: seq<Record>, g: FileSys, g': FileSys)
    requires StayAlike(env, cwd, env', cwd', rs, g, g')
    ensures Alike(g, cwd, g', cwd')
  {
  }
}
