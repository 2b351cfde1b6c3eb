/** Operations on different paths commute: the final tree depends only on what happened at each path. */
module Commuting {
  import opened Records
  import opened FileSystem
  import opened FsLaws
  import opened MaskOrder

  /** An operation that makes or removes one name in a directory that is already there. */
  predicate Simple(op: Op) { op.Create? || op.Symlink? || op.Unlink? }

  /** The operations of a sequence that concern the path `p`, in their order. */
  function On(ops: seq<Op>, p: Path): seq<Op> {
    if ops == [] then []
    else On(Front(ops), p) + (if Last(ops).path == p then [Last(ops)] else [])
  }

  /** What a name stands for: nothing, an inode of the starting tree, or a node made since. */
  datatype Cell = Absent | Old(ino: Ino) | New(node: Node)

  function At0(fs: FileSys, p: Path): Cell {
    if p in fs.names then Old(fs.names[p]) else Absent
  }

  predicate Homed(fs: FileSys, p: Path) { p != [] && fs.IsDir(Parent(p)) }

  /** One simple operation at its path; `None` when it fails. */
  function Touch(fs: FileSys, c: Option<Cell>, op: Op): Option<Cell> {
    if c.None? then None
    else
      match op
      case Create(p, mode) => if c.value.Absent? && Homed(fs, p) then Some(New(File(Bits(mode, 0, FILE_MODE_BITS), []))) else None
      case Symlink(p, target) => if c.value.Absent? && Homed(fs, p) && target != [] then Some(New(Link(target))) else None
      case Unlink(p) =>
        if c.value.Absent? || p == [] then None
        else if c.value.Old? && c.value.ino in fs.nodes && fs.nodes[c.value.ino].Dir? then None
        else Some(Absent)
      case _ => None
  }

  function Fold(fs: FileSys, c: Cell, ops: seq<Op>): Option<Cell> {
    if ops == [] then Some(c) else Touch(fs, Fold(fs, c, Front(ops)), Last(ops))
  }

  /** The cell of `p` after `ops`. */
  function CellAfter(fs: FileSys, ops: seq<Op>, p: Path): Option<Cell> {
    Fold(fs, At0(fs, p), On(ops, p))
  }

  ghost predicate AllSimple(ops: seq<Op>) { forall op :: op in ops ==> Simple(op) }

  /** The tree `f` holds exactly the cells `ops` leaves of `fs`; nodes made since have inodes of their own. */
  ghost predicate Holds0(fs: FileSys, f: FileSys, ops: seq<Op>) {
    && f.Sound() && fs.next <= f.next
    && (forall i :: i in fs.nodes ==> i in f.nodes && f.nodes[i] == fs.nodes[i])
    && (forall p :: CellAfter(fs, ops, p).Some?)
    && (forall p :: CellAfter(fs, ops, p).Some? ==> Matches(fs, f, p, CellAfter(fs, ops, p).value))
    && (forall p, q :: p in f.names && q in f.names && p != q && f.names[p] >= fs.next ==> f.names[p] != f.names[q])
  }

  ghost predicate Matches(fs: FileSys, f: FileSys, p: Path, c: Cell) {
    match c
    case Absent => p !in f.names
    case Old(i) => p in f.names && f.names[p] == i && p in fs.names && fs.names[p] == i
    case New(n) => p in f.names && f.names[p] >= fs.next && f.names[p] in f.nodes && f.nodes[f.names[p]] == n && !n.Dir?
  }

  lemma OnSnoc(ops: seq<Op>, op: Op, p: Path)
    ensures On(ops + [op], p) == if op.path == p then On(ops, p) + [op] else On(ops, p)
  {
    assert Front(ops + [op]) == ops && Last(ops + [op]) == op;
    assert On(ops, p) + [] == On(ops, p);
  }

  lemma CellSnoc(fs: FileSys, ops: seq<Op>, op: Op, p: Path)
    ensures CellAfter(fs, ops + [op], p)
         == if op.path == p then Touch(fs, CellAfter(fs, ops, p), op) else CellAfter(fs, ops, p)
  {
    OnSnoc(ops, op, p);
    assert Front(On(ops, p) + [op]) == On(ops, p) && Last(On(ops, p) + [op]) == op;
  }

  /** Directories of the starting tree are still there, and there are no others. */
  lemma DirectoriesStay(fs: FileSys, f: FileSys, ops: seq<Op>, q: Path)
    requires fs.Sound() && Holds0(fs, f, ops) && AllSimple(ops)
    ensures f.IsDir(q) <==> fs.IsDir(q)
    ensures fs.IsDir(q) ==> f.names[q] == fs.names[q]
  {
    var c := CellAfter(fs, ops, q);
    assert Matches(fs, f, q, c.value);
    if fs.IsDir(q) {
      DirectoryUntouched(fs, On(ops, q), q);
    }
  }

  lemma {:induction false} DirectoryUntouched(fs: FileSys, ops: seq<Op>, q: Path)
    requires fs.Sound() && fs.IsDir(q)
    ensures Fold(fs, At0(fs, q), ops).Some? ==> Fold(fs, At0(fs, q), ops).value == At0(fs, q)
  {
    if ops != [] {
      DirectoryUntouched(fs, Front(ops), q);
    }
  }

  /** A simple operation succeeds exactly when its cell lets it, and then the cells describe the new tree. */
  lemma SimpleStep(fs: FileSys, f: FileSys, ops: seq<Op>, op: Op)
    requires fs.Sound() && Holds0(fs, f, ops) && AllSimple(ops) && Simple(op)
    ensures Apply(f, op).Ok? <==> CellAfter(fs, ops + [op], op.path).Some?
    ensures Apply(f, op).Ok? ==> Holds0(fs, Apply(f, op).value, ops + [op])
  {
    var p := op.path;
    CellSnoc(fs, ops, op, p);
    assert Matches(fs, f, p, CellAfter(fs, ops, p).value);
    if p != [] {
      DirectoriesStay(fs, f, ops, Parent(p));
    }
    CellDecides(fs, f, op, CellAfter(fs, ops, p));
    hide Apply, CellAfter;
    if Apply(f, op).Ok? {
      StepHolds(fs, f, ops, op);
    }
  }

  lemma CellDecides(fs: FileSys, f: FileSys, op: Op, c: Option<Cell>)
    requires fs.Sound() && f.Sound() && Simple(op) && c.Some? && Matches(fs, f, op.path, c.value)
    requires forall i :: i in fs.nodes ==> i in f.nodes && f.nodes[i] == fs.nodes[i]
    requires op.path != [] ==> (f.IsDir(Parent(op.path)) <==> fs.IsDir(Parent(op.path)))
    ensures Apply(f, op).Ok? <==> Touch(fs, c, op).Some?
  {
  }

  /** The step of one cell. */
  lemma CellStep(fs: FileSys, f: FileSys, op: Op, c: Option<Cell>, q: Path)
    requires fs.Sound() && f.Sound() && fs.next <= f.next && Simple(op) && Apply(f, op).Ok?
    requires c.Some? && Matches(fs, f, q, c.value)
    requires op.path == q ==> Touch(fs, c, op).Some?
    ensures Matches(fs, Apply(f, op).value, q, if op.path == q then Touch(fs, c, op).value else c.value)
  {
  }

  /** The new name has the new inode; the others keep theirs. */
  lemma SimpleNames(f: FileSys, op: Op)
    requires f.Sound() && Simple(op) && Apply(f, op).Ok?
    ensures var g := Apply(f, op).value;
            && f.next <= g.next
            && (forall i :: i in f.nodes ==> i in g.nodes && g.nodes[i] == f.nodes[i])
            && (forall p :: p in g.names ==> if p in f.names then g.names[p] == f.names[p] else p == op.path && g.names[p] == f.next)
  {
  }

  lemma StepHolds(fs: FileSys, f: FileSys, ops: seq<Op>, op: Op)
    requires fs.Sound() && Holds0(fs, f, ops) && Simple(op) && Apply(f, op).Ok?
    requires CellAfter(fs, ops + [op], op.path).Some?
    ensures Holds0(fs, Apply(f, op).value, ops + [op])
  {
    hide CellAfter, Apply, Matches, Touch;
    var g := Apply(f, op).value;
    ApplySound(f, op);
    SimpleNames(f, op);
    forall q ensures CellAfter(fs, ops + [op], q).Some? && Matches(fs, g, q, CellAfter(fs, ops + [op], q).value) {
      CellSnoc(fs, ops, op, q);
      assert Matches(fs, f, q, CellAfter(fs, ops, q).value);
      CellStep(fs, f, op, CellAfter(fs, ops, q), q);
    }
  }

  /** A sequence of simple operations succeeds exactly when at every path its own part does. */
  lemma {:induction false} RunIffCells(fs: FileSys, ops: seq<Op>)
    requires fs.Sound() && AllSimple(ops)
    ensures Run(fs, ops).Ok? <==> forall p :: CellAfter(fs, ops, p).Some?
    ensures Run(fs, ops).Ok? ==> Holds0(fs, Run(fs, ops).value, ops)
    decreases |ops|
  {
    if ops == [] {
      assert forall p :: CellAfter(fs, [], p) == Some(At0(fs, p));
    } else {
      var front, op := Front(ops), Last(ops);
      assert ops == front + [op] && op in ops;
      assert AllSimple(front);
      RunIffCells(fs, front);
      RunAppend(fs, front, [op]);
      RunOne(fs, front, op);
      CellsOfFront(fs, front, op);
      if Run(fs, front).Ok? {
        SimpleStep(fs, Run(fs, front).value, front, op);
      }
    }
  }

  lemma RunOne(fs: FileSys, ops: seq<Op>, op: Op)
    ensures Run(fs, ops).Ok? ==> Run(Run(fs, ops).value, [op]) == Apply(Run(fs, ops).value, op)
  {
    assert [op][1..] == [];
  }

  lemma CellsOfFront(fs: FileSys, ops: seq<Op>, op: Op)
    ensures (forall p :: CellAfter(fs, ops + [op], p).Some?)
            <==> (forall p :: CellAfter(fs, ops, p).Some?) && CellAfter(fs, ops + [op], op.path).Some?
  {
    hide CellAfter;
    forall p ensures CellAfter(fs, ops + [op], p).Some? ==> CellAfter(fs, ops, p).Some?
      ensures p != op.path ==> CellAfter(fs, ops + [op], p) == CellAfter(fs, ops, p) {
      CellSnoc(fs, ops, op, p);
    }
  }

  /**
   * Two sequences of simple operations that agree at every path: if one succeeds so does the other, and the
   * trees they leave are equal up to inode numbers.
   */
  lemma SamePathsSameTree(fs: FileSys, a: seq<Op>, b: seq<Op>)
    requires fs.Sound() && AllSimple(a) && AllSimple(b) && forall p :: On(a, p) == On(b, p)
    requires Run(fs, a).Ok?
    ensures Run(fs, b).Ok? && Iso(Run(fs, a).value, Run(fs, b).value)
  {
    RunIffCells(fs, a);
    RunIffCells(fs, b);
    assert forall p :: CellAfter(fs, a, p) == CellAfter(fs, b, p);
    CellsDetermine(fs, Run(fs, a).value, Run(fs, b).value, a, b);
  }

  lemma CellsDetermine(fs: FileSys, f: FileSys, g: FileSys, a: seq<Op>, b: seq<Op>)
    requires fs.Sound() && Holds0(fs, f, a) && Holds0(fs, g, b)
    requires forall p :: CellAfter(fs, a, p) == CellAfter(fs, b, p)
    ensures Iso(f, g)
  {
    hide CellAfter;
    forall p ensures p in f.names <==> p in g.names
      ensures p in f.names ==> f.Has(p) && g.Has(p) && f.At(p) == g.At(p) {
      assert Matches(fs, f, p, CellAfter(fs, a, p).value) && Matches(fs, g, p, CellAfter(fs, b, p).value);
    }
    forall p, q | p in f.names && q in f.names ensures f.names[p] == f.names[q] <==> g.names[p] == g.names[q] {
      assert Matches(fs, f, p, CellAfter(fs, a, p).value) && Matches(fs, g, p, CellAfter(fs, b, p).value);
      assert Matches(fs, f, q, CellAfter(fs, a, q).value) && Matches(fs, g, q, CellAfter(fs, b, q).value);
    }
  }
}
