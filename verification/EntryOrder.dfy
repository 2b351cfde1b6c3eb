/**
 * What the directory locks protect: the entries of a directory. An operation changes the entries of exactly the
 * directories it locks, so the log has the changes of each directory in the order in which they happened.
 */
module EntryOrder {
  import opened Records
  import opened FileSystem
  import opened FsLaws
  import opened Replay
  import opened MaskOrder
  import opened Protocol

  // ----- entries -----

  /** The directory inode `d` has an entry of name `n` for the inode `i`. */
  ghost predicate Entry(fs: FileSys, d: Ino, n: Name, i: Ino) {
    exists p: Path :: EntryAt(fs, p, d, n, i)
  }

  predicate EntryAt(fs: FileSys, p: Path, d: Ino, n: Name, i: Ino) {
    p in fs.names && fs.names[p] == d && p + [n] in fs.names && fs.names[p + [n]] == i
  }

  ghost predicate SameEntries(f: FileSys, g: FileSys, d: Ino) {
    forall n, i :: Entry(f, d, n, i) <==> Entry(g, d, n, i)
  }

  /** No directory has two names: it is never hard-linked. */
  ghost predicate SingleNamed(fs: FileSys) {
    forall x, y :: x in fs.names && y in fs.names && fs.IsDir(x) && fs.names[x] == fs.names[y] ==> x == y
  }

  lemma LastOf(p: Path, n: Name, x: Path)
    requires p + [n] == x
    ensures x != [] && Parent(x) == p && x[|x| - 1] == n
  {
  }

  lemma FrontAndLast(x: Path)
    requires x != []
    ensures Parent(x) + [x[|x| - 1]] == x
  {
  }

  /** In a rooted tree only a directory has names below it. */
  lemma HasBelow(fs: FileSys, p: Path, n: Name)
    requires fs.Rooted() && p + [n] in fs.names
    ensures fs.IsDir(p)
  {
    LastOf(p, n, p + [n]);
  }

  // ----- what is not locked is not touched -----

  /** A tree with one more name. */
  lemma NewNameUntouched(f: FileSys, g: FileSys, x: Path, d: Ino)
    requires f.Sound() && f.Rooted() && x != [] && x !in f.names && Parent(x) in f.names && d != f.names[Parent(x)]
    requires forall y :: y in g.names <==> y in f.names || y == x
    requires forall y :: y in f.names ==> g.names[y] == f.names[y]
    ensures SameEntries(f, g, d)
  {
    forall n, i ensures Entry(f, d, n, i) <==> Entry(g, d, n, i) {
      if Entry(f, d, n, i) {
        var p :| EntryAt(f, p, d, n, i);
        assert EntryAt(g, p, d, n, i);
      }
      if Entry(g, d, n, i) {
        var p :| EntryAt(g, p, d, n, i);
        if p + [n] == x {
          LastOf(p, n, x);
        } else {
          HasBelow(f, p, n);
          assert EntryAt(f, p, d, n, i);
        }
      }
    }
  }

  lemma RemoveUntouched(fs: FileSys, x: Path, d: Ino)
    requires fs.Rooted() && fs.Has(x) && x != [] && (fs.IsDir(x) ==> fs.Childless(x)) && d != fs.names[Parent(x)]
    ensures SameEntries(fs, fs.Remove(x), d)
  {
    var g := fs.Remove(x);
    forall n, i ensures Entry(fs, d, n, i) <==> Entry(g, d, n, i) {
      if Entry(fs, d, n, i) {
        var p :| EntryAt(fs, p, d, n, i);
        if p + [n] == x {
          LastOf(p, n, x);
        } else {
          HasBelow(fs, p, n);
          assert p <= p + [n] && p + [n] != p;
          assert EntryAt(g, p, d, n, i);
        }
      }
      if Entry(g, d, n, i) {
        var p :| EntryAt(g, p, d, n, i);
        assert EntryAt(fs, p, d, n, i);
      }
    }
  }

  lemma BelowOrBeside(q: Path, p: Path, n: Name)
    ensures q <= p ==> q <= p + [n] && (p + [n])[|q|..] == p[|q|..] + [n]
    ensures q <= p + [n] ==> q <= p || q == p + [n]
  {
  }

  /** An entry below the source moves along. */
  lemma EntryMovesAlong(fs: FileSys, x: Path, y: Path, p: Path, d: Ino, n: Name, i: Ino)
    requires EntryAt(fs, p, d, n, i) && x <= p
    ensures EntryAt(fs.(names := Move(fs.names, x, y)), y + p[|x|..], d, n, i)
  {
    var s := p[|x|..];
    assert p == x + s && p + [n] == x + (s + [n]) && y + s + [n] == y + (s + [n]);
    hide Move;
    MovedTo(fs, x, y, s);
    MovedTo(fs, x, y, s + [n]);
  }

  /** Any other name but those below the target stays. */
  lemma NameStays(fs: FileSys, x: Path, y: Path, z: Path)
    requires z in fs.names && !(x <= z) && !(y <= z)
    ensures z in Move(fs.names, x, y) && Move(fs.names, x, y)[z] == fs.names[z]
  {
  }

  /** An entry outside both parents moves along, or stays. */
  lemma EntryMoves(fs: FileSys, x: Path, y: Path, p: Path, d: Ino, n: Name, i: Ino)
    requires RenameGuard(fs, x, y) && EntryAt(fs, p, d, n, i)
    requires d != fs.names[Parent(x)] && d != fs.names[Parent(y)]
    ensures Entry(fs.(names := Move(fs.names, x, y)), d, n, i)
  {
    var g := fs.(names := Move(fs.names, x, y));
    LastOf(p, n, p + [n]);
    assert p + [n] != x && p + [n] != y;
    hide Move;
    if x <= p {
      EntryMovesAlong(fs, x, y, p, d, n, i);
    } else {
      TargetEmpty(fs, x, y, p, n);
      hide RenameGuard;
      BelowOrBeside(x, p, n);
      BelowOrBeside(y, p, n);
      NameStays(fs, x, y, p);
      NameStays(fs, x, y, p + [n]);
      assert EntryAt(g, p, d, n, i);
    }
  }

  /** The state of the tree in which a rename moves. */
  ghost predicate RenameGuard(fs: FileSys, x: Path, y: Path) {
    && fs.Sound() && fs.Rooted() && x != [] && y != [] && fs.Has(x) && fs.IsDir(Parent(y))
    && !(x <= y) && !(y <= x) && (fs.Has(y) ==> fs.Childless(y))
  }

  lemma MovedTo(fs: FileSys, x: Path, y: Path, s: Path)
    requires x + s in fs.names
    ensures y + s in Move(fs.names, x, y) && Move(fs.names, x, y)[y + s] == fs.names[x + s]
  {
    assert (y + s)[|y|..] == s && y <= y + s;
  }

  /** Nothing but the target itself is replaced. */
  lemma TargetEmpty(fs: FileSys, x: Path, y: Path, p: Path, n: Name)
    requires RenameGuard(fs, x, y) && p + [n] in fs.names && !(y == p + [n])
    ensures !(y <= p)
  {
    if y <= p {
      BelowOrBeside(y, p, n);
      HasBelow(fs, p, n);
      PrefixHas(fs, p, y);
    }
  }

  lemma PrefixHas(fs: FileSys, p: Path, y: Path)
    requires fs.Rooted() && fs.IsDir(p) && y <= p
    ensures fs.Has(y)
  {
    if y != p {
      PrefixIsDir(fs, p, |y|);
      assert p[..|y|] == y;
    }
  }

  lemma EntryMoved(fs: FileSys, x: Path, y: Path, p: Path, d: Ino, n: Name, i: Ino)
    requires RenameGuard(fs, x, y) && EntryAt(fs.(names := Move(fs.names, x, y)), p, d, n, i)
    requires d != fs.names[Parent(x)] && d != fs.names[Parent(y)]
    ensures Entry(fs, d, n, i)
  {
    var g := fs.(names := Move(fs.names, x, y));
    BelowOrBeside(y, p, n);
    if y <= p {
      var s := p[|y|..];
      assert (p + [n])[|y|..] == s + [n];
      assert x + s + [n] == x + (s + [n]);
      assert EntryAt(fs, x + s, d, n, i);
    } else if y == p + [n] {
      LastOf(p, n, y);
    } else {
      assert EntryAt(fs, p, d, n, i);
    }
  }

  lemma RenameUntouched(fs: FileSys, x: Path, y: Path, d: Ino)
    requires RenameGuard(fs, x, y) && d != fs.names[Parent(x)] && d != fs.names[Parent(y)]
    ensures SameEntries(fs, fs.(names := Move(fs.names, x, y)), d)
  {
    var g := fs.(names := Move(fs.names, x, y));
    hide Move, RenameGuard;
    forall n, i ensures Entry(fs, d, n, i) <==> Entry(g, d, n, i) {
      if Entry(fs, d, n, i) {
        var p :| EntryAt(fs, p, d, n, i);
        EntryMoves(fs, x, y, p, d, n, i);
      }
      if Entry(g, d, n, i) {
        var p :| EntryAt(g, p, d, n, i);
        EntryMoved(fs, x, y, p, d, n, i);
      }
    }
  }

  lemma SameNamesSameEntries(f: FileSys, g: FileSys, d: Ino)
    requires f.names == g.names
    ensures SameEntries(f, g, d)
  {
    forall n, i ensures Entry(f, d, n, i) <==> Entry(g, d, n, i) {
      if Entry(f, d, n, i) {
        var p :| EntryAt(f, p, d, n, i);
        assert EntryAt(g, p, d, n, i);
      }
      if Entry(g, d, n, i) {
        var p :| EntryAt(g, p, d, n, i);
        assert EntryAt(f, p, d, n, i);
      }
    }
  }

  lemma RenameOk(fs: FileSys, x: Path, y: Path)
    requires fs.Sound() && fs.Rooted() && Apply(fs, Rename(x, y)).Ok?
    ensures var g := Apply(fs, Rename(x, y)).value;
            g == fs || (RenameGuard(fs, x, y) && g == fs.(names := Move(fs.names, x, y)))
    ensures Parent(x) in fs.names && Parent(y) in fs.names
  {
    assert fs.IsDir(Parent(x)) && fs.IsDir(Parent(y));
  }

  /** An operation leaves the entries of every directory alone that it has not locked. */
  lemma UnlockedUntouched(fs: FileSys, op: Op, d: Ino)
    requires fs.Sound() && fs.Rooted() && Apply(fs, op).Ok? && d !in LockSet(fs, op)
    ensures SameEntries(fs, Apply(fs, op).value, d)
  {
    var g := Apply(fs, op).value;
    match op
    case Write(_, _, _, _, _) => SameNamesSameEntries(fs, g, d);
    case Create(p, mode) => NewNameUntouched(fs, g, p, d);
    case Mkdir(p, mode) => NewNameUntouched(fs, g, p, d);
    case Symlink(p, target) => NewNameUntouched(fs, g, p, d);
    case Hardlink(p, q) => NewNameUntouched(fs, g, q, d);
    case Unlink(p) => RemoveUntouched(fs, p, d);
    case Rmdir(p) => RemoveUntouched(fs, p, d);
    case Rename(p, q) =>
      RenameOk(fs, p, q);
      if g == fs {
        SameNamesSameEntries(fs, g, d);
      } else {
        RenameUntouched(fs, p, q, d);
      }
  }

  // ----- what is locked is touched -----

  lemma ApplySingle(fs: FileSys, op: Op)
    requires fs.Sound() && SingleNamed(fs) && Apply(fs, op).Ok?
    ensures SingleNamed(Apply(fs, op).value)
  {
    var g := Apply(fs, op).value;
    if op.Rename? {
      RenameSingle(fs, op.path, op.to);
    }
  }

  lemma RenameSingle(fs: FileSys, x: Path, y: Path)
    requires fs.Sound() && SingleNamed(fs) && RenameResult(fs, x, y).Ok?
    ensures SingleNamed(RenameResult(fs, x, y).value)
  {
    var g := RenameResult(fs, x, y).value;
    if g != fs {
      forall a, b | a in g.names && b in g.names && g.IsDir(a) && g.names[a] == g.names[b] ensures a == b {
        var oa, ob := Origin(x, y, a), Origin(x, y, b);
        assert oa in fs.names && ob in fs.names && fs.IsDir(oa);
        assert oa == ob;
        OriginsDiffer(x, y, a, b);
      }
    }
  }

  lemma OriginsDiffer(x: Path, y: Path, a: Path, b: Path)
    requires Origin(x, y, a) == Origin(x, y, b)
    requires (y <= a || !(x <= a)) && (y <= b || !(x <= b))
    ensures a == b
  {
    if y <= a {
      assert Origin(x, y, a)[|x|..] == a[|y|..] && a == y + a[|y|..];
    }
    if y <= b {
      assert Origin(x, y, b)[|x|..] == b[|y|..] && b == y + b[|y|..];
    }
  }

  /** The one place of a directory's entries. */
  lemma OnlyEntry(fs: FileSys, p: Path, d: Ino, n: Name, i: Ino)
    requires fs.Rooted() && SingleNamed(fs) && p in fs.names && fs.names[p] == d && Entry(fs, d, n, i)
    ensures p + [n] in fs.names && fs.names[p + [n]] == i
  {
    var q :| EntryAt(fs, q, d, n, i);
    HasBelow(fs, q, n);
    assert q == p;
  }

  /** A name that is there in one tree, with its inode, and not in the other, shows in its directory. */
  lemma NameShows(f: FileSys, g: FileSys, x: Path)
    requires x != [] && x in f.names && Parent(x) in f.names && Parent(x) in g.names
    requires f.names[Parent(x)] == g.names[Parent(x)] && g.Rooted() && SingleNamed(g)
    requires x in g.names ==> g.names[x] != f.names[x]
    ensures !SameEntries(f, g, f.names[Parent(x)]) && !SameEntries(g, f, f.names[Parent(x)])
  {
    var p, n, d, i := Parent(x), x[|x| - 1], f.names[Parent(x)], f.names[x];
    FrontAndLast(x);
    assert EntryAt(f, p, d, n, i);
    assert Entry(f, d, n, i);
    if Entry(g, d, n, i) {
      OnlyEntry(g, p, d, n, i);
    }
  }

  lemma RenameTouched(fs: FileSys, x: Path, y: Path, d: Ino)
    requires fs.Sound() && fs.Rooted() && SingleNamed(fs) && Apply(fs, Rename(x, y)).Ok?
    requires Apply(fs, Rename(x, y)).value != fs && d in LockSet(fs, Rename(x, y))
    ensures !SameEntries(fs, Apply(fs, Rename(x, y)).value, d)
  {
    var g := Apply(fs, Rename(x, y)).value;
    RenameOk(fs, x, y);
    RenameLocks(fs, x, y, d);
    TargetDiffers(fs, x, y);
    hide Apply, Move;
    ApplyRooted(fs, Rename(x, y));
    ApplySingle(fs, Rename(x, y));
    ParentsStay(fs, x, y);
    hide RenameGuard, SingleNamed, FileSys.Rooted, FileSys.Sound, SameEntries;
    if d == fs.names[Parent(x)] {
      NameShows(fs, g, x);
    } else {
      NameShows(g, fs, y);
    }
  }

  lemma RenameLocks(fs: FileSys, x: Path, y: Path, d: Ino)
    requires x != [] && y != [] && Parent(x) in fs.names && Parent(y) in fs.names && d in LockSet(fs, Rename(x, y))
    ensures d == fs.names[Parent(x)] || d == fs.names[Parent(y)]
  {
  }

  lemma TargetDiffers(fs: FileSys, x: Path, y: Path)
    requires Apply(fs, Rename(x, y)).Ok? && Apply(fs, Rename(x, y)).value != fs
    ensures x in fs.names && (y in fs.names ==> fs.names[y] != fs.names[x])
  {
  }

  lemma ParentsStay(fs: FileSys, x: Path, y: Path)
    requires RenameGuard(fs, x, y)
    ensures var m := Move(fs.names, x, y);
            && Parent(y) in m && m[Parent(y)] == fs.names[Parent(y)] && x !in m
            && y in m && m[y] == fs.names[x]
            && Parent(x) in m && m[Parent(x)] == fs.names[Parent(x)]
  {
    assert x + [] == x && y + [] == y;
    MovedTo(fs, x, y, []);
    assert fs.IsDir(Parent(x)) && fs.IsDir(Parent(y));
    NotAboveIts(x, y);
    FrontAndLast(x);
    FrontAndLast(y);
    NotAboveIts(y, x);
  }

  lemma NotAboveIts(x: Path, y: Path)
    requires y != [] && !(x <= y)
    ensures !(x <= Parent(y)) && !(y <= Parent(y))
  {
  }

  /** An operation that changes the tree changes the entries of every directory it has locked. */
  lemma LockedTouched(fs: FileSys, op: Op, d: Ino)
    requires fs.Sound() && fs.Rooted() && SingleNamed(fs) && Apply(fs, op).Ok? && Apply(fs, op).value != fs
    requires d in LockSet(fs, op)
    ensures !SameEntries(fs, Apply(fs, op).value, d)
  {
    var g := Apply(fs, op).value;
    if op.Rename? {
      RenameTouched(fs, op.path, op.to, d);
    } else if op.Unlink? || op.Rmdir? {
      ApplyRooted(fs, op);
      ApplySingle(fs, op);
      assert Parent(op.path) != op.path;
      NameShows(fs, g, op.path);
    } else {
      var x := if op.Hardlink? then op.to else op.path;
      assert x in g.names && x !in fs.names && Parent(x) != x;
      NameShows(g, fs, x);
    }
  }

  /** So the directories whose entries an operation changes are exactly those it locks, of the kinds that lock any. */
  lemma LocksWhatItChanges(fs: FileSys, op: Op, d: Ino)
    requires fs.Sound() && fs.Rooted() && SingleNamed(fs) && Apply(fs, op).Ok? && Apply(fs, op).value != fs
    ensures SameEntries(fs, Apply(fs, op).value, d) <==> d !in LockSet(fs, op)
  {
    hide Apply, LockSet, SameEntries;
    if d in LockSet(fs, op) {
      LockedTouched(fs, op, d);
    } else {
      UnlockedUntouched(fs, op, d);
    }
  }

  // ----- order -----

  /** The tree after the effects, in their order. */
  function TreeOf(fs: FileSys, effects: seq<Effect>): FileSys {
    if effects == [] then fs
    else After(TreeOf(fs, Front(effects)), Apply(TreeOf(fs, Front(effects)), Last(effects).op))
  }

  /** The k-th effect has changed the entries of the directory `d`. */
  ghost predicate Changes(fs: FileSys, effects: seq<Effect>, k: nat, d: Ino) {
    k < |effects| && !SameEntries(TreeOf(fs, effects[..k]), TreeOf(fs, effects[..k + 1]), d)
  }

  ghost predicate Traced(fs: FileSys, s: State) {
    && s.fs == TreeOf(fs, s.effects)
    && (forall k :: 0 <= k < |s.effects| ==> s.effects[k].dirs == LockSet(TreeOf(fs, s.effects[..k]), s.effects[k].op))
  }

  lemma KeepsTraced(fs: FileSys, s: State, a: Step)
    requires Traced(fs, s) && Enabled(s, a)
    ensures Traced(fs, Next(s, a))
  {
    var s' := Next(s, a);
    if a.Do? {
      var e := Effect(s.Ph(a.t).m, a.op, s.Ph(a.t).have, Apply(s.fs, a.op).Ok?);
      assert s'.effects == s.effects + [e];
      assert Front(s'.effects) == s.effects && Last(s'.effects) == e;
      hide Apply, LockSet;
      forall k | 0 <= k < |s'.effects|
        ensures s'.effects[k].dirs == LockSet(TreeOf(fs, s'.effects[..k]), s'.effects[k].op) {
        assert s'.effects[..k] == s.effects[..k];
        if k == |s.effects| {
          assert s.effects[..k] == s.effects;
        }
      }
    } else {
      assert s'.effects == s.effects && s'.fs == s.fs;
    }
  }

  lemma {:induction false} RunTraced(fs: FileSys, s: State, steps: seq<Step>, r: State)
    requires Traced(fs, s) && Runs(s, steps, r)
    ensures Traced(fs, r)
    decreases |steps|
  {
    if steps != [] {
      KeepsTraced(fs, s, steps[0]);
      hide Traced, Next, Enabled;
      RunTraced(fs, Next(s, steps[0]), steps[1..], r);
    }
  }

  lemma {:induction false} TreeKeeps(fs: FileSys, effects: seq<Effect>)
    requires fs.Sound() && fs.Rooted()
    ensures TreeOf(fs, effects).Sound() && TreeOf(fs, effects).Rooted()
  {
    if effects != [] {
      TreeKeeps(fs, Front(effects));
      hide Apply;
      var f, op := TreeOf(fs, Front(effects)), Last(effects).op;
      if Apply(f, op).Ok? {
        ApplySound(f, op);
        ApplyRooted(f, op);
      }
    }
  }

  /** An effect changes the entries of directories it held the locks of, and of no others. */
  lemma ChangesUnderLock(fs: FileSys, s: State, k: nat, d: Ino)
    requires fs.Sound() && fs.Rooted() && Traced(fs, s) && Changes(fs, s.effects, k, d)
    ensures d in s.effects[k].dirs
  {
    var before, op := TreeOf(fs, s.effects[..k]), s.effects[k].op;
    assert Front(s.effects[..k + 1]) == s.effects[..k] && Last(s.effects[..k + 1]) == s.effects[k];
    TreeKeeps(fs, s.effects[..k]);
    hide Apply, LockSet;
    if Apply(before, op).Ok? {
      if d !in LockSet(before, op) {
        UnlockedUntouched(before, op, d);
      }
    } else {
      SameNamesSameEntries(before, before, d);
    }
  }

  /**
   * In every reachable state: two logged operations that changed entries of one directory stand in the log in
   * the order in which they changed them.
   */
  lemma ChangesInOrder(fs: FileSys, steps: seq<Step>, r: State, m: Mid, i: nat, j: nat, d: Ino)
    requires fs.Sound() && fs.Rooted() && Runs(Initial(fs), steps, r)
    requires m in r.mounts && i < j < |r.mounts[m].log|
    requires Changes(fs, r.effects, r.mounts[m].log[i].eff, d) && Changes(fs, r.effects, r.mounts[m].log[j].eff, d)
    ensures r.mounts[m].log[i].eff < r.mounts[m].log[j].eff
  {
    var a, b := r.mounts[m].log[i], r.mounts[m].log[j];
    InitialOrdered(fs);
    RunKeepsOrder(Initial(fs), steps, r);
    RunTraced(fs, Initial(fs), steps, r);
    ChangesUnderLock(fs, r, a.eff, d);
    ChangesUnderLock(fs, r, b.eff, d);
    PointsAt(r, m, i);
    PointsAt(r, m, j);
    assert Shares(a.dirs, b.dirs);
    hide Traced, Changes, Runs, Exclusive;
    OrderedLog(r, m);
  }

  lemma PointsAt(r: State, m: Mid, i: nat)
    requires Ordered(r) && m in r.mounts && i < |r.mounts[m].log|
    ensures var l := r.mounts[m].log[i]; l.eff < |r.effects| && r.effects[l.eff].dirs == l.dirs
  {
  }

  lemma OrderedLog(r: State, m: Mid)
    requires Ordered(r) && m in r.mounts
    ensures LogInOrder(r.mounts[m].log)
  {
  }
}
