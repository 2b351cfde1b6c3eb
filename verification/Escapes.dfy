/** How a replay gets out of its directory: through symbolic links, even when it starts in an empty one. */
module Escapes {
  import opened Bytes
  import opened Records
  import opened FileSystem
  import opened FsLaws
  import opened Resolve
  import opened Syscalls
  import opened Replay
  import opened Replaying
  import opened EndToEnd
  import opened Locality

  /** Where `cwd/n` is a link to a directory elsewhere, the record of a create below `n` makes its file there. */
  lemma LinkLeadsOut(env: Env, cwd: Path, n: Name, m: Name, away: Path, r: Record, g: FileSys)
    requires WorksIn(env, cwd) && env.mode != NoReplay && PlainName(n) && PlainName(m) && Plain(away)
    requires g.Sound() && g.Rooted() && g.IsDir(cwd) && g.IsDir(away)
    requires g.IsLink(cwd + [n]) && g.At(cwd + [n]).target == Render(away)
    requires away + [m] !in g.names && r.kind == TR_FCREAT && r.path == Render([n, m])
    ensures First(env, r, g) == Ok(away + [m])
    ensures away + [m] in Perform(env, r, g).fs.names
    ensures forall y :: y in Perform(env, r, g).fs.names ==> y in g.names || y == away + [m]
  {
    FirstNameIs(env, cwd, r, [n, m]);
    LookupThroughLink(g, cwd, n, m, away);
    CallActs(env, r, g);
    hide Lookup, Render, Perform, FirstName;
    assert Parent(away + [m]) == away;
    assert OpOf(env, r, g, away + [m], away + [m]) == Create(away + [m], Perm(env, r));
  }

  lemma LookupThroughLink(g: FileSys, cwd: Path, n: Name, m: Name, away: Path)
    requires Plain(cwd) && PlainName(n) && PlainName(m) && Plain(away)
    requires g.Rooted() && g.IsDir(cwd) && g.IsDir(away)
    requires g.IsLink(cwd + [n]) && g.At(cwd + [n]).target == Render(away) && away + [m] !in g.names
    ensures Lookup(g, Render(cwd) + Render([n, m]), true) == Ok(away + [m])
  {
    RebasedPath(cwd, [n, m]);
    WalkTo(g, cwd, [n, m], true, MAXSYMLINKS);
    SplitRendered(away);
    assert [n, m][1..] == [m];
    assert Walk(g, cwd, [n, m], true, MAXSYMLINKS) == Walk(g, [], away + [m], true, MAXSYMLINKS - 1);
    WalkToNew(g, away, m);
  }

  lemma WalkToNew(g: FileSys, away: Path, m: Name)
    requires PlainName(m) && Plain(away) && g.Rooted() && g.IsDir(away) && away + [m] !in g.names
    ensures Walk(g, [], away + [m], true, MAXSYMLINKS - 1) == Ok(away + [m])
  {
    var q := away + [m];
    forall k | 0 <= k < |q| ensures g.IsDir(q[..k]) {
      if k < |away| {
        PrefixIsDir(g, away, k);
        assert q[..k] == away[..k];
      } else {
        assert q[..k] == away;
      }
    }
    assert [] + q == q;
    WalkPhysical(g, [], q, true, MAXSYMLINKS - 1);
  }

  // ----- from an empty directory -----

  /** A link is made, moved away, and a directory of its old name gets a file. */
  function Detour(l: Name, d: Name, x: Name, away: Path, mode: nat): seq<Op> {
    [Symlink([l], Render(away)), Rename([l], [d, l]), Mkdir([l], mode), Create([l, x], mode)]
  }

  /** The names and places of the example. */
  ghost predicate Distinct(l: Name, d: Name, x: Name) { PlainName(l) && PlainName(d) && PlainName(x) && l != d }

  lemma RunCons(f: FileSys, op: Op, ops: seq<Op>)
    requires Apply(f, op).Ok?
    ensures Run(f, [op] + ops) == Run(Apply(f, op).value, ops)
  {
    assert ([op] + ops)[1..] == ops;
  }

  lemma NothingBelow(f: FileSys, p: Path)
    requires f.Rooted() && p != [] && p !in f.names
    ensures forall q :: p <= q ==> q !in f.names
  {
    forall q | p <= q ensures q !in f.names {
      assert q[..|p|] == p;
      if q in f.names && q != p {
        PrefixIsDir(f, q, |p|);
      }
    }
  }

  /** The new link can be moved into `d`, and then nothing has its old name. */
  lemma MoveAway(f: FileSys, l: Name, d: Name)
    requires l != d && f.Sound() && f.Rooted() && f.IsLink([l]) && f.IsDir([d]) && [d, l] !in f.names
    ensures Apply(f, Rename([l], [d, l])) == Ok(f.(names := Move(f.names, [l], [d, l])))
    ensures [l] !in Move(f.names, [l], [d, l])
  {
    assert Parent([d, l]) == [d];
    assert [l][0] != [d, l][0] && !([l] <= [d, l]) && !([d, l] <= [l]);
  }

  lemma MakeAndEnter(f: FileSys, l: Name, x: Name, mode: nat)
    requires f.Sound() && f.Rooted() && [l] !in f.names
    ensures Apply(f, Mkdir([l], mode)).Ok?
    ensures Apply(Apply(f, Mkdir([l], mode)).value, Create([l, x], mode)).Ok?
  {
    NothingBelow(f, [l]);
    assert Parent([l]) == [] && Parent([l, x]) == [l] && [l] <= [l, x];
  }

  /** In a tree with a directory `d` all four operations succeed. */
  lemma DetourRuns(f: FileSys, l: Name, d: Name, x: Name, away: Path, mode: nat)
    requires Distinct(l, d, x) && f.Sound() && f.Rooted() && f.IsDir([d])
    requires [l] !in f.names && [d, l] !in f.names
    ensures Run(f, Detour(l, d, x, away, mode)).Ok?
  {
    var ops := Detour(l, d, x, away, mode);
    RenderNonEmpty(away);
    assert Parent([l]) == [];
    var f1 := f.Enter([l], Link(Render(away)));
    assert Apply(f, ops[0]) == Ok(f1) && f1.IsLink([l]) && f1.IsDir([d]) && [d, l] !in f1.names;
    hide Apply, Render, Run;
    ApplySound(f, ops[0]);
    ApplyRooted(f, ops[0]);
    MoveAway(f1, l, d);
    var f2 := Apply(f1, ops[1]).value;
    ApplySound(f1, ops[1]);
    ApplyRooted(f1, ops[1]);
    MakeAndEnter(f2, l, x, mode);
    RunFour(f, ops, f1, f2, Apply(f2, ops[2]).value);
  }

  lemma RenderNonEmpty(p: Path)
    ensures Render(p) != []
  {
  }

  lemma RunFour(f: FileSys, ops: seq<Op>, f1: FileSys, f2: FileSys, f3: FileSys)
    requires |ops| == 4 && Apply(f, ops[0]) == Ok(f1) && Apply(f1, ops[1]) == Ok(f2) && Apply(f2, ops[2]) == Ok(f3)
    requires Apply(f3, ops[3]).Ok?
    ensures Run(f, ops).Ok?
  {
    hide Apply;
    var f4 := Apply(f3, ops[3]).value;
    assert ops == [ops[0]] + ([ops[1]] + ([ops[2]] + ([ops[3]] + [])));
    RunCons(f3, ops[3], []);
    RunCons(f2, ops[2], [ops[3]] + []);
    RunCons(f1, ops[1], [ops[2]] + ([ops[3]] + []));
    RunCons(f, ops[0], [ops[1]] + ([ops[2]] + ([ops[3]] + [])));
  }

  /** Nothing lies below `cwd`. */
  ghost predicate Empty(g: FileSys, cwd: Path) {
    g.Sound() && g.Rooted() && g.IsDir(cwd) && g.Childless(cwd)
  }

  lemma EmptyMeans(g: FileSys, cwd: Path, n: Name, t: Path)
    requires Empty(g, cwd)
    ensures cwd + [n] !in g.names && cwd + [n] + t !in g.names && Parent(cwd + [n]) == cwd && g.Vacant(cwd + [n])
  {
    assert cwd <= cwd + [n] && cwd <= cwd + [n] + t && cwd + [n] != cwd && cwd + [n] + t != cwd;
    assert Parent(cwd + [n]) == cwd;
  }

  /** The rename finds no directory to move the link into. */
  lemma NoDirectory(g: FileSys, cwd: Path, d: Name, l: Name)
    requires g.Rooted() && g.IsDir(cwd) && Plain(cwd) && PlainName(d) && PlainName(l) && cwd + [d] !in g.names
    ensures Lookup(g, Render(cwd) + Render([d, l]), false).Err?
  {
    RebasedPath(cwd, [d, l]);
    WalkTo(g, cwd, [d, l], false, MAXSYMLINKS);
    assert [d, l][1..] == [l];
    assert Walk(g, cwd, [d, l], false, MAXSYMLINKS) == Walk(g, cwd + [d], [l], false, MAXSYMLINKS);
  }

  lemma AtTop(g: FileSys, cwd: Path, l: Name)
    requires g.Rooted() && g.IsDir(cwd) && Plain(cwd) && PlainName(l)
    ensures Lookup(g, Render(cwd) + Render([l]), false) == Ok(cwd + [l])
  {
    RebasedPath(cwd, [l]);
    WalkTo(g, cwd, [l], false, MAXSYMLINKS);
    assert [l][1..] == [];
    assert Walk(g, cwd, [l], false, MAXSYMLINKS) == Walk(g, cwd + [l], [], false, MAXSYMLINKS);
  }

  /** The first record makes the link. */
  lemma FirstMakesLink(env: Env, cwd: Path, l: Name, away: Path, id: nat, g: FileSys)
    requires WorksIn(env, cwd) && env.mode == Normal && PlainName(l) && Plain(away) && Empty(g, cwd)
    ensures Perform(env, RecordOf(Symlink([l], Render(away)), id), g)
         == Did(g.Enter(cwd + [l], Link(Render(away))), true, false)
  {
    var r := RecordOf(Symlink([l], Render(away)), id);
    FirstNameIs(env, cwd, r, [l]);
    AtTop(g, cwd, l);
    NameIsRebased(away);
    RenderNonEmpty(away);
    EmptyMeans(g, cwd, l, []);
    hide Lookup, Render, FirstName, Empty;
    assert SymlinkCall(g, SecondName(env, r), FirstName(env, r)) == Ok(g.Enter(cwd + [l], Link(Render(away))));
  }

  /** The second fails and changes nothing. */
  lemma RenameFails(env: Env, cwd: Path, l: Name, d: Name, id: nat, g: FileSys)
    requires WorksIn(env, cwd) && env.mode == Normal && PlainName(l) && PlainName(d)
    requires g.Rooted() && g.IsDir(cwd) && cwd + [d] !in g.names
    ensures Perform(env, RecordOf(Rename([l], [d, l]), id), g) == Did(g, false, false)
  {
    var r := RecordOf(Rename([l], [d, l]), id);
    SecondNameIs(env, cwd, r, [d, l]);
    NoDirectory(g, cwd, d, l);
    hide Lookup, Render, FirstName, SecondName;
    assert RenameCall(g, FirstName(env, r), SecondName(env, r)).Err?;
  }

  /** So does the third. */
  lemma MkdirFails(env: Env, cwd: Path, l: Name, mode: nat, id: nat, g: FileSys)
    requires WorksIn(env, cwd) && env.mode == Normal && PlainName(l)
    requires g.Rooted() && g.IsDir(cwd) && cwd + [l] in g.names
    ensures Perform(env, RecordOf(Mkdir([l], mode), id), g) == Did(g, false, false)
  {
    var r := RecordOf(Mkdir([l], mode), id);
    FirstNameIs(env, cwd, r, [l]);
    AtTop(g, cwd, l);
    hide Lookup, Render, FirstName, Bits;
    assert MakeDir(g, FirstName(env, r), Bits(mode, env.umask, FILE_MODE_BITS)).Err?;
  }

  lemma LinkEntered(g: FileSys, cwd: Path, l: Name, d: Name, away: Path, target: seq<byte>, x: Name)
    requires Empty(g, cwd) && l != d && g.IsDir(away) && away + [x] !in g.names && away + [x] != cwd + [l]
    ensures var h := g.Enter(cwd + [l], Link(target));
            && h.Sound() && h.Rooted() && h.IsDir(cwd) && h.IsDir(away)
            && cwd + [d] !in h.names && cwd + [l] in h.names && away + [x] !in h.names
            && h.IsLink(cwd + [l]) && h.At(cwd + [l]).target == target
  {
    EmptyMeans(g, cwd, l, []);
    EmptyMeans(g, cwd, d, []);
    EnterRooted(g, cwd + [l], Link(target));
    assert cwd <= cwd + [l] && (cwd + [l])[|cwd|] == l && (cwd + [d])[|cwd|] == d;
    assert Parent(away + [x]) == away;
  }

  lemma OneMore(env: Env, rs: seq<Record>, g: FileSys)
    requires rs != []
    ensures var d := Perform(env, rs[0], g);
            ReplayList(env, rs, g).fs == if d.halt then d.fs else ReplayList(env, rs[1..], d.fs).fs
  {
  }

  lemma ListOfFour(env: Env, rs: seq<Record>, g: FileSys, h: FileSys)
    requires |rs| == 4 && Perform(env, rs[0], g) == Did(h, true, false)
    requires Perform(env, rs[1], h) == Did(h, false, false) && Perform(env, rs[2], h) == Did(h, false, false)
    ensures ReplayList(env, rs, g).fs == Perform(env, rs[3], h).fs
  {
    assert ReplayList(env, [], Perform(env, rs[3], h).fs).fs == Perform(env, rs[3], h).fs;
    hide Perform, ReplayList;
    assert rs[1..][0] == rs[1] && rs[1..][1..] == rs[2..] && rs[2..][0] == rs[2] && rs[2..][1..] == rs[3..];
    assert rs[3..][0] == rs[3] && rs[3..][1..] == [];
    OneMore(env, rs, g);
    OneMore(env, rs[1..], h);
    OneMore(env, rs[2..], h);
    OneMore(env, rs[3..], h);
  }

  lemma FourRecords(l: Name, d: Name, x: Name, away: Path, mode: nat)
    ensures var rs := RecordsOf(Detour(l, d, x, away, mode), 0);
            && rs[0] == RecordOf(Symlink([l], Render(away)), 0) && rs[1] == RecordOf(Rename([l], [d, l]), 1)
            && rs[2] == RecordOf(Mkdir([l], mode), 2) && rs[3] == RecordOf(Create([l, x], mode), 3)
  {
    hide RecordOf, Render;
    var ops := Detour(l, d, x, away, mode);
    assert ops[1..][0] == ops[1] && ops[1..][1..] == ops[2..] && ops[2..][0] == ops[2] && ops[2..][1..] == ops[3..];
    assert ops[3..][0] == ops[3] && ops[3..][1..] == [];
    assert RecordsOf(ops[1..], 1)[1..] == RecordsOf(ops[2..], 2) && RecordsOf(ops[2..], 2)[1..] == RecordsOf(ops[3..], 3);
  }

  lemma NotTheLink(cwd: Path, l: Name, away: Path, x: Name)
    requires !(cwd <= away)
    ensures away + [x] != cwd + [l]
  {
    assert Parent(away + [x]) == away && Parent(cwd + [l]) == cwd;
  }

  /** In an empty directory the four records make the link, and then the file in the directory it leads to. */
  lemma DetourReplayed(env: Env, cwd: Path, l: Name, d: Name, x: Name, away: Path, mode: nat, g: FileSys)
    requires WorksIn(env, cwd) && env.mode == Normal && Distinct(l, d, x) && Plain(away)
    requires Empty(g, cwd) && g.IsDir(away) && away + [x] !in g.names && away + [x] != cwd + [l]
    ensures var k := ReplayList(env, RecordsOf(Detour(l, d, x, away, mode), 0), g).fs;
            away + [x] in k.names && (forall y :: y in k.names ==> y in g.names || y == cwd + [l] || y == away + [x])
  {
    var h := g.Enter(cwd + [l], Link(Render(away)));
    hide Run, Apply, Render, RecordsOf, RecordOf, Detour, Perform;
    LinkEntered(g, cwd, l, d, away, Render(away), x);
    DetourTurns(env, cwd, l, d, x, away, mode, g);
    CreateRecord(l, x, mode, 3);
    LinkLeadsOut(env, cwd, l, x, away, RecordOf(Create([l, x], mode), 3), h);
  }

  /** The tree when the turn of the last record comes: the link has been made, and nothing else. */
  lemma DetourTurns(env: Env, cwd: Path, l: Name, d: Name, x: Name, away: Path, mode: nat, g: FileSys)
    requires WorksIn(env, cwd) && env.mode == Normal && Distinct(l, d, x) && Plain(away)
    requires Empty(g, cwd) && g.IsDir(away) && away + [x] !in g.names && away + [x] != cwd + [l]
    ensures ReplayList(env, RecordsOf(Detour(l, d, x, away, mode), 0), g).fs
         == Perform(env, RecordOf(Create([l, x], mode), 3), g.Enter(cwd + [l], Link(Render(away)))).fs
  {
    var rs := RecordsOf(Detour(l, d, x, away, mode), 0);
    var h := g.Enter(cwd + [l], Link(Render(away)));
    hide Run, Apply, Render, RecordsOf, RecordOf, Detour, Perform;
    FourRecords(l, d, x, away, mode);
    LinkEntered(g, cwd, l, d, away, Render(away), x);
    FirstMakesLink(env, cwd, l, away, 0, g);
    RenameFails(env, cwd, l, d, 1, h);
    MkdirFails(env, cwd, l, mode, 2, h);
    ListOfFour(env, rs, g, h);
  }

  lemma CreateRecord(l: Name, x: Name, mode: nat, id: nat)
    ensures var r := RecordOf(Create([l, x], mode), id); r.kind == TR_FCREAT && r.path == Render([l, x])
  {
  }

  /**
   * An empty target is no protection: the records of four successful operations, replayed in an empty
   * directory, leave a file in a directory outside. The rename and the mkdir fail there for want of the
   * directory the traced tree had, and the create goes through the link.
   */
  lemma EmptyTargetEscapes(env: Env, cwd: Path, l: Name, d: Name, x: Name, away: Path, mode: nat, f: FileSys, g: FileSys)
    requires WorksIn(env, cwd) && env.mode == Normal && Distinct(l, d, x) && Plain(away)
    requires f.Sound() && f.Rooted() && f.IsDir([d]) && [l] !in f.names && [d, l] !in f.names
    requires Empty(g, cwd) && g.IsDir(away) && !(cwd <= away) && away + [x] !in g.names
    ensures Run(f, Detour(l, d, x, away, mode)).Ok?
    ensures var h := ReplayList(env, RecordsOf(Detour(l, d, x, away, mode), 0), g).fs;
            away + [x] in h.names && !SameOutside(g, h, cwd)
  {
    hide *;
    TopIsNamed(g, cwd);
    DetourRuns(f, l, d, x, away, mode);
    NotTheLink(cwd, l, away, x);
    DetourReplayed(env, cwd, l, d, x, away, mode, g);
    EscapedName(g, cwd, away, x, ReplayList(env, RecordsOf(Detour(l, d, x, away, mode), 0), g).fs);
  }

  lemma TopIsNamed(g: FileSys, cwd: Path)
    requires Empty(g, cwd)
    ensures cwd in g.names
  {
  }

  lemma JustBelow(cwd: Path, away: Path, x: Name)
    requires !(cwd <= away)
    ensures cwd <= away + [x] ==> cwd == away + [x]
  {
  }

  lemma EscapedName(g: FileSys, cwd: Path, away: Path, x: Name, h: FileSys)
    requires cwd in g.names && !(cwd <= away) && away + [x] !in g.names && away + [x] in h.names
    ensures !SameOutside(g, h, cwd)
  {
    JustBelow(cwd, away, x);
    assert !SameAt(g, h, away + [x]);
  }

  // ----- two empty directories -----

  lemma OtherPlaces(cwd: Path, cwd': Path, l: Name, x: Name)
    requires cwd != cwd' && x != l
    ensures cwd + [x] != cwd + [l] && cwd + [x] != cwd' + [x] && cwd' + [x] != cwd + [l] && cwd' + [x] != cwd' + [l]
  {
    assert Parent(cwd + [x]) == cwd && Parent(cwd' + [x]) == cwd' && Parent(cwd + [l]) == cwd && Parent(cwd' + [l]) == cwd';
    assert (cwd + [x])[|cwd|] == x && (cwd + [l])[|cwd|] == l && (cwd' + [x])[|cwd'|] == x && (cwd' + [l])[|cwd'|] == l;
  }

  /**
   * One log, two empty target directories, and not the same subtree: the link made by the log has an absolute
   * text that names the second, so both replays make the file there.
   */
  lemma TargetsDisagree(env: Env, cwd: Path, env': Env, cwd': Path, l: Name, d: Name, x: Name, mode: nat, g: FileSys)
    requires WorksIn(env, cwd) && WorksIn(env', cwd') && env.mode == Normal && env'.mode == Normal && cwd != cwd'
    requires Distinct(l, d, x) && x != l && Empty(g, cwd) && Empty(g, cwd')
    ensures var rs := RecordsOf(Detour(l, d, x, cwd', mode), 0);
            var h, h' := ReplayList(env, rs, g).fs, ReplayList(env', rs, g).fs;
            && cwd + [x] !in h.names && cwd' + [x] in h'.names
            && !Iso(Below(h, cwd), Below(h', cwd'))
  {
    var rs := RecordsOf(Detour(l, d, x, cwd', mode), 0);
    hide RecordsOf, Detour, ReplayList;
    OtherPlaces(cwd, cwd', l, x);
    EmptyMeans(g, cwd, x, []);
    EmptyMeans(g, cwd', x, []);
    DetourReplayed(env, cwd, l, d, x, cwd', mode, g);
    DetourReplayed(env', cwd', l, d, x, cwd', mode, g);
    var h, h' := ReplayList(env, rs, g).fs, ReplayList(env', rs, g).fs;
    BelowTests(h, cwd, [x]);
    BelowTests(h', cwd', [x]);
    assert [x] in Below(h', cwd').names.Keys && [x] !in Below(h, cwd).names.Keys;
  }
}
