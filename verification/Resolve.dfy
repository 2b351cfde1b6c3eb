/** Path strings and path resolution: dentry_path_raw on the tracing side, path lookup on the replay side. */
module Resolve {
  import opened Bytes
  import opened FileSystem
  import opened FsLaws

  const SLASH: byte := 47
  const DOT: Name := [46]
  const DOTDOT: Name := [46, 46]

  /** What a directory entry may be called. */
  predicate PlainName(n: Name) {
    n != [] && SLASH !in n && NUL !in n && n != DOT && n != DOTDOT
  }

  predicate Plain(p: Path) {
    forall i :: 0 <= i < |p| ==> PlainName(p[i])
  }

  function Join(p: Path): seq<byte> {
    if p == [] then [] else [SLASH] + p[0] + Join(p[1..])
  }

  /** The string of a physical path below the mount root; also what getcwd returns. */
  function Render(p: Path): seq<byte> {
    if p == [] then [SLASH] else Join(p)
  }

  /** The components of a path string; empty ones do not count. */
  function Split(s: seq<byte>): Path { SplitFrom(s, []) }

  function SplitFrom(s: seq<byte>, cur: Name): Path {
    if s == [] then Flush(cur)
    else if s[0] == SLASH then Flush(cur) + SplitFrom(s[1..], [])
    else SplitFrom(s[1..], cur + [s[0]])
  }

  function Flush(cur: Name): Path { if cur == [] then [] else [cur] }

  lemma {:induction false} SplitName(n: Name, t: seq<byte>, cur: Name)
    requires SLASH !in n
    ensures SplitFrom(n + t, cur) == SplitFrom(t, cur + n)
    decreases |n|
  {
    if n == [] {
      assert n + t == t && cur + n == cur;
    } else {
      assert n[0] in n;
      assert (n + t)[1..] == n[1..] + t;
      assert cur + [n[0]] + n[1..] == cur + n;
      SplitName(n[1..], t, cur + [n[0]]);
    }
  }

  lemma JoinCons(p: Path, t: seq<byte>)
    requires p != []
    ensures Join(p) + t == [SLASH] + (p[0] + (Join(p[1..]) + t))
  {
  }

  lemma PlainCons(p: Path)
    requires Plain(p) && p != []
    ensures Plain(p[1..]) && SLASH !in p[0] && Flush(p[0]) == [p[0]] && p == [p[0]] + p[1..]
  {
    assert PlainName(p[0]);
  }

  lemma SplitNil(p: Path, t: seq<byte>)
    requires p == []
    ensures Split(Join(p) + t) == p + Split(t)
  {
    assert Join(p) + t == t;
  }

  lemma {:induction false} SplitJoin(p: Path, t: seq<byte>)
    requires Plain(p) && (t == [] || t[0] == SLASH)
    ensures Split(Join(p) + t) == p + Split(t)
  {
    hide *;
    if p == [] {
      SplitNil(p, t);
    } else {
      var rest := Join(p[1..]) + t;
      PlainCons(p);
      StartsComponent(p[1..], t);
      JoinCons(p, t);
      SplitSlash(p[0] + rest);
      SplitFirst(p[0], rest);
      SplitJoin(p[1..], t);
      assert [p[0]] + (p[1..] + Split(t)) == p + Split(t);
    }
  }

  lemma SplitFirst(n: Name, rest: seq<byte>)
    requires SLASH !in n && (rest == [] || rest[0] == SLASH)
    ensures Split(n + rest) == Flush(n) + Split(rest)
  {
    SplitName(n, rest, []);
    assert [] + n == n;
    SplitFlushed(rest, n);
  }

  lemma StartsComponent(p: Path, t: seq<byte>)
    requires t == [] || t[0] == SLASH
    ensures var s := Join(p) + t; s == [] || s[0] == SLASH
  {
  }

  lemma SplitSlash(s: seq<byte>)
    ensures Split([SLASH] + s) == Split(s)
  {
    assert ([SLASH] + s)[1..] == s;
  }

  /** A slash or the end of the string closes the current component. */
  lemma SplitFlushed(s: seq<byte>, cur: Name)
    requires s == [] || s[0] == SLASH
    ensures SplitFrom(s, cur) == Flush(cur) + Split(s)
  {
  }

  /** Prepending the working directory to a recorded path names the same path below that directory. */
  lemma RebasedPath(cwd: Path, p: Path)
    requires Plain(cwd) && Plain(p)
    ensures Split(Render(cwd) + Render(p)) == cwd + p
  {
    SplitJoin(p, []);
    assert Join(p) + [] == Join(p);
    assert Split([]) == [] && p + [] == p;
    var tail := Render(p);
    assert Split(tail) == p by {
      if p == [] { assert [SLASH][1..] == []; }
    }
    if cwd == [] {
      assert ([SLASH] + tail)[1..] == tail;
      assert cwd + p == p;
    } else {
      SplitJoin(cwd, tail);
    }
  }

  lemma SplitRendered(p: Path)
    requires Plain(p)
    ensures Split(Render(p)) == p
  {
    SplitJoin(p, []);
    assert Join(p) + [] == Join(p) && p + [] == p;
    if p == [] { assert [SLASH][1..] == []; }
  }

  /** A recorded path starts with a slash, so the working directory's string keeps its last name. */
  predicate StartsSlash(s: seq<byte>) { s != [] && s[0] == SLASH }

  lemma RebasedString(cwd: Path, s: seq<byte>)
    requires Plain(cwd) && StartsSlash(s)
    ensures Split(Render(cwd) + s) == cwd + Split(s)
  {
    if cwd == [] {
      SplitSlash(s);
      assert cwd + Split(s) == Split(s);
    } else {
      SplitJoin(cwd, s);
    }
  }

  lemma {:induction false} JoinHasNoNul(p: Path)
    requires Plain(p)
    ensures NUL !in Join(p)
  {
    if p != [] {
      JoinHasNoNul(p[1..]);
    }
  }

  lemma RenderHasNoNul(p: Path)
    requires Plain(p)
    ensures NUL !in Render(p) && |Render(p)| >= 1
  {
    JoinHasNoNul(p);
  }

  // ----- lookup -----

  /** The kernel gives up after this many symbolic links. */
  const MAXSYMLINKS: nat := 40

  /**
   * Walks `todo` from the directory `at`. Symbolic links are followed inside the path, and at its end
   * when `follow` is set. The last component need not exist.
   */
  function Walk(fs: FileSys, at: Path, todo: Path, follow: bool, fuel: nat): Result<Path>
    decreases fuel, |todo|
  {
    if todo == [] then Ok(at)
    else if !fs.Has(at) then Err(ENOENT)
    else if !fs.IsDir(at) then Err(ENOTDIR)
    else if todo[0] == DOT then Walk(fs, at, todo[1..], follow, fuel)
    else if todo[0] == DOTDOT then Walk(fs, if at == [] then [] else Parent(at), todo[1..], follow, fuel)
    else
      var nxt := at + [todo[0]];
      if fs.IsLink(nxt) && (|todo| > 1 || follow) then
        if fuel == 0 then Err(ELOOP)
        else
          var target := fs.At(nxt).target;
          var from := if target != [] && target[0] == SLASH then [] else at;
          Walk(fs, from, Split(target) + todo[1..], follow, fuel - 1)
      else Walk(fs, nxt, todo[1..], follow, fuel)
  }

  function Lookup(fs: FileSys, s: seq<byte>, follow: bool): Result<Path> {
    Walk(fs, [], Split(s), follow, MAXSYMLINKS)
  }

  /** A walk that meets only directories arrives at the path it was given. */
  lemma {:induction false} WalkPhysical(fs: FileSys, at: Path, todo: Path, follow: bool, fuel: nat)
    requires Plain(todo)
    requires forall k :: |at| <= k < |at + todo| ==> fs.IsDir((at + todo)[..k])
    requires follow ==> todo == [] || !fs.IsLink(at + todo)
    ensures Walk(fs, at, todo, follow, fuel) == Ok(at + todo)
    decreases |todo|
  {
    if todo == [] {
      assert at + todo == at;
    } else {
      assert (at + todo)[..|at|] == at;
      var nxt := at + [todo[0]];
      assert nxt + todo[1..] == at + todo;
      if |todo| > 1 {
        assert (at + todo)[..|at| + 1] == nxt;
      } else {
        assert at + todo == nxt;
      }
      WalkPhysical(fs, nxt, todo[1..], follow, fuel);
    }
  }

  /** Where no symbolic link is met, a walk arrives at its path or fails on a prefix that is no directory. */
  lemma {:induction false} WalkWithoutLinks(fs: FileSys, at: Path, todo: Path, follow: bool, fuel: nat)
    requires Plain(todo)
    requires forall k :: |at| < k <= |at + todo| && (k < |at + todo| || follow) ==> !fs.IsLink((at + todo)[..k])
    ensures if forall k :: |at| <= k < |at + todo| ==> fs.IsDir((at + todo)[..k])
            then Walk(fs, at, todo, follow, fuel) == Ok(at + todo)
            else Walk(fs, at, todo, follow, fuel).Err?
    decreases |todo|
  {
    if todo == [] {
      assert at + todo == at;
    } else {
      assert (at + todo)[..|at|] == at;
      var nxt := at + [todo[0]];
      assert nxt + todo[1..] == at + todo;
      assert (at + todo)[..|at| + 1] == nxt;
      if fs.IsDir(at) {
        WalkWithoutLinks(fs, nxt, todo[1..], follow, fuel);
      }
    }
  }

  /** Walking into a real directory and on. */
  lemma {:induction false} WalkTo(g: FileSys, cwd: Path, rest: Path, follow: bool, fuel: nat)
    requires g.Rooted() && g.IsDir(cwd) && Plain(cwd)
    ensures Walk(g, [], cwd + rest, follow, fuel) == Walk(g, cwd, rest, follow, fuel)
  {
    WalkOn(g, cwd, 0, rest, follow, fuel);
    assert cwd[..0] == [] && cwd[0..] == cwd;
  }

  lemma OneStep(g: FileSys, at: Path, todo: Path, follow: bool, fuel: nat)
    requires g.IsDir(at) && todo != [] && PlainName(todo[0]) && g.IsDir(at + [todo[0]])
    ensures Walk(g, at, todo, follow, fuel) == Walk(g, at + [todo[0]], todo[1..], follow, fuel)
  {
  }

  lemma Cut(cwd: Path, k: nat, rest: Path)
    requires k < |cwd|
    ensures var todo := cwd[k..] + rest;
            todo != [] && todo[0] == cwd[k] && todo[1..] == cwd[k + 1..] + rest && cwd[..k] + [cwd[k]] == cwd[..k + 1]
  {
  }

  lemma CutAtEnd(cwd: Path, k: nat, rest: Path)
    requires k == |cwd|
    ensures cwd[..k] == cwd && cwd[k..] + rest == rest
  {
  }

  lemma DirOnTheWay(g: FileSys, cwd: Path, k: nat)
    requires g.Rooted() && g.IsDir(cwd) && k <= |cwd|
    ensures g.IsDir(cwd[..k])
  {
    if k < |cwd| {
      PrefixIsDir(g, cwd, k);
    } else {
      assert cwd[..k] == cwd;
    }
  }

  lemma {:induction false} WalkOn(g: FileSys, cwd: Path, k: nat, rest: Path, follow: bool, fuel: nat)
    requires g.Rooted() && g.IsDir(cwd) && Plain(cwd) && k <= |cwd|
    ensures Walk(g, cwd[..k], cwd[k..] + rest, follow, fuel) == Walk(g, cwd, rest, follow, fuel)
    decreases |cwd| - k
  {
    if k == |cwd| {
      CutAtEnd(cwd, k, rest);
    } else {
      assert PlainName(cwd[k]);
      hide *;
      Cut(cwd, k, rest);
      DirOnTheWay(g, cwd, k);
      DirOnTheWay(g, cwd, k + 1);
      OneStep(g, cwd[..k], cwd[k..] + rest, follow, fuel);
      WalkOn(g, cwd, k + 1, rest, follow, fuel);
    }
  }

  // ----- the subtree below a directory -----

  /** What a walk came to, as seen from outside `cwd`. */
  function Lifted(cwd: Path, r: Result<Path>): Result<Path> {
    if r.Ok? then Ok(cwd + r.value) else r
  }

  /**
   * A walk that would go the same way wherever its tree were put: it follows no absolute link and does not step
   * up from the top.
   */
  predicate Homely(b: FileSys, at: Path, todo: Path, follow: bool, fuel: nat)
    decreases fuel, |todo|
  {
    if todo == [] || !b.Has(at) || !b.IsDir(at) then true
    else if todo[0] == DOT then Homely(b, at, todo[1..], follow, fuel)
    else if todo[0] == DOTDOT then at != [] && Homely(b, Parent(at), todo[1..], follow, fuel)
    else
      var nxt := at + [todo[0]];
      if b.IsLink(nxt) && (|todo| > 1 || follow) then
        fuel == 0
        || (!StartsSlash(b.At(nxt).target) && Homely(b, at, Split(b.At(nxt).target) + todo[1..], follow, fuel - 1))
      else Homely(b, nxt, todo[1..], follow, fuel)
  }

  lemma PutInFront(cwd: Path, at: Path, n: Name)
    ensures cwd + at + [n] == cwd + (at + [n])
    ensures at != [] ==> cwd + at != [] && Parent(cwd + at) == cwd + Parent(at)
  {
    if at != [] {
      assert Parent(cwd + at) == cwd + Parent(at);
    }
  }

  /** A walk below `cwd` that is homely is the walk in the subtree on its own. */
  lemma {:induction false} WalkBelow(g: FileSys, cwd: Path, at: Path, todo: Path, follow: bool, fuel: nat)
    requires Homely(Below(g, cwd), at, todo, follow, fuel)
    ensures Walk(g, cwd + at, todo, follow, fuel) == Lifted(cwd, Walk(Below(g, cwd), at, todo, follow, fuel))
    decreases fuel, |todo|
  {
    var b := Below(g, cwd);
    BelowTests(g, cwd, at);
    if todo != [] && b.Has(at) && b.IsDir(at) {
      var n := todo[0];
      PutInFront(cwd, at, n);
      BelowTests(g, cwd, at + [n]);
      hide Below, Split;
      if n == DOT {
        WalkBelow(g, cwd, at, todo[1..], follow, fuel);
      } else if n == DOTDOT {
        WalkBelow(g, cwd, Parent(at), todo[1..], follow, fuel);
      } else if b.IsLink(at + [n]) && (|todo| > 1 || follow) {
        if fuel > 0 {
          WalkBelow(g, cwd, at, Split(b.At(at + [n]).target) + todo[1..], follow, fuel - 1);
        }
      } else {
        WalkBelow(g, cwd, at + [n], todo[1..], follow, fuel);
      }
    }
  }

  /** On equal trees walks, and whether they are homely, are the same. */
  lemma {:induction false} WalkIso(a: FileSys, b: FileSys, at: Path, todo: Path, follow: bool, fuel: nat)
    requires Iso(a, b)
    ensures Walk(a, at, todo, follow, fuel) == Walk(b, at, todo, follow, fuel)
    ensures Homely(a, at, todo, follow, fuel) <==> Homely(b, at, todo, follow, fuel)
    decreases fuel, |todo|
  {
    SameTests(a, b, at);
    if todo != [] && a.Has(at) && a.IsDir(at) {
      var n := todo[0];
      SameTests(a, b, at + [n]);
      hide Iso, Split;
      if n == DOT {
        WalkIso(a, b, at, todo[1..], follow, fuel);
      } else if n == DOTDOT {
        WalkIso(a, b, if at == [] then [] else Parent(at), todo[1..], follow, fuel);
      } else if a.IsLink(at + [n]) && (|todo| > 1 || follow) {
        if fuel > 0 {
          var target := a.At(at + [n]).target;
          WalkIso(a, b, if StartsSlash(target) then [] else at, Split(target) + todo[1..], follow, fuel - 1);
        }
      } else {
        WalkIso(a, b, at + [n], todo[1..], follow, fuel);
      }
    }
  }

  /** Where there are no links a plain path is homely, and its walk arrives at it if anywhere. */
  lemma {:induction false} PlainHomely(b: FileSys, at: Path, todo: Path, follow: bool, fuel: nat)
    requires Plain(todo) && forall x :: x in b.names ==> !b.IsLink(x)
    ensures Homely(b, at, todo, follow, fuel)
    ensures Walk(b, at, todo, follow, fuel).Ok? ==> Walk(b, at, todo, follow, fuel).value == at + todo
    decreases |todo|
  {
    if todo == [] {
      assert at + todo == at;
    } else {
      assert PlainName(todo[0]);
      assert at + [todo[0]] + todo[1..] == at + todo;
      assert !b.IsLink(at + [todo[0]]);
      PlainHomely(b, at + [todo[0]], todo[1..], follow, fuel);
    }
  }

  /** A lookup of a path in the directory `cwd`: what the subtree's own lookup gives, with `cwd` put in front. */
  lemma LookupBelow(g: FileSys, cwd: Path, s: seq<byte>, follow: bool)
    requires g.Rooted() && g.IsDir(cwd) && Plain(cwd) && StartsSlash(s)
    requires Homely(Below(g, cwd), [], Split(s), follow, MAXSYMLINKS)
    ensures Lookup(g, Render(cwd) + s, follow) == Lifted(cwd, Lookup(Below(g, cwd), s, follow))
  {
    RebasedString(cwd, s);
    WalkTo(g, cwd, Split(s), follow, MAXSYMLINKS);
    WalkBelow(g, cwd, [], Split(s), follow, MAXSYMLINKS);
    assert cwd + [] == cwd;
  }

  // ----- how a walk goes -----

  /** Slashes only separate: how many there are, or one at the end, makes no difference. */
  lemma {:induction false} SplitAtSlash(s: seq<byte>, t: seq<byte>, cur: Name)
    ensures SplitFrom(s + [SLASH] + t, cur) == SplitFrom(s, cur) + Split(t)
    decreases |s|
  {
    if s == [] {
      assert s + [SLASH] + t == [SLASH] + t && ([SLASH] + t)[1..] == t;
    } else {
      assert (s + [SLASH] + t)[1..] == s[1..] + [SLASH] + t;
      SplitAtSlash(s[1..], t, if s[0] == SLASH then [] else cur + [s[0]]);
      if s[0] == SLASH {
        assert Flush(cur) + (SplitFrom(s[1..], []) + Split(t)) == Flush(cur) + SplitFrom(s[1..], []) + Split(t);
      }
    }
  }

  lemma SlashesSeparate(s: seq<byte>, t: seq<byte>)
    ensures Split(s + [47] + t) == Split(s) + Split(t)
    ensures Split(s + [47]) == Split(s) && Split([47] + t) == Split(t) && Split([]) == []
  {
    SplitAtSlash(s, t, []);
    SplitAtSlash(s, [], []);
    SplitAtSlash([], t, []);
    assert s + [SLASH] + [] == s + [SLASH] && [] + [SLASH] + t == [SLASH] + t;
    assert Split(s) + [] == Split(s) && [] + Split(t) == Split(t);
  }

  lemma OneName(n: Name)
    requires n != [] && SLASH !in n
    ensures Split(n) == [n]
  {
    SplitName(n, [], []);
    assert n + [] == n && [] + n == n;
  }

  /** Through directories a walk goes on from where they lead. */
  lemma {:induction false} WalkThrough(fs: FileSys, at: Path, t: Path, rest: Path, follow: bool, fuel: nat)
    requires Plain(t) && forall k :: 0 <= k <= |t| ==> fs.IsDir(at + t[..k])
    ensures Walk(fs, at, t + rest, follow, fuel) == Walk(fs, at + t, rest, follow, fuel)
    decreases |t|
  {
    if t == [] {
      assert at + t == at && t + rest == rest;
    } else {
      assert at + t[..0] == at && at + t[..1] == at + [t[0]];
      assert PlainName(t[0]) && (t + rest)[0] == t[0] && (t + rest)[1..] == t[1..] + rest;
      forall k | 0 <= k <= |t[1..]| ensures fs.IsDir(at + [t[0]] + t[1..][..k]) {
        assert at + [t[0]] + t[1..][..k] == at + t[..k + 1];
      }
      WalkThrough(fs, at + [t[0]], t[1..], rest, follow, fuel);
      assert at + [t[0]] + t[1..] == at + t;
    }
  }

  /** `.` stays; `..` goes back up, and not above the root. */
  lemma WalkDots(fs: FileSys, at: Path, n: Name, rest: Path, follow: bool, fuel: nat)
    requires PlainName(n) && fs.IsDir(at) && fs.IsDir(at + [n]) && fs.IsDir([])
    ensures Walk(fs, at, [[46]] + rest, follow, fuel) == Walk(fs, at, rest, follow, fuel)
    ensures Walk(fs, at, [n, [46, 46]] + rest, follow, fuel) == Walk(fs, at, rest, follow, fuel)
    ensures Walk(fs, [], [[46, 46]] + rest, follow, fuel) == Walk(fs, [], rest, follow, fuel)
  {
    assert ([[46]] + rest)[1..] == rest && ([[46, 46]] + rest)[1..] == rest;
    assert ([n, [46, 46]] + rest)[1..] == [[46, 46]] + rest;
    assert Parent(at + [n]) == at;
  }

  /** A walk does not go through what is not there, or is no directory. */
  lemma WalkStops(fs: FileSys, at: Path, todo: Path, follow: bool, fuel: nat)
    requires todo != []
    ensures !fs.Has(at) ==> Walk(fs, at, todo, follow, fuel) == Err(ENOENT)
    ensures fs.Has(at) && !fs.IsDir(at) ==> Walk(fs, at, todo, follow, fuel) == Err(ENOTDIR)
  {
  }

  /** The last name need not be there, and a link there is not followed unless that is asked. */
  lemma WalkLast(fs: FileSys, at: Path, n: Name, follow: bool, fuel: nat)
    requires PlainName(n) && fs.IsDir(at) && (follow ==> !fs.IsLink(at + [n]))
    ensures Walk(fs, at, [n], follow, fuel) == Ok(at + [n])
  {
    assert [n][1..] == [];
  }

  /**
   * A link inside a path, or followed at its end, leads where its text says: from the directory that holds the
   * link if it is relative, from the root if it starts with a slash.
   */
  lemma WalkLink(fs: FileSys, at: Path, n: Name, t: Path, rest: Path, follow: bool, fuel: nat)
    requires PlainName(n) && Plain(t) && t != [] && fs.IsDir(at) && fs.IsLink(at + [n]) && (rest != [] || follow)
    requires fuel > 0
    ensures (forall k :: 0 <= k <= |t| ==> fs.IsDir(at + t[..k])) && fs.At(at + [n]).target == Join(t)[1..] ==>
              Walk(fs, at, [n] + rest, follow, fuel) == Walk(fs, at + t, rest, follow, fuel - 1)
    ensures (forall k :: 0 <= k <= |t| ==> fs.IsDir(t[..k])) && fs.At(at + [n]).target == Join(t) ==>
              Walk(fs, at, [n] + rest, follow, fuel) == Walk(fs, t, rest, follow, fuel - 1)
  {
    var target := fs.At(at + [n]).target;
    assert ([n] + rest)[0] == n && ([n] + rest)[1..] == rest && |[n] + rest| == 1 + |rest|;
    JoinTexts(t);
    if (forall k :: 0 <= k <= |t| ==> fs.IsDir(at + t[..k])) && target == Join(t)[1..] {
      WalkThrough(fs, at, t, rest, follow, fuel - 1);
    }
    if (forall k :: 0 <= k <= |t| ==> fs.IsDir(t[..k])) && target == Join(t) {
      forall k | 0 <= k <= |t| ensures fs.IsDir([] + t[..k]) {
        assert [] + t[..k] == t[..k];
      }
      WalkThrough(fs, [], t, rest, follow, fuel - 1);
      assert [] + t == t;
    }
  }

  lemma JoinHead(t: Path)
    requires t != []
    ensures Join(t) == [SLASH] + (t[0] + Join(t[1..]))
  {
  }

  lemma FirstByte(n: Name, s: seq<byte>)
    requires PlainName(n)
    ensures n + s != [] && (n + s)[0] != SLASH
  {
    assert n[0] in n;
  }

  lemma WithoutSlash(s: seq<byte>)
    ensures ([SLASH] + s)[1..] == s && ([SLASH] + s)[0] == SLASH
  {
  }

  lemma JoinTexts(t: Path)
    requires Plain(t) && t != []
    ensures Join(t) != [] && Join(t)[0] == SLASH && Join(t)[1..] != [] && Join(t)[1..][0] != SLASH
    ensures Split(Join(t)) == t && Split(Join(t)[1..]) == t
  {
    assert PlainName(t[0]) && Render(t) == Join(t);
    SplitRendered(t);
    hide *;
    var s := t[0] + Join(t[1..]);
    JoinHead(t);
    FirstByte(t[0], Join(t[1..]));
    WithoutSlash(s);
    SplitSlash(s);
  }

  /** A link to itself is given up on. */
  lemma {:induction false} SelfLinkFails(fs: FileSys, at: Path, n: Name, rest: Path, follow: bool, fuel: nat)
    requires PlainName(n) && fs.IsDir(at) && fs.IsLink(at + [n]) && fs.At(at + [n]).target == n && (rest != [] || follow)
    ensures Walk(fs, at, [n] + rest, follow, fuel) == Err(ELOOP)
  {
    assert ([n] + rest)[0] == n && ([n] + rest)[1..] == rest && |[n] + rest| == 1 + |rest|;
    OneName(n);
    assert n[0] in n;
    if fuel > 0 {
      SelfLinkFails(fs, at, n, rest, follow, fuel - 1);
    }
  }

  /** A chain of links l(0) -> l(1) -> ... in one directory: forty of them are followed and no more. */
  ghost predicate Chain(fs: FileSys, at: Path, names: seq<Name>) {
    && fs.IsDir(at) && (forall i :: 0 <= i < |names| ==> PlainName(names[i]))
    && (forall i :: 0 <= i < |names| - 1 ==> fs.IsLink(at + [names[i]]) && fs.At(at + [names[i]]).target == names[i + 1])
    && (names != [] ==> !fs.IsLink(at + [names[|names| - 1]]))
  }

  lemma {:induction false} ChainFollowed(fs: FileSys, at: Path, names: seq<Name>, i: nat, fuel: nat)
    requires Chain(fs, at, names) && i < |names|
    ensures Walk(fs, at, [names[i]], true, fuel)
         == if |names| - 1 - i <= fuel then Ok(at + [names[|names| - 1]]) else Err(ELOOP)
    decreases |names| - i
  {
    var todo: Path := [names[i]];
    assert todo[1..] == [];
    if i < |names| - 1 {
      OneName(names[i + 1]);
      assert names[i + 1][0] in names[i + 1];
      assert [names[i + 1]] + todo[1..] == [names[i + 1]];
      if fuel > 0 {
        ChainFollowed(fs, at, names, i + 1, fuel - 1);
      }
    }
  }

  /** From the root, where a lookup starts. */
  lemma LookupChain(fs: FileSys, names: seq<Name>)
    requires Chain(fs, [], names) && names != []
    ensures Lookup(fs, names[0], true) == if |names| <= 41 then Ok([names[|names| - 1]]) else Err(ELOOP)
  {
    OneName(names[0]);
    ChainFollowed(fs, [], names, 0, MAXSYMLINKS);
    assert [] + [names[|names| - 1]] == [names[|names| - 1]];
  }
}
