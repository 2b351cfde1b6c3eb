/**
 * The traced operations of trfs/inode.c and trfs/file.c as threads of atomic steps: take the lower directory
 * locks, call the lower file system, take trfs_lock, read the mask, draw an id, append, release. Any number
 * of threads and mounts may interleave, and trctl may change a mask at any time.
 */
module Protocol {
  import opened Records
  import opened TraceLog
  import opened FileSystem
  import opened Replaying

  type Tid = int
  type Mid = int

  /** A line of a mount's log. `eff` is the operation's place in the order of effects; ids restart at a mount,
      which opens a new epoch. */
  datatype Entry = Entry(op: Op, dirs: set<Ino>, eff: nat, epoch: nat, id: nat)

  datatype Effect = Effect(mount: Mid, op: Op, dirs: set<Ino>, ok: bool)

  /** What the holders of a trfs_lock came for, in the order in which they got it. */
  datatype Event = Asked(op: Op, eff: nat) | MaskSet(mask: nat)

  datatype Mount = Mount(mask: nat, owner: Option<Tid>, log: seq<Entry>, hist: seq<Event>)

  datatype Phase =
    | Idle
    | Locking(m: Mid, want: set<Ino>, have: set<Ino>)
    | Applied(m: Mid, op: Op, dirs: set<Ino>, eff: nat)
    | Entered(m: Mid, op: Op, dirs: set<Ino>, eff: nat)
    | Typed(m: Mid, op: Op, dirs: set<Ino>, eff: nat, kind: nat)
    | Drawn(m: Mid, op: Op, dirs: set<Ino>, eff: nat, epoch: nat, id: nat)
    | Logged(m: Mid, dirs: set<Ino>)
    | Leaving(dirs: set<Ino>)
    | CtlEntered(m: Mid, mask: nat)
    | CtlDone(m: Mid)
  {
    /** The effect has happened and the append has not. */
    predicate Pending() { Applied? || Entered? || Typed? || Drawn? }

    /** Between taking and releasing the trfs_lock of mount `m`. */
    predicate Inside() { Entered? || Typed? || Drawn? || Logged? || CtlEntered? || CtlDone? }

    function Held(): set<Ino> {
      if Locking? then have
      else if Pending() || Logged? || Leaving? then dirs
      else {}
    }
  }

  datatype State = State(
    fs: FileSys, threads: map<Tid, Phase>, dirOwner: map<Ino, Tid>, mounts: map<Mid, Mount>,
    counter: nat, epoch: nat, effects: seq<Effect>)
  {
    function Ph(t: Tid): Phase { if t in threads then threads[t] else Idle }

    function Go(t: Tid, p: Phase): State { this.(threads := threads[t := p]) }
  }

  /**
   * lock_parent and lock_rename: the inodes of the parent directories; a write locks none. A thread knows its
   * operation by dentries: it locks their parents, and the paths they have when it takes effect are those the
   * operation is given here. A directory above may be renamed in between.
   */
  function LockSet(fs: FileSys, op: Op): set<Ino> {
    if op.Write? then {}
    else if op.Rename? then ParentIno(fs, op.path) + ParentIno(fs, op.to)
    else if op.Hardlink? then ParentIno(fs, op.to)
    else ParentIno(fs, op.path)
  }

  function ParentIno(fs: FileSys, p: Path): set<Ino> {
    if p != [] && Parent(p) in fs.names then {fs.names[Parent(p)]} else {}
  }

  datatype Step =
    | Start(t: Tid, m: Mid, want: set<Ino>)
    | LockDir(t: Tid, d: Ino)
    | Do(t: Tid, op: Op)
    | Enter(t: Tid)
    | ReadMask(t: Tid)
    | Fill(t: Tid)
    | Append(t: Tid)
    | Exit(t: Tid)
    | UnlockDir(t: Tid, d: Ino)
    | Finish(t: Tid)
    | CtlEnter(t: Tid, m: Mid, mask: nat)
    | CtlSet(t: Tid)
    | CtlExit(t: Tid)
    | MountFs(m: Mid)

  predicate Free(s: State, m: Mid) { m in s.mounts && s.mounts[m].owner.None? }

  predicate Enabled(s: State, a: Step) {
    match a
    case Start(t, m, want) => s.Ph(t).Idle? && m in s.mounts
    case LockDir(t, d) => s.Ph(t).Locking? && d in s.Ph(t).want - s.Ph(t).have && d !in s.dirOwner
    case Do(t, op) => s.Ph(t).Locking? && s.Ph(t).want == s.Ph(t).have == LockSet(s.fs, op)
    case Enter(t) => s.Ph(t).Applied? && Free(s, s.Ph(t).m)
    case ReadMask(t) => s.Ph(t).Entered? && s.Ph(t).m in s.mounts
    case Fill(t) => s.Ph(t).Typed?
    case Append(t) => s.Ph(t).Drawn? && s.Ph(t).m in s.mounts
    case Exit(t) => s.Ph(t).Logged? && s.Ph(t).m in s.mounts
    case UnlockDir(t, d) => s.Ph(t).Leaving? && d in s.Ph(t).dirs
    case Finish(t) => s.Ph(t).Leaving? && s.Ph(t).dirs == {}
    case CtlEnter(t, m, mask) => s.Ph(t).Idle? && Free(s, m)
    case CtlSet(t) => s.Ph(t).CtlEntered? && s.Ph(t).m in s.mounts
    case CtlExit(t) => s.Ph(t).CtlDone? && s.Ph(t).m in s.mounts
    case MountFs(m) => m !in s.mounts
  }

  function Next(s: State, a: Step): State
    requires Enabled(s, a)
  {
    match a
    case Start(t, m, want) => s.Go(t, Locking(m, want, {}))
    case LockDir(t, d) =>
      var p := s.Ph(t);
      s.(dirOwner := s.dirOwner[d := t]).Go(t, p.(have := p.have + {d}))
    case Do(t, op) =>
      var p := s.Ph(t);
      var r := Apply(s.fs, op);
      s.(fs := if r.Ok? then r.value else s.fs, effects := s.effects + [Effect(p.m, op, p.have, r.Ok?)])
       .Go(t, Applied(p.m, op, p.have, |s.effects|))
    case Enter(t) =>
      var p := s.Ph(t);
      var m := s.mounts[p.m];
      s.(mounts := s.mounts[p.m := m.(owner := Some(t), hist := m.hist + [Asked(p.op, p.eff)])])
       .Go(t, Entered(p.m, p.op, p.dirs, p.eff))
    case ReadMask(t) =>
      var p := s.Ph(t);
      s.Go(t, Typed(p.m, p.op, p.dirs, p.eff, Selected(Kind(p.op), s.mounts[p.m].mask)))
    case Fill(t) =>
      var p := s.Ph(t);
      if p.kind == 0 then s.Go(t, Logged(p.m, p.dirs))
      else s.(counter := s.counter + 1).Go(t, Drawn(p.m, p.op, p.dirs, p.eff, s.epoch, s.counter))
    case Append(t) =>
      var p := s.Ph(t);
      var m := s.mounts[p.m];
      s.(mounts := s.mounts[p.m := m.(log := m.log + [Entry(p.op, p.dirs, p.eff, p.epoch, p.id)])])
       .Go(t, Logged(p.m, p.dirs))
    case Exit(t) =>
      var p := s.Ph(t);
      s.(mounts := s.mounts[p.m := s.mounts[p.m].(owner := None)]).Go(t, Leaving(p.dirs))
    case UnlockDir(t, d) =>
      s.(dirOwner := s.dirOwner - {d}).Go(t, Leaving(s.Ph(t).dirs - {d}))
    case Finish(t) => s.Go(t, Idle)
    case CtlEnter(t, m, mask) =>
      var mt := s.mounts[m];
      s.(mounts := s.mounts[m := mt.(owner := Some(t), hist := mt.hist + [MaskSet(mask)])]).Go(t, CtlEntered(m, mask))
    case CtlSet(t) =>
      var p := s.Ph(t);
      s.(mounts := s.mounts[p.m := s.mounts[p.m].(mask := p.mask)]).Go(t, CtlDone(p.m))
    case CtlExit(t) =>
      var p := s.Ph(t);
      s.(mounts := s.mounts[p.m := s.mounts[p.m].(owner := None)]).Go(t, Idle)
    case MountFs(m) =>
      s.(mounts := s.mounts[m := Mount(MASK_ALL, None, [], [])], counter := 0, epoch := s.epoch + 1)
  }

  /** The run of `steps` from `s` exists and ends in `r`. */
  predicate Runs(s: State, steps: seq<Step>, r: State)
    decreases steps
  {
    if steps == [] then s == r
    else Enabled(s, steps[0]) && Runs(Next(s, steps[0]), steps[1..], r)
  }

  function Initial(fs: FileSys): State { State(fs, map[], map[], map[], 0, 0, []) }

  // ----- mutual exclusion -----

  ghost predicate LocksHeld(s: State) {
    forall t, d: Ino :: d in s.Ph(t).Held() ==> d in s.dirOwner && s.dirOwner[d] == t
  }

  ghost predicate LogLockHeld(s: State) {
    && (forall t :: s.Ph(t).Inside() ==> s.Ph(t).m in s.mounts && s.mounts[s.Ph(t).m].owner == Some(t))
    && (forall t :: s.Ph(t).Applied? || s.Ph(t).Locking? ==> s.Ph(t).m in s.mounts)
    && (forall m :: m in s.mounts && s.mounts[m].owner.Some? ==>
          s.Ph(s.mounts[m].owner.value).Inside() && s.Ph(s.mounts[m].owner.value).m == m)
  }

  ghost predicate Exclusive(s: State) { LocksHeld(s) && LogLockHeld(s) }

  /** Only the thread that takes a step changes its phase. */
  lemma OthersStay(s: State, a: Step, u: Tid)
    requires Enabled(s, a) && (a.MountFs? || u != a.t)
    ensures Next(s, a).Ph(u) == s.Ph(u)
  {
  }

  /** A step leaves the owner of a lock alone, unless it takes or releases that very lock. */
  lemma OwnerStays(s: State, a: Step, d: Ino)
    requires Enabled(s, a)
    requires (a.LockDir? || a.UnlockDir?) ==> a.d != d
    ensures d in Next(s, a).dirOwner <==> d in s.dirOwner
    ensures d in s.dirOwner ==> Next(s, a).dirOwner[d] == s.dirOwner[d]
  {
  }

  /** What a thread holds after its own step. */
  lemma OwnLocks(s: State, a: Step, d: Ino)
    requires Enabled(s, a) && !a.MountFs? && d in Next(s, a).Ph(a.t).Held()
    ensures (a.LockDir? && d == a.d && d in Next(s, a).dirOwner && Next(s, a).dirOwner[d] == a.t)
            || (d in s.Ph(a.t).Held() && (a.UnlockDir? ==> d != a.d) && (a.LockDir? ==> d != a.d))
  {
  }

  /** Nobody takes or releases a lock that another thread owns. */
  lemma OthersLock(s: State, a: Step, u: Tid, d: Ino)
    requires LocksHeld(s) && Enabled(s, a) && (a.MountFs? || u != a.t)
    requires d in s.dirOwner && s.dirOwner[d] == u
    ensures (a.LockDir? || a.UnlockDir?) ==> a.d != d
  {
    if a.UnlockDir? {
      HeldBy(s, a.t, a.d);
    }
  }

  lemma LockStays(s: State, a: Step, u: Tid, d: Ino)
    requires LocksHeld(s) && Enabled(s, a) && d in Next(s, a).Ph(u).Held()
    ensures d in Next(s, a).dirOwner && Next(s, a).dirOwner[d] == u
  {
    hide Next, Enabled, LocksHeld, State.Ph, Phase.Held;
    if a.MountFs? || u != a.t {
      OthersStay(s, a, u);
      HeldBy(s, u, d);
      OthersLock(s, a, u, d);
      OwnerStays(s, a, d);
    } else {
      OwnLocks(s, a, d);
      if d in s.Ph(u).Held() && !(a.LockDir? && d == a.d) {
        HeldBy(s, u, d);
        OwnerStays(s, a, d);
      }
    }
  }

  lemma KeepsLocks(s: State, a: Step)
    requires LocksHeld(s) && Enabled(s, a)
    ensures LocksHeld(Next(s, a))
  {
    hide Next, Enabled, State.Ph, Phase.Held;
    var s' := Next(s, a);
    forall u, d: Ino | d in s'.Ph(u).Held() ensures d in s'.dirOwner && s'.dirOwner[d] == u {
      LockStays(s, a, u, d);
    }
  }

  ghost predicate ThreadOk(s: State, t: Tid) {
    && (s.Ph(t).Inside() ==> s.Ph(t).m in s.mounts && s.mounts[s.Ph(t).m].owner == Some(t))
    && (s.Ph(t).Applied? || s.Ph(t).Locking? ==> s.Ph(t).m in s.mounts)
  }

  ghost predicate OwnerOk(s: State, m: Mid) {
    m in s.mounts && s.mounts[m].owner.Some? ==>
      s.Ph(s.mounts[m].owner.value).Inside() && s.Ph(s.mounts[m].owner.value).m == m
  }

  lemma ThreadStaysOk(s: State, a: Step, u: Tid)
    requires LogLockHeld(s) && Enabled(s, a)
    ensures ThreadOk(Next(s, a), u)
  {
    assert s.Ph(u) == s.Ph(u);
    if a.MountFs? || u != a.t {
      OthersStay(s, a, u);
    }
  }

  lemma OwnerStaysOk(s: State, a: Step, m: Mid)
    requires LogLockHeld(s) && Enabled(s, a)
    ensures OwnerOk(Next(s, a), m)
  {
    var s' := Next(s, a);
    if m in s'.mounts && s'.mounts[m].owner.Some? {
      var u := s'.mounts[m].owner.value;
      if a.MountFs? || u != a.t {
        OthersStay(s, a, u);
      }
    }
  }

  lemma AllOk(s: State)
    requires (forall t :: ThreadOk(s, t)) && (forall m :: OwnerOk(s, m))
    ensures LogLockHeld(s)
  {
    forall t ensures s.Ph(t).Inside() ==> s.Ph(t).m in s.mounts && s.mounts[s.Ph(t).m].owner == Some(t)
      ensures s.Ph(t).Applied? || s.Ph(t).Locking? ==> s.Ph(t).m in s.mounts {
      assert ThreadOk(s, t);
    }
    forall m | m in s.mounts && s.mounts[m].owner.Some?
      ensures s.Ph(s.mounts[m].owner.value).Inside() && s.Ph(s.mounts[m].owner.value).m == m {
      assert OwnerOk(s, m);
    }
  }

  lemma KeepsLogLock(s: State, a: Step)
    requires LogLockHeld(s) && Enabled(s, a)
    ensures LogLockHeld(Next(s, a))
  {
    hide *;
    forall u ensures ThreadOk(Next(s, a), u) {
      ThreadStaysOk(s, a, u);
    }
    forall m ensures OwnerOk(Next(s, a), m) {
      OwnerStaysOk(s, a, m);
    }
    AllOk(Next(s, a));
  }

  // ----- effect order and log order -----

  predicate Shares(a: set<Ino>, b: set<Ino>) { exists d: Ino :: d in a && d in b }

  /** Every pending operation and every log entry points at its own effect. */
  ghost predicate Pointed(s: State) {
    && (forall t :: s.Ph(t).Pending() ==>
          var p := s.Ph(t); p.eff < |s.effects| && var e := s.effects[p.eff]; e.mount == p.m && e.op == p.op && e.dirs == p.dirs)
    && (forall m, i :: m in s.mounts && 0 <= i < |s.mounts[m].log| ==>
          var l := s.mounts[m].log[i]; l.eff < |s.effects| && var e := s.effects[l.eff]; e.mount == m && e.op == l.op && e.dirs == l.dirs)
  }

  /** A pending operation took effect after every logged one it shares a directory with. */
  ghost predicate PendingLater(s: State) {
    forall t, m, i :: (s.Ph(t).Pending() && m in s.mounts && 0 <= i < |s.mounts[m].log|
                       && Shares(s.Ph(t).dirs, s.mounts[m].log[i].dirs)) ==>
      s.mounts[m].log[i].eff < s.Ph(t).eff
  }

  ghost predicate LogInOrder(log: seq<Entry>) {
    forall i, j :: 0 <= i < j < |log| && Shares(log[i].dirs, log[j].dirs) ==> log[i].eff < log[j].eff
  }

  ghost predicate Ordered(s: State) {
    Pointed(s) && PendingLater(s) && forall m :: m in s.mounts ==> LogInOrder(s.mounts[m].log)
  }

  lemma KeepsPointed(s: State, a: Step)
    requires Pointed(s) && Enabled(s, a)
    ensures Pointed(Next(s, a))
  {
    var s' := Next(s, a);
    assert forall i :: 0 <= i < |s.effects| ==> i < |s'.effects| && s'.effects[i] == s.effects[i];
    forall u | s'.Ph(u).Pending()
      ensures var p := s'.Ph(u); p.eff < |s'.effects| && var e := s'.effects[p.eff]; e.mount == p.m && e.op == p.op && e.dirs == p.dirs {
      if a.MountFs? || u != a.t {
        OthersStay(s, a, u);
      }
      assert s.Ph(u).Pending() || a.Do?;
    }
    forall m, i | m in s'.mounts && 0 <= i < |s'.mounts[m].log|
      ensures var l := s'.mounts[m].log[i];
              l.eff < |s'.effects| && var e := s'.effects[l.eff]; e.mount == m && e.op == l.op && e.dirs == l.dirs {
      if m in s.mounts && i < |s.mounts[m].log| {
        assert s'.mounts[m].log[i] == s.mounts[m].log[i];
      } else {
        assert a.Append? && s.Ph(a.t).Pending();
      }
    }
  }

  lemma KeepsPendingLater(s: State, a: Step)
    requires LocksHeld(s) && Pointed(s) && PendingLater(s) && Enabled(s, a)
    ensures PendingLater(Next(s, a))
  {
    var s' := Next(s, a);
    forall u, m, i | s'.Ph(u).Pending() && m in s'.mounts && 0 <= i < |s'.mounts[m].log|
                     && Shares(s'.Ph(u).dirs, s'.mounts[m].log[i].dirs)
      ensures s'.mounts[m].log[i].eff < s'.Ph(u).eff {
      if a.MountFs? || u != a.t {
        OthersStay(s, a, u);
      }
      if m in s.mounts && i < |s.mounts[m].log| {
        assert s'.mounts[m].log[i] == s.mounts[m].log[i];
        assert s.Ph(u).Pending() || a.Do?;
      } else {
        assert a.Append? && u != a.t;
        NoSharedDirectory(s, u, a.t);
        assert false;
      }
    }
  }

  /** Two pending operations never hold a directory lock in common. */
  lemma NoSharedDirectory(s: State, t: Tid, u: Tid)
    requires LocksHeld(s) && t != u && s.Ph(t).Pending() && s.Ph(u).Pending()
    ensures !Shares(s.Ph(t).dirs, s.Ph(u).dirs)
  {
    hide LocksHeld;
    forall d: Ino | d in s.Ph(t).dirs ensures d in s.dirOwner && s.dirOwner[d] == t {
      HeldBy(s, t, d);
    }
    forall d: Ino | d in s.Ph(u).dirs ensures d in s.dirOwner && s.dirOwner[d] == u {
      HeldBy(s, u, d);
    }
  }

  lemma HeldBy(s: State, t: Tid, d: Ino)
    requires LocksHeld(s) && d in s.Ph(t).Held()
    ensures d in s.dirOwner && s.dirOwner[d] == t
  {
  }

  lemma KeepsOrder(s: State, a: Step)
    requires Exclusive(s) && Ordered(s) && Enabled(s, a)
    ensures Ordered(Next(s, a))
  {
    hide LocksHeld;
    KeepsPointed(s, a);
    KeepsPendingLater(s, a);
    var s' := Next(s, a);
    forall m | m in s'.mounts ensures LogInOrder(s'.mounts[m].log) {
      if a.Append? && m == s.Ph(a.t).m {
        var log, p := s.mounts[m].log, s.Ph(a.t);
        assert LogInOrder(log);
        forall i | 0 <= i < |log| && Shares(log[i].dirs, p.dirs) ensures log[i].eff < p.eff {
          assert Shares(p.dirs, log[i].dirs);
        }
      } else if a.MountFs? && m == a.m {
      } else {
        assert s'.mounts[m].log == s.mounts[m].log;
      }
    }
  }

  // ----- runs -----

  lemma {:induction false} RunKeepsOrder(s: State, steps: seq<Step>, r: State)
    requires Exclusive(s) && Ordered(s) && Runs(s, steps, r)
    ensures Exclusive(r) && Ordered(r)
    decreases steps
  {
    hide Exclusive, Ordered, Next, Enabled;
    if steps != [] {
      KeepsExclusive(s, steps[0]);
      KeepsOrder(s, steps[0]);
      RunKeepsOrder(Next(s, steps[0]), steps[1..], r);
    }
  }

  lemma KeepsExclusive(s: State, a: Step)
    requires Exclusive(s) && Enabled(s, a)
    ensures Exclusive(Next(s, a))
  {
    hide LocksHeld, LogLockHeld, Next;
    KeepsLocks(s, a);
    KeepsLogLock(s, a);
  }

  lemma InitialOrdered(fs: FileSys)
    ensures Exclusive(Initial(fs)) && Ordered(Initial(fs))
  {
  }

  /**
   * In every reachable state, two logged operations that held a lower directory lock in common stand in the
   * log in the order in which they took effect, and every log line stands for the effect it points at.
   */
  lemma LogOrderIsEffectOrder(fs: FileSys, steps: seq<Step>, r: State, m: Mid, i: nat, j: nat)
    requires Runs(Initial(fs), steps, r) && m in r.mounts && i < j < |r.mounts[m].log|
    requires Shares(r.mounts[m].log[i].dirs, r.mounts[m].log[j].dirs)
    ensures var a, b := r.mounts[m].log[i], r.mounts[m].log[j];
            && a.eff < b.eff < |r.effects|
            && r.effects[a.eff].op == a.op && r.effects[b.eff].op == b.op
            && r.effects[a.eff].mount == m && r.effects[b.eff].mount == m
  {
    InitialOrdered(fs);
    RunKeepsOrder(Initial(fs), steps, r);
    assert LogInOrder(r.mounts[m].log);
  }
}
