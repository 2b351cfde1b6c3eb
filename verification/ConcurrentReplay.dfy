/** Concurrent traced operations in a fixed set of directories, replayed from the log they leave. */
module ConcurrentReplay {
  import opened Records
  import opened FileSystem
  import opened FsLaws
  import opened Replay
  import opened Treplay
  import opened Scan
  import opened Replaying
  import opened EndToEnd
  import opened Protocol
  import opened MaskOrder
  import opened RecordIds
  import opened Projection
  import opened Commuting

  function OpsOf(effects: seq<Effect>): seq<Op> {
    if effects == [] then [] else OpsOf(Front(effects)) + [Last(effects).op]
  }

  function LoggedOps(log: seq<Entry>): seq<Op> {
    if log == [] then [] else LoggedOps(Front(log)) + [Last(log).op]
  }

  /** Successful creates, symlinks and unlinks of mount `m` only. */
  ghost predicate Tame(effects: seq<Effect>, m: Mid) {
    forall i :: 0 <= i < |effects| ==> effects[i].ok && Simple(effects[i].op) && effects[i].mount == m
  }

  lemma TameFront(effects: seq<Effect>, e: Effect, m: Mid)
    requires Tame(effects + [e], m)
    ensures Tame(effects, m) && e.ok && Simple(e.op) && e.mount == m
  {
    forall i | 0 <= i < |effects| ensures effects[i].ok && Simple(effects[i].op) && effects[i].mount == m {
      assert (effects + [e])[i] == effects[i];
    }
    assert (effects + [e])[|effects|] == e;
  }

  lemma OpsSnoc(effects: seq<Effect>, e: Effect)
    ensures OpsOf(effects + [e]) == OpsOf(effects) + [e.op]
  {
    assert Front(effects + [e]) == effects && Last(effects + [e]) == e;
  }

  lemma {:induction false} OpsSimple(effects: seq<Effect>, m: Mid)
    requires Tame(effects, m)
    ensures AllSimple(OpsOf(effects))
  {
    if effects != [] {
      assert effects == Front(effects) + [Last(effects)];
      TameFront(Front(effects), Last(effects), m);
      OpsSimple(Front(effects), m);
    }
  }

  // ----- the directories are fixed, so each path has one lock -----

  /** The lock of the directory of `p` in the starting tree. */
  ghost predicate LockedHome(fs: FileSys, p: Path, dirs: set<Ino>) {
    Homed(fs, p) && dirs == {fs.names[Parent(p)]}
  }

  /** As long as only tame effects have happened, the tree is their result and all of them locked the
      directory their path had at the start. */
  ghost predicate Housed(fs: FileSys, s: State, m: Mid) {
    Tame(s.effects, m) ==>
      && Run(fs, OpsOf(s.effects)) == Ok(s.fs)
      && (forall i :: 0 <= i < |s.effects| ==> LockedHome(fs, s.effects[i].op.path, s.effects[i].dirs))
  }

  lemma TameTree(fs: FileSys, effects: seq<Effect>, m: Mid, f: FileSys)
    requires fs.Sound() && fs.Rooted() && Tame(effects, m) && Run(fs, OpsOf(effects)) == Ok(f)
    ensures f.Sound() && f.Rooted() && AllSimple(OpsOf(effects)) && Holds0(fs, f, OpsOf(effects))
  {
    OpsSimple(effects, m);
    RunKeeps(fs, OpsOf(effects));
    RunIffCells(fs, OpsOf(effects));
  }

  /** An operation that succeeds had its directory from the start, and that is the one it locks. */
  lemma SuccessIsHomed(fs: FileSys, s: State, m: Mid, op: Op)
    requires fs.Sound() && fs.Rooted() && Tame(s.effects, m) && Run(fs, OpsOf(s.effects)) == Ok(s.fs)
    requires Simple(op) && Apply(s.fs, op).Ok?
    ensures LockedHome(fs, op.path, LockSet(s.fs, op))
  {
    TameTree(fs, s.effects, m, s.fs);
    assert op.path != [] && s.fs.IsDir(Parent(op.path));
    DirectoriesStay(fs, s.fs, OpsOf(s.effects), Parent(op.path));
  }

  lemma DoHoused(fs: FileSys, s: State, a: Step, m: Mid)
    requires fs.Sound() && fs.Rooted() && Housed(fs, s, m) && Enabled(s, a) && a.Do? && Tame(Next(s, a).effects, m)
    ensures Housed(fs, Next(s, a), m)
  {
    var p := s.Ph(a.t);
    var e := Effect(p.m, a.op, p.have, Apply(s.fs, a.op).Ok?);
    TameFront(s.effects, e, m);
    OpsSnoc(s.effects, e);
    RunAppend(fs, OpsOf(s.effects), [e.op]);
    RunOne(fs, OpsOf(s.effects), e.op);
    SuccessIsHomed(fs, s, m, a.op);
  }

  lemma KeepsHoused(fs: FileSys, s: State, a: Step, m: Mid)
    requires fs.Sound() && fs.Rooted() && Housed(fs, s, m) && Enabled(s, a)
    ensures Housed(fs, Next(s, a), m)
  {
    if Tame(Next(s, a).effects, m) {
      if a.Do? {
        DoHoused(fs, s, a, m);
      } else {
        assert Next(s, a).effects == s.effects && Next(s, a).fs == s.fs;
      }
    }
  }

  lemma {:induction false} RunHoused(fs: FileSys, s: State, steps: seq<Step>, r: State, m: Mid)
    requires fs.Sound() && fs.Rooted() && Housed(fs, s, m) && Runs(s, steps, r)
    ensures Housed(fs, r, m)
    decreases |steps|
  {
    hide *;
    if |steps| == 0 {
      RunsNil(s, steps, r);
    } else {
      RunsCons(s, steps, r);
      KeepsHoused(fs, s, steps[0], m);
      RunHoused(fs, Next(s, steps[0]), steps[1..], r, m);
    }
  }

  // ----- from directories to paths -----

  /** The operations of `effects` at the places `places`, restricted to the path `p`. */
  function Pick(effects: seq<Effect>, places: seq<nat>, p: Path): seq<Op>
    requires forall k :: k in places ==> k < |effects|
  {
    if places == [] then []
    else
      assert Last(places) in places && forall k :: k in Front(places) ==> k in places;
      Pick(effects, Front(places), p)
      + (if effects[Last(places)].op.path == p then [effects[Last(places)].op] else [])
  }

  lemma {:induction false} PickAppend(effects: seq<Effect>, places: seq<nat>, k: nat, p: Path)
    requires k < |effects| && forall j :: j in places ==> j < |effects|
    ensures Pick(effects, places + [k], p)
         == Pick(effects, places, p) + (if effects[k].op.path == p then [effects[k].op] else [])
  {
    assert Front(places + [k]) == places && Last(places + [k]) == k;
  }

  lemma {:induction false} PickPrefix(effects: seq<Effect>, e: Effect, places: seq<nat>, p: Path)
    requires forall j :: j in places ==> j < |effects|
    ensures Pick(effects + [e], places, p) == Pick(effects, places, p)
  {
    if places != [] {
      assert forall k :: k in Front(places) ==> k in places;
      assert Last(places) in places;
      PickPrefix(effects, e, Front(places), p);
    }
  }

  lemma {:induction false} EffectPlaces(effects: seq<Effect>, m: Mid, d: Ino)
    ensures forall k :: k in EffectsOn(effects, m, d) ==> k < |effects|
  {
    if effects != [] {
      EffectPlaces(Front(effects), m, d);
    }
  }

  /** The history of a path, read off the history of its directory. */
  lemma {:induction false} EffectsAtPath(effects: seq<Effect>, m: Mid, d: Ino, p: Path)
    requires forall i :: 0 <= i < |effects| ==> effects[i].mount == m
    requires forall i :: 0 <= i < |effects| && effects[i].op.path == p ==> d in effects[i].dirs
    ensures forall k :: k in EffectsOn(effects, m, d) ==> k < |effects|
    ensures On(OpsOf(effects), p) == Pick(effects, EffectsOn(effects, m, d), p)
  {
    EffectPlaces(effects, m, d);
    if effects != [] {
      var front, e := Front(effects), Last(effects);
      assert effects == front + [e] && effects[|front|] == e;
      assert forall i :: 0 <= i < |front| ==> effects[i] == front[i];
      EffectsAtPath(front, m, d, p);
      OpsSnoc(front, e);
      OnSnoc(OpsOf(front), e.op, p);
      EffectsGrow(front, e, m, d);
      PickPrefix(front, e, EffectsOn(front, m, d), p);
      assert EffectsOn(front, m, d) + [] == EffectsOn(front, m, d);
      if d in e.dirs {
        PickAppend(effects, EffectsOn(front, m, d), |front|, p);
      }
    }
  }

  ghost predicate PointsInto(log: seq<Entry>, effects: seq<Effect>) {
    forall i :: 0 <= i < |log| ==> log[i].eff < |effects| && effects[log[i].eff].op == log[i].op
                                   && effects[log[i].eff].dirs == log[i].dirs
  }

  lemma PointsFront(log: seq<Entry>, effects: seq<Effect>)
    requires PointsInto(log, effects) && log != []
    ensures PointsInto(Front(log), effects) && log == Front(log) + [Last(log)]
    ensures var e := Last(log); e.eff < |effects| && effects[e.eff].op == e.op && effects[e.eff].dirs == e.dirs
  {
    assert forall i :: 0 <= i < |Front(log)| ==> Front(log)[i] == log[i];
  }

  lemma {:induction false} LogPlaces(log: seq<Entry>, effects: seq<Effect>, d: Ino)
    requires PointsInto(log, effects)
    ensures forall k :: k in LogOn(log, d) ==> k < |effects|
  {
    hide PointsInto;
    if log != [] {
      PointsFront(log, effects);
      LogPlaces(Front(log), effects, d);
    }
  }

  lemma NothingLogged(effects: seq<Effect>, log: seq<Entry>, d: Ino, p: Path)
    requires log == []
    ensures LogOn(log, d) == [] && On(LoggedOps(log), p) == []
    ensures Pick(effects, [], p) == []
  {
  }

  lemma LoggedSnoc(log: seq<Entry>, e: Entry)
    ensures LoggedOps(log + [e]) == LoggedOps(log) + [e.op]
  {
    assert Front(log + [e]) == log && Last(log + [e]) == e;
  }

  /** The last line adds itself to the history of its path, and its place to that of its directories. */
  lemma PickLast(effects: seq<Effect>, places: seq<nat>, after: seq<nat>, e: Entry, d: Ino, p: Path)
    requires (forall k :: k in places ==> k < |effects|) && e.eff < |effects| && effects[e.eff].op == e.op
    requires after == places + (if d in e.dirs then [e.eff] else [])
    requires e.op.path == p ==> d in e.dirs
    ensures forall k :: k in after ==> k < |effects|
    ensures Pick(effects, after, p) == Pick(effects, places, p) + (if e.op.path == p then [e.op] else [])
  {
    assert places + [] == places && Pick(effects, places, p) + [] == Pick(effects, places, p);
    if d in e.dirs {
      PickAppend(effects, places, e.eff, p);
    }
  }

  lemma {:induction false} LogAtPath(log: seq<Entry>, effects: seq<Effect>, d: Ino, p: Path)
    requires PointsInto(log, effects)
    requires forall i :: 0 <= i < |effects| && effects[i].op.path == p ==> d in effects[i].dirs
    ensures forall k :: k in LogOn(log, d) ==> k < |effects|
    ensures On(LoggedOps(log), p) == Pick(effects, LogOn(log, d), p)
    decreases |log|
  {
    hide *;
    LogPlaces(log, effects, d);
    if log == [] {
      NothingLogged(effects, log, d, p);
    } else {
      var front, e := Front(log), Last(log);
      PointsFront(log, effects);
      LogPlaces(front, effects, d);
      LogAtPath(front, effects, d, p);
      LoggedSnoc(front, e);
      OnSnoc(LoggedOps(front), e.op, p);
      LogOnGrows(front, e, d);
      PickLast(effects, LogOn(front, d), LogOn(log, d), e, d, p);
      assert On(LoggedOps(front), p) + [] == On(LoggedOps(front), p);
    }
  }

  lemma {:induction false} LoggedSimple(log: seq<Entry>, effects: seq<Effect>, m: Mid)
    requires PointsInto(log, effects) && Tame(effects, m)
    ensures AllSimple(LoggedOps(log))
  {
    if log != [] {
      assert forall i :: 0 <= i < |Front(log)| ==> Front(log)[i] == log[i];
      LoggedSimple(Front(log), effects, m);
      assert Last(log) == log[|log| - 1];
    }
  }

  /** At every path the log and the effects agree. */
  lemma PathsAgree(fs: FileSys, r: State, m: Mid, p: Path)
    requires m in r.mounts && Tame(r.effects, m) && PointsInto(r.mounts[m].log, r.effects)
    requires forall i :: 0 <= i < |r.effects| ==> LockedHome(fs, r.effects[i].op.path, r.effects[i].dirs)
    requires forall d: Ino :: EffectsOn(r.effects, m, d) == LogOn(r.mounts[m].log, d)
    ensures On(OpsOf(r.effects), p) == On(LoggedOps(r.mounts[m].log), p)
  {
    var d: Ino := if Homed(fs, p) then fs.names[Parent(p)] else 0;
    EffectsAtPath(r.effects, m, d, p);
    LogAtPath(r.mounts[m].log, r.effects, d, p);
  }

  // ----- the theorem -----

  /** All effects of the run are successful creates, symlinks and unlinks traced by `m`, no mask was touched,
      and no operation is between its effect and its append. */
  ghost predicate Settled(r: State, m: Mid) {
    && m in r.mounts && Tame(r.effects, m) && Unmasked(r)
    && (forall t :: r.Ph(t).Pending() ==> r.Ph(t).m != m)
  }

  /**
   * For any interleaving of any number of threads: running the logged operations in log order from the
   * starting tree succeeds and gives the tree that execution order gave, up to inode numbers.
   */
  lemma LogOrderGivesSameTree(fs: FileSys, steps: seq<Step>, r: State, m: Mid)
    requires fs.Sound() && fs.Rooted() && Runs(Initial(fs), steps, r) && Settled(r, m)
    ensures var ops := LoggedOps(r.mounts[m].log);
            Run(fs, ops).Ok? && Iso(r.fs, Run(fs, ops).value)
  {
    var log := r.mounts[m].log;
    InitialOrdered(fs);
    RunKeepsOrder(Initial(fs), steps, r);
    assert PointsInto(log, r.effects);
    RunHoused(fs, Initial(fs), steps, r, m);
    OpsSimple(r.effects, m);
    LoggedSimple(log, r.effects, m);
    forall d: Ino ensures EffectsOn(r.effects, m, d) == LogOn(log, d) {
      DirectoriesAgree(fs, steps, r, m, d);
    }
    forall p ensures On(OpsOf(r.effects), p) == On(LoggedOps(log), p) {
      PathsAgree(fs, r, m, p);
    }
    hide *;
    SamePathsSameTree(fs, OpsOf(r.effects), LoggedOps(log));
  }

  /** The records in the file of a log, with the ids they were given. */
  function Lines(log: seq<Entry>): seq<Record> {
    if log == [] then [] else Lines(Front(log)) + [RecordOf(Last(log).op, Last(log).id)]
  }

  lemma {:induction false} RecordsSnoc(ops: seq<Op>, op: Op, id: nat)
    ensures RecordsOf(ops + [op], id) == RecordsOf(ops, id) + [RecordOf(op, id + |ops|)]
    decreases |ops|
  {
    hide RecordOf;
    if ops == [] {
      assert ([] + [op])[1..] == [];
    } else {
      assert (ops + [op])[1..] == ops[1..] + [op];
      RecordsSnoc(ops[1..], op, id + 1);
    }
  }

  lemma {:induction false} LinesAreRecords(log: seq<Entry>)
    requires forall i :: 0 <= i < |log| ==> log[i].id == i
    ensures |LoggedOps(log)| == |log| && Lines(log) == RecordsOf(LoggedOps(log), 0)
  {
    hide RecordOf;
    if log != [] {
      assert forall i :: 0 <= i < |Front(log)| ==> Front(log)[i] == log[i];
      LinesAreRecords(Front(log));
      RecordsSnoc(LoggedOps(Front(log)), Last(log).op, 0);
    }
  }

  /** What the threads of a sole mount leave in its file is, byte for byte, the log of its operations. */
  lemma SoleLogBytes(fs: FileSys, steps: seq<Step>, r: State, m: Mid)
    requires Runs(Initial(fs), steps, r) && r.mounts.Keys == {m}
    requires forall op :: op in LoggedOps(r.mounts[m].log) ==> Traceable(op)
    ensures EncodeAll(Lines(r.mounts[m].log)) == LogOf(LoggedOps(r.mounts[m].log))
  {
    var log := r.mounts[m].log;
    forall i | 0 <= i < |log| ensures log[i].id == i {
      SoleLogIsNumbered(fs, steps, r, m, i);
    }
    hide *;
    LinesAreRecords(log);
    LogIsEncoding(LoggedOps(log));
  }

  lemma {:induction false} LinesAt(log: seq<Entry>, i: nat)
    requires i < |log|
    ensures |Lines(log)| == |log| == |LoggedOps(log)|
    ensures Lines(log)[i] == RecordOf(log[i].op, log[i].id) && LoggedOps(log)[i] == log[i].op
    decreases |log|
  {
    hide RecordOf;
    if i < |log| - 1 {
      LinesAt(Front(log), i);
    } else if |log| > 1 {
      LinesAt(Front(log), 0);
    }
  }

  lemma {:induction false} RecordsAt(ops: seq<Op>, id: nat, i: nat)
    requires i < |ops|
    ensures RecordsOf(ops, id)[i] == RecordOf(ops[i], id + i)
    decreases |ops|
  {
    hide RecordOf;
    if i > 0 {
      RecordsAt(ops[1..], id + 1, i - 1);
    }
  }

  lemma Renumbered(op: Op, i: nat, j: nat)
    ensures RecordOf(op, j) == RecordOf(op, i).(id := RecordOf(op, j).id)
  {
  }

  /** The lines of a log are the records of its operations, but for the ids. */
  lemma LinesAreRenumbered(env: Env, log: seq<Entry>)
    requires AllTraceable(env, LoggedOps(log))
    ensures SameButIds(RecordsOf(LoggedOps(log), 0), Lines(log))
    ensures AllReplayable(env, Lines(log))
  {
    var ops, rs := LoggedOps(log), Lines(log);
    hide RecordOf, RecordsOf, Lines, LoggedOps, Replayable, Traceable, Rebasable;
    if log == [] {
      NoLines(log);
    } else {
      LinesAt(log, 0);
    }
    forall i | 0 <= i < |log|
      ensures rs[i] == RecordsOf(ops, 0)[i].(id := rs[i].id) && Replayable(env, rs[i]) {
      LinesAt(log, i);
      RecordsAt(ops, 0, i);
      Renumbered(ops[i], i, log[i].id);
      assert ops[i] in ops;
      LoggableOf(ops[i]);
      RecordReplayable(env, ops[i], log[i].id);
    }
  }

  lemma NoLines(log: seq<Entry>)
    requires log == []
    ensures Lines(log) == [] && LoggedOps(log) == []
  {
  }

  lemma LoggableOf(op: Op)
    requires Traceable(op)
    ensures Loggable(op)
  {
  }

  /**
   * The whole way: threads, the bytes they leave in the file of mount `m`, also if a mount call in between has
   * started the ids again, and treplay on those bytes.
   */
  lemma ConcurrentTraceReplays(fs: FileSys, steps: seq<Step>, r: State, m: Mid, env: Env, cwd: Path, g: FileSys)
    requires fs.Sound() && fs.Rooted() && Runs(Initial(fs), steps, r) && Settled(r, m)
    requires RunsIn(env, cwd) && g.Sound() && g.Rooted() && Iso(fs, Below(g, cwd))
    requires var ops := LoggedOps(r.mounts[m].log); AllTraceable(env, ops) && Aligned(ops)
    ensures var out := ReplayFrom(env, EncodeAll(Lines(r.mounts[m].log)), 0, g, []);
            && out.end == AtEnd && Iso(r.fs, Below(out.fs, cwd))
            && (Sealed(g, cwd) ==> SameOutside(g, out.fs, cwd))
  {
    var ops := LoggedOps(r.mounts[m].log);
    LogOrderGivesSameTree(fs, steps, r, m);
    WholeTree(fs);
    ShiftNothing(ops);
    ReplayRebuildsTree(env, cwd, fs, [], g, ops);
    EachTraceable(env, ops);
    LogIsEncoding(ops);
    RecordsReplayable(env, ops, 0);
    LinesAreRenumbered(env, r.mounts[m].log);
    ReplayIgnoresIds(env, RecordsOf(ops, 0), Lines(r.mounts[m].log), g);
    var final, out := Run(fs, ops).value, ReplayFrom(env, LogOf(ops), 0, g, []).fs;
    WholeTree(final);
    hide *;
    TwinIso(final, [], out, cwd);
    IsoTransitive(r.fs, final, Below(out, cwd));
  }

  lemma WholeTree(fs: FileSys)
    ensures Below(fs, []) == fs
  {
    assert forall p: Path :: [] + p == p;
  }

  lemma {:induction false} ShiftNothing(ops: seq<Op>)
    ensures ShiftAll([], ops) == ops
  {
    if ops != [] {
      ShiftNothing(ops[1..]);
      assert forall p: Path :: [] + p == p;
      assert Shift([], ops[0]) == ops[0];
    }
  }
}
