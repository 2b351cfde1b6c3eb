/** Directory by directory, the log tells the same story as the order of effects. */
module Projection {
  import opened Records
  import opened TraceLog
  import opened FileSystem
  import opened Replaying
  import opened Protocol
  import opened MaskOrder

  /** The places in effect order of the log's operations that locked directory `d`, in log order. */
  function LogOn(log: seq<Entry>, d: Ino): seq<nat> {
    if log == [] then []
    else LogOn(Front(log), d) + (if d in Last(log).dirs then [Last(log).eff] else [])
  }

  /** The places of the effects of mount `m` that locked `d`. */
  function EffectsOn(effects: seq<Effect>, m: Mid, d: Ino): seq<nat> {
    if effects == [] then []
    else EffectsOn(Front(effects), m, d)
         + (if Last(effects).mount == m && d in Last(effects).dirs then [|effects| - 1] else [])
  }

  /** The effect on `d` that waits to be logged: there is at most one, its thread holds the lock on `d`. */
  function Waiting(s: State, m: Mid, d: Ino): seq<nat> {
    if d in s.dirOwner then WaitingOf(s.Ph(s.dirOwner[d]), m, d) else []
  }

  function WaitingOf(p: Phase, m: Mid, d: Ino): seq<nat> {
    if p.Pending() && p.m == m && d in p.dirs then [p.eff] else []
  }

  /** Nobody has touched a mask. */
  ghost predicate Unmasked(s: State) {
    forall m, e :: m in s.mounts && e in s.mounts[m].hist ==> e.Asked?
  }

  ghost predicate Mounted(s: State) {
    && (forall i :: 0 <= i < |s.effects| ==> s.effects[i].mount in s.mounts)
    && (forall t :: s.Ph(t).Locking? || s.Ph(t).Pending() ==> s.Ph(t).m in s.mounts)
  }

  ghost predicate Mirrored(s: State) {
    forall m, d: Ino :: m in s.mounts ==> EffectsOn(s.effects, m, d) == LogOn(s.mounts[m].log, d) + Waiting(s, m, d)
  }

  lemma KeepsMounted(s: State, a: Step)
    requires LogLockHeld(s) && Mounted(s) && Enabled(s, a)
    ensures Mounted(Next(s, a))
  {
    var s' := Next(s, a);
    forall t | s'.Ph(t).Locking? || s'.Ph(t).Pending() ensures s'.Ph(t).m in s'.mounts {
      if a.MountFs? || t != a.t {
        OthersStay(s, a, t);
      }
      assert s.Ph(t).Locking? || s.Ph(t).Pending() || a.Start?;
    }
  }

  lemma UnmaskedBefore(s: State, a: Step)
    requires Enabled(s, a) && Unmasked(Next(s, a))
    ensures Unmasked(s) && !a.CtlEnter?
  {
    var s' := Next(s, a);
    forall m, e | m in s.mounts && e in s.mounts[m].hist ensures e.Asked? {
      assert m in s'.mounts && e in s'.mounts[m].hist;
    }
    if a.CtlEnter? {
      CtlLeavesMark(s, a);
    }
  }

  lemma CtlLeavesMark(s: State, a: Step)
    requires Enabled(s, a) && a.CtlEnter?
    ensures !Unmasked(Next(s, a))
  {
    var s' := Next(s, a);
    var h := s'.mounts[a.m].hist;
    assert h[|h| - 1] == MaskSet(a.mask);
    assert a.m in s'.mounts && MaskSet(a.mask) in s'.mounts[a.m].hist && !MaskSet(a.mask).Asked?;
  }

  lemma {:induction false} UnmaskedAll(h: seq<Event>)
    requires forall e :: e in h ==> e.Asked?
    ensures LatestMask(h) == MASK_ALL
  {
    if h != [] {
      assert Last(h) in h;
      forall e | e in Front(h) ensures e.Asked? {
        assert e in h;
      }
      UnmaskedAll(Front(h));
    }
  }

  lemma KindSelected(op: Op)
    ensures Selected(Kind(op), MASK_ALL) == Kind(op) != 0
  {
    match op
    case Create(_, _) => assert MASK_ALL / TR_FCREAT % 2 == 1;
    case Mkdir(_, _) => assert MASK_ALL / TR_DCREAT % 2 == 1;
    case Symlink(_, _) => assert MASK_ALL / TR_SYMLINK % 2 == 1;
    case Hardlink(_, _) => assert MASK_ALL / TR_LINK % 2 == 1;
    case Rename(_, _) => assert MASK_ALL / TR_RENAME % 2 == 1;
    case Unlink(_) => assert MASK_ALL / TR_UNLINK % 2 == 1;
    case Rmdir(_) => assert MASK_ALL / TR_UNLINK % 2 == 1;
    case Write(_, _, _, _, _) => assert MASK_ALL / TR_FWRITE % 2 == 1;
  }

  /** With no mask set, no operation is filtered out. */
  lemma NothingDropped(s: State, t: Tid)
    requires LogLockHeld(s) && Follows(s) && Unmasked(s) && s.Ph(t).Typed?
    ensures s.Ph(t).kind != 0
  {
    var p := s.Ph(t);
    assert p.Inside() && s.mounts[p.m].owner == Some(t);
    var mt := s.mounts[p.m];
    assert MountFollows(mt, OwnerPhase(s, p.m));
    forall e | e in Front(mt.hist) ensures e.Asked? {
      assert e in mt.hist;
    }
    UnmaskedAll(Front(mt.hist));
    KindSelected(p.op);
  }

  lemma EffectsGrow(effects: seq<Effect>, e: Effect, m: Mid, d: Ino)
    ensures EffectsOn(effects + [e], m, d)
         == EffectsOn(effects, m, d) + (if e.mount == m && d in e.dirs then [|effects|] else [])
  {
    assert Front(effects + [e]) == effects && Last(effects + [e]) == e;
  }

  lemma LogOnGrows(log: seq<Entry>, e: Entry, d: Ino)
    ensures LogOn(log + [e], d) == LogOn(log, d) + (if d in e.dirs then [e.eff] else [])
  {
    assert Front(log + [e]) == log && Last(log + [e]) == e;
  }

  lemma {:induction false} NoEffectsYet(effects: seq<Effect>, m: Mid, d: Ino)
    requires forall i :: 0 <= i < |effects| ==> effects[i].mount != m
    ensures EffectsOn(effects, m, d) == []
  {
    if effects != [] {
      NoEffectsYet(Front(effects), m, d);
    }
  }

  /** What waits on `d` after a step, in terms of what waited before. */
  lemma WaitingAfter(s: State, a: Step, m: Mid, d: Ino)
    requires LocksHeld(s) && Enabled(s, a)
    requires a.Fill? ==> s.Ph(a.t).kind != 0
    ensures var s' := Next(s, a);
            if a.Do? && s.Ph(a.t).m == m && d in s.Ph(a.t).have
            then Waiting(s, m, d) == [] && Waiting(s', m, d) == [|s.effects|]
            else if a.Append? && s.Ph(a.t).m == m && d in s.Ph(a.t).dirs
            then Waiting(s, m, d) == [s.Ph(a.t).eff] && Waiting(s', m, d) == []
            else Waiting(s', m, d) == Waiting(s, m, d)
  {
    var s' := Next(s, a);
    if !a.MountFs? {
      var t := a.t;
      if d in s.Ph(t).Held() {
        HeldBy(s, t, d);
      }
      if d in s.dirOwner && s.dirOwner[d] != t {
        OthersStay(s, a, s.dirOwner[d]);
      }
    }
  }

  lemma KeepsMirrored(s: State, a: Step)
    requires LocksHeld(s) && Mounted(s) && Mirrored(s) && Enabled(s, a)
    requires a.Fill? ==> s.Ph(a.t).kind != 0
    ensures Mirrored(Next(s, a))
  {
    var s' := Next(s, a);
    forall m, d: Ino | m in s'.mounts
      ensures EffectsOn(s'.effects, m, d) == LogOn(s'.mounts[m].log, d) + Waiting(s', m, d) {
      WaitingAfter(s, a, m, d);
      MirrorStep(s, a, m, d);
    }
  }

  lemma MirrorDo(s: State, a: Step, m: Mid, d: Ino)
    requires Enabled(s, a) && a.Do? && m in s.mounts
    ensures var s', p := Next(s, a), s.Ph(a.t);
            && s'.mounts == s.mounts
            && EffectsOn(s'.effects, m, d)
               == EffectsOn(s.effects, m, d) + (if p.m == m && d in p.have then [|s.effects|] else [])
  {
    var p := s.Ph(a.t);
    EffectsGrow(s.effects, Effect(p.m, a.op, p.have, Apply(s.fs, a.op).Ok?), m, d);
  }

  lemma MirrorAppend(s: State, a: Step, m: Mid, d: Ino)
    requires Enabled(s, a) && a.Append? && m in s.mounts
    ensures var s', p := Next(s, a), s.Ph(a.t);
            && s'.effects == s.effects && m in s'.mounts
            && LogOn(s'.mounts[m].log, d)
               == LogOn(s.mounts[m].log, d) + (if p.m == m && d in p.dirs then [p.eff] else [])
  {
    var p := s.Ph(a.t);
    LogOnGrows(s.mounts[m].log, Entry(p.op, p.dirs, p.eff, p.epoch, p.id), d);
  }

  lemma MirrorQuiet(s: State, a: Step, m: Mid)
    requires Enabled(s, a) && !a.Do? && !a.Append? && m in Next(s, a).mounts
    ensures var s' := Next(s, a);
            s'.effects == s.effects && if m in s.mounts then s'.mounts[m].log == s.mounts[m].log else s'.mounts[m].log == []
    ensures m !in s.mounts ==> a.MountFs? || (!a.Start? && !a.Finish? && !a.Fill?)
  {
  }

  lemma MirrorStep(s: State, a: Step, m: Mid, d: Ino)
    requires LocksHeld(s) && Mounted(s) && Mirrored(s) && Enabled(s, a) && m in Next(s, a).mounts
    requires a.Fill? ==> s.Ph(a.t).kind != 0
    ensures var s' := Next(s, a);
            EffectsOn(s'.effects, m, d) == LogOn(s'.mounts[m].log, d) + Waiting(s', m, d)
  {
    WaitingAfter(s, a, m, d);
    hide Waiting, Next, EffectsOn, LogOn, LocksHeld, Mounted;
    if a.Do? {
      MirrorDo(s, a, m, d);
    } else if a.Append? {
      MirrorAppend(s, a, m, d);
    } else {
      MirrorQuiet(s, a, m);
      if m !in s.mounts {
        NoEffectsYet(s.effects, m, d);
        NothingWaits(s, m, d);
      }
    }
  }

  lemma NothingWaits(s: State, m: Mid, d: Ino)
    requires Mounted(s) && m !in s.mounts
    ensures Waiting(s, m, d) == []
  {
  }

  lemma {:induction false} RunMirrors(s: State, steps: seq<Step>, r: State)
    requires Exclusive(s) && Follows(s) && Mounted(s) && Mirrored(s) && Runs(s, steps, r) && Unmasked(r)
    ensures Exclusive(r) && Mirrored(r) && Unmasked(s)
    decreases |steps|
  {
    hide *;
    if |steps| == 0 {
      RunsNil(s, steps, r);
    } else {
      var a := steps[0];
      RunsCons(s, steps, r);
      ExclusiveParts(s);
      KeepsExclusive(s, a);
      KeepsFollows(s, a);
      KeepsMounted(s, a);
      UnmaskedThroughout(Next(s, a), steps[1..], r);
      UnmaskedBefore(s, a);
      if a.Fill? {
        FillIsTyped(s, a);
        NothingDropped(s, a.t);
      }
      KeepsMirrored(s, a);
      RunMirrors(Next(s, a), steps[1..], r);
    }
  }

  lemma ExclusiveParts(s: State)
    requires Exclusive(s)
    ensures LocksHeld(s) && LogLockHeld(s)
  {
  }

  lemma FillIsTyped(s: State, a: Step)
    requires Enabled(s, a) && a.Fill?
    ensures s.Ph(a.t).Typed?
  {
  }

  lemma RunsNil(s: State, steps: seq<Step>, r: State)
    requires Runs(s, steps, r) && |steps| == 0
    ensures s == r
  {
  }

  lemma RunsCons(s: State, steps: seq<Step>, r: State)
    requires Runs(s, steps, r) && |steps| > 0
    ensures Enabled(s, steps[0]) && Runs(Next(s, steps[0]), steps[1..], r)
  {
  }

  lemma {:induction false} UnmaskedThroughout(s: State, steps: seq<Step>, r: State)
    requires Runs(s, steps, r) && Unmasked(r)
    ensures Unmasked(s)
    decreases steps
  {
    hide Next, Enabled, Unmasked;
    if steps != [] {
      UnmaskedThroughout(Next(s, steps[0]), steps[1..], r);
      UnmaskedBefore(s, steps[0]);
    }
  }

  /**
   * In every reachable state with the masks untouched and no effect of mount `m` waiting to be logged, the
   * log of `m` restricted to a lower directory is the sequence of its effects restricted to that directory.
   */
  lemma DirectoriesAgree(fs: FileSys, steps: seq<Step>, r: State, m: Mid, d: Ino)
    requires Runs(Initial(fs), steps, r) && Unmasked(r) && m in r.mounts
    requires forall t :: r.Ph(t).Pending() ==> r.Ph(t).m != m
    ensures EffectsOn(r.effects, m, d) == LogOn(r.mounts[m].log, d)
  {
    InitialOrdered(fs);
    RunMirrors(Initial(fs), steps, r);
    assert Waiting(r, m, d) == [];
  }
}
