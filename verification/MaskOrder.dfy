/** Mask filtering in the order of trfs_lock, whatever trctl does meanwhile. */
module MaskOrder {
  import opened Records
  import opened TraceLog
  import opened FileSystem
  import opened Replaying
  import opened Protocol

  function Last<T>(s: seq<T>): T
    requires s != []
  {
    s[|s| - 1]
  }

  function Front<T>(s: seq<T>): seq<T>
    requires s != []
  {
    s[..|s| - 1]
  }

  /** The mask in force after the events of `h`. */
  function LatestMask(h: seq<Event>): nat {
    if h == [] then MASK_ALL
    else if Last(h).MaskSet? then Last(h).mask
    else LatestMask(Front(h))
  }

  /** The operations whose kind the latest mask before them selects. */
  function Chosen(h: seq<Event>): seq<(Op, nat)> {
    if h == [] then []
    else if Last(h).Asked? && Selected(Kind(Last(h).op), LatestMask(Front(h))) != 0
    then Chosen(Front(h)) + [(Last(h).op, Last(h).eff)]
    else Chosen(Front(h))
  }

  function Keys(log: seq<Entry>): seq<(Op, nat)> {
    if log == [] then [] else Keys(Front(log)) + [(Last(log).op, Last(log).eff)]
  }

  function OwnerPhase(s: State, m: Mid): Phase
    requires m in s.mounts
  {
    if s.mounts[m].owner.Some? then s.Ph(s.mounts[m].owner.value) else Idle
  }

  /** Everything but the lock holder's own event has been acted upon. */
  ghost predicate UpTo(mt: Mount, last: Event) {
    mt.hist != [] && Last(mt.hist) == last && Chosen(Front(mt.hist)) == Keys(mt.log) && mt.mask == LatestMask(Front(mt.hist))
  }

  ghost predicate MountFollows(mt: Mount, p: Phase) {
    match p
    case Entered(_, op, _, eff) => UpTo(mt, Asked(op, eff))
    case Typed(_, op, _, eff, kind) => UpTo(mt, Asked(op, eff)) && kind == Selected(Kind(op), mt.mask)
    case Drawn(_, op, _, eff, _, _) => UpTo(mt, Asked(op, eff)) && Selected(Kind(op), mt.mask) != 0
    case CtlEntered(_, mask) => UpTo(mt, MaskSet(mask))
    case _ => Chosen(mt.hist) == Keys(mt.log) && mt.mask == LatestMask(mt.hist)
  }

  ghost predicate Follows(s: State) {
    forall m :: m in s.mounts ==> MountFollows(s.mounts[m], OwnerPhase(s, m))
  }

  lemma HistGrows(h: seq<Event>, e: Event)
    ensures Last(h + [e]) == e && Front(h + [e]) == h
  {
  }

  lemma LogGrows(log: seq<Entry>, e: Entry)
    ensures Keys(log + [e]) == Keys(log) + [(e.op, e.eff)]
  {
    assert Front(log + [e]) == log;
  }

  predicate Grows(a: Step) { a.Enter? || a.Append? || a.CtlEnter? }

  /** A step by anyone but the owner of `m` that takes no lock and appends nothing. */
  lemma ForeignStep(s: State, a: Step, m: Mid)
    requires LogLockHeld(s) && m in s.mounts && Enabled(s, a) && !Grows(a)
    requires a.MountFs? || s.mounts[m].owner != Some(a.t)
    ensures m in Next(s, a).mounts && Next(s, a).mounts[m] == s.mounts[m] && OwnerPhase(Next(s, a), m) == OwnerPhase(s, m)
  {
    if s.mounts[m].owner.Some? {
      OthersStay(s, a, s.mounts[m].owner.value);
    }
  }

  /** A step of the owner of `m`. */
  lemma OwnStep(s: State, a: Step, m: Mid)
    requires LogLockHeld(s) && m in s.mounts && MountFollows(s.mounts[m], OwnerPhase(s, m)) && Enabled(s, a)
    requires !Grows(a) && !a.MountFs? && s.mounts[m].owner == Some(a.t)
    ensures m in Next(s, a).mounts && MountFollows(Next(s, a).mounts[m], OwnerPhase(Next(s, a), m))
  {
  }

  lemma FreshFollows(s: State, a: Step)
    requires Enabled(s, a) && a.MountFs?
    ensures var s' := Next(s, a);
            a.m in s'.mounts && MountFollows(s'.mounts[a.m], OwnerPhase(s', a.m)) && s'.mounts.Keys == s.mounts.Keys + {a.m}
  {
  }

  lemma SameMounts(s: State, a: Step)
    requires LogLockHeld(s) && Enabled(s, a) && !a.MountFs?
    ensures Next(s, a).mounts.Keys == s.mounts.Keys
  {
  }

  lemma KeepsFollows(s: State, a: Step)
    requires LogLockHeld(s) && Follows(s) && Enabled(s, a)
    ensures Follows(Next(s, a))
  {
    hide Next, LogLockHeld, MountFollows, OwnerPhase, Enabled;
    var s' := Next(s, a);
    if a.MountFs? {
      FreshFollows(s, a);
    } else {
      SameMounts(s, a);
    }
    forall m | m in s'.mounts ensures MountFollows(s'.mounts[m], OwnerPhase(s', m)) {
      if m in s.mounts {
        assert MountFollows(s.mounts[m], OwnerPhase(s, m));
        if Grows(a) {
          GrowingStep(s, a, m);
        } else if a.MountFs? || s.mounts[m].owner != Some(a.t) {
          ForeignStep(s, a, m);
        } else {
          OwnStep(s, a, m);
        }
      } else {
        assert m in s'.mounts.Keys && m !in s.mounts.Keys;
      }
    }
  }

  lemma GrowingStep(s: State, a: Step, m: Mid)
    requires LogLockHeld(s) && m in s.mounts && MountFollows(s.mounts[m], OwnerPhase(s, m)) && Enabled(s, a)
    requires Grows(a)
    ensures m in Next(s, a).mounts && MountFollows(Next(s, a).mounts[m], OwnerPhase(Next(s, a), m))
  {
    var mt, p := s.mounts[m], s.Ph(a.t);
    if a.Enter? && p.m == m {
      HistGrows(mt.hist, Asked(p.op, p.eff));
    } else if a.CtlEnter? && a.m == m {
      HistGrows(mt.hist, MaskSet(a.mask));
    } else if a.Append? && p.m == m {
      LogGrows(mt.log, Entry(p.op, p.dirs, p.eff, p.epoch, p.id));
    } else if mt.owner.Some? {
      OthersStay(s, a, mt.owner.value);
    }
  }

  lemma {:induction false} RunFollows(s: State, steps: seq<Step>, r: State)
    requires Exclusive(s) && Follows(s) && Runs(s, steps, r)
    ensures Exclusive(r) && Follows(r)
    decreases steps
  {
    if steps != [] {
      KeepsExclusive(s, steps[0]);
      KeepsFollows(s, steps[0]);
      hide Exclusive, Follows, Next, Enabled;
      RunFollows(Next(s, steps[0]), steps[1..], r);
    }
  }

  /**
   * Whenever a mount's trfs_lock is free, its log is exactly the operations, in the order in which they got
   * that lock, whose kind is selected by the latest mask set before them in that order.
   */
  lemma LogIsChosen(fs: FileSys, steps: seq<Step>, r: State, m: Mid)
    requires Runs(Initial(fs), steps, r) && Free(r, m)
    ensures Keys(r.mounts[m].log) == Chosen(r.mounts[m].hist)
    ensures r.mounts[m].mask == LatestMask(r.mounts[m].hist)
  {
    InitialOrdered(fs);
    assert Follows(Initial(fs));
    RunFollows(Initial(fs), steps, r);
    assert MountFollows(r.mounts[m], OwnerPhase(r, m));
  }
}
