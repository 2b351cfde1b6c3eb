/** The shared record counter: drawn under the mount's trfs_lock, reset by every mount call. */
module RecordIds {
  import opened Records
  import opened FileSystem
  import opened Protocol

  /** Number of the mount call and of the draw since then. */
  datatype Stamp = Stamp(epoch: nat, id: nat)

  predicate Before(a: Stamp, b: Stamp) { a.epoch < b.epoch || (a.epoch == b.epoch && a.id < b.id) }

  function Of(e: Entry): Stamp { Stamp(e.epoch, e.id) }

  /** A stamp drawn for mount `m`: in its log, or by a thread about to append. */
  ghost predicate Drew(s: State, m: Mid, i: int, x: Stamp) {
    m in s.mounts && 0 <= i < |s.mounts[m].log| && x == Of(s.mounts[m].log[i])
  }

  ghost predicate Draws(s: State, t: Tid, x: Stamp) {
    s.Ph(t).Drawn? && x == Stamp(s.Ph(t).epoch, s.Ph(t).id)
  }

  ghost predicate Stamped(s: State) {
    && (forall m, i, x :: Drew(s, m, i, x) ==> Before(x, Stamp(s.epoch, s.counter)))
    && (forall t, x :: Draws(s, t, x) ==> Before(x, Stamp(s.epoch, s.counter)))
    && (forall m, i, j, x, y :: Drew(s, m, i, x) && Drew(s, m, j, y) && i < j ==> Before(x, y))
    && (forall t, x, i, y :: Draws(s, t, x) && Drew(s, s.Ph(t).m, i, y) ==> Before(y, x))
    && (forall m, n, i, j, x, y :: Drew(s, m, i, x) && Drew(s, n, j, y) && m != n ==> x != y)
    && (forall t, x, m, i, y :: Draws(s, t, x) && Drew(s, m, i, y) ==> x != y)
    && (forall t, u, x, y :: Draws(s, t, x) && Draws(s, u, y) && t != u ==> x != y)
  }

  lemma DrawsBefore(s: State, a: Step, t: Tid, x: Stamp)
    requires Enabled(s, a) && Draws(Next(s, a), t, x)
    ensures Draws(s, t, x) || (a == Fill(t) && x == Stamp(s.epoch, s.counter))
    ensures Next(s, a).Ph(t).m == s.Ph(t).m
  {
    if a.MountFs? || t != a.t {
      OthersStay(s, a, t);
    }
  }

  lemma DrewBefore(s: State, a: Step, m: Mid, i: int, x: Stamp)
    requires Enabled(s, a) && Drew(Next(s, a), m, i, x)
    ensures Drew(s, m, i, x) || (a.Append? && m == s.Ph(a.t).m && i == |s.mounts[m].log| && Draws(s, a.t, x))
  {
  }

  lemma KeepsStamped(s: State, a: Step)
    requires LogLockHeld(s) && Stamped(s) && Enabled(s, a)
    ensures Stamped(Next(s, a))
  {
    var s' := Next(s, a);
    hide Drew, Draws, Next;
    LaterClock(s, a);
    forall m, i, x | Drew(s', m, i, x) ensures Before(x, Stamp(s'.epoch, s'.counter)) {
      DrewBefore(s, a, m, i, x);
    }
    forall t, x | Draws(s', t, x) ensures Before(x, Stamp(s'.epoch, s'.counter)) {
      DrawsBefore(s, a, t, x);
    }
    forall m, i, j, x, y | Drew(s', m, i, x) && Drew(s', m, j, y) && i < j ensures Before(x, y) {
      DrewBefore(s, a, m, i, x);
      DrewBefore(s, a, m, j, y);
      DrewIndex(s, m, i, x);
      DrewIndex(s, m, j, y);
    }
    forall t, x, i, y | Draws(s', t, x) && Drew(s', s'.Ph(t).m, i, y) ensures Before(y, x) {
      DrawsBefore(s, a, t, x);
      DrewBefore(s, a, s'.Ph(t).m, i, y);
      OneDrawer(s, a, t, x);
    }
    forall m, n, i, j, x, y | Drew(s', m, i, x) && Drew(s', n, j, y) && m != n ensures x != y {
      DrewBefore(s, a, m, i, x);
      DrewBefore(s, a, n, j, y);
    }
    forall t, x, m, i, y | Draws(s', t, x) && Drew(s', m, i, y) ensures x != y {
      DrawsBefore(s, a, t, x);
      DrewBefore(s, a, m, i, y);
      OneDrawer(s, a, t, x);
    }
    forall t, u, x, y | Draws(s', t, x) && Draws(s', u, y) && t != u ensures x != y {
      DrawsBefore(s, a, t, x);
      DrawsBefore(s, a, u, y);
    }
  }

  lemma DrewIndex(s: State, m: Mid, i: int, x: Stamp)
    ensures Drew(s, m, i, x) ==> m in s.mounts && 0 <= i < |s.mounts[m].log|
  {
  }

  /** After its append a thread is no longer about to append; no other thread is, on the same mount. */
  lemma OneDrawer(s: State, a: Step, t: Tid, x: Stamp)
    requires LogLockHeld(s) && Enabled(s, a) && Draws(Next(s, a), t, x)
    ensures a.Append? ==> t != a.t && s.Ph(t).m != s.Ph(a.t).m
  {
    if a.Append? {
      assert t != a.t;
      OthersStay(s, a, t);
      assert s.Ph(t).Inside() && s.Ph(a.t).Inside();
    }
  }

  lemma LaterClock(s: State, a: Step)
    requires Enabled(s, a)
    ensures var s' := Next(s, a);
            forall x :: Before(x, Stamp(s.epoch, s.counter)) ==> Before(x, Stamp(s'.epoch, s'.counter))
    ensures a.Fill? && s.Ph(a.t).kind != 0 ==> Before(Stamp(s.epoch, s.counter), Stamp(Next(s, a).epoch, Next(s, a).counter))
  {
  }

  lemma {:induction false} RunStamped(s: State, steps: seq<Step>, r: State)
    requires Exclusive(s) && Stamped(s) && Runs(s, steps, r)
    ensures Stamped(r)
    decreases steps
  {
    if steps != [] {
      KeepsExclusive(s, steps[0]);
      KeepsStamped(s, steps[0]);
      hide Exclusive, Stamped, Next, Enabled;
      RunStamped(Next(s, steps[0]), steps[1..], r);
    }
  }

  /** rec_id as the header holds it. */
  function RecId(e: Entry): nat { e.id % 0x1_0000_0000 }

  /**
   * In every reachable state stamps increase along each log and differ between logs. So between two mount
   * calls, and for fewer than 2^32 draws, the record ids themselves increase along each log and two logs
   * never use the same id.
   */
  lemma IdsIncrease(fs: FileSys, steps: seq<Step>, r: State, m: Mid, i: nat, n: Mid, j: nat)
    requires Runs(Initial(fs), steps, r)
    requires m in r.mounts && i < |r.mounts[m].log| && n in r.mounts && j < |r.mounts[n].log|
    ensures var a, b := r.mounts[m].log[i], r.mounts[n].log[j];
            && (m == n && i < j ==> Before(Of(a), Of(b)))
            && (m != n ==> Of(a) != Of(b))
            && (a.epoch == b.epoch == r.epoch && r.counter <= 0x1_0000_0000 ==>
                  && (m == n && i < j ==> RecId(a) < RecId(b))
                  && (m != n ==> RecId(a) != RecId(b)))
  {
    InitialOrdered(fs);
    assert Stamped(Initial(fs));
    RunStamped(Initial(fs), steps, r);
    var x, y := Of(r.mounts[m].log[i]), Of(r.mounts[n].log[j]);
    assert Drew(r, m, i, x) && Drew(r, n, j, y);
  }

  // ----- a sole mount -----

  function Drawing(s: State, m: Mid): nat
    requires m in s.mounts
  {
    if s.mounts[m].owner.Some? && s.Ph(s.mounts[m].owner.value).Drawn? then 1 else 0
  }

  /** While only `m` is mounted its log is numbered from zero without gaps. */
  ghost predicate Numbered(s: State) {
    forall m :: s.mounts.Keys == {m} ==>
      && s.counter == |s.mounts[m].log| + Drawing(s, m)
      && (forall i :: 0 <= i < |s.mounts[m].log| ==> s.mounts[m].log[i].id == i)
      && (forall t :: s.Ph(t).Drawn? ==> s.Ph(t).id == |s.mounts[m].log|)
  }

  lemma NobodyInside(s: State, t: Tid)
    requires LogLockHeld(s) && forall n :: n !in s.mounts
    ensures !s.Ph(t).Inside()
  {
  }

  lemma KeepsNumbered(s: State, a: Step)
    requires LogLockHeld(s) && Numbered(s) && Enabled(s, a)
    ensures Numbered(Next(s, a))
  {
    var s' := Next(s, a);
    forall m | s'.mounts.Keys == {m}
      ensures s'.counter == |s'.mounts[m].log| + Drawing(s', m)
      ensures forall i :: 0 <= i < |s'.mounts[m].log| ==> s'.mounts[m].log[i].id == i
      ensures forall t :: s'.Ph(t).Drawn? ==> s'.Ph(t).id == |s'.mounts[m].log| {
      if a.MountFs? {
        assert a.m in s'.mounts.Keys && m == a.m;
        forall n ensures n !in s.mounts {
          assert n in s.mounts ==> n in s'.mounts.Keys && n != m;
        }
        forall t ensures !s'.Ph(t).Drawn? {
          OthersStay(s, a, t);
          NobodyInside(s, t);
        }
      } else {
        assert s.mounts.Keys == {m};
        SoleStep(s, a, m);
      }
    }
  }

  lemma SoleStep(s: State, a: Step, m: Mid)
    requires LogLockHeld(s) && Enabled(s, a) && !a.MountFs? && s.mounts.Keys == {m} && Numbered(s)
    ensures var s' := Next(s, a);
            && m in s'.mounts
            && s'.counter == |s'.mounts[m].log| + Drawing(s', m)
            && (forall i :: 0 <= i < |s'.mounts[m].log| ==> s'.mounts[m].log[i].id == i)
            && (forall t :: s'.Ph(t).Drawn? ==> s'.Ph(t).id == |s'.mounts[m].log|)
  {
    var s' := Next(s, a);
    assert forall n :: n in s.mounts <==> n == m;
    forall t | s'.Ph(t).Drawn? ensures s'.Ph(t).id == |s'.mounts[m].log| {
      if t != a.t {
        OthersStay(s, a, t);
        assert s.Ph(t).Inside();
        assert s.Ph(a.t).Inside() ==> s.Ph(a.t).m == m;
      }
    }
    if s.mounts[m].owner.Some? && s.mounts[m].owner.value != a.t {
      OthersStay(s, a, s.mounts[m].owner.value);
      assert s.Ph(a.t).Inside() ==> false;
    }
  }

  lemma {:induction false} RunNumbered(s: State, steps: seq<Step>, r: State)
    requires Exclusive(s) && Numbered(s) && Runs(s, steps, r)
    ensures Exclusive(r) && Numbered(r)
    decreases steps
  {
    if steps != [] {
      KeepsExclusive(s, steps[0]);
      KeepsNumbered(s, steps[0]);
      hide Exclusive, Numbered, Next, Enabled;
      RunNumbered(Next(s, steps[0]), steps[1..], r);
    }
  }

  /** The log of a sole, freshly mounted trfs carries the ids 0, 1, 2, ... */
  lemma SoleLogIsNumbered(fs: FileSys, steps: seq<Step>, r: State, m: Mid, i: nat)
    requires Runs(Initial(fs), steps, r) && r.mounts.Keys == {m} && i < |r.mounts[m].log|
    ensures r.mounts[m].log[i].id == i
  {
    InitialOrdered(fs);
    assert Numbered(Initial(fs)) by {
      forall n ensures Initial(fs).mounts.Keys != {n} {
        assert n !in Initial(fs).mounts.Keys;
      }
    }
    RunNumbered(Initial(fs), steps, r);
  }

  /** A mount call starts the ids again for every mount, with an empty log and all mask bits of its own. */
  lemma MountMeans(s: State, a: Step)
    requires Enabled(s, a) && a.MountFs?
    ensures var s' := Next(s, a);
            && s'.counter == 0 && s'.epoch == s.epoch + 1 && s'.mounts.Keys == s.mounts.Keys + {a.m}
            && s'.mounts[a.m].log == [] && s'.mounts[a.m].mask == 0xFFFF_FFFF_FFFF_FFFF && s'.mounts[a.m].owner.None?
            && (forall m :: m in s.mounts ==> s'.mounts[m] == s.mounts[m])
            && s'.fs == s.fs && s'.effects == s.effects && s'.threads == s.threads
  {
  }
}
