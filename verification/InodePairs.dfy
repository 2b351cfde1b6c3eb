/** Upper inodes over lower ones: trfs_iget (trfs/lookup.c) and trfs_evict_inode (trfs/super.c). */
module InodePairs {
  import opened Records

  type Lower = int
  type Mount = int

  /** An upper inode: its mount, and an identity within it. */
  datatype Upper = Upper(sb: Mount, number: int)

  /**
   * An upper inode is hashed by iget5_locked before trfs_iget gives it its lower inode: until then it is
   * `Pending`, and trfs_inode_test cannot match it. `Stuck` is one whose lower inode igrab refused; it stays
   * locked, without a lower inode.
   */
  datatype Stage = Pending(lower: Lower) | Live(lower: Lower) | Stuck

  /** `counts` is each lower inode's i_count and `pins` how much of it is held by others than trfs. */
  datatype World = World(uppers: map<Upper, Stage>, counts: map<Lower, int>, pins: map<Lower, int>)
  {
    function Count(l: Lower): int { if l in counts then counts[l] else 0 }

    function Pins(l: Lower): int { if l in pins then pins[l] else 0 }

    function Adjust(l: Lower, n: int): World { this.(counts := counts[l := Count(l) + n]) }

    function At(s: Stage): set<Upper> { set u | u in uppers && uppers[u] == s }

    predicate Has(u: Upper, s: Stage) { u in uppers && uppers[u] == s }
  }

  /** Moves of concurrent operations; trfs_iget is one Find, one NoMemory, or a Begin with its ending. */
  datatype Move =
    | Find(u: Upper, l: Lower)          // iget5_locked finds a cached inode
    | NoMemory(l: Lower)                // iget5_locked finds none and cannot allocate: iput(lower_inode)
    | Begin(u: Upper, l: Lower)         // iget5_locked hashes a new, locked inode
    | Finish(u: Upper)                  // igrab succeeds and the lower inode is set
    | Refuse(u: Upper)                  // igrab fails
    | Evict(u: Upper)
    | Pin(l: Lower)                     // someone else takes a reference on the lower inode
    | Unpin(l: Lower)

  ghost predicate Allowed(w: World, m: Move) {
    match m
    case Find(u, l) => w.Has(u, Live(l))
    case NoMemory(l) => true
    case Begin(u, l) => u !in w.uppers && forall v :: w.Has(v, Live(l)) ==> v.sb != u.sb
    case Finish(u) => u in w.uppers && w.uppers[u].Pending?
    case Refuse(u) => u in w.uppers && w.uppers[u].Pending?
    case Evict(u) => u in w.uppers && w.uppers[u].Live?
    case Pin(l) => true
    case Unpin(l) => w.Pins(l) > 0
  }

  function Do(w: World, m: Move): World {
    match m
    case Find(u, l) => w
    case NoMemory(l) => w.Adjust(l, -1)
    case Begin(u, l) => w.(uppers := w.uppers[u := Pending(l)])
    case Finish(u) =>
      if u in w.uppers && w.uppers[u].Pending?
      then w.Adjust(w.uppers[u].lower, 1).(uppers := w.uppers[u := Live(w.uppers[u].lower)])
      else w
    case Refuse(u) => w.(uppers := w.uppers[u := Stuck])
    case Evict(u) =>
      if u in w.uppers && w.uppers[u].Live?
      then w.Adjust(w.uppers[u].lower, -1).(uppers := w.uppers - {u})
      else w
    case Pin(l) => w.Adjust(l, 1).(pins := w.pins[l := w.Pins(l) + 1])
    case Unpin(l) => w.Adjust(l, -1).(pins := w.pins[l := w.Pins(l) - 1])
  }

  ghost predicate Runs(w: World, moves: seq<Move>, end: World)
    decreases moves
  {
    if moves == [] then w == end else Allowed(w, moves[0]) && Runs(Do(w, moves[0]), moves[1..], end)
  }

  /** How often an allocation failed on a lower inode. */
  function FailedIgets(moves: seq<Move>, l: Lower): nat {
    if moves == [] then 0 else Lost(moves[0], l) + FailedIgets(moves[1..], l)
  }

  function Lost(m: Move, l: Lower): nat {
    if m == NoMemory(l) then 1 else 0
  }

  ghost predicate NoFailure(moves: seq<Move>) {
    forall l :: FailedIgets(moves, l) == 0
  }

  /** The books with `lost` references given away too many on each lower inode. */
  ghost predicate CountedBut(w: World, l: Lower, lost: int) {
    w.Count(l) == w.Pins(l) + |w.At(Live(l))| - lost
  }

  /** Every live upper inode holds exactly one reference on its lower inode. */
  ghost predicate Counted(w: World) {
    forall l :: CountedBut(w, l, 0)
  }

  lemma LiveAfter(w: World, m: Move, l: Lower)
    requires Allowed(w, m)
    ensures var a, b := w.At(Live(l)), Do(w, m).At(Live(l));
            if m.Finish? && w.uppers[m.u] == Pending(l) then b == a + {m.u} && m.u !in a
            else if m.Evict? && w.uppers[m.u] == Live(l) then a == b + {m.u} && m.u !in b
            else a == b
  {
  }

  lemma CountedStep(w: World, m: Move, l: Lower, lost: int)
    requires Allowed(w, m) && CountedBut(w, l, lost)
    ensures CountedBut(Do(w, m), l, lost + Lost(m, l))
  {
    LiveAfter(w, m, l);
  }

  /**
   * In every interleaving, failures and races included, a lower inode's count is what others hold plus one
   * for each live upper inode, less one for each failed allocation.
   */
  lemma {:induction false} RunCounted(w: World, moves: seq<Move>, end: World, l: Lower, lost: int)
    requires Runs(w, moves, end) && CountedBut(w, l, lost)
    ensures CountedBut(end, l, lost + FailedIgets(moves, l))
    decreases moves
  {
    if moves != [] {
      CountedStep(w, moves[0], l, lost);
      RunCounted(Do(w, moves[0]), moves[1..], end, l, lost + Lost(moves[0], l));
    }
  }

  const NOTHING: World := World(map[], map[], map[])

  /** The world before the first mount. */
  lemma FreshPaired()
    ensures Paired(NOTHING) && Counted(NOTHING)
  {
    assert forall l :: NOTHING.At(Live(l)) == {};
  }

  /** So from mount on the books balance exactly when no allocation has failed. */
  lemma RunCountedIff(moves: seq<Move>, end: World)
    requires Runs(NOTHING, moves, end)
    ensures Counted(end) <==> NoFailure(moves)
  {
    FreshPaired();
    forall l ensures CountedBut(end, l, FailedIgets(moves, l)) {
      assert CountedBut(NOTHING, l, 0);
      RunCounted(NOTHING, moves, end, l, 0);
    }
    if Counted(end) {
      forall l ensures FailedIgets(moves, l) == 0 {
        assert CountedBut(end, l, 0);
      }
    } else if NoFailure(moves) {
      forall l ensures CountedBut(end, l, 0) {
        assert FailedIgets(moves, l) == 0;
      }
    }
  }

  /** At most one live or pending upper inode per mount and lower inode. */
  ghost predicate Paired(w: World) {
    forall u, v, l :: Bound(w, u, l) && Bound(w, v, l) && u.sb == v.sb ==> u == v
  }

  predicate Bound(w: World, u: Upper, l: Lower) {
    w.Has(u, Live(l)) || w.Has(u, Pending(l))
  }

  /** No other thread is between iget5_locked and trfs_set_lower_inode for this lower inode on this mount. */
  ghost predicate Alone(w: World, m: Move) {
    m.Begin? ==> forall v :: w.Has(v, Pending(m.l)) ==> v.sb != m.u.sb
  }

  lemma BoundAfter(w: World, m: Move, u: Upper, l: Lower)
    requires Allowed(w, m) && Bound(Do(w, m), u, l)
    ensures Bound(w, u, l) || m == Begin(u, l)
  {
  }

  /** One move keeps the pairing exactly when it does not begin beside a pending inode for the same pair. */
  lemma KeepsPairsIff(w: World, m: Move)
    requires Allowed(w, m) && Paired(w)
    ensures Paired(Do(w, m)) <==> Alone(w, m)
  {
    if Alone(w, m) {
      forall u, v, l | Bound(Do(w, m), u, l) && Bound(Do(w, m), v, l) && u.sb == v.sb
        ensures u == v
      {
        BoundAfter(w, m, u, l);
        BoundAfter(w, m, v, l);
      }
    } else {
      var v :| w.Has(v, Pending(m.l)) && v.sb == m.u.sb;
      assert Bound(Do(w, m), v, m.l) && Bound(Do(w, m), m.u, m.l);
    }
  }

  ghost predicate AllAlone(w: World, moves: seq<Move>)
    decreases moves
  {
    moves != [] ==> Alone(w, moves[0]) && AllAlone(Do(w, moves[0]), moves[1..])
  }

  /**
   * The pairing of upper and lower inodes: in every interleaved run from mount, over any number of mounts,
   * whose new inodes are begun alone and whose allocations succeed, a lower inode has at most one live upper
   * inode per mount, each live upper inode holds exactly one reference, and none is left once all are evicted.
   */
  lemma RunPairs(moves: seq<Move>, end: World)
    requires Runs(NOTHING, moves, end) && AllAlone(NOTHING, moves) && NoFailure(moves)
    ensures Paired(end) && Counted(end)
    ensures end.uppers == map[] ==> forall l :: end.Count(l) == end.Pins(l)
  {
    FreshPaired();
    RunKeepsPaired(NOTHING, moves, end);
    RunCountedIff(moves, end);
    if end.uppers == map[] {
      forall l ensures end.Count(l) == end.Pins(l) {
        assert CountedBut(end, l, 0) && end.At(Live(l)) == {};
      }
    }
  }

  lemma {:induction false} RunKeepsPaired(w: World, moves: seq<Move>, end: World)
    requires Runs(w, moves, end) && AllAlone(w, moves) && Paired(w)
    ensures Paired(end)
    decreases moves
  {
    if moves != [] {
      KeepsPairsIff(w, moves[0]);
      RunKeepsPaired(Do(w, moves[0]), moves[1..], end);
    }
  }

  /** Two lookups of one lower inode, through two of its names, can both miss the other's new inode. */
  lemma RaceGivesTwo(l: Lower, sb: Mount)
    ensures var u, v := Upper(sb, 0), Upper(sb, 1);
            var moves := [Begin(u, l), Begin(v, l), Finish(u), Finish(v)];
            exists end :: Runs(NOTHING, moves, end) && end.Has(u, Live(l)) && end.Has(v, Live(l))
  {
    var u, v := Upper(sb, 0), Upper(sb, 1);
    var w1 := Do(NOTHING, Begin(u, l));
    var w2 := Do(w1, Begin(v, l));
    var w3 := Do(w2, Finish(u));
    var end := Do(w3, Finish(v));
    assert Runs(end, [], end);
    RunsCons(w3, Finish(v), [], end);
    RunsCons(w2, Finish(u), [Finish(v)], end);
    RunsCons(w1, Begin(v, l), [Finish(u), Finish(v)], end);
    RunsCons(NOTHING, Begin(u, l), [Begin(v, l), Finish(u), Finish(v)], end);
    assert [Begin(u, l)] + [Begin(v, l), Finish(u), Finish(v)] == [Begin(u, l), Begin(v, l), Finish(u), Finish(v)];
  }

  lemma RunsCons(w: World, m: Move, rest: seq<Move>, end: World)
    requires Allowed(w, m) && Runs(Do(w, m), rest, end)
    ensures Runs(w, [m] + rest, end)
  {
    assert ([m] + rest)[1..] == rest;
  }

  const EACCES: int := 13
  const ESTALE: int := 116

  datatype Got = Got(inode: Upper) | Failed(error: int)

  /** The inode cache as trfs_iget and trfs_evict_inode change it. */
  class Inodes {
    var uppers: map<Upper, Stage>
    var counts: map<Lower, int>
    ghost var pins: map<Lower, int>

    ghost function View(): World
      reads this
    {
      World(uppers, counts, pins)
    }

    constructor ()
      ensures View() == NOTHING
    {
      uppers, counts, pins := map[], map[], map[];
    }

    /** iget5_locked with trfs_inode_test: the matching inode of this mount, if it is cached. */
    method Cached(sb: Mount, l: Lower) returns (found: Option<Upper>)
      ensures found.Some? ==> found.value.sb == sb && View().Has(found.value, Live(l))
      ensures found.None? ==> forall u :: View().Has(u, Live(l)) ==> u.sb != sb
    {
      found := None;
      if u :| u in uppers && u.sb == sb && uppers[u] == Live(l) {
        found := Some(u);
      }
    }

    method Iput(l: Lower)
      modifies this`counts
      ensures View() == old(View()).Adjust(l, -1)
    {
      counts := counts[l := (if l in counts then counts[l] else 0) - 1];
    }

    /**
     * trfs_iget, undisturbed. `room` is the inode iget5_locked would allocate, if it can, and `grabbed`
     * whether igrab would find the lower inode alive. A cached inode is returned without a new reference;
     * otherwise the new one is live and holds one, or nothing is paired.
     */
    method Iget(sb: Mount, l: Lower, room: Option<int>, grabbed: bool) returns (r: Got)
      requires room.Some? ==> Upper(sb, room.value) !in uppers
      requires Paired(View()) && forall u :: View().Has(u, Pending(l)) ==> u.sb != sb
      modifies this`uppers, this`counts
      ensures Paired(View()) && (r.Got? ==> r.inode.sb == sb && View().Has(r.inode, Live(l)))
      ensures forall lost, k :: old(CountedBut(View(), k, lost))
                ==> CountedBut(View(), k, if k == l && r == Failed(-13) then lost + 1 else lost)
      ensures r.Got? ==> uppers == old(uppers)[r.inode := Live(l)]
      ensures r.Failed? && room.None? ==> r.error == -13 && uppers == old(uppers)
      ensures r.Failed? && room.Some? ==>
                r.error == -116 && View() == old(View()).(uppers := old(uppers)[Upper(sb, room.value) := Stuck])
      ensures r.Got? <==> (exists u: Upper :: u.sb == sb && old(View().Has(u, Live(l)))) || (room.Some? && grabbed)
    {
      hide CountedBut, Paired;
      ghost var was := View();
      var cached := Cached(sb, l);
      if cached.Some? {
        return Got(cached.value);
      }
      if room.None? {
        KeepsPairsIff(was, NoMemory(l));
        KeepsCounted(was, NoMemory(l));
        Iput(l);
        return Failed(-EACCES);
      }
      var u := Upper(sb, room.value);
      var w := Do(was, Begin(u, l));
      KeepsPairsIff(was, Begin(u, l));
      KeepsCounted(was, Begin(u, l));
      uppers := uppers[u := Pending(l)];
      if !grabbed {
        KeepsPairsIff(w, Refuse(u));
        KeepsCounted(w, Refuse(u));
        uppers := uppers[u := Stuck];
        return Failed(-ESTALE);
      }
      KeepsPairsIff(w, Finish(u));
      KeepsCounted(w, Finish(u));
      counts := counts[l := (if l in counts then counts[l] else 0) + 1];
      uppers := uppers[u := Live(l)];
      return Got(u);
    }

    /** trfs_evict_inode gives the one reference back. */
    method EvictInode(u: Upper)
      requires u in uppers && uppers[u].Live? && Paired(View())
      modifies this`uppers, this`counts
      ensures Paired(View()) && uppers == old(uppers) - {u}
      ensures View() == Do(old(View()), Evict(u))
      ensures forall l, lost :: old(CountedBut(View(), l, lost)) ==> CountedBut(View(), l, lost)
    {
      ghost var was := View();
      KeepsPairsIff(was, Evict(u));
      KeepsCounted(was, Evict(u));
      var lower := uppers[u].lower;
      uppers := uppers - {u};
      Iput(lower);
    }
  }

  lemma KeepsCounted(w: World, m: Move)
    requires Allowed(w, m)
    ensures forall l, lost :: CountedBut(w, l, lost)
              ==> CountedBut(Do(w, m), l, lost + Lost(m, l))
  {
    forall l, lost | CountedBut(w, l, lost)
      ensures CountedBut(Do(w, m), l, lost + Lost(m, l))
    {
      CountedStep(w, m, l, lost);
    }
  }
}
