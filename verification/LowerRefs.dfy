/** References on lower paths: what upper dentries store and what operations hold while they run. */
module LowerRefs {
  import opened Records

  /** A lower dentry with its mount: what one `struct path` pins. */
  type LowerPath = int
  type Dentry = int

  /**
   * `refs` counts the references trfs owns on each lower path, `slots` is the private data of the upper
   * dentries (a zeroed lower_path is `None`) and `flying` the local `struct path`s of running operations.
   */
  datatype Refs = Refs(refs: map<LowerPath, int>, slots: map<Dentry, Option<LowerPath>>, flying: multiset<LowerPath>)
  {
    function Count(l: LowerPath): int { if l in refs then refs[l] else 0 }

    function Add(l: LowerPath, n: int): Refs { this.(refs := refs[l := Count(l) + n]) }

    function Storing(l: LowerPath): set<Dentry> { set d | d in slots && slots[d] == Some(l) }
  }

  /** Conservation: every reference belongs to one storing dentry or one running operation. */
  ghost predicate Balanced(v: Refs) {
    forall l :: v.Count(l) == |v.Storing(l)| + v.flying[l]
  }

  /** The moves of trfs.h, lookup.c and dentry.c; any interleaving of operations is a sequence of these. */
  datatype Event =
    | Get(d: Dentry)                    // trfs_get_lower_path
    | Put(l: LowerPath)                 // trfs_put_lower_path
    | Take(l: LowerPath)                // a lower lookup, or d_lookup/d_alloc with mntget, hands over a path
    | Store(d: Dentry, l: LowerPath)    // trfs_set_lower_path
    | PutReset(d: Dentry)               // trfs_put_reset_lower_path
    | NewData(d: Dentry)                // new_dentry_private_data
    | FreeData(d: Dentry)               // free_dentry_private_data

  predicate Allowed(v: Refs, e: Event) {
    match e
    case Get(d) => d in v.slots
    case Put(l) => l in v.flying
    case Take(l) => true
    case Store(d, l) => d in v.slots && v.slots[d] == None && l in v.flying
    case PutReset(d) => d in v.slots
    case NewData(d) => d !in v.slots
    case FreeData(d) => d in v.slots && v.slots[d] == None
  }

  function Do(v: Refs, e: Event): Refs {
    match e
    case Get(d) =>
      if d in v.slots && v.slots[d].Some?
      then v.Add(v.slots[d].value, 1).(flying := v.flying + multiset{v.slots[d].value})
      else v
    case Put(l) => v.Add(l, -1).(flying := v.flying - multiset{l})
    case Take(l) => v.Add(l, 1).(flying := v.flying + multiset{l})
    case Store(d, l) => v.(slots := v.slots[d := Some(l)], flying := v.flying - multiset{l})
    case PutReset(d) =>
      if d in v.slots && v.slots[d].Some?
      then v.Add(v.slots[d].value, -1).(slots := v.slots[d := None])
      else v
    case NewData(d) => v.(slots := v.slots[d := None])
    case FreeData(d) => v.(slots := v.slots - {d})
  }

  lemma StoringAfter(v: Refs, e: Event, l: LowerPath)
    requires Allowed(v, e)
    ensures var a, b := v.Storing(l), Do(v, e).Storing(l);
            if e.Store? && e.l == l then b == a + {e.d} && e.d !in a
            else if e.PutReset? && v.slots[e.d] == Some(l) then a == b + {e.d} && e.d !in b
            else a == b
  {
  }

  lemma CountAfter(v: Refs, e: Event, l: LowerPath)
    requires Allowed(v, e)
    ensures var w := Do(v, e);
            w.Count(l) - w.flying[l] - (v.Count(l) - v.flying[l])
            == if e.Store? && e.l == l then 1 else if e.PutReset? && v.slots[e.d] == Some(l) then -1 else 0
  {
  }

  lemma KeepsBalance(v: Refs, e: Event)
    requires Balanced(v) && Allowed(v, e)
    ensures Balanced(Do(v, e))
  {
    hide Do, Refs.Count, Refs.Storing;
    var w := Do(v, e);
    forall l ensures w.Count(l) == |w.Storing(l)| + w.flying[l] {
      StoringAfter(v, e, l);
      CountAfter(v, e, l);
      assert v.Count(l) == |v.Storing(l)| + v.flying[l];
    }
  }

  /** Storing over a path that is still there would lose a reference: the slot must be empty. */
  lemma StoreKeepsBalanceIff(v: Refs, d: Dentry, l: LowerPath)
    requires Balanced(v) && d in v.slots && l in v.flying
    ensures Balanced(Do(v, Store(d, l))) <==> v.slots[d] == None
  {
    if v.slots[d] == None {
      KeepsBalance(v, Store(d, l));
    } else {
      var k, w := v.slots[d].value, Do(v, Store(d, l));
      assert v.Count(k) == |v.Storing(k)| + v.flying[k];
      if k == l {
        assert w.Storing(k) == v.Storing(k);
      } else {
        assert v.Storing(k) == w.Storing(k) + {d} && d !in w.Storing(k);
      }
      assert w.Count(k) != |w.Storing(k)| + w.flying[k];
    }
  }

  predicate Runs(v: Refs, events: seq<Event>, w: Refs)
    decreases events
  {
    if events == [] then v == w else Allowed(v, events[0]) && Runs(Do(v, events[0]), events[1..], w)
  }

  const NOTHING: Refs := Refs(map[], map[], multiset{})

  lemma FreshMountBalanced()
    ensures Balanced(NOTHING)
  {
    assert forall l :: NOTHING.Storing(l) == {};
  }

  lemma {:induction false} RunKeepsBalance(v: Refs, events: seq<Event>, w: Refs)
    requires Balanced(v) && Runs(v, events, w)
    ensures Balanced(w)
    decreases events
  {
    if events != [] {
      KeepsBalance(v, events[0]);
      RunKeepsBalance(Do(v, events[0]), events[1..], w);
    }
  }

  /**
   * From mount on, after any interleaving of lookups, gets, puts and releases, each lower path's references
   * are the dentries that store it plus the operations that hold it; they are never negative, and none is
   * left once every dentry has been released and every operation has ended.
   */
  lemma RunBalanced(events: seq<Event>, w: Refs)
    requires Runs(NOTHING, events, w)
    ensures Balanced(w)
    ensures forall l :: w.Count(l) >= 0
    ensures w.slots == map[] && w.flying == multiset{} ==> forall l :: w.Count(l) == 0
  {
    FreshMountBalanced();
    RunKeepsBalance(NOTHING, events, w);
    assert w.slots == map[] ==> forall l :: w.Storing(l) == {};
  }

  /** The reference an operation holds on a path it has got from a dentry. */
  function Own(lower: Option<LowerPath>): multiset<LowerPath> {
    if lower.Some? then multiset{lower.value} else multiset{}
  }

  lemma Returned(flying: multiset<LowerPath>, own: multiset<LowerPath>)
    ensures own <= flying + own && flying + own - own == flying
  {
  }

  const ENOENT: int := 2
  const ECHILD: int := 10
  const ENOMEM: int := 12

  /** What the lower file system answers to a lookup: a path, or an error code. */
  datatype Answer = Found(path: LowerPath) | Failed(error: int)

  /** The mutable side: one mount's dentries and references. */
  class Stack {
    var refs: map<LowerPath, int>
    var slots: map<Dentry, Option<LowerPath>>
    ghost var flying: multiset<LowerPath>

    ghost function View(): Refs
      reads this
    {
      Refs(refs, slots, flying)
    }

    constructor ()
      ensures View() == NOTHING
    {
      refs, slots, flying := map[], map[], multiset{};
    }

    method PathGet(l: LowerPath)
      modifies this`refs, this`flying
      ensures View() == Do(old(View()), Take(l))
    {
      refs := refs[l := (if l in refs then refs[l] else 0) + 1];
      flying := flying + multiset{l};
    }

    method PathPut(l: LowerPath)
      modifies this`refs, this`flying
      ensures View() == Do(old(View()), Put(l))
    {
      refs := refs[l := (if l in refs then refs[l] else 0) - 1];
      flying := flying - multiset{l};
    }

    method GetLowerPath(d: Dentry) returns (lower: Option<LowerPath>)
      requires d in slots
      modifies this`refs, this`flying
      ensures View() == Do(old(View()), Get(d)) && lower == slots[d]
    {
      lower := slots[d];
      if lower.Some? {
        PathGet(lower.value);
      }
    }

    method PutLowerPath(lower: Option<LowerPath>)
      requires lower.Some? ==> lower.value in flying
      modifies this`refs, this`flying
      ensures View() == if lower.Some? then Do(old(View()), Put(lower.value)) else old(View())
    {
      if lower.Some? {
        PathPut(lower.value);
      }
    }

    method SetLowerPath(d: Dentry, l: LowerPath)
      requires Allowed(View(), Store(d, l))
      modifies this`slots, this`flying
      ensures View() == Do(old(View()), Store(d, l))
    {
      slots := slots[d := Some(l)];
      flying := flying - multiset{l};
    }

    method PutResetLowerPath(d: Dentry)
      requires d in slots
      modifies this
      ensures View() == Do(old(View()), PutReset(d))
    {
      var lower := slots[d];
      slots := slots[d := None];
      if lower.Some? {
        refs := refs[lower.value := (if lower.value in refs then refs[lower.value] else 0) - 1];
      }
    }

    /** trfs_d_release. */
    method Release(d: Dentry)
      requires Balanced(View()) && d in slots
      modifies this
      ensures Balanced(View()) && flying == old(flying) && slots == old(slots) - {d}
      ensures forall l :: View().Count(l) == old(View().Count(l)) - (if old(slots)[d] == Some(l) then 1 else 0)
    {
      KeepsBalance(View(), PutReset(d));
      PutResetLowerPath(d);
      KeepsBalance(View(), FreeData(d));
      slots := slots - {d};
    }

    /** trfs_d_revalidate: whatever the lower file system says, if it says anything, the references are as before. */
    method Revalidate(d: Dentry, rcu: bool, verdict: Option<int>) returns (r: int)
      requires Balanced(View()) && d in slots
      modifies this`refs, this`flying
      ensures Balanced(View()) && flying == old(flying)
      ensures forall l :: View().Count(l) == old(View().Count(l))
      ensures r == if rcu then -10 else if verdict.Some? then verdict.value else 1
    {
      if rcu {
        return -ECHILD;
      }
      KeepsBalance(View(), Get(d));
      var lower := GetLowerPath(d);
      if lower.Some? {
        KeepsBalance(View(), Put(lower.value));
      }
      PutLowerPath(lower);
      assert flying == old(flying);
      r := if verdict.Some? then verdict.value else 1;
    }

    /** A path the lower file system hands over becomes the dentry's. */
    method Adopt(d: Dentry, l: LowerPath)
      requires Balanced(View()) && d in slots && slots[d] == None
      modifies this
      ensures Balanced(View()) && flying == old(flying) && slots == old(slots)[d := Some(l)]
    {
      KeepsBalance(View(), Take(l));
      PathGet(l);
      KeepsBalance(View(), Store(d, l));
      SetLowerPath(d, l);
      assert flying == old(flying);
    }

    method Drop(d: Dentry)
      requires Balanced(View()) && d in slots
      modifies this
      ensures Balanced(View()) && flying == old(flying) && slots == old(slots)[d := None]
    {
      KeepsBalance(View(), PutReset(d));
      PutResetLowerPath(d);
      assert slots == old(slots)[d := None];
    }

    /** Take and give back the path of a dentry around `trfs_lookup`'s work. */
    method Hold(d: Dentry) returns (lower: Option<LowerPath>)
      requires Balanced(View()) && d in slots
      modifies this`refs, this`flying
      ensures Balanced(View()) && lower == slots[d]
      ensures flying == old(flying) + Own(lower)
    {
      KeepsBalance(View(), Get(d));
      lower := GetLowerPath(d);
    }

    method LetGo(lower: Option<LowerPath>)
      requires Balanced(View()) && Own(lower) <= flying
      modifies this`refs, this`flying
      ensures Balanced(View())
      ensures flying == old(flying) - Own(lower)
    {
      if lower.Some? {
        KeepsBalance(View(), Put(lower.value));
      }
      PutLowerPath(lower);
    }

    /** new_dentry_private_data, when the allocation succeeds: a zeroed slot. */
    method Attach(d: Dentry)
      requires Balanced(View()) && d !in slots
      modifies this`slots
      ensures Balanced(View()) && slots == old(slots)[d := None]
    {
      KeepsBalance(View(), NewData(d));
      slots := slots[d := None];
    }

    /** __trfs_lookup, once the private data is there. */
    method LookupLower(d: Dentry, root: bool, answer: Answer, interposed: int, negative: Option<LowerPath>) returns (err: int)
      requires Balanced(View()) && d in slots && slots[d] == None
      requires answer.Failed? ==> answer.error < 0
      requires interposed <= 0
      modifies this
      ensures Balanced(View()) && flying == old(flying)
      ensures root ==> err == 0 && slots == old(slots)
      ensures !root && answer.Found? ==>
                err == interposed && slots == if interposed == 0 then old(slots)[d := Some(answer.path)] else old(slots)
      ensures !root && answer.Failed? && answer.error != -2 ==> err == answer.error && slots == old(slots)
      ensures !root && answer == Failed(-2) ==>
                if negative.Some? then err == 0 && slots == old(slots)[d := negative] else err == -12 && slots == old(slots)
    {
      hide Balanced;
      assert slots == slots[d := None];
      if root {
        return 0;
      }
      if answer.Found? {
        Adopt(d, answer.path);
        err := interposed;
        if err < 0 {
          Drop(d);
        }
        return;
      }
      if answer.error != -ENOENT {
        return answer.error;
      }
      if negative.None? {
        return -ENOMEM;
      }
      Adopt(d, negative.value);
      return 0;
    }

    /**
     * trfs_lookup of a new dentry below `parent`. The lower file system's answer, the outcome of the
     * interposition (0 or an error) and of the allocations are given. On every way out the books balance and
     * the parent's path has been put. A lower error other than ENOENT (2) comes back as it is; a found path
     * gives the result of the interposition, and is stored if that succeeded; where there is none, the
     * negative path is stored, or memory (ENOMEM, 12) was short; a root stores none.
     */
    method Lookup(parent: Dentry, d: Dentry, gotData: bool, root: bool, answer: Answer, interposed: int,
                  negative: Option<LowerPath>) returns (err: int)
      requires Balanced(View()) && parent in slots && d !in slots
      requires answer.Failed? ==> answer.error < 0
      requires interposed <= 0
      modifies this
      ensures Balanced(View()) && flying == old(flying)
      ensures !gotData ==> err == -12 && slots == old(slots)
      ensures gotData && root ==> err == 0 && slots == old(slots)[d := None]
      ensures gotData && !root && answer.Found? ==>
                err == interposed && slots == old(slots)[d := if interposed == 0 then Some(answer.path) else None]
      ensures gotData && !root && answer.Failed? && answer.error != -2 ==>
                err == answer.error && slots == old(slots)[d := None]
      ensures gotData && !root && answer == Failed(-2) ==>
                slots == old(slots)[d := negative] && err == if negative.Some? then 0 else -12
    {
      assert ENOMEM == 12;
      hide *;
      var lowerParent := Hold(parent);
      if !gotData {
        err := -ENOMEM;
      } else {
        Attach(d);
        err := LookupLower(d, root, answer, interposed, negative);
      }
      Returned(old(flying), Own(lowerParent));
      LetGo(lowerParent);
    }
  }
}
