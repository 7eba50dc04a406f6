/**
  Reader-writer locks by key (src/async-locks.js, KeyedReadWriteLock).  Lock entries are
  created on demand, counted by reference and deleted when the last operation on the key is
  done.  An operation runs in three synchronous stretches: it finds its entry and asks for the
  lock; its callback ends and it calls the release closure; it drops its reference.
 */
module KeyedLock {
  import opened ReadWriteLock

  /** An entry object.  Entries live in allocation order; the position is the identity. */
  datatype Entry = Entry(lock: Lock, refs: int)

  /** Active: queued for the lock or inside the callback.  Released: the closure was called. */
  datatype Phase = Active | Released | Finished

  /** One runRead or runWrite call. */
  datatype Operation = Operation(key: string, entry: nat, waiter: Waiter, phase: Phase)

  datatype Keyed = Keyed(locks: map<string, nat>, heap: seq<Entry>, ops: seq<Operation>)

  const EMPTY: Keyed := Keyed(map[], [], [])

  // ---------------------------------------------------------------------------------------
  // What the methods compute

  ghost predicate Closed(s: Keyed) {
    && (forall k :: k in s.locks ==> s.locks[k] < |s.heap|)
    && (forall o :: 0 <= o < |s.ops| ==> s.ops[o].entry < |s.heap|)
  }

  /** entryFor: the key's entry, new if there is none, with one more reference. */
  function EntryFor(s: Keyed, key: string): (r: (Keyed, nat))
    requires forall k :: k in s.locks ==> s.locks[k] < |s.heap|
    ensures r.1 < |r.0.heap|
  {
    if key in s.locks then
      var e := s.locks[key];
      (s.(heap := s.heap[e := s.heap[e].(refs := s.heap[e].refs + 1)]), e)
    else
      (s.(heap := s.heap + [Entry(UNLOCKED, 1)], locks := s.locks[key := |s.heap|]), |s.heap|)
  }

  /** The first stretch of runRead or runWrite. */
  function Begin(s: Keyed, key: string, kind: Kind): Keyed
    requires forall k :: k in s.locks ==> s.locks[k] < |s.heap|
  {
    var (t, e) := EntryFor(s, key);
    var lock := t.heap[e].lock;
    t.(heap := t.heap[e := t.heap[e].(lock := Acquire(lock, kind))],
       ops := t.ops + [Operation(key, e, Waiter(Arrivals(lock), kind), Active)])
  }

  /** The callback of operation `o` ended: its release closure is called. */
  function EndCallback(s: Keyed, o: nat): Keyed
    requires o < |s.ops| && s.ops[o].entry < |s.heap|
  {
    var op := s.ops[o];
    var lock := s.heap[op.entry].lock;
    s.(heap := s.heap[op.entry := s.heap[op.entry].(lock := Release(lock, op.waiter))],
       ops := s.ops[o := op.(phase := Released)])
  }

  /** releaseEntry: drop the reference; the last one deletes the entry of the key. */
  function ReleaseEntry(s: Keyed, key: string, e: nat): Keyed
    requires e < |s.heap|
  {
    var refs := s.heap[e].refs - 1;
    s.(heap := s.heap[e := s.heap[e].(refs := refs)],
       locks := if refs == 0 && key in s.locks && s.locks[key] == e then s.locks - {key} else s.locks)
  }

  function Finish(s: Keyed, o: nat): Keyed
    requires o < |s.ops| && s.ops[o].entry < |s.heap|
  {
    var t := ReleaseEntry(s, s.ops[o].key, s.ops[o].entry);
    t.(ops := t.ops[o := t.ops[o].(phase := Finished)])
  }

  class KeyedReadWriteLock {
    var locks: map<string, nat>
    var heap: seq<Entry>
    var ops: seq<Operation>

    function State(): Keyed
      reads this
    {
      Keyed(locks, heap, ops)
    }

    constructor ()
      ensures State() == EMPTY
    {
      locks, heap, ops := map[], [], [];
    }

    method FindEntry(key: string) returns (entry: nat)
      requires forall k :: k in locks ==> locks[k] < |heap|
      modifies this`locks, this`heap
      ensures (State(), entry) == EntryFor(old(State()), key)
    {
      if key in locks {
        entry := locks[key];
      } else {
        entry := |heap|;
        heap := heap + [Entry(UNLOCKED, 0)];
        locks := locks[key := entry];
      }
      heap := heap[entry := heap[entry].(refs := heap[entry].refs + 1)];
      assert key !in old(locks) ==> heap == old(heap) + [Entry(UNLOCKED, 1)];
    }

    method BeginOperation(key: string, kind: Kind) returns (o: nat)
      requires forall k :: k in locks ==> locks[k] < |heap|
      modifies this
      ensures State() == Begin(old(State()), key, kind) && o == |old(ops)|
    {
      var entry := FindEntry(key);
      var lock := heap[entry].lock;
      o := |ops|;
      heap := heap[entry := heap[entry].(lock := Acquire(lock, kind))];
      ops := ops + [Operation(key, entry, Waiter(Arrivals(lock), kind), Active)];
    }

    method CallbackEnded(o: nat)
      requires o < |ops| && ops[o].entry < |heap|
      modifies this`heap, this`ops
      ensures State() == EndCallback(old(State()), o)
    {
      var op := ops[o];
      heap := heap[op.entry := heap[op.entry].(lock := Release(heap[op.entry].lock, op.waiter))];
      ops := ops[o := op.(phase := Released)];
    }

    method FinishOperation(o: nat)
      requires o < |ops| && ops[o].entry < |heap|
      modifies this
      ensures State() == Finish(old(State()), o)
    {
      var key, entry := ops[o].key, ops[o].entry;
      heap := heap[entry := heap[entry].(refs := heap[entry].refs - 1)];
      if heap[entry].refs == 0 && key in locks && locks[key] == entry {
        locks := locks - {key};
      }
      ops := ops[o := ops[o].(phase := Finished)];
    }
  }

  // ---------------------------------------------------------------------------------------
  // The invariant

  /** Operations that still hold a reference to entry `e`. */
  function References(ops: seq<Operation>, e: nat): nat {
    if ops == [] then 0
    else
      var last := ops[|ops| - 1];
      References(ops[..|ops| - 1], e) + (if last.entry == e && last.phase != Finished then 1 else 0)
  }

  predicate InFlight(s: Keyed, o: nat) { o < |s.ops| && s.ops[o].phase != Finished }

  /** The operation is inside its callback. */
  ghost predicate Running(s: Keyed, o: nat) {
    && o < |s.ops| && s.ops[o].entry < |s.heap| && s.ops[o].phase == Active
    && s.ops[o].waiter in s.heap[s.ops[o].entry].lock.granted
  }

  /** The operation's request, where the entry's lock put it. */
  ghost predicate WaiterPlaced(s: Keyed, op: Operation) {
    && op.entry < |s.heap|
    && var lock := s.heap[op.entry].lock;
    && op.waiter.id < Arrivals(lock) && (lock.granted + lock.queue)[op.waiter.id] == op.waiter
    && (op.waiter.id in lock.released <==> op.phase != Active)
  }

  /** Every lock entry is sound. */
  ghost predicate SoundInv(s: Keyed) {
    forall e :: 0 <= e < |s.heap| ==> Inv(s.heap[e].lock)
  }

  /** Each operation on an entry is a request of its own. */
  ghost predicate PlacedInv(s: Keyed) {
    && (forall o :: 0 <= o < |s.ops| ==> WaiterPlaced(s, s.ops[o]))
    && (forall o, p :: 0 <= o < p < |s.ops| && s.ops[o].entry == s.ops[p].entry ==>
          s.ops[o].waiter.id != s.ops[p].waiter.id)
  }

  /** The reference count of an entry is the number of operations in flight on it. */
  ghost predicate RefsInv(s: Keyed) {
    forall e :: 0 <= e < |s.heap| ==> s.heap[e].refs == References(s.ops, e)
  }

  /** All operations in flight on a key share the key's entry; different keys have different
      entries; and a key has an entry only while an operation on it is in flight. */
  ghost predicate MapInv(s: Keyed) {
    && Closed(s)
    && (forall o: nat :: InFlight(s, o) ==> s.ops[o].key in s.locks && s.locks[s.ops[o].key] == s.ops[o].entry)
    && (forall k, l :: k in s.locks && l in s.locks && s.locks[k] == s.locks[l] ==> k == l)
    && (forall k :: k in s.locks ==> References(s.ops, s.locks[k]) > 0)
  }

  ghost predicate KeyedInv(s: Keyed) {
    SoundInv(s) && PlacedInv(s) && RefsInv(s) && MapInv(s)
  }

  lemma {:induction false} ReferencesPositive(ops: seq<Operation>, e: nat)
    ensures References(ops, e) > 0 <==> exists o :: 0 <= o < |ops| && ops[o].entry == e && ops[o].phase != Finished
  {
    if ops != [] {
      var front, n := ops[..|ops| - 1], |ops| - 1;
      ReferencesPositive(front, e);
      if o :| 0 <= o < |front| && front[o].entry == e && front[o].phase != Finished {
        assert ops[o] == front[o];
      }
      if o :| 0 <= o < |ops| && ops[o].entry == e && ops[o].phase != Finished {
        assert o < n ==> front[o] == ops[o];
      }
    }
  }

  /** Replacing one operation changes the count of its entry by the difference of the two. */
  lemma {:induction false} ReferencesUpdate(ops: seq<Operation>, o: nat, op: Operation, e: nat)
    requires o < |ops| && op.entry == ops[o].entry
    ensures References(ops[o := op], e) ==
      References(ops, e)
        + (if op.entry == e && op.phase != Finished then 1 else 0)
        - (if op.entry == e && ops[o].phase != Finished then 1 else 0)
  {
    var n := |ops| - 1;
    if o == n {
      assert ops[o := op][..n] == ops[..n];
    } else {
      assert ops[o := op][..n] == ops[..n][o := op];
      ReferencesUpdate(ops[..n], o, op, e);
    }
  }

  lemma ReferencesAppend(ops: seq<Operation>, op: Operation, e: nat)
    ensures References(ops + [op], e) == References(ops, e) + (if op.entry == e && op.phase != Finished then 1 else 0)
  {
    assert (ops + [op])[..|ops|] == ops;
  }

  // ---------------------------------------------------------------------------------------
  // Each stretch keeps the invariant

  lemma AcquirePlaces(lock: Lock, kind: Kind)
    requires Inv(lock)
    ensures var next := Acquire(lock, kind);
            && Inv(next) && next.released == lock.released
            && next.granted + next.queue == lock.granted + lock.queue + [Waiter(Arrivals(lock), kind)]
            && Arrivals(lock) !in lock.released
  {
    AcquireInv(lock, kind);
    var t := lock.(queue := lock.queue + [Waiter(Arrivals(lock), kind)]);
    DrainedMoves(t);
    assert t.granted + t.queue == lock.granted + lock.queue + [Waiter(Arrivals(lock), kind)];
  }

  lemma ReleasePlaces(lock: Lock, w: Waiter)
    requires Inv(lock) && w in lock.granted && w.id !in lock.released
    ensures var next := Release(lock, w);
            && Inv(next) && next.released == lock.released + {w.id}
            && next.granted + next.queue == lock.granted + lock.queue
  {
    var k :| 0 <= k < |lock.granted| && lock.granted[k] == w;
    ReleaseInv(lock, k);
    DrainedMoves(ReadWriteLock.Released(lock, w));
  }

  /** Operations placed in unchanged locks stay placed. */
  lemma PlacedStays(s: Keyed, t: Keyed, op: Operation)
    requires WaiterPlaced(s, op) && op.entry < |t.heap| && t.heap[op.entry].lock == s.heap[op.entry].lock
    ensures WaiterPlaced(t, op)
  {
  }

  /** What the first stretch does, entry by entry. */
  lemma BeginEffect(s: Keyed, key: string, kind: Kind) returns (e: nat, lock: Lock)
    requires MapInv(s)
    ensures var u := Begin(s, key, kind);
            && e == (if key in s.locks then s.locks[key] else |s.heap|)
            && lock == (if key in s.locks then s.heap[e].lock else UNLOCKED)
            && u.locks == s.locks[key := e]
            && u.ops == s.ops + [Operation(key, e, Waiter(Arrivals(lock), kind), Active)]
            && |u.heap| == (if key in s.locks then |s.heap| else |s.heap| + 1)
            && u.heap[e] == Entry(Acquire(lock, kind), 1 + if key in s.locks then s.heap[e].refs else 0)
            && (forall i :: 0 <= i < |s.heap| && i != e ==> u.heap[i] == s.heap[i])
  {
    var (t, e') := EntryFor(s, key);
    e := e';
    lock := t.heap[e].lock;
  }

  lemma BeginSound(s: Keyed, key: string, kind: Kind)
    requires SoundInv(s) && MapInv(s)
    ensures SoundInv(Begin(s, key, kind))
  {
    var e, lock := BeginEffect(s, key, kind);
    AcquireInv(lock, kind);
  }

  lemma BeginPlaced(s: Keyed, key: string, kind: Kind)
    requires SoundInv(s) && PlacedInv(s) && MapInv(s)
    ensures PlacedInv(Begin(s, key, kind))
  {
    var u := Begin(s, key, kind);
    var e, lock := BeginEffect(s, key, kind);
    BeginPlacesEach(s, key, kind);
    assert forall o :: 0 <= o < |s.ops| ==> u.ops[o] == s.ops[o];
  }

  /** The new operation is placed. */
  lemma BeginPlacesNew(s: Keyed, key: string, kind: Kind)
    requires SoundInv(s) && MapInv(s)
    ensures var u := Begin(s, key, kind);
            |u.ops| == |s.ops| + 1 && WaiterPlaced(u, u.ops[|s.ops|])
  {
    var e, lock := BeginEffect(s, key, kind);
    AcquirePlaces(lock, kind);
  }

  /** An operation that is placed stays so, and the number of the new one is new for its entry. */
  lemma BeginKeepsPlaced(s: Keyed, key: string, kind: Kind, o: nat)
    requires SoundInv(s) && MapInv(s) && o < |s.ops| && WaiterPlaced(s, s.ops[o])
    ensures var u := Begin(s, key, kind);
            && |u.ops| == |s.ops| + 1 && u.ops[o] == s.ops[o] && WaiterPlaced(u, s.ops[o])
            && (s.ops[o].entry == u.ops[|s.ops|].entry ==> s.ops[o].waiter.id != u.ops[|s.ops|].waiter.id)
  {
    var e, lock := BeginEffect(s, key, kind);
    AcquirePlaces(lock, kind);
    if s.ops[o].entry != e {
      PlacedStays(s, Begin(s, key, kind), s.ops[o]);
    }
  }

  lemma BeginPlacesEach(s: Keyed, key: string, kind: Kind)
    requires SoundInv(s) && PlacedInv(s) && MapInv(s)
    ensures var u := Begin(s, key, kind);
            && |u.ops| == |s.ops| + 1
            && (forall o :: 0 <= o < |u.ops| ==> WaiterPlaced(u, u.ops[o]))
            && (forall o :: 0 <= o < |s.ops| && s.ops[o].entry == u.ops[|s.ops|].entry
                            ==> s.ops[o].waiter.id != u.ops[|s.ops|].waiter.id)
  {
    BeginPlacesNew(s, key, kind);
    forall o | 0 <= o < |s.ops|
      ensures var u := Begin(s, key, kind);
              && u.ops[o] == s.ops[o] && WaiterPlaced(u, s.ops[o])
              && (s.ops[o].entry == u.ops[|s.ops|].entry ==> s.ops[o].waiter.id != u.ops[|s.ops|].waiter.id)
    {
      BeginKeepsPlaced(s, key, kind, o);
    }
  }

  lemma NewEntryUnreferenced(s: Keyed)
    requires Closed(s)
    ensures References(s.ops, |s.heap|) == 0
  {
    ReferencesPositive(s.ops, |s.heap|);
  }

  lemma BeginRefsOf(s: Keyed, key: string, kind: Kind, i: nat)
    requires RefsInv(s) && MapInv(s) && i < |Begin(s, key, kind).heap|
    ensures var u := Begin(s, key, kind);
            && u.heap[i].refs == References(u.ops, i)
            && References(u.ops, i) == References(s.ops, i) + (if i == u.ops[|s.ops|].entry then 1 else 0)
  {
    var u := Begin(s, key, kind);
    var e, lock := BeginEffect(s, key, kind);
    ReferencesAppend(s.ops, u.ops[|s.ops|], i);
    if i == |s.heap| {
      NewEntryUnreferenced(s);
    } else {
      assert s.heap[i].refs == References(s.ops, i);
    }
  }

  lemma BeginRefs(s: Keyed, key: string, kind: Kind)
    requires RefsInv(s) && MapInv(s)
    ensures RefsInv(Begin(s, key, kind))
  {
    var u := Begin(s, key, kind);
    forall i | 0 <= i < |u.heap|
      ensures u.heap[i].refs == References(u.ops, i)
    {
      BeginRefsOf(s, key, kind, i);
    }
  }

  lemma BeginMap(s: Keyed, key: string, kind: Kind)
    requires RefsInv(s) && MapInv(s)
    ensures MapInv(Begin(s, key, kind))
  {
    var u := Begin(s, key, kind);
    var e, lock := BeginEffect(s, key, kind);
    forall k | k in u.locks
      ensures References(u.ops, u.locks[k]) > 0
    {
      BeginRefsOf(s, key, kind, u.locks[k]);
    }
    assert forall o: nat :: o < |s.ops| && InFlight(u, o) ==> InFlight(s, o);
  }

  lemma EndSound(s: Keyed, o: nat)
    requires SoundInv(s) && Running(s, o) && s.ops[o].waiter.id !in s.heap[s.ops[o].entry].lock.released
    ensures SoundInv(EndCallback(s, o))
  {
    ReleasePlaces(s.heap[s.ops[o].entry].lock, s.ops[o].waiter);
  }

  lemma EndPlaced(s: Keyed, o: nat)
    requires SoundInv(s) && PlacedInv(s) && Running(s, o)
    ensures PlacedInv(EndCallback(s, o))
  {
    var u, op := EndCallback(s, o), s.ops[o];
    assert WaiterPlaced(s, op);
    ReleasePlaces(s.heap[op.entry].lock, op.waiter);
    forall p | 0 <= p < |u.ops|
      ensures WaiterPlaced(u, u.ops[p])
    {
      assert WaiterPlaced(s, s.ops[p]);
      if p != o && s.ops[p].entry == op.entry {
        assert s.ops[p].waiter.id != op.waiter.id;
      } else if p != o {
        PlacedStays(s, u, s.ops[p]);
      }
    }
  }

  lemma EndRefs(s: Keyed, o: nat)
    requires RefsInv(s) && MapInv(s) && o < |s.ops| && s.ops[o].phase == Active
    ensures RefsInv(EndCallback(s, o)) && MapInv(EndCallback(s, o))
  {
    var u := EndCallback(s, o);
    forall e | 0 <= e < |s.heap|
      ensures References(u.ops, e) == References(s.ops, e)
    {
      ReferencesUpdate(s.ops, o, u.ops[o], e);
    }
    assert forall p: nat :: InFlight(u, p) ==> InFlight(s, p);
  }

  lemma FinishPlaced(s: Keyed, o: nat)
    requires PlacedInv(s) && o < |s.ops| && s.ops[o].entry < |s.heap| && s.ops[o].phase == Released
    ensures PlacedInv(Finish(s, o))
  {
    var u := Finish(s, o);
    assert forall i :: 0 <= i < |s.heap| ==> u.heap[i].lock == s.heap[i].lock;
    forall p | 0 <= p < |u.ops|
      ensures WaiterPlaced(u, u.ops[p])
    {
      PlacedStays(s, u, s.ops[p]);
    }
  }

  lemma FinishRefs(s: Keyed, o: nat)
    requires RefsInv(s) && MapInv(s) && o < |s.ops| && s.ops[o].phase == Released
    ensures RefsInv(Finish(s, o))
    ensures forall e :: 0 <= e < |s.heap| ==>
              References(Finish(s, o).ops, e) == References(s.ops, e) - (if e == s.ops[o].entry then 1 else 0)
  {
    var u, op := Finish(s, o), s.ops[o];
    forall e | 0 <= e < |s.heap|
      ensures References(u.ops, e) == References(s.ops, e) - (if e == op.entry then 1 else 0)
    {
      ReferencesUpdate(s.ops, o, u.ops[o], e);
    }
  }

  /** Dropping the last reference deletes the key's entry, and only then. */
  lemma FinishMap(s: Keyed, o: nat)
    requires RefsInv(s) && MapInv(s) && o < |s.ops| && s.ops[o].phase == Released
    ensures MapInv(Finish(s, o))
  {
    var u, op := Finish(s, o), s.ops[o];
    FinishRefs(s, o);
    assert InFlight(s, o);
    forall p: nat | InFlight(u, p)
      ensures u.ops[p].key in u.locks && u.locks[u.ops[p].key] == u.ops[p].entry
    {
      assert InFlight(s, p);
      if s.ops[p].entry == op.entry {
        ReferencesPositive(u.ops, op.entry);
      }
    }
  }

  // ---------------------------------------------------------------------------------------
  // Whole runs

  datatype Step = BeginStep(key: string, kind: Kind) | EndStep(o: nat) | FinishStep(o: nat)

  /** Callbacks end only after their lock was granted, and references drop only after that. */
  ghost predicate Next(s: Keyed, step: Step, s': Keyed) {
    match step
    case BeginStep(key, kind) => Closed(s) && s' == Begin(s, key, kind)
    case EndStep(o) =>
      Running(s, o) && s' == EndCallback(s, o)
    case FinishStep(o) => Closed(s) && o < |s.ops| && s.ops[o].phase == Released && s' == Finish(s, o)
  }

  ghost predicate Reachable(s: Keyed, steps: seq<Step>)
    decreases |steps|
  {
    if steps == [] then s == EMPTY
    else
      var front, last := steps[..|steps| - 1], steps[|steps| - 1];
      exists before :: Reachable(before, front) && Next(before, last, s)
  }

  lemma {:induction false} ReachableInv(s: Keyed, steps: seq<Step>)
    requires Reachable(s, steps)
    ensures KeyedInv(s)
    decreases |steps|
  {
    if steps != [] {
      var front, last := steps[..|steps| - 1], steps[|steps| - 1];
      var before :| Reachable(before, front) && Next(before, last, s);
      ReachableInv(before, front);
      match last {
        case BeginStep(key, kind) =>
          BeginSound(before, key, kind);
          BeginPlaced(before, key, kind);
          BeginRefs(before, key, kind);
          BeginMap(before, key, kind);
        case EndStep(o) =>
          assert WaiterPlaced(before, before.ops[o]);
          EndSound(before, o);
          EndPlaced(before, o);
          EndRefs(before, o);
        case FinishStep(o) =>
          FinishPlaced(before, o);
          FinishRefs(before, o);
          FinishMap(before, o);
      }
    }
  }

  /** In every reachable state, across deletion and re-creation of entries, two operations
      inside their callbacks on one key are both reads. */
  lemma KeyedExclusion(s: Keyed, steps: seq<Step>, o: nat, p: nat)
    requires Reachable(s, steps) && o != p && Running(s, o) && Running(s, p)
    requires s.ops[o].key == s.ops[p].key
    ensures s.ops[o].waiter.kind == Read && s.ops[p].waiter.kind == Read
  {
    ReachableInv(s, steps);
    assert InFlight(s, o) && InFlight(s, p);
    assert WaiterPlaced(s, s.ops[o]) && WaiterPlaced(s, s.ops[p]);
    var lock := s.heap[s.ops[o].entry].lock;
    assert Outstanding(lock, s.ops[o].waiter) && Outstanding(lock, s.ops[p].waiter);
  }

  /** In every reachable state all operations in flight on a key share one entry, its reference
      count is their number, and the key has an entry exactly while that number is positive. */
  lemma EntryLifetime(s: Keyed, steps: seq<Step>, key: string)
    requires Reachable(s, steps)
    ensures key in s.locks <==> exists o: nat :: InFlight(s, o) && s.ops[o].key == key
    ensures key in s.locks ==>
              && s.locks[key] < |s.heap|
              && s.heap[s.locks[key]].refs == References(s.ops, s.locks[key]) > 0
              && forall o: nat :: InFlight(s, o) ==> (s.ops[o].key == key <==> s.ops[o].entry == s.locks[key])
  {
    ReachableInv(s, steps);
    if key in s.locks {
      ReferencesPositive(s.ops, s.locks[key]);
      var o :| 0 <= o < |s.ops| && s.ops[o].entry == s.locks[key] && s.ops[o].phase != Finished;
      assert InFlight(s, o);
    }
  }
}
