/**
  The in-process mutex (src/async-locks.js, AsyncMutex).  It is the reader-writer lock used by
  writers only: every state of a mutex stands for a state of that lock, every operation for the
  operation of a writer, and so every guarantee of the lock carries over.
 */
module MutexLock {
  import opened ReadWriteLock

  /** The mutex's fields, the grants it has called and the release closures called so far; a
      request is named by its position in the order of arrival. */
  datatype Mutex = Mutex(locked: bool, queue: seq<nat>, granted: seq<nat>, released: set<nat>)

  const FREE: Mutex := Mutex(false, [], [], {})

  function Served(m: Mutex): Mutex {
    if m.locked || m.queue == [] then m
    else m.(locked := true, queue := m.queue[1..], granted := m.granted + [m.queue[0]])
  }

  function Requested(m: Mutex): Mutex {
    Served(m.(queue := m.queue + [|m.granted| + |m.queue|]))
  }

  function Returned(m: Mutex, id: nat): Mutex {
    if id in m.released then m else Served(m.(locked := false, released := m.released + {id}))
  }

  class AsyncMutex {
    var locked: bool
    var queue: seq<nat>
    var granted: seq<nat>
    var released: set<nat>

    function State(): Mutex
      reads this
    {
      Mutex(locked, queue, granted, released)
    }

    constructor ()
      ensures State() == FREE
    {
      locked, queue, granted, released := false, [], [], {};
    }

    method Acquire() returns (id: nat)
      modifies this
      ensures id == |old(granted)| + |old(queue)| && State() == Requested(old(State()))
    {
      id := |granted| + |queue|;
      queue := queue + [id];
      Drain();
    }

    method ReleaseGrant(id: nat)
      modifies this
      ensures State() == Returned(old(State()), id)
    {
      if id in released {
        return;
      }
      released := released + {id};
      locked := false;
      Drain();
    }

    method Drain()
      modifies this
      ensures State() == Served(old(State()))
    {
      if locked {
        return;
      }
      if |queue| > 0 {
        var next := queue[0];
        queue := queue[1..];
        locked := true;
        granted := granted + [next];
      }
    }
  }

  // ---------------------------------------------------------------------------------------
  // A reader-writer lock with writers only

  function Writers(ids: seq<nat>): (r: seq<Waiter>)
    ensures |r| == |ids| && forall i :: 0 <= i < |r| ==> r[i] == Waiter(ids[i], Write)
  {
    seq(|ids|, i requires 0 <= i < |ids| => Waiter(ids[i], Write))
  }

  function AsLock(m: Mutex): Lock {
    Lock(0, m.locked, Writers(m.queue), Writers(m.granted), m.released)
  }

  lemma ServedIsDrained(m: Mutex)
    ensures AsLock(Served(m)) == Drained(AsLock(m))
  {
    if m.queue != [] {
      assert Writers(m.queue)[1..] == Writers(m.queue[1..]);
      assert Writers(m.granted) + [Waiter(m.queue[0], Write)] == Writers(m.granted + [m.queue[0]]);
    }
  }

  lemma RequestedIsAcquire(m: Mutex)
    ensures AsLock(Requested(m)) == ReadWriteLock.Acquire(AsLock(m), Write)
  {
    var id := |m.granted| + |m.queue|;
    ServedIsDrained(m.(queue := m.queue + [id]));
    assert Writers(m.queue + [id]) == Writers(m.queue) + [Waiter(id, Write)];
  }

  lemma ReturnedIsRelease(m: Mutex, id: nat)
    ensures AsLock(Returned(m, id)) == ReadWriteLock.Release(AsLock(m), Waiter(id, Write))
  {
    ServedIsDrained(m.(locked := false, released := m.released + {id}));
  }

  datatype MutexOp = Ask | GiveBack(grant: nat)

  function MutexRun(ops: seq<MutexOp>): Mutex {
    if ops == [] then FREE
    else
      var m, last := MutexRun(ops[..|ops| - 1]), ops[|ops| - 1];
      match last
      case Ask => Requested(m)
      case GiveBack(k) => if k < |m.granted| then Returned(m, m.granted[k]) else m
  }

  function WriterOps(ops: seq<MutexOp>): (r: seq<Op>)
    ensures |r| == |ops|
  {
    if ops == [] then []
    else
      WriterOps(ops[..|ops| - 1])
      + [match ops[|ops| - 1] { case Ask => AcquireOp(Write) case GiveBack(k) => ReleaseOp(k) }]
  }

  /** Every run of a mutex is a run of the reader-writer lock by writers. */
  lemma {:induction false} RunIsWritersRun(ops: seq<MutexOp>)
    ensures AsLock(MutexRun(ops)) == Run(WriterOps(ops))
  {
    if ops != [] {
      var n := |ops| - 1;
      var m := MutexRun(ops[..n]);
      RunIsWritersRun(ops[..n]);
      assert WriterOps(ops)[..n] == WriterOps(ops[..n]);
      if ops[n].Ask? {
        RequestedIsAcquire(m);
      } else if ops[n].grant < |m.granted| {
        ReturnedIsRelease(m, m.granted[ops[n].grant]);
      }
    }
  }

  /** In every reachable state: grants and then the queue are the requests in order of arrival, at
      most one grant is outstanding, `locked` says whether one is, and requests wait only while
      one is; so no wakeup is lost. */
  lemma MutexIsSafe(ops: seq<MutexOp>)
    ensures var m := MutexRun(ops);
            && (forall i :: 0 <= i < |m.granted| ==> m.granted[i] == i)
            && (forall i :: 0 <= i < |m.queue| ==> m.queue[i] == |m.granted| + i)
            && (forall i, j :: 0 <= i < |m.granted| && 0 <= j < |m.granted| && i !in m.released && j !in m.released
                               ==> i == j)
            && (m.locked <==> exists i :: 0 <= i < |m.granted| && i !in m.released)
            && (m.queue != [] ==> m.locked)
  {
    RunIsWritersRun(ops);
    RunInv(WriterOps(ops));
    InOrderIsArrival(MutexRun(ops));
    OutstandingIsGrant(MutexRun(ops));
    LockedIsOutstanding(MutexRun(ops));
  }

  lemma InOrderIsArrival(m: Mutex)
    requires InOrder(AsLock(m))
    ensures forall i :: 0 <= i < |m.granted| ==> m.granted[i] == i
    ensures forall i :: 0 <= i < |m.queue| ==> m.queue[i] == |m.granted| + i
  {
    assert forall i :: 0 <= i < |m.granted| ==> AsLock(m).granted[i] == Waiter(m.granted[i], Write);
    assert forall i :: 0 <= i < |m.queue| ==> AsLock(m).queue[i] == Waiter(m.queue[i], Write);
  }

  lemma LockedIsOutstanding(m: Mutex)
    requires CountersExact(AsLock(m)) && Exclusive(AsLock(m)) && NoneGrantable(AsLock(m))
    requires forall i :: 0 <= i < |m.granted| ==> m.granted[i] == i
    ensures forall i, j :: 0 <= i < |m.granted| && 0 <= j < |m.granted| && i !in m.released && j !in m.released
                           ==> i == j
    ensures m.locked <==> exists i :: 0 <= i < |m.granted| && i !in m.released
    ensures m.queue != [] ==> m.locked
  {
    var lock := AsLock(m);
    OutstandingIsGrant(m);
    forall i | 0 <= i < |m.granted| && i !in m.released ensures Outstanding(lock, Waiter(i, Write)) {
      assert lock.granted[i] == Waiter(i, Write);
    }
  }

  lemma OutstandingIsGrant(m: Mutex)
    requires forall i :: 0 <= i < |m.granted| ==> m.granted[i] == i
    ensures forall w :: Outstanding(AsLock(m), w) ==> w.id < |m.granted| && w.id !in m.released && w.kind == Write
  {
  }
}
