/**
  The in-process reader-writer lock (src/async-locks.js, AsyncReadWriteLock).  Its state
  changes only in synchronous stretches: a request joining the queue and a holder calling its
  release closure, each followed by a drain.  The promises resolved by the drain are the
  grants.
 */
module ReadWriteLock {

  datatype Kind = Read | Write

  /** One acquireRead or acquireWrite call, named by its position in the order of arrival. */
  datatype Waiter = Waiter(id: nat, kind: Kind)

  /** The lock's fields, the promises it has resolved, and the release closures called so far. */
  datatype Lock = Lock(
    activeReaders: int, activeWriter: bool, queue: seq<Waiter>,
    granted: seq<Waiter>, released: set<nat>)

  const UNLOCKED: Lock := Lock(0, false, [], [], {})

  // ---------------------------------------------------------------------------------------
  // What the methods compute

  function GrantReads(s: Lock): Lock
    decreases |s.queue|
  {
    if s.queue != [] && s.queue[0].kind == Read && !s.activeWriter then
      GrantReads(s.(queue := s.queue[1..], activeReaders := s.activeReaders + 1,
                    granted := s.granted + [s.queue[0]]))
    else s
  }

  function Drained(s: Lock): Lock {
    if s.activeWriter || s.queue == [] then s
    else if s.queue[0].kind == Write then
      if s.activeReaders > 0 then s
      else s.(queue := s.queue[1..], activeWriter := true, granted := s.granted + [s.queue[0]])
    else GrantReads(s)
  }

  function Arrivals(s: Lock): nat { |s.granted| + |s.queue| }

  function Acquire(s: Lock, kind: Kind): Lock {
    Drained(s.(queue := s.queue + [Waiter(Arrivals(s), kind)]))
  }

  /** Calling the release closure that came with the grant of `w`. */
  function Release(s: Lock, w: Waiter): Lock {
    if w.id in s.released then s
    else if w.kind == Read then
      Drained(s.(released := s.released + {w.id}, activeReaders := s.activeReaders - 1))
    else
      Drained(s.(released := s.released + {w.id}, activeWriter := false))
  }

  /** The lock as the source writes it: fields updated in place and a draining loop. */
  class AsyncReadWriteLock {
    var activeReaders: int
    var activeWriter: bool
    var queue: seq<Waiter>
    var granted: seq<Waiter>
    var released: set<nat>

    function State(): Lock
      reads this
    {
      Lock(activeReaders, activeWriter, queue, granted, released)
    }

    constructor ()
      ensures State() == UNLOCKED
    {
      activeReaders, activeWriter, queue, granted, released := 0, false, [], [], {};
    }

    method AcquireRead() returns (w: Waiter)
      modifies this
      ensures w == Waiter(Arrivals(old(State())), Read)
      ensures State() == Acquire(old(State()), Read)
    {
      w := Waiter(|granted| + |queue|, Read);
      queue := queue + [w];
      Drain();
    }

    method AcquireWrite() returns (w: Waiter)
      modifies this
      ensures w == Waiter(Arrivals(old(State())), Write)
      ensures State() == Acquire(old(State()), Write)
    {
      w := Waiter(|granted| + |queue|, Write);
      queue := queue + [w];
      Drain();
    }

    method ReleaseGrant(w: Waiter)
      modifies this
      ensures State() == Release(old(State()), w)
    {
      if w.id in released {
        return;
      }
      released := released + {w.id};
      if w.kind == Read {
        activeReaders := activeReaders - 1;
      } else {
        activeWriter := false;
      }
      Drain();
    }

    method Drain()
      modifies this
      ensures State() == Drained(old(State()))
    {
      if activeWriter || |queue| == 0 {
        return;
      }
      var next := queue[0];
      if next.kind == Write {
        if activeReaders > 0 {
          return;
        }
        queue := queue[1..];
        activeWriter := true;
        granted := granted + [next];
        return;
      }
      while |queue| > 0 && queue[0].kind == Read && !activeWriter
        invariant GrantReads(State()) == Drained(old(State()))
        decreases |queue|
      {
        var read := queue[0];
        queue := queue[1..];
        activeReaders := activeReaders + 1;
        granted := granted + [read];
      }
    }
  }

  // ---------------------------------------------------------------------------------------
  // The promise of the lock

  /** A grant whose release closure has not been called. */
  predicate Outstanding(s: Lock, w: Waiter) { w in s.granted && w.id !in s.released }

  function CountReads(ws: seq<Waiter>, released: set<nat>): nat {
    if ws == [] then 0
    else (if ws[0].kind == Read && ws[0].id !in released then 1 else 0) + CountReads(ws[1..], released)
  }

  predicate Conflict(a: Kind, b: Kind) { a == Write || b == Write }

  /** Requests are granted in order of arrival: the grants are a prefix of the arrivals. */
  ghost predicate InOrder(s: Lock) {
    && (forall i :: 0 <= i < |s.granted| ==> s.granted[i].id == i)
    && (forall i :: 0 <= i < |s.queue| ==> s.queue[i].id == |s.granted| + i)
    && (forall id :: id in s.released ==> id < |s.granted|)
  }

  /** The counters describe exactly the outstanding grants. */
  ghost predicate CountersExact(s: Lock) {
    && s.activeReaders == CountReads(s.granted, s.released)
    && (s.activeWriter <==> exists w :: Outstanding(s, w) && w.kind == Write)
  }

  /** Two outstanding grants never conflict. */
  ghost predicate Exclusive(s: Lock) {
    forall v, w :: Outstanding(s, v) && Outstanding(s, w) && v != w ==> !Conflict(v.kind, w.kind)
  }

  /** The first request in the queue conflicts with an outstanding grant. */
  ghost predicate NoneGrantable(s: Lock) {
    s.queue == [] || exists w :: Outstanding(s, w) && Conflict(w.kind, s.queue[0].kind)
  }

  ghost predicate Inv(s: Lock) {
    InOrder(s) && CountersExact(s) && Exclusive(s) && NoneGrantable(s)
  }

  // ---------------------------------------------------------------------------------------
  // Proofs

  lemma {:induction false} CountReadsAppend(ws: seq<Waiter>, w: Waiter, released: set<nat>)
    ensures CountReads(ws + [w], released)
         == CountReads(ws, released) + (if w.kind == Read && w.id !in released then 1 else 0)
  {
    if ws == [] {
      assert ws + [w] == [w];
    } else {
      CountReadsAppend(ws[1..], w, released);
      assert (ws + [w])[1..] == ws[1..] + [w];
    }
  }

  /** Releasing one granted read lowers the count by one; releasing a write does not change it. */
  lemma {:induction false} CountReadsRelease(ws: seq<Waiter>, released: set<nat>, k: nat)
    requires k < |ws| && ws[k].id !in released
    requires forall i, j :: 0 <= i < j < |ws| ==> ws[i].id != ws[j].id
    ensures CountReads(ws, released + {ws[k].id})
         == CountReads(ws, released) - (if ws[k].kind == Read then 1 else 0)
  {
    if k == 0 {
      CountReadsSkip(ws[1..], released, ws[0].id);
    } else {
      CountReadsRelease(ws[1..], released, k - 1);
    }
  }

  lemma {:induction false} CountReadsSkip(ws: seq<Waiter>, released: set<nat>, id: nat)
    requires forall i :: 0 <= i < |ws| ==> ws[i].id != id
    ensures CountReads(ws, released + {id}) == CountReads(ws, released)
  {
    if ws != [] {
      CountReadsSkip(ws[1..], released, id);
    }
  }

  lemma {:induction false} CountReadsPositive(ws: seq<Waiter>, released: set<nat>)
    ensures CountReads(ws, released) > 0
       <==> exists k :: 0 <= k < |ws| && ws[k].kind == Read && ws[k].id !in released
  {
    if ws != [] {
      CountReadsPositive(ws[1..], released);
      if k :| 0 <= k < |ws[1..]| && ws[1..][k].kind == Read && ws[1..][k].id !in released {
        assert ws[k + 1] == ws[1..][k];
      }
      if k :| 0 <= k < |ws| && ws[k].kind == Read && ws[k].id !in released {
        assert k > 0 ==> ws[1..][k - 1] == ws[k];
      }
    }
  }

  /** Everything but NoneGrantable. */
  ghost predicate Base(s: Lock) {
    InOrder(s) && CountersExact(s) && Exclusive(s)
  }

  /** Granting the first request, which conflicts with no outstanding grant, keeps the base. */
  lemma GrantFirst(s: Lock, t: Lock)
    requires Base(s) && s.queue != []
    requires forall w :: Outstanding(s, w) ==> !Conflict(w.kind, s.queue[0].kind)
    requires t == s.(queue := s.queue[1..], granted := s.granted + [s.queue[0]],
                     activeReaders := s.activeReaders + (if s.queue[0].kind == Read then 1 else 0),
                     activeWriter := s.activeWriter || s.queue[0].kind == Write)
    ensures Base(t) && Outstanding(t, s.queue[0])
  {
    var w := s.queue[0];
    CountReadsAppend(s.granted, w, s.released);
    assert forall v :: Outstanding(t, v) <==> Outstanding(s, v) || v == w;
  }

  /** An idle or read-held lock whose readers are counted has no conflicting writer. */
  lemma NoWriterOutstanding(s: Lock)
    requires Base(s) && !s.activeWriter
    ensures forall w :: Outstanding(s, w) ==> w.kind == Read
    ensures s.activeReaders == 0 ==> forall w :: !Outstanding(s, w)
  {
    CountReadsPositive(s.granted, s.released);
  }

  lemma {:induction false} GrantReadsInv(s: Lock)
    requires Base(s) && !s.activeWriter && (s.queue == [] || s.queue[0].kind == Read || s.activeReaders > 0)
    ensures Inv(GrantReads(s))
    decreases |s.queue|
  {
    NoWriterOutstanding(s);
    if s.queue != [] && s.queue[0].kind == Read {
      var t := s.(queue := s.queue[1..], activeReaders := s.activeReaders + 1,
                  granted := s.granted + [s.queue[0]]);
      GrantFirst(s, t);
      CountReadsPositive(t.granted, t.released);
      assert t.activeReaders > 0;
      GrantReadsInv(t);
    } else if s.queue != [] {
      CountReadsPositive(s.granted, s.released);
      var k :| 0 <= k < |s.granted| && s.granted[k].kind == Read && s.granted[k].id !in s.released;
      assert Outstanding(s, s.granted[k]);
    }
  }

  /** Draining restores the whole invariant. */
  lemma DrainedInv(s: Lock)
    requires Base(s)
    ensures Inv(Drained(s))
  {
    if s.activeWriter {
      assert s.queue != [] ==> NoneGrantable(s);
    } else if s.queue != [] {
      NoWriterOutstanding(s);
      if s.queue[0].kind == Write && s.activeReaders == 0 {
        GrantFirst(s, Drained(s));
      } else if s.queue[0].kind == Write {
        GrantReadsInv(s);
      } else {
        GrantReadsInv(s);
      }
    }
  }

  lemma AcquireInv(s: Lock, kind: Kind)
    requires Inv(s)
    ensures Inv(Acquire(s, kind))
  {
    var t := s.(queue := s.queue + [Waiter(Arrivals(s), kind)]);
    assert forall w :: Outstanding(t, w) <==> Outstanding(s, w);
    DrainedInv(t);
  }

  lemma ReleaseInv(s: Lock, k: nat)
    requires Inv(s) && k < |s.granted|
    ensures Inv(Release(s, s.granted[k]))
  {
    var w := s.granted[k];
    if w.id !in s.released {
      var t := Released(s, w);
      assert forall v :: Outstanding(t, v) <==> Outstanding(s, v) && v != w;
      CountReadsRelease(s.granted, s.released, k);
      assert Outstanding(s, w);
      DrainedInv(t);
    }
  }

  /** The lock after the release bookkeeping and before the drain. */
  ghost function Released(s: Lock, w: Waiter): Lock {
    if w.kind == Read then s.(released := s.released + {w.id}, activeReaders := s.activeReaders - 1)
    else s.(released := s.released + {w.id}, activeWriter := false)
  }

  // ---------------------------------------------------------------------------------------
  // Whole runs

  /** A caller's step.  A release names the grant whose closure is called; calling a closure
      again is allowed, and a closure that was never handed out cannot be called. */
  datatype Op = AcquireOp(kind: Kind) | ReleaseOp(grant: nat)

  function Apply(s: Lock, op: Op): Lock {
    match op
    case AcquireOp(kind) => Acquire(s, kind)
    case ReleaseOp(k) => if k < |s.granted| then Release(s, s.granted[k]) else s
  }

  function Run(ops: seq<Op>): Lock {
    if ops == [] then UNLOCKED else Apply(Run(ops[..|ops| - 1]), ops[|ops| - 1])
  }

  /** The kinds asked for, in order of arrival. */
  function Asked(ops: seq<Op>): seq<Kind> {
    if ops == [] then []
    else
      var last := ops[|ops| - 1];
      Asked(ops[..|ops| - 1]) + (if last.AcquireOp? then [last.kind] else [])
  }

  function Kinds(ws: seq<Waiter>): seq<Kind> { seq(|ws|, i requires 0 <= i < |ws| => ws[i].kind) }

  /** After any sequence of acquires and releases, repeated releases included: grants are in
      order of arrival, the counters equal the outstanding grants, outstanding grants never
      conflict, and the first waiting request could not have been granted. */
  lemma {:induction false} RunInv(ops: seq<Op>)
    ensures Inv(Run(ops))
  {
    if ops != [] {
      var front, last := ops[..|ops| - 1], ops[|ops| - 1];
      RunInv(front);
      match last {
        case AcquireOp(kind) => AcquireInv(Run(front), kind);
        case ReleaseOp(k) =>
          if k < |Run(front).granted| {
            ReleaseInv(Run(front), k);
          }
      }
    }
  }

  /** Draining moves requests from the queue to the grants and does nothing else to either. */
  lemma {:induction false} DrainedMoves(s: Lock)
    ensures Drained(s).granted + Drained(s).queue == s.granted + s.queue
    ensures s.granted <= Drained(s).granted && Drained(s).released == s.released
    ensures GrantReads(s).granted + GrantReads(s).queue == s.granted + s.queue
    ensures s.granted <= GrantReads(s).granted && GrantReads(s).released == s.released
    decreases |s.queue|
  {
    if s.queue != [] {
      assert s.granted + s.queue == s.granted + [s.queue[0]] + s.queue[1..];
      if s.queue[0].kind == Read && !s.activeWriter {
        DrainedMoves(s.(queue := s.queue[1..], activeReaders := s.activeReaders + 1,
                        granted := s.granted + [s.queue[0]]));
      }
    }
  }

  /** A step adds at most its own request, at the end, and takes no grant back. */
  lemma ApplyMoves(s: Lock, op: Op)
    ensures var t := Apply(s, op);
            && t.granted + t.queue == s.granted + s.queue
                 + (if op.AcquireOp? then [Waiter(Arrivals(s), op.kind)] else [])
            && s.granted <= t.granted
  {
    match op {
      case AcquireOp(kind) =>
        var t := s.(queue := s.queue + [Waiter(Arrivals(s), kind)]);
        DrainedMoves(t);
        assert t.granted + t.queue == s.granted + s.queue + [Waiter(Arrivals(s), kind)];
      case ReleaseOp(k) =>
        if k < |s.granted| && s.granted[k].id !in s.released {
          DrainedMoves(Released(s, s.granted[k]));
        }
    }
  }

  /** No request is lost or changed: grants followed by the queue are all requests ever made,
      and a grant is never taken back. */
  lemma {:induction false} NothingLost(ops: seq<Op>)
    ensures Kinds(Run(ops).granted + Run(ops).queue) == Asked(ops)
    ensures ops != [] ==> Run(ops[..|ops| - 1]).granted <= Run(ops).granted
  {
    if ops != [] {
      var front, last := ops[..|ops| - 1], ops[|ops| - 1];
      NothingLost(front);
      ApplyMoves(Run(front), last);
    }
  }

  lemma FirstWaitsForEarlier(s: Lock)
    requires Inv(s)
    ensures s.queue == [] || exists j :: 0 <= j < |s.granted| && j !in s.released
  {
    if s.queue != [] {
      var w :| Outstanding(s, w) && Conflict(w.kind, s.queue[0].kind);
      assert 0 <= w.id < |s.granted|;
    }
  }

  /** No lost wakeup: in every reachable state a request whose predecessors have all been
      released has been granted. */
  lemma GrantedOncePredecessorsDone(ops: seq<Op>, i: nat)
    requires i < |Asked(ops)|
    requires forall j :: 0 <= j < i ==> j in Run(ops).released
    ensures i < |Run(ops).granted| && Run(ops).granted[i] == Waiter(i, Asked(ops)[i])
  {
    RunInv(ops);
    NothingLost(ops);
    var s := Run(ops);
    assert |Kinds(s.granted + s.queue)| == |s.granted| + |s.queue|;
    FirstWaitsForEarlier(s);
    assert i < |s.granted|;
    assert Kinds(s.granted + s.queue)[i] == s.granted[i].kind;
  }

  /** In every reachable state a writer that has been granted and has not released is alone. */
  lemma WriterAlone(ops: seq<Op>, v: Waiter, w: Waiter)
    requires Outstanding(Run(ops), v) && v.kind == Write && Outstanding(Run(ops), w)
    ensures v == w
  {
    RunInv(ops);
  }
}
