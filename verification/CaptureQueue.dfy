/**
  The queue in front of the single screen-capture worker (src/capture-queue.js).  Its state
  changes in synchronous stretches: a request arriving, a lease being released, a timer
  firing, an abort signal being raised, an abort listener running, and a deferred dispatch.
  These may interleave in any order.
 */
module CaptureQueue {
  import opened Common

  datatype Outcome = Pending | Leased | Returned | Aborted | TimedOut

  /** One acquireCaptureWorker call, named by its position in the order of arrival: the abort
      signal it was given, whether its timer and its abort listener are armed, and how its
      promise stands. */
  datatype Request = Request(signal: Option<nat>, timer: bool, listener: bool, outcome: Outcome)

  /** `deferred` counts dispatches queued as microtasks; `settled` and `leases` record the
      promises settled and the leases handed out, in order. */
  datatype Queue = Queue(
    waiters: seq<nat>, active: bool, deferred: nat, aborted: set<nat>,
    requests: seq<Request>, settled: seq<nat>, leases: seq<nat>)

  const IDLE: Queue := Queue([], false, 0, {}, [], [], [])

  predicate Known(s: Queue) { forall i :: 0 <= i < |s.waiters| ==> s.waiters[i] < |s.requests| }

  predicate IsAborted(s: Queue, id: nat)
    requires id < |s.requests|
  {
    s.requests[id].signal.Some? && s.requests[id].signal.value in s.aborted
  }

  /** Settling through the wrapped resolve or reject: timer and listener are disarmed. */
  function Settle(s: Queue, id: nat, outcome: Outcome): Queue
    requires id < |s.requests|
  {
    s.(requests := s.requests[id := s.requests[id].(timer := false, listener := false, outcome := outcome)],
       settled := s.settled + [id],
       leases := if outcome == Leased then s.leases + [id] else s.leases)
  }

  function Dispatched(s: Queue): Queue
    requires Known(s)
    decreases |s.waiters|
  {
    if s.active || s.waiters == [] then s
    else
      var id, t := s.waiters[0], s.(waiters := s.waiters[1..]);
      if IsAborted(s, id) then Dispatched(Settle(t, id, Aborted))
      else Settle(t.(active := true), id, Leased)
  }

  /** indexOf and splice. */
  function Without(ws: seq<nat>, id: nat): (r: seq<nat>)
    ensures forall x :: x in r ==> x in ws
  {
    if ws == [] then [] else if ws[0] == id then ws[1..] else [ws[0]] + Without(ws[1..], id)
  }

  function Acquire(s: Queue, signal: Option<nat>): Queue
    requires Known(s)
  {
    var id := |s.requests|;
    if signal.Some? && signal.value in s.aborted then
      s.(requests := s.requests + [Request(signal, false, false, Aborted)], settled := s.settled + [id])
    else
      Dispatched(s.(waiters := s.waiters + [id],
                    requests := s.requests + [Request(signal, true, signal.Some?, Pending)]))
  }

  function Release(s: Queue, id: nat): Queue
    requires id < |s.requests|
  {
    if s.requests[id].outcome != Leased then s
    else s.(requests := s.requests[id := s.requests[id].(outcome := Returned)],
            active := false, deferred := s.deferred + 1)
  }

  function RunDeferred(s: Queue): Queue
    requires Known(s)
  {
    if s.deferred == 0 then s else Dispatched(s.(deferred := s.deferred - 1))
  }

  /** The timer callback and the abort listener both leave the queue and reject. */
  function Evict(s: Queue, id: nat, outcome: Outcome): Queue
    requires id < |s.requests|
  {
    Settle(s.(waiters := Without(s.waiters, id)), id, outcome)
  }

  // ---------------------------------------------------------------------------------------
  // The source's module state and its loop

  class CaptureWorkerQueue {
    var waiters: seq<nat>
    var active: bool
    var deferred: nat
    var aborted: set<nat>
    var requests: seq<Request>
    var settled: seq<nat>
    var leases: seq<nat>

    function State(): Queue
      reads this
    {
      Queue(waiters, active, deferred, aborted, requests, settled, leases)
    }

    constructor ()
      ensures State() == IDLE
    {
      waiters, active, deferred, aborted := [], false, 0, {};
      requests, settled, leases := [], [], [];
    }

    method Dispatch()
      requires Known(State())
      modifies this
      ensures State() == Dispatched(old(State()))
    {
      if active {
        return;
      }
      while |waiters| > 0
        invariant Known(State()) && !active
        invariant Dispatched(State()) == Dispatched(old(State()))
        decreases |waiters|
      {
        var id := waiters[0];
        waiters := waiters[1..];
        var signal := requests[id].signal;
        if signal.Some? && signal.value in aborted {
          requests := requests[id := requests[id].(timer := false, listener := false, outcome := Aborted)];
          settled := settled + [id];
        } else {
          active := true;
          requests := requests[id := requests[id].(timer := false, listener := false, outcome := Leased)];
          settled := settled + [id];
          leases := leases + [id];
          return;
        }
      }
    }

    method AcquireWorker(signal: Option<nat>) returns (id: nat)
      requires Known(State())
      modifies this
      ensures State() == Acquire(old(State()), signal) && id == |old(requests)|
    {
      id := |requests|;
      if signal.Some? && signal.value in aborted {
        requests := requests + [Request(signal, false, false, Aborted)];
        settled := settled + [id];
        return;
      }
      waiters := waiters + [id];
      requests := requests + [Request(signal, true, signal.Some?, Pending)];
      Dispatch();
    }

    method ReleaseLease(id: nat)
      requires id < |requests|
      modifies this
      ensures State() == Release(old(State()), id)
    {
      if requests[id].outcome != Leased {
        return;
      }
      requests := requests[id := requests[id].(outcome := Returned)];
      active := false;
      deferred := deferred + 1;
    }

    method RunMicrotask()
      requires Known(State()) && deferred > 0
      modifies this
      ensures State() == RunDeferred(old(State()))
    {
      deferred := deferred - 1;
      Dispatch();
    }

    /** The abort listener (`outcome` Aborted) and the timer callback (TimedOut). */
    method LeaveQueue(id: nat, outcome: Outcome)
      requires id < |requests| && (outcome == Aborted || outcome == TimedOut)
      modifies this
      ensures State() == Evict(old(State()), id, outcome)
    {
      waiters := Without(waiters, id);
      requests := requests[id := requests[id].(timer := false, listener := false, outcome := outcome)];
      settled := settled + [id];
    }
  }

  // ---------------------------------------------------------------------------------------
  // The invariant

  ghost predicate Increasing(ids: seq<nat>) {
    forall i, j :: 0 <= i < j < |ids| ==> ids[i] < ids[j]
  }

  /** The waiters are exactly the pending requests, in order of arrival, and exactly these have
      their timers and listeners armed. */
  ghost predicate WaitersInv(s: Queue) {
    && Known(s) && Increasing(s.waiters)
    && (forall id :: 0 <= id < |s.requests| ==> (s.requests[id].outcome == Pending <==> id in s.waiters))
    && (forall id :: 0 <= id < |s.requests| ==> (s.requests[id].timer <==> s.requests[id].outcome == Pending))
    && (forall id :: 0 <= id < |s.requests| ==>
          (s.requests[id].listener <==> s.requests[id].outcome == Pending && s.requests[id].signal.Some?))
  }

  /** The worker is active exactly while one lease is out. */
  ghost predicate LeaseInv(s: Queue) {
    && (s.active <==> exists id :: 0 <= id < |s.requests| && s.requests[id].outcome == Leased)
    && (forall i, j :: 0 <= i < |s.requests| && 0 <= j < |s.requests|
          && s.requests[i].outcome == Leased && s.requests[j].outcome == Leased
          ==> i == j)
  }

  /** Each promise settles at most once, and exactly the requests that left the queue have
      settled. */
  ghost predicate SettledInv(s: Queue) {
    && (forall i, j :: 0 <= i < j < |s.settled| ==> s.settled[i] != s.settled[j])
    && (forall i :: 0 <= i < |s.settled| ==> s.settled[i] < |s.requests|)
    && (forall id :: 0 <= id < |s.requests| ==> (id in s.settled <==> s.requests[id].outcome != Pending))
  }

  /** Leases go out in order of arrival, ahead of every waiter. */
  ghost predicate OrderInv(s: Queue) {
    && Increasing(s.leases)
    && (forall i :: 0 <= i < |s.leases| ==> s.leases[i] < |s.requests|)
    && (forall i, j :: 0 <= i < |s.leases| && 0 <= j < |s.waiters| ==> s.leases[i] < s.waiters[j])
    && (forall id :: 0 <= id < |s.requests| ==>
          (id in s.leases <==> s.requests[id].outcome == Leased || s.requests[id].outcome == Returned))
  }

  /** An idle worker with waiters has a dispatch pending. */
  ghost predicate WakeInv(s: Queue) {
    !s.active && s.waiters != [] ==> s.deferred > 0
  }

  ghost predicate Base(s: Queue) {
    WaitersInv(s) && LeaseInv(s) && SettledInv(s) && OrderInv(s)
  }

  ghost predicate Inv(s: Queue) {
    Base(s) && WakeInv(s)
  }

  // ---------------------------------------------------------------------------------------
  // Proofs

  lemma {:induction false} WithoutIs(ws: seq<nat>, id: nat)
    requires Increasing(ws)
    ensures forall x :: x in Without(ws, id) <==> x in ws && x != id
  {
    if ws != [] {
      var rest := ws[1..];
      assert forall x :: x in ws <==> x == ws[0] || x in rest;
      assert forall i :: 0 <= i < |rest| ==> ws[0] < rest[i];
      if ws[0] != id {
        WithoutIs(rest, id);
        assert forall x :: x in [ws[0]] + Without(rest, id) <==> x == ws[0] || x in Without(rest, id);
      }
    }
  }

  lemma ConsIncreasing(a: nat, r: seq<nat>)
    requires Increasing(r) && forall x :: x in r ==> a < x
    ensures Increasing([a] + r)
  {
    assert forall i :: 0 <= i < |r| ==> r[i] in r;
  }

  lemma {:induction false} WithoutSorted(ws: seq<nat>, id: nat)
    requires Increasing(ws)
    ensures Increasing(Without(ws, id))
    ensures forall x :: x in Without(ws, id) <==> x in ws && x != id
  {
    WithoutIs(ws, id);
    if ws != [] && ws[0] != id {
      var rest := ws[1..];
      assert forall x :: x in rest ==> ws[0] < x;
      WithoutSorted(rest, id);
      ConsIncreasing(ws[0], Without(rest, id));
    }
  }

  /** The queue without one of its waiters. */
  ghost predicate Leaves(ws: seq<nat>, id: nat, ws': seq<nat>) {
    id in ws && Increasing(ws') && forall x :: x in ws' <==> x in ws && x != id
  }

  /** A waiter that leaves the queue and settles keeps the waiters' invariant. */
  lemma SettleWaiters(s: Queue, id: nat, ws: seq<nat>, act: bool, outcome: Outcome)
    requires WaitersInv(s) && Leaves(s.waiters, id, ws) && outcome != Pending
    ensures WaitersInv(Settle(s.(waiters := ws, active := act), id, outcome))
  {
    var t := Settle(s.(waiters := ws, active := act), id, outcome);
    assert forall i :: 0 <= i < |ws| ==> ws[i] in ws;
  }

  lemma SettleSettled(s: Queue, id: nat, ws: seq<nat>, act: bool, outcome: Outcome)
    requires WaitersInv(s) && SettledInv(s) && id in s.waiters && outcome != Pending
    ensures SettledInv(Settle(s.(waiters := ws, active := act), id, outcome))
  {
  }

  /** Rejecting a waiter hands out no lease. */
  lemma RejectLeases(s: Queue, id: nat, ws: seq<nat>, outcome: Outcome)
    requires Base(s) && Leaves(s.waiters, id, ws) && (outcome == Aborted || outcome == TimedOut)
    ensures var t := Settle(s.(waiters := ws), id, outcome);
            LeaseInv(t) && OrderInv(t)
  {
    var t := Settle(s.(waiters := ws), id, outcome);
    assert forall i :: 0 <= i < |ws| ==> ws[i] in ws && ws[i] in s.waiters;
    assert forall i :: 0 <= i < |s.requests| ==> (t.requests[i].outcome == Leased <==> s.requests[i].outcome == Leased);
  }

  /** Leasing the first waiter of an idle worker. */
  lemma LeaseFirst(s: Queue)
    requires Base(s) && !s.active && s.waiters != []
    ensures var t := Settle(s.(waiters := s.waiters[1..], active := true), s.waiters[0], Leased);
            LeaseInv(t) && OrderInv(t)
  {
    var id := s.waiters[0];
    var t := Settle(s.(waiters := s.waiters[1..], active := true), id, Leased);
    assert t.requests[id].outcome == Leased;
    assert id !in s.leases;
  }

  lemma FirstLeaves(s: Queue)
    requires WaitersInv(s) && s.waiters != []
    ensures Leaves(s.waiters, s.waiters[0], s.waiters[1..])
  {
    assert forall x :: x in s.waiters <==> x == s.waiters[0] || x in s.waiters[1..];
  }

  /** A dispatch leaves the worker active or the queue empty. */
  lemma {:induction false} DispatchedInv(s: Queue)
    requires Base(s)
    ensures Inv(Dispatched(s))
    ensures |Dispatched(s).requests| == |s.requests|
    decreases |s.waiters|
  {
    if !s.active && s.waiters != [] {
      FirstLeaves(s);
      var id := s.waiters[0];
      if IsAborted(s, id) {
        SettleWaiters(s, id, s.waiters[1..], false, Aborted);
        SettleSettled(s, id, s.waiters[1..], false, Aborted);
        RejectLeases(s, id, s.waiters[1..], Aborted);
        DispatchedInv(Settle(s.(waiters := s.waiters[1..]), id, Aborted));
      } else {
        SettleWaiters(s, id, s.waiters[1..], true, Leased);
        SettleSettled(s, id, s.waiters[1..], true, Leased);
        LeaseFirst(s);
      }
    }
  }

  lemma EvictInv(s: Queue, id: nat, outcome: Outcome)
    requires Inv(s) && id in s.waiters && (outcome == Aborted || outcome == TimedOut)
    ensures Inv(Evict(s, id, outcome))
  {
    var ws := Without(s.waiters, id);
    WithoutSorted(s.waiters, id);
    SettleWaiters(s, id, ws, s.active, outcome);
    SettleSettled(s, id, ws, s.active, outcome);
    RejectLeases(s, id, ws, outcome);
  }

  /** A new request that joins the queue. */
  lemma PushBase(s: Queue, request: Request)
    requires Base(s) && request == Request(request.signal, true, request.signal.Some?, Pending)
    ensures Base(s.(waiters := s.waiters + [|s.requests|], requests := s.requests + [request]))
  {
    var t := s.(waiters := s.waiters + [|s.requests|], requests := s.requests + [request]);
    assert forall i :: 0 <= i < |s.requests| ==> t.requests[i] == s.requests[i];
    assert forall x :: x in t.waiters <==> x in s.waiters || x == |s.requests|;
    PushWaiters(s, request);
    assert LeaseInv(t);
    assert SettledInv(t);
  }

  lemma PushWaiters(s: Queue, request: Request)
    requires WaitersInv(s) && request == Request(request.signal, true, request.signal.Some?, Pending)
    ensures WaitersInv(s.(waiters := s.waiters + [|s.requests|], requests := s.requests + [request]))
  {
    var t := s.(waiters := s.waiters + [|s.requests|], requests := s.requests + [request]);
    assert forall i :: 0 <= i < |s.requests| ==> t.requests[i] == s.requests[i];
    assert forall x :: x in t.waiters <==> x in s.waiters || x == |s.requests|;
  }

  /** A request rejected on arrival. */
  lemma RejectArrival(s: Queue, signal: Option<nat>)
    requires Inv(s)
    ensures Inv(s.(requests := s.requests + [Request(signal, false, false, Aborted)],
                   settled := s.settled + [|s.requests|]))
  {
    var t := s.(requests := s.requests + [Request(signal, false, false, Aborted)],
                settled := s.settled + [|s.requests|]);
    assert forall i :: 0 <= i < |s.requests| ==> t.requests[i] == s.requests[i];
    assert forall x :: x in t.settled <==> x in s.settled || x == |s.requests|;
    assert WaitersInv(t);
    assert LeaseInv(t);
    assert SettledInv(t);
  }

  lemma AcquireInv(s: Queue, signal: Option<nat>)
    requires Inv(s)
    ensures Inv(Acquire(s, signal))
  {
    if signal.Some? && signal.value in s.aborted {
      RejectArrival(s, signal);
    } else {
      var request := Request(signal, true, signal.Some?, Pending);
      PushBase(s, request);
      DispatchedInv(s.(waiters := s.waiters + [|s.requests|], requests := s.requests + [request]));
    }
  }

  lemma DeferInv(s: Queue)
    requires Inv(s) && s.deferred > 0
    ensures Inv(RunDeferred(s))
  {
    var t := s.(deferred := s.deferred - 1);
    assert Base(t);
    DispatchedInv(t);
  }

  lemma ReleaseInv(s: Queue, id: nat)
    requires Inv(s) && id < |s.requests|
    ensures Inv(Release(s, id))
  {
  }

  // ---------------------------------------------------------------------------------------
  // Whole runs

  datatype Step =
    | Arrive(signal: Option<nat>)
    | Return(id: nat)            // a holder calls release, perhaps again
    | Raise(raised: nat)         // an abort signal is raised; listeners run later
    | Listen(id: nat)            // an armed abort listener of a raised signal runs
    | Fire(id: nat)              // an armed timer fires
    | Defer                      // a deferred dispatch runs

  predicate Enabled(s: Queue, step: Step) {
    match step
    case Arrive(_) => true
    case Return(id) => id < |s.requests| && (s.requests[id].outcome == Leased || s.requests[id].outcome == Returned)
    case Raise(_) => true
    case Listen(id) => id < |s.requests| && s.requests[id].listener && IsAborted(s, id)
    case Fire(id) => id < |s.requests| && s.requests[id].timer
    case Defer => s.deferred > 0
  }

  function Apply(s: Queue, step: Step): Queue
    requires Known(s) && Enabled(s, step)
  {
    match step
    case Arrive(signal) => Acquire(s, signal)
    case Return(id) => Release(s, id)
    case Raise(signal) => s.(aborted := s.aborted + {signal})
    case Listen(id) => Evict(s, id, Aborted)
    case Fire(id) => Evict(s, id, TimedOut)
    case Defer => RunDeferred(s)
  }

  /** The states a run of enabled steps passes through. */
  ghost predicate IsRun(steps: seq<Step>, run: seq<Queue>) {
    && |run| == |steps| + 1 && run[0] == IDLE
    && forall i :: 0 <= i < |steps| ==> StepAt(steps, run, i)
  }

  ghost predicate StepAt(steps: seq<Step>, run: seq<Queue>, i: nat)
    requires i < |steps| && |run| == |steps| + 1
  {
    Known(run[i]) && Enabled(run[i], steps[i]) && run[i + 1] == Apply(run[i], steps[i])
  }

  lemma ApplyInv(s: Queue, step: Step)
    requires Inv(s) && Enabled(s, step)
    ensures Inv(Apply(s, step))
  {
    match step {
      case Arrive(signal) => AcquireInv(s, signal);
      case Return(id) => ReleaseInv(s, id);
      case Raise(signal) =>
      case Listen(id) => EvictInv(s, id, Aborted);
      case Fire(id) => EvictInv(s, id, TimedOut);
      case Defer => DeferInv(s);
    }
  }

  /** In every state of every run: the waiters are the pending requests in order of arrival, at
      most one lease is out and `active` says so, every promise has settled at most once, leases
      went out in order of arrival, and an idle worker with waiters has a dispatch pending. */
  lemma {:induction false} RunInv(steps: seq<Step>, run: seq<Queue>, i: nat)
    requires IsRun(steps, run) && i < |run|
    ensures Inv(run[i])
  {
    if i > 0 {
      RunInv(steps, run, i - 1);
      assert StepAt(steps, run, i - 1);
      ApplyInv(run[i - 1], steps[i - 1]);
    }
  }

  /** Surviving waiters are served in order of arrival: when a request has been given the
      worker, every earlier request has settled. */
  lemma ServedInOrder(steps: seq<Step>, run: seq<Queue>, i: nat, earlier: nat, later: nat)
    requires IsRun(steps, run) && i < |run| && earlier < later
    requires later in run[i].leases
    ensures later < |run[i].requests| && earlier in run[i].settled
  {
    RunInv(steps, run, i);
    assert earlier !in run[i].waiters;
  }

  lemma {:induction false} DispatchedKeeps(s: Queue, id: nat)
    requires Known(s) && id < |s.requests| && id !in s.waiters
    ensures id < |Dispatched(s).requests| && Dispatched(s).requests[id] == s.requests[id]
    decreases |s.waiters|
  {
    if !s.active && s.waiters != [] && IsAborted(s, s.waiters[0]) {
      DispatchedKeeps(Settle(s.(waiters := s.waiters[1..]), s.waiters[0], Aborted), id);
    }
  }

  /** A settled promise keeps its outcome, except that a lease may be returned. */
  lemma OutcomeIsFinal(s: Queue, step: Step, id: nat)
    requires Inv(s) && Enabled(s, step) && id < |s.requests| && s.requests[id].outcome != Pending
    ensures var t := Apply(s, step);
            && id < |t.requests|
            && (t.requests[id].outcome == s.requests[id].outcome
                || (step == Return(id) && s.requests[id].outcome == Leased && t.requests[id].outcome == Returned))
  {
    assert id !in s.waiters;
    if step.Arrive? && !(step.signal.Some? && step.signal.value in s.aborted) {
      var request := Request(step.signal, true, step.signal.Some?, Pending);
      DispatchedKeeps(s.(waiters := s.waiters + [|s.requests|], requests := s.requests + [request]), id);
    } else if step.Defer? {
      DispatchedKeeps(s.(deferred := s.deferred - 1), id);
    }
  }

  /** At most one lease is out at any time. */
  lemma OneLease(steps: seq<Step>, run: seq<Queue>, i: nat, a: nat, b: nat)
    requires IsRun(steps, run) && i < |run| && a < |run[i].requests| && b < |run[i].requests|
    requires run[i].requests[a].outcome == Leased && run[i].requests[b].outcome == Leased
    ensures a == b && run[i].active
  {
    RunInv(steps, run, i);
  }
}
