/**
  No lost wakeup between processes: once a waiter has enqueued, the head file of its lane never
  holds it back behind a later ticket.  The head file is only a hint that any process rewrites
  from a listing of the queue; what keeps it right is that listings are made and written under
  the lane's head lock, and that enqueuing ends with such a refresh.
 */
module SchedulerHead {
  import opened Common
  import opened SlotPlan
  import opened TicketNames
  import opened Scheduler
  import opened SchedulerFiles
  import opened SchedulerSlots
  import opened SchedulerQueue

  /** A listing result that has not been written yet. */
  predicate Writes(stage: Stage) { stage.Refreshing? && stage.phase.Writing? }

  /** The ticket exists and the refresh that ends its enqueue has written the head file. */
  predicate Enqueued(q: Request) {
    && q.name.Some? && !q.stage.TicketCreated?
    && !(q.stage.Refreshing? && q.stage.after == ThenEnqueued
         && (q.stage.phase.Locking? || q.stage.phase.Listing? || q.stage.phase.Writing?))
  }

  // ---------------------------------------------------------------------------------------
  // What one step of one request does to the head file

  ghost predicate HeadMove(q: Request, op: Op, q': Request) {
    && (op.ReplaceHead? ==> Writes(q.stage) && op == ReplaceHead(q.lane, q.stage.phase.head))
    && (Writes(q'.stage) ==> op == ListTickets(q.lane, q'.stage.phase.head))
    && (Enqueued(q') && !Enqueued(q) ==>
          op.ReplaceHead? || (q.name.Some? && op == RemoveTicket(q.name.value)))
  }

  lemma SequenceHead(r: Rid, q: Request, op: Op, q': Request)
    requires LocksFitStage(r, q) && SequenceStep(r, q, op, q')
    ensures HeadMove(q, op, q')
  {
  }

  lemma TicketHead(r: Rid, q: Request, op: Op, q': Request)
    requires LocksFitStage(r, q) && TicketStep(q, op, q')
    ensures HeadMove(q, op, q')
  {
  }

  lemma RefreshHead(r: Rid, q: Request, op: Op, q': Request)
    requires LocksFitStage(r, q) && RefreshStep(r, q, op, q')
    ensures HeadMove(q, op, q')
  {
  }

  lemma WaitHead(r: Rid, q: Request, op: Op, q': Request)
    requires LocksFitStage(r, q) && WaitStep(r, q, op, q')
    ensures HeadMove(q, op, q')
  {
  }

  lemma ClaimHead(r: Rid, q: Request, op: Op, q': Request)
    requires LocksFitStage(r, q) && (ClaimStep(r, q, op, q') || SettleStep(q, op, q') || FreeStep(q, op, q'))
    ensures HeadMove(q, op, q')
  {
  }

  lemma LocalHead(r: Rid, q: Request, op: Op, q': Request)
    requires LocksFitStage(r, q) && LocalStep(r, q, op, q')
    ensures HeadMove(q, op, q')
  {
    if SequenceStep(r, q, op, q') {
      SequenceHead(r, q, op, q');
    } else if TicketStep(q, op, q') {
      TicketHead(r, q, op, q');
    } else if RefreshStep(r, q, op, q') {
      RefreshHead(r, q, op, q');
    } else if WaitStep(r, q, op, q') {
      WaitHead(r, q, op, q');
    } else {
      ClaimHead(r, q, op, q');
    }
  }

  /** A step reduced to what matters here: one live request performs one operation. */
  ghost predicate HeadActs(s: State, r: Rid, op: Op, s': State) {
    Acts(s, r, op, s') && HeadMove(s.requests[r], op, s'.requests[r])
  }

  ghost predicate HeadStep(s: State, s': State) {
    QueueShrinks(s, s') || exists r, op :: HeadActs(s, r, op, s')
  }

  lemma RequestStepHeadActs(c: Config, s: State, r: Rid, op: Op, s': State)
    requires FilesInv(c, s) && RequestStep(s, r, op, s')
    ensures HeadActs(s, r, op, s')
  {
    assert RequestOk(r, s.requests[r]);
    LocalMove(r, s.requests[r], op, s'.requests[r]);
    LocalHead(r, s.requests[r], op, s'.requests[r]);
  }

  lemma StepIsHeadStep(c: Config, s: State, s': State)
    requires FilesInv(c, s) && Step(c, s, s')
    ensures HeadStep(s, s')
  {
    if r, op :| RequestStep(s, r, op, s') {
      RequestStepHeadActs(c, s, r, op, s');
    } else if r, pid, d, pressure :| Arrives(c, s, r, pid, d, pressure, s') {
      ArrivalShrinks(c, s, r, pid, d, pressure, s');
    } else {
      WorldShrinks(c, s, s');
    }
  }

  ghost predicate HeadStepAt(run: seq<State>, i: nat)
    requires 0 < i < |run|
  {
    HeadStep(run[i - 1], run[i])
  }

  /** A run as the head files see it. */
  ghost predicate HeadRun(c: Config, run: seq<State>) {
    QueueRun(c, run) && forall i :: 0 < i < |run| ==> HeadStepAt(run, i)
  }

  lemma RunIsHeadRun(c: Config, run: seq<State>)
    requires IsRun(c, run)
    ensures HeadRun(c, run)
  {
    RunIsQueueRun(c, run);
    forall i | 0 < i < |run|
      ensures HeadStepAt(run, i)
    {
      assert StepAt(c, run, i);
      RunKeepsFiles(c, run, i - 1);
      StepIsHeadStep(c, run[i - 1], run[i]);
    }
  }

  // ---------------------------------------------------------------------------------------
  // The invariant

  /** The name does not hold a ticket back: it is of the same lane and no later. */
  predicate Admits(h: Option<TicketName>, t: TicketName) {
    h.Some? && h.value.lane == t.lane && h.value.sequence <= t.sequence
  }

  predicate Queued(s: State, a: Rid) {
    a in s.requests && s.requests[a].name.Some? && s.requests[a].name.value in s.files.tickets
  }

  ghost predicate HeadAdmits(s: State, a: Rid) {
    Queued(s, a) && Enqueued(s.requests[a]) ==>
      Admits(Lookup(s.files.head, s.requests[a].lane), s.requests[a].name.value)
  }

  /** What a live request is about to write admits whoever is enqueued, and the writer itself. */
  ghost predicate WriterAdmits(s: State, x: Rid, a: Rid) {
    && Live(s, x) && Writes(s.requests[x].stage) && Queued(s, a)
    && s.requests[a].lane == s.requests[x].lane && (Enqueued(s.requests[a]) || a == x)
    ==> Admits(s.requests[x].stage.phase.head, s.requests[a].name.value)
  }

  ghost predicate HeadInv(s: State) {
    && (forall a :: a in s.requests ==> HeadAdmits(s, a))
    && (forall x, a :: x in s.requests && a in s.requests ==> WriterAdmits(s, x, a))
  }

  /** Two live requests of a lane are not both about to write. */
  lemma OneWriter(c: Config, s: State, x: Rid, y: Rid)
    requires FilesInv(c, s) && Live(s, x) && Live(s, y)
    requires Writes(s.requests[x].stage) && Writes(s.requests[y].stage)
    requires s.requests[x].lane == s.requests[y].lane
    ensures x == y
  {
    var q1, q2 := s.requests[x], s.requests[y];
    assert LocksFitStage(x, q1) && LocksFitStage(y, q2);
    assert Holds(q1, HeadLock(q1.lane), q1.headToken.value);
    assert Holds(q2, HeadLock(q1.lane), q2.headToken.value);
  }

  /** A queued ticket was queued before the step, unless the step created it. */
  lemma QueuedBefore(c: Config, s: State, r: Rid, op: Op, s': State, a: Rid)
    requires FilesInv(c, s) && NumbersUnique(s) && Acts(s, r, op, s') && Queued(s', a)
    ensures Queued(s, a) || (a == r && op.CreateTicket?)
    ensures Queued(s, a) ==> s'.requests[a].name == s.requests[a].name && s'.requests[a].lane == s.requests[a].lane
  {
    if a in s.requests && s.requests[a].name.Some? {
      assert LocksFitStage(a, s.requests[a]);
      TicketStepGone(s, r, op, s', s.requests[a].name.value, a);
    }
  }

  /** A listing of the lane admits every queued ticket of it. */
  lemma ListingAdmits(c: Config, s: State, a: Rid, h: Option<TicketName>)
    requires FilesInv(c, s) && NumbersIssued(s) && Queued(s, a)
    requires IsListHead(s.files.tickets.Keys, s.requests[a].lane, h)
    ensures Admits(h, s.requests[a].name.value)
  {
    assert LocksFitStage(a, s.requests[a]);
    HeadIsLeastOfLane(s.files.tickets.Keys, s.requests[a].lane, h, s.requests[a].name.value);
  }

  /** A request that the step has just enqueued is the one that wrote the head file. */
  lemma NewlyEnqueued(s: State, r: Rid, op: Op, s': State, a: Rid)
    requires HeadActs(s, r, op, s')
    requires Queued(s, a) && Queued(s', a) && s'.requests[a].name == s.requests[a].name
    requires Enqueued(s'.requests[a])
    ensures Enqueued(s.requests[a]) || (a == r && op.ReplaceHead?)
  {
  }

  lemma HeadAdmitsStep(c: Config, s: State, r: Rid, op: Op, s': State, a: Rid)
    requires FilesInv(c, s) && NumbersUnique(s) && HeadInv(s)
    requires HeadActs(s, r, op, s')
    ensures HeadAdmits(s', a)
  {
    if Queued(s', a) && Enqueued(s'.requests[a]) {
      QueuedBefore(c, s, r, op, s', a);
      if Queued(s, a) {
        NewlyEnqueued(s, r, op, s', a);
        KeptOrWritten(s, r, op, s', a);
      }
    }
  }

  /** The head file stays, or is what the writer was about to write. */
  lemma KeptOrWritten(s: State, r: Rid, op: Op, s': State, a: Rid)
    requires HeadActs(s, r, op, s')
    requires Queued(s, a) && HeadAdmits(s, a) && WriterAdmits(s, r, a)
    requires Enqueued(s.requests[a]) || (a == r && op.ReplaceHead?)
    ensures Admits(Lookup(s'.files.head, s.requests[a].lane), s.requests[a].name.value)
  {
  }

  /** A request that comes to write has just listed the lane. */
  lemma WriterHasListed(s: State, r: Rid, op: Op, s': State)
    requires HeadActs(s, r, op, s') && Writes(s'.requests[r].stage)
    ensures IsListHead(s.files.tickets.Keys, s.requests[r].lane, s'.requests[r].stage.phase.head)
    ensures s'.requests[r].lane == s.requests[r].lane
  {
    assert op == ListTickets(s.requests[r].lane, s'.requests[r].stage.phase.head);
  }

  /** Another writer holds the head lock, so the step has enqueued nobody of its lane. */
  lemma OtherWriterAdmits(c: Config, s: State, r: Rid, op: Op, s': State, x: Rid, a: Rid)
    requires FilesInv(c, s) && HeadActs(s, r, op, s') && x != r && WriterAdmits(s, x, a)
    requires Queued(s, a) && Queued(s', a) && s'.requests[a].name == s.requests[a].name
    requires Live(s, x) && Writes(s.requests[x].stage) && s.requests[a].lane == s.requests[x].lane
    requires Enqueued(s'.requests[a]) || a == x
    ensures Admits(s.requests[x].stage.phase.head, s.requests[a].name.value)
  {
    if a != x {
      NewlyEnqueued(s, r, op, s', a);
      if op.ReplaceHead? && a == r {
        OneWriter(c, s, x, r);
      }
    }
  }

  lemma WriterAdmitsStep(c: Config, s: State, r: Rid, op: Op, s': State, x: Rid, a: Rid)
    requires FilesInv(c, s) && NumbersUnique(s) && NumbersIssued(s) && HeadInv(s)
    requires HeadActs(s, r, op, s')
    ensures WriterAdmits(s', x, a)
  {
    if Live(s', x) && Writes(s'.requests[x].stage) && Queued(s', a)
       && s'.requests[a].lane == s'.requests[x].lane && (Enqueued(s'.requests[a]) || a == x) {
      QueuedBefore(c, s, r, op, s', a);
      if Queued(s, a) {
        if x == r {
          WriterHasListed(s, r, op, s');
          ListingAdmits(c, s, a, s'.requests[r].stage.phase.head);
        } else {
          assert WriterAdmits(s, x, a);
          OtherWriterAdmits(c, s, r, op, s', x, a);
        }
      }
    }
  }

  lemma HeadInvActs(c: Config, s: State, r: Rid, op: Op, s': State)
    requires FilesInv(c, s) && QueueInv(s) && HeadInv(s) && HeadActs(s, r, op, s')
    ensures HeadInv(s')
  {
    forall a | a in s'.requests ensures HeadAdmits(s', a) {
      HeadAdmitsStep(c, s, r, op, s', a);
    }
    forall x, a | x in s'.requests && a in s'.requests ensures WriterAdmits(s', x, a) {
      WriterAdmitsStep(c, s, r, op, s', x, a);
    }
  }

  lemma HeadInvShrinks(s: State, s': State)
    requires HeadInv(s) && QueueShrinks(s, s')
    ensures HeadInv(s')
  {
    forall a | a in s'.requests ensures HeadAdmits(s', a) {
      assert a in s.requests ==> HeadAdmits(s, a);
    }
    forall x, a | x in s'.requests && a in s'.requests ensures WriterAdmits(s', x, a) {
      assert x in s.requests && a in s.requests ==> WriterAdmits(s, x, a);
    }
  }

  lemma HeadInvStep(c: Config, s: State, s': State)
    requires FilesInv(c, s) && QueueInv(s) && HeadInv(s) && HeadStep(s, s')
    ensures HeadInv(s')
  {
    if QueueShrinks(s, s') {
      HeadInvShrinks(s, s');
    } else {
      var r, op :| HeadActs(s, r, op, s');
      HeadInvActs(c, s, r, op, s');
    }
  }

  ghost predicate HeadInvAt(run: seq<State>, i: nat)
    requires i < |run|
  {
    HeadInv(run[i])
  }

  lemma HeadInvInitial()
    ensures HeadInv(INITIAL)
  {
  }

  lemma HeadInvNext(c: Config, run: seq<State>, i: nat)
    requires HeadRun(c, run) && 0 < i < |run| && HeadInvAt(run, i - 1)
    ensures HeadInvAt(run, i)
  {
    var s, s' := run[i - 1], run[i];
    assert QueueInv(s) by { RunKeepsQueue(c, run, i - 1); }
    assert FilesInv(c, s) by { assert FilesInvAt(c, run, i - 1); }
    assert HeadStep(s, s') by { assert HeadStepAt(run, i); }
    HeadInvStep(c, s, s');
  }

  lemma {:induction false} RunKeepsHead(c: Config, run: seq<State>, i: nat)
    requires HeadRun(c, run) && i < |run|
    ensures HeadInvAt(run, i)
  {
    if i == 0 {
      HeadInvInitial();
    } else {
      RunKeepsHead(c, run, i - 1);
      HeadInvNext(c, run, i);
    }
  }

  // ---------------------------------------------------------------------------------------
  // No lost wakeup

  /** In every reachable state, while a request that has enqueued is still queued, the head file of
      its lane names a ticket of that lane whose number is no larger than its own. */
  lemma HeadFileAdmitsQueued(c: Config, run: seq<State>, i: nat, a: Rid)
    requires IsRun(c, run) && i < |run| && Queued(run[i], a) && Enqueued(run[i].requests[a])
    ensures var q := run[i].requests[a];
            && q.lane in run[i].files.head
            && run[i].files.head[q.lane].lane == q.lane
            && run[i].files.head[q.lane].sequence <= q.name.value.sequence
  {
    RunIsHeadRun(c, run);
    RunKeepsHead(c, run, i);
    assert FilesInvAt(c, run, i);
    assert HeadAdmits(run[i], a) && LocksFitStage(a, run[i].requests[a]);
  }

  /** No queued ticket of the lane has a smaller number. */
  ghost predicate IsLeast(s: State, t: TicketName) {
    forall n :: n in s.files.tickets && n.lane == t.lane ==> t.sequence <= n.sequence
  }

  /** So the least waiter of a lane is never held back by the head file: the file names it, or it
      names a ticket that has left the queue, which whoever reads it clears and refreshes. */
  lemma LeastWaiterIsNotHeldBack(c: Config, run: seq<State>, i: nat, a: Rid)
    requires IsRun(c, run) && i < |run| && Queued(run[i], a) && Enqueued(run[i].requests[a])
    requires IsLeast(run[i], run[i].requests[a].name.value)
    ensures var q := run[i].requests[a];
            && q.lane in run[i].files.head
            && (run[i].files.head[q.lane] == q.name.value || run[i].files.head[q.lane] !in run[i].files.tickets)
  {
    var s, q := run[i], run[i].requests[a];
    HeadFileAdmitsQueued(c, run, i, a);
    var h := s.files.head[q.lane];
    if h in s.files.tickets && h != q.name.value {
      RunKeepsFiles(c, run, i);
      RunIsQueueRun(c, run);
      RunKeepsQueue(c, run, i);
      assert QueueInv(s) && LocksFitStage(a, q);
      TicketsDiffer(c, s, h, q.name.value);
    }
  }

  /** The check of the least waiter: reading the head file lets it pass, or shows it a ticket that
      is gone. */
  lemma LeastWaiterCanCheck(c: Config, run: seq<State>, i: nat, a: Rid) returns (next: State)
    requires IsRun(c, run) && i < |run| && Live(run[i], a) && Queued(run[i], a)
    requires run[i].requests[a].stage == Waiting && IsLeast(run[i], run[i].requests[a].name.value)
    ensures Step(c, run[i], next) && a in next.requests
    ensures next.requests[a].stage == AtHead
            || (next.requests[a].stage.HeadSeen? && next.requests[a].stage.name !in next.files.tickets)
  {
    var s, q := run[i], run[i].requests[a];
    LeastWaiterIsNotHeldBack(c, run, i, a);
    var h := s.files.head[q.lane];
    var q' := q.(stage := if Some(h) == q.name then AtHead else HeadSeen(h));
    next := s.(requests := s.requests[a := q']);
    assert WaitStep(a, q, ReadHead(q.lane, Some(h)), q');
    assert RequestStep(s, a, ReadHead(q.lane, Some(h)), next);
  }
}
