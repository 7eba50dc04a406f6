/**
  First in, first out over whole runs of the scheduler: a waiter whose enqueue began after
  another waiter of its lane had its ticket in the queue never passes the head check while
  that earlier ticket is still there.  The clock readings in a run are arbitrary, so this
  holds even if the clock runs backwards.
 */
module SchedulerQueue {
  import opened Common
  import opened SlotPlan
  import opened TicketNames
  import opened Scheduler
  import opened SchedulerFiles
  import opened SchedulerSlots

  /** The sequence number a request has drawn, whether or not its ticket exists yet. */
  function Number(q: Request): Option<nat> {
    if q.stage.SequenceWritten? || q.stage.SequenceUnlock? || q.stage.Numbered? then Some(q.stage.number)
    else if q.name.Some? then Some(q.name.value.sequence) else None
  }

  /** The listing result a request carries towards the head file or its own judgement. */
  function Result(stage: Stage): Option<TicketName> {
    if stage.Refreshing? && !stage.phase.Locking? && !stage.phase.Listing? then stage.phase.head else None
  }

  /** Stages entered only through the head check. */
  predicate Passed(stage: Stage) {
    || stage.AtHead? || stage.Claiming? || stage.ClaimsDone? || stage.ClaimUnlock? || HoldsLease(stage)
    || (stage.Freeing? && stage.goal == ThenUnlock)
  }

  // ---------------------------------------------------------------------------------------
  // What one step of one request does to numbers, tickets and heads

  /** How a step moves a request through the queue, given the operation it performs. */
  ghost predicate QueueMove(q: Request, op: Op, q': Request) {
    && q'.lane == q.lane && q'.pid == q.pid
    // numbers
    && (op.ReplaceSequence? ==>
          && op.lane == q.lane && q.stage.SequenceRead? && Number(q') == Some(op.number)
          && op.number < LIMIT
          && (q.stage.current.Some? ==> q.stage.current.value < op.number))
    && (!op.ReplaceSequence? ==> Number(q') == Number(q) || Number(q').None?)
    && (q'.stage.SequenceRead? ==> op == ReadSequence(q.lane, q'.stage.current))
    // tickets
    && (op.CreateTicket? ==>
          && q.name.None? && q'.name == Some(op.ticket) && op.ticket.lane == q.lane
          && Number(q) == Some(op.ticket.sequence) && !Passed(q'.stage))
    && (!op.CreateTicket? ==> q'.name == q.name)
    // heads
    && (op.ReplaceHead? ==> op.lane == q.lane && op.name == Result(q.stage))
    && (Result(q'.stage).Some? ==>
          Result(q'.stage) == Result(q.stage) || op == ListTickets(q.lane, Result(q'.stage)))
    && (Passed(q'.stage) && !Passed(q.stage) ==>
          q.name.Some? && (op == ReadHead(q.lane, q.name) || Result(q.stage) == q.name))
  }

  lemma SequenceMove(r: Rid, q: Request, op: Op, q': Request)
    requires LocksFitStage(r, q) && SequenceStep(r, q, op, q')
    ensures QueueMove(q, op, q')
  {
  }

  lemma TicketMove(r: Rid, q: Request, op: Op, q': Request)
    requires LocksFitStage(r, q) && TicketStep(q, op, q')
    ensures QueueMove(q, op, q')
  {
  }

  lemma RefreshMove(r: Rid, q: Request, op: Op, q': Request)
    requires LocksFitStage(r, q) && RefreshStep(r, q, op, q')
    ensures QueueMove(q, op, q')
  {
  }

  lemma WaitMove(r: Rid, q: Request, op: Op, q': Request)
    requires LocksFitStage(r, q) && WaitStep(r, q, op, q')
    ensures QueueMove(q, op, q')
  {
  }

  lemma ClaimMove(r: Rid, q: Request, op: Op, q': Request)
    requires LocksFitStage(r, q) && ClaimStep(r, q, op, q')
    ensures QueueMove(q, op, q')
  {
  }

  lemma SettleMove(r: Rid, q: Request, op: Op, q': Request)
    requires LocksFitStage(r, q) && SettleStep(q, op, q')
    ensures QueueMove(q, op, q')
  {
  }

  lemma FreeMove(r: Rid, q: Request, op: Op, q': Request)
    requires LocksFitStage(r, q) && FreeStep(q, op, q')
    ensures QueueMove(q, op, q')
  {
  }

  lemma LocalMove(r: Rid, q: Request, op: Op, q': Request)
    requires LocksFitStage(r, q) && LocalStep(r, q, op, q')
    ensures QueueMove(q, op, q')
  {
    if SequenceStep(r, q, op, q') {
      SequenceMove(r, q, op, q');
    } else if TicketStep(q, op, q') {
      TicketMove(r, q, op, q');
    } else if RefreshStep(r, q, op, q') {
      RefreshMove(r, q, op, q');
    } else if WaitStep(r, q, op, q') {
      WaitMove(r, q, op, q');
    } else if ClaimStep(r, q, op, q') {
      ClaimMove(r, q, op, q');
    } else if SettleStep(q, op, q') {
      SettleMove(r, q, op, q');
    } else {
      FreeMove(r, q, op, q');
    }
  }

  /** A step reduced to what matters for the queue: one live request performs one operation. */
  ghost predicate Acts(s: State, r: Rid, op: Op, s': State) {
    && Live(s, r) && r in s'.requests
    && s'.requests == s.requests[r := s'.requests[r]]
    && s'.alive == s.alive
    && QueueMove(s.requests[r], op, s'.requests[r])
    && OpStep(s.alive, s.files, op, s'.files)
  }

  /** A step that moves no request, draws no number, adds no ticket and writes no head file. */
  ghost predicate QueueShrinks(s: State, s': State) {
    && s'.files.sequence == s.files.sequence && s'.files.head == s.files.head
    && s'.files.tickets.Keys <= s.files.tickets.Keys
    && (forall r :: r in s.requests ==> r in s'.requests && s'.requests[r] == s.requests[r])
    && (forall r :: r in s'.requests && r !in s.requests ==>
          s'.requests[r].stage.Planned? && s'.requests[r].name.None?)
    && (forall r :: r in s.requests && Live(s', r) ==> Live(s, r))
  }

  /** The queue's view of a step. */
  ghost predicate QueueStep(s: State, s': State) {
    QueueShrinks(s, s') || exists r, op :: Acts(s, r, op, s')
  }

  lemma RequestStepActs(c: Config, s: State, r: Rid, op: Op, s': State)
    requires FilesInv(c, s) && RequestStep(s, r, op, s')
    ensures QueueStep(s, s')
  {
    assert RequestOk(r, s.requests[r]);
    LocalMove(r, s.requests[r], op, s'.requests[r]);
    assert Acts(s, r, op, s');
  }

  lemma ArrivalShrinks(c: Config, s: State, r: Rid, pid: Pid, d: Demand, pressure: bool, s': State)
    requires Arrives(c, s, r, pid, d, pressure, s')
    ensures QueueShrinks(s, s')
  {
  }

  lemma WorldShrinks(c: Config, s: State, s': State)
    requires FilesInv(c, s) && s'.requests == s.requests
    requires s'.files == s.files.(records := s'.files.records, tickets := s'.files.tickets)
    requires s'.files.tickets.Keys <= s.files.tickets.Keys
    requires forall pid :: pid in s'.alive && pid in s.started ==> pid in s.alive
    ensures QueueShrinks(s, s')
  {
  }

  /** Every step is an action of one live request or does no more to the queue than take
      tickets away. */
  lemma StepIsQueueStep(c: Config, s: State, s': State)
    requires FilesInv(c, s) && Step(c, s, s')
    ensures QueueStep(s, s')
  {
    if r, op :| RequestStep(s, r, op, s') {
      RequestStepActs(c, s, r, op, s');
    } else if r, pid, d, pressure :| Arrives(c, s, r, pid, d, pressure, s') {
      ArrivalShrinks(c, s, r, pid, d, pressure, s');
    } else {
      WorldShrinks(c, s, s');
    }
  }

  ghost predicate QueueStepAt(run: seq<State>, i: nat)
    requires 0 < i < |run|
  {
    QueueStep(run[i - 1], run[i])
  }

  ghost predicate FilesInvAt(c: Config, run: seq<State>, i: nat)
    requires i < |run|
  {
    FilesInv(c, run[i])
  }

  /** A run as the queue sees it. */
  ghost predicate QueueRun(c: Config, run: seq<State>) {
    && |run| > 0 && run[0] == INITIAL
    && (forall i :: 0 <= i < |run| ==> FilesInvAt(c, run, i))
    && (forall i :: 0 < i < |run| ==> QueueStepAt(run, i))
  }

  lemma RunIsQueueRun(c: Config, run: seq<State>)
    requires IsRun(c, run)
    ensures QueueRun(c, run)
  {
    forall i | 0 <= i < |run|
      ensures FilesInvAt(c, run, i)
    {
      RunKeepsFiles(c, run, i);
    }
    forall i | 0 < i < |run|
      ensures QueueStepAt(run, i)
    {
      assert StepAt(c, run, i);
      RunKeepsFiles(c, run, i - 1);
      StepIsQueueStep(c, run[i - 1], run[i]);
    }
  }

  // ---------------------------------------------------------------------------------------
  // The queue invariant

  ghost predicate NumberIssued(f: Files, lane: Lane, n: nat) {
    lane in f.sequence && n <= f.sequence[lane] && n < LIMIT
  }

  /** Numbers never exceed the stored sequence. */
  ghost predicate NumbersIssued(s: State) {
    && (forall r :: r in s.requests && Number(s.requests[r]).Some? ==>
          NumberIssued(s.files, s.requests[r].lane, Number(s.requests[r]).value))
    && (forall n :: n in s.files.tickets ==> NumberIssued(s.files, n.lane, n.sequence))
  }

  /** No two requests of a lane draw the same number. */
  ghost predicate NumbersUnique(s: State) {
    forall r1, r2 :: r1 in s.requests && r2 in s.requests && r1 != r2
      && s.requests[r1].lane == s.requests[r2].lane && Number(s.requests[r1]).Some?
      ==> Number(s.requests[r1]) != Number(s.requests[r2])
  }

  /** While a request holds the head lock between reading and writing the sequence, what it
      read is still what is stored. */
  ghost predicate ReadsCurrent(s: State) {
    forall r :: Live(s, r) && s.requests[r].stage.SequenceRead? ==>
      s.requests[r].stage.current == Lookup(s.files.sequence, s.requests[r].lane)
  }

  /** Some request owns this ticket name. */
  ghost predicate Known(s: State, n: TicketName) {
    exists r :: r in s.requests && s.requests[r].name == Some(n)
  }

  ghost predicate NamesKnown(s: State) {
    && (forall n :: n in s.files.tickets ==> Known(s, n))
    && (forall lane :: lane in s.files.head ==> Known(s, s.files.head[lane]))
    && (forall r :: r in s.requests && Result(s.requests[r].stage).Some? ==>
          Known(s, Result(s.requests[r].stage).value))
  }

  ghost predicate QueueInv(s: State) {
    NumbersIssued(s) && NumbersUnique(s) && ReadsCurrent(s) && NamesKnown(s)
  }

  /** The lane's head lock admits one reader of the sequence at a time. */
  ghost predicate OneReader(s: State) {
    forall r1, r2 :: Live(s, r1) && Live(s, r2) && s.requests[r1].lane == s.requests[r2].lane
      && s.requests[r1].stage.SequenceRead? && s.requests[r2].stage.SequenceRead?
      ==> r1 == r2
  }

  lemma FilesGiveOneReader(c: Config, s: State)
    requires FilesInv(c, s)
    ensures OneReader(s)
  {
    forall r1, r2 | Live(s, r1) && Live(s, r2) && s.requests[r1].lane == s.requests[r2].lane
      && s.requests[r1].stage.SequenceRead? && s.requests[r2].stage.SequenceRead?
      ensures r1 == r2
    {
      var q1, q2 := s.requests[r1], s.requests[r2];
      assert LocksFitStage(r1, q1) && LocksFitStage(r2, q2);
      assert Holds(q1, HeadLock(q1.lane), q1.headToken.value);
      assert Holds(q2, HeadLock(q1.lane), q2.headToken.value);
    }
  }

  /** One action does not lower the stored sequence of a lane. */
  lemma SequenceStepGrows(s: State, r: Rid, op: Op, s': State, lane: Lane)
    requires ReadsCurrent(s) && Acts(s, r, op, s') && lane in s.files.sequence
    ensures lane in s'.files.sequence && s.files.sequence[lane] <= s'.files.sequence[lane]
    ensures op.ReplaceSequence? && op.lane == lane ==> s.files.sequence[lane] < op.number
  {
  }

  lemma IssuedStays(s: State, r: Rid, op: Op, s': State)
    requires ReadsCurrent(s) && Acts(s, r, op, s')
    ensures forall lane, n :: NumberIssued(s.files, lane, n) ==> NumberIssued(s'.files, lane, n)
  {
    forall lane, n | NumberIssued(s.files, lane, n)
      ensures NumberIssued(s'.files, lane, n)
    {
      SequenceStepGrows(s, r, op, s', lane);
    }
  }

  lemma ActsIssued(s: State, r: Rid, op: Op, s': State)
    requires NumbersIssued(s) && ReadsCurrent(s) && Acts(s, r, op, s')
    ensures NumbersIssued(s')
  {
    IssuedStays(s, r, op, s');
    if op.ReplaceSequence? {
      assert NumberIssued(s'.files, op.lane, op.number);
    }
  }

  lemma ActsUnique(s: State, r: Rid, op: Op, s': State)
    requires NumbersIssued(s) && NumbersUnique(s) && ReadsCurrent(s) && Acts(s, r, op, s')
    ensures NumbersUnique(s')
  {
    if op.ReplaceSequence? {
      forall o | o in s.requests && o != r && s.requests[o].lane == op.lane
        ensures Number(s.requests[o]) != Some(op.number)
      {
        if Number(s.requests[o]).Some? {
          SequenceStepGrows(s, r, op, s', op.lane);
        }
      }
    }
  }

  lemma ActsReads(s: State, r: Rid, op: Op, s': State)
    requires ReadsCurrent(s) && OneReader(s) && Acts(s, r, op, s')
    ensures ReadsCurrent(s')
  {
    forall o | Live(s', o) && s'.requests[o].stage.SequenceRead?
      ensures s'.requests[o].stage.current == Lookup(s'.files.sequence, s'.requests[o].lane)
    {
      if o != r {
        assert Live(s, o);
      }
    }
  }

  lemma KnownStays(s: State, r: Rid, op: Op, s': State, n: TicketName)
    requires Known(s, n) && Acts(s, r, op, s')
    ensures Known(s', n)
  {
    var o :| o in s.requests && s.requests[o].name == Some(n);
    assert s'.requests[o].name == Some(n);
  }

  lemma ActsNames(s: State, r: Rid, op: Op, s': State)
    requires NamesKnown(s) && Acts(s, r, op, s')
    ensures NamesKnown(s')
  {
    var q' := s'.requests[r];
    forall n | Known(s, n)
      ensures Known(s', n)
    {
      KnownStays(s, r, op, s', n);
    }
    assert q'.name.Some? ==> Known(s', q'.name.value);
    assert Result(q'.stage).Some? ==> Known(s', Result(q'.stage).value);
  }

  lemma QueueInvLeft(s: State, s': State)
    requires QueueInv(s) && QueueShrinks(s, s')
    ensures QueueInv(s')
  {
    forall n | Known(s, n)
      ensures Known(s', n)
    {
      var o :| o in s.requests && s.requests[o].name == Some(n);
      assert s'.requests[o].name == Some(n);
    }
  }

  lemma QueueInvStep(c: Config, s: State, s': State)
    requires FilesInv(c, s) && QueueInv(s) && QueueStep(s, s')
    ensures QueueInv(s')
  {
    if QueueShrinks(s, s') {
      QueueInvLeft(s, s');
    } else {
      var r, op :| Acts(s, r, op, s');
      FilesGiveOneReader(c, s);
      ActsIssued(s, r, op, s');
      ActsUnique(s, r, op, s');
      ActsReads(s, r, op, s');
      ActsNames(s, r, op, s');
    }
  }

  ghost predicate QueueInvAt(run: seq<State>, i: nat)
    requires i < |run|
  {
    QueueInv(run[i])
  }

  lemma QueueInvNext(c: Config, run: seq<State>, i: nat)
    requires QueueRun(c, run) && 0 < i < |run| && QueueInvAt(run, i - 1)
    ensures QueueInvAt(run, i)
  {
    assert QueueStepAt(run, i) && FilesInvAt(c, run, i - 1);
    QueueInvStep(c, run[i - 1], run[i]);
  }

  lemma QueueInvInitial()
    ensures QueueInv(INITIAL)
  {
  }

  lemma {:induction false} RunKeepsQueue(c: Config, run: seq<State>, i: nat)
    requires QueueRun(c, run) && i < |run|
    ensures QueueInvAt(run, i)
  {
    if i == 0 {
      QueueInvInitial();
    } else {
      RunKeepsQueue(c, run, i - 1);
      QueueInvNext(c, run, i);
    }
  }

  // ---------------------------------------------------------------------------------------
  // First in, first out

  /** Nothing lets request `b` through the head check of its lane. */
  ghost predicate Blocked(s: State, b: Rid)
    requires b in s.requests
  {
    var q := s.requests[b];
    && !Passed(q.stage)
    && (q.name.Some? ==>
          && Lookup(s.files.head, q.lane) != q.name
          && forall r :: r in s.requests && s.requests[r].lane == q.lane ==> Result(s.requests[r].stage) != q.name)
  }

  /** Request `b` stands behind the ticket `t` that request `a` created in the same lane. */
  ghost predicate Behind(s: State, t: TicketName, a: Rid, b: Rid) {
    && a in s.requests && b in s.requests && a != b
    && s.requests[a].name == Some(t) && t.lane == s.requests[a].lane == s.requests[b].lane
    && (Number(s.requests[b]).Some? ==> t.sequence < Number(s.requests[b]).value)
    && (t in s.files.tickets ==> Blocked(s, b))
  }

  /** One action does not bring a ticket back. */
  lemma TicketStepGone(s: State, r: Rid, op: Op, s': State, t: TicketName, a: Rid)
    requires NumbersUnique(s) && Acts(s, r, op, s')
    requires a in s.requests && s.requests[a].name == Some(t) && t.lane == s.requests[a].lane
    requires Number(s.requests[a]) == Some(t.sequence)
    ensures t in s'.files.tickets ==> t in s.files.tickets
  {
  }

  /** Every number drawn after the ticket exceeds the ticket's number. */
  lemma NumberStaysAbove(s: State, r: Rid, op: Op, s': State, t: TicketName, b: Rid)
    requires ReadsCurrent(s) && Acts(s, r, op, s') && b in s.requests && s.requests[b].lane == t.lane
    requires NumberIssued(s.files, t.lane, t.sequence)
    requires Number(s.requests[b]).Some? ==> t.sequence < Number(s.requests[b]).value
    ensures Number(s'.requests[b]).Some? ==> t.sequence < Number(s'.requests[b]).value
  {
    if op.ReplaceSequence? {
      SequenceStepGrows(s, r, op, s', t.lane);
    }
  }

  /** While the earlier ticket is queued, no listing of the lane yields the later one. */
  lemma ListingSkipsLater(s: State, t: TicketName, later: TicketName, h: Option<TicketName>)
    requires NumbersIssued(s) && t in s.files.tickets && IsListHead(s.files.tickets.Keys, t.lane, h)
    requires t.lane == later.lane && t.sequence < later.sequence
    ensures h != Some(later)
  {
    HeadIsLeastOfLane(s.files.tickets.Keys, t.lane, h, t);
  }

  /** A blocked request stays blocked while the earlier ticket is queued. */
  lemma BlockedActs(s: State, r: Rid, op: Op, s': State, t: TicketName, b: Rid)
    requires NumbersIssued(s) && Acts(s, r, op, s') && t in s.files.tickets
    requires b in s.requests && Blocked(s, b) && s.requests[b].lane == t.lane
    requires s'.requests[b].name == s.requests[b].name
    requires s.requests[b].name.Some? ==>
               s.requests[b].name.value.lane == t.lane && t.sequence < s.requests[b].name.value.sequence
    ensures Blocked(s', b)
  {
    var q := s.requests[b];
    if q.name.Some? && op.ListTickets? && op.lane == t.lane {
      ListingSkipsLater(s, t, q.name.value, op.first);
    }
  }

  /** A name nobody holds yet is neither in the head file nor in any listing result. */
  lemma NewNameIsUnseen(c: Config, s: State, b: Rid, n: TicketName)
    requires NumbersUnique(s) && FilesInv(c, s)
    requires b in s.requests && s.requests[b].name.None?
    requires n.lane == s.requests[b].lane && Number(s.requests[b]) == Some(n.sequence)
    ensures !Known(s, n)
  {
    forall r | r in s.requests
      ensures s.requests[r].name != Some(n)
    {
      assert LocksFitStage(r, s.requests[r]);
    }
  }

  /** Creating its own ticket does not let a request through. */
  lemma BlockedAtBirth(s: State, b: Rid, op: Op, s': State)
    requires NamesKnown(s) && Acts(s, b, op, s') && op.CreateTicket? && !Known(s, op.ticket)
    ensures Blocked(s', b)
  {
  }

  lemma BehindLeft(s: State, s': State, t: TicketName, a: Rid, b: Rid)
    requires QueueShrinks(s, s') && Behind(s, t, a, b)
    ensures Behind(s', t, a, b)
  {
  }

  lemma BehindActs(c: Config, s: State, r: Rid, op: Op, s': State, t: TicketName, a: Rid, b: Rid)
    requires QueueInv(s) && FilesInv(c, s)
    requires Acts(s, r, op, s') && Behind(s, t, a, b)
    ensures Behind(s', t, a, b)
  {
    assert LocksFitStage(a, s.requests[a]) && LocksFitStage(b, s.requests[b]);
    TicketStepGone(s, r, op, s', t, a);
    NumberStaysAbove(s, r, op, s', t, b);
    if t in s'.files.tickets {
      if b == r && op.CreateTicket? {
        NewNameIsUnseen(c, s, b, op.ticket);
        BlockedAtBirth(s, b, op, s');
      } else {
        BlockedActs(s, r, op, s', t, b);
      }
    }
  }

  lemma BehindStep(c: Config, s: State, s': State, t: TicketName, a: Rid, b: Rid)
    requires FilesInv(c, s) && QueueInv(s) && QueueStep(s, s') && Behind(s, t, a, b)
    ensures Behind(s', t, a, b)
  {
    if QueueShrinks(s, s') {
      BehindLeft(s, s', t, a, b);
    } else {
      var r, op :| Acts(s, r, op, s');
      BehindActs(c, s, r, op, s', t, a, b);
    }
  }

  ghost predicate BehindAt(run: seq<State>, k: nat, t: TicketName, a: Rid, b: Rid)
    requires k < |run|
  {
    Behind(run[k], t, a, b)
  }

  lemma BehindNext(c: Config, run: seq<State>, k: nat, t: TicketName, a: Rid, b: Rid)
    requires QueueRun(c, run) && 0 < k < |run| && BehindAt(run, k - 1, t, a, b)
    ensures BehindAt(run, k, t, a, b)
  {
    var s, s' := run[k - 1], run[k];
    assert QueueInv(s) by { RunKeepsQueue(c, run, k - 1); }
    assert FilesInv(c, s) by { assert FilesInvAt(c, run, k - 1); }
    assert QueueStep(s, s') by { assert QueueStepAt(run, k); }
    BehindStep(c, s, s', t, a, b);
  }

  lemma {:induction false} BehindForever(c: Config, run: seq<State>, j: nat, k: nat, t: TicketName, a: Rid, b: Rid)
    requires QueueRun(c, run) && j <= k < |run| && BehindAt(run, j, t, a, b)
    ensures BehindAt(run, k, t, a, b)
    decreases k
  {
    if j < k {
      BehindForever(c, run, j, k - 1, t, a, b);
      BehindNext(c, run, k, t, a, b);
    }
  }

  lemma NameStays(s: State, s': State, a: Rid)
    requires QueueStep(s, s') && a in s.requests && s.requests[a].name.Some?
    ensures a in s'.requests && s'.requests[a].name == s.requests[a].name
    ensures s'.requests[a].lane == s.requests[a].lane
  {
  }

  /** Requests and the tickets they created stay on record. */
  lemma {:induction false} NamesPersist(c: Config, run: seq<State>, i: nat, j: nat, a: Rid)
    requires QueueRun(c, run) && i <= j < |run| && a in run[i].requests && run[i].requests[a].name.Some?
    ensures a in run[j].requests && run[j].requests[a].name == run[i].requests[a].name
    ensures run[j].requests[a].lane == run[i].requests[a].lane
    decreases j
  {
    if i < j {
      NamesPersist(c, run, i, j - 1, a);
      assert QueueStepAt(run, j);
      NameStays(run[j - 1], run[j], a);
    }
  }

  /** First in, first out over whole runs.  At time i request `a` has created its ticket; at
      time j, no earlier, request `b` of the same lane has not begun to enqueue.  Then at no
      later time k is `b` past the head check while that ticket is still in the queue. */
  lemma FirstInFirstOut(c: Config, run: seq<State>, i: nat, j: nat, k: nat, a: Rid, b: Rid)
    requires IsRun(c, run) && i <= j <= k < |run|
    requires a in run[i].requests && run[i].requests[a].name.Some?
    requires b in run[j].requests && run[j].requests[b].stage == Planned
    requires run[j].requests[b].lane == run[i].requests[a].lane
    requires run[i].requests[a].name.value in run[k].files.tickets
    ensures b in run[k].requests && !Passed(run[k].requests[b].stage)
  {
    var t := run[i].requests[a].name.value;
    RunIsQueueRun(c, run);
    NamesPersist(c, run, i, j, a);
    assert BehindAt(run, j, t, a, b) by {
      assert FilesInvAt(c, run, j);
      BehindAtStart(c, run[j], t, a, b);
    }
    BehindForever(c, run, j, k, t, a, b);
  }

  /** A request that has not begun to enqueue stands behind every ticket of its lane. */
  lemma BehindAtStart(c: Config, s: State, t: TicketName, a: Rid, b: Rid)
    requires FilesInv(c, s) && a in s.requests && s.requests[a].name == Some(t)
    requires b in s.requests && s.requests[b].stage == Planned && s.requests[b].lane == s.requests[a].lane
    ensures Behind(s, t, a, b)
  {
    assert RequestOk(a, s.requests[a]) && RequestOk(b, s.requests[b]);
  }

  ghost predicate SequenceAtLeast(run: seq<State>, i: nat, lane: Lane, n: nat)
    requires i < |run|
  {
    lane in run[i].files.sequence && n <= run[i].files.sequence[lane]
  }

  lemma SequenceNext(c: Config, run: seq<State>, i: nat, lane: Lane, n: nat)
    requires QueueRun(c, run) && 0 < i < |run| && SequenceAtLeast(run, i - 1, lane, n)
    ensures SequenceAtLeast(run, i, lane, n)
  {
    RunKeepsQueue(c, run, i - 1);
    assert QueueStepAt(run, i);
    var s, s' := run[i - 1], run[i];
    if r, op :| Acts(s, r, op, s') {
      SequenceStepGrows(s, r, op, s', lane);
    }
  }

  /** The stored sequence of a lane never decreases over a run, whatever the clock does. */
  lemma {:induction false} SequenceGrows(c: Config, run: seq<State>, i: nat, j: nat, lane: Lane)
    requires IsRun(c, run) && i <= j < |run| && lane in run[i].files.sequence
    ensures lane in run[j].files.sequence && run[i].files.sequence[lane] <= run[j].files.sequence[lane]
    decreases j
  {
    RunIsQueueRun(c, run);
    if i < j {
      SequenceGrows(c, run, i, j - 1, lane);
      assert SequenceAtLeast(run, j - 1, lane, run[i].files.sequence[lane]);
      SequenceNext(c, run, j, lane, run[i].files.sequence[lane]);
    }
  }

  ghost predicate TicketGone(run: seq<State>, i: nat, t: TicketName, a: Rid)
    requires i < |run|
  {
    t !in run[i].files.tickets && a in run[i].requests && run[i].requests[a].name == Some(t)
  }

  lemma GoneActs(s: State, r: Rid, op: Op, s': State, t: TicketName, a: Rid)
    requires NumbersUnique(s) && Acts(s, r, op, s') && t !in s.files.tickets
    requires a in s.requests && s.requests[a].name == Some(t) && t.lane == s.requests[a].lane
    requires Number(s.requests[a]) == Some(t.sequence)
    ensures t !in s'.files.tickets
  {
    TicketStepGone(s, r, op, s', t, a);
  }

  lemma GoneStep(s: State, s': State, t: TicketName, a: Rid)
    requires NumbersUnique(s) && QueueStep(s, s') && t !in s.files.tickets
    requires a in s.requests && s.requests[a].name == Some(t) && t.lane == s.requests[a].lane
    requires Number(s.requests[a]) == Some(t.sequence)
    ensures t !in s'.files.tickets
  {
    if r, op :| Acts(s, r, op, s') {
      GoneActs(s, r, op, s', t, a);
    }
  }

  lemma GoneNext(c: Config, run: seq<State>, i: nat, t: TicketName, a: Rid)
    requires QueueRun(c, run) && 0 < i < |run| && TicketGone(run, i - 1, t, a)
    ensures TicketGone(run, i, t, a)
  {
    var s, s' := run[i - 1], run[i];
    assert QueueStep(s, s') by {
      assert QueueStepAt(run, i);
    }
    NameStays(s, s', a);
    assert NumbersUnique(s) by {
      RunKeepsQueue(c, run, i - 1);
    }
    assert t.lane == s.requests[a].lane && Number(s.requests[a]) == Some(t.sequence) by {
      assert FilesInvAt(c, run, i - 1);
      assert RequestOk(a, s.requests[a]);
    }
    GoneStep(s, s', t, a);
  }

  /** A ticket that has been removed never comes back: once its owner has created it and it is no
      longer in the queue, it is not there at any later time of the run. */
  lemma {:induction false} TicketStaysGone(c: Config, run: seq<State>, i: nat, j: nat, t: TicketName, a: Rid)
    requires IsRun(c, run) && i <= j < |run| && TicketGone(run, i, t, a)
    ensures TicketGone(run, j, t, a)
    decreases j
  {
    RunIsQueueRun(c, run);
    if i < j {
      TicketStaysGone(c, run, i, j - 1, t, a);
      GoneNext(c, run, j, t, a);
    }
  }

  /** In every reachable state no two requests of a lane have drawn the same number. */
  lemma NumbersNeverRepeat(c: Config, run: seq<State>, i: nat, r1: Rid, r2: Rid)
    requires IsRun(c, run) && i < |run| && r1 != r2
    requires r1 in run[i].requests && r2 in run[i].requests
    requires run[i].requests[r1].lane == run[i].requests[r2].lane
    requires Number(run[i].requests[r1]).Some?
    ensures Number(run[i].requests[r1]) != Number(run[i].requests[r2])
  {
    RunIsQueueRun(c, run);
    RunKeepsQueue(c, run, i);
  }

  /** In every reachable state a listing of any lane has a first name, so a refresh is never
      stuck for want of one. */
  lemma RefreshAlwaysHasHead(c: Config, run: seq<State>, i: nat, lane: Lane) returns (h: Option<TicketName>)
    requires IsRun(c, run) && i < |run|
    ensures IsListHead(run[i].files.tickets.Keys, lane, h)
  {
    RunIsQueueRun(c, run);
    RunKeepsQueue(c, run, i);
    assert FilesInvAt(c, run, i);
    var s := run[i];
    forall m, n | m in s.files.tickets && n in s.files.tickets && m != n
      ensures m.Text() != n.Text()
    {
      TicketsDiffer(c, s, m, n);
      TextDistinct(m, n);
    }
    h := ListHeadExists(s.files.tickets.Keys, lane);
  }

  lemma TicketsDiffer(c: Config, s: State, m: TicketName, n: TicketName)
    requires FilesInv(c, s) && QueueInv(s) && m in s.files.tickets && n in s.files.tickets && m != n
    ensures m.lane != n.lane || m.sequence != n.sequence
  {
    var a :| a in s.requests && s.requests[a].name == Some(m);
    var b :| b in s.requests && s.requests[b].name == Some(n);
    assert RequestOk(a, s.requests[a]) && RequestOk(b, s.requests[b]);
  }
}
