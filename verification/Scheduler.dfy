/**
  The cross-process execution scheduler (src/execution-slots.js) as a step system.

  Any number of processes share one directory: a sequence file, a head file and a head lock per
  queue lane, one ticket per waiter, one file per occupied slot and a claim lock per pool.
  Every step of a request is one file operation together with the request's own progress, and
  the steps of all requests interleave freely.  Processes may die between any two steps.

  Assumptions.  Exclusive create (together with the record written into a new lock or slot
  file), atomic replace, listing and remove are single steps.  The liveness check and the
  removal in `removeStaleSlot` are one step: the source makes two calls there, and exclusivity
  of locks and slots rests on taking them together.  A live owner is never reported dead, and
  a process instance is never reused.  The clock is arbitrary: each reading may be smaller
  than the one before.
 */
module Scheduler {
  import opened Common
  import opened SlotPlan
  import opened TicketNames

  /** A process instance, and one call of acquireExecutionSlot. */
  type Pid = nat
  type Rid = nat

  // ---------------------------------------------------------------------------------------
  // The shared directory

  /** A random UUID: no two draws are equal, so a draw is named by who made it and when. */
  datatype Token = Token(request: Rid, draw: nat)

  datatype Slot = Slot(pool: Pool, index: int)

  /** Files created exclusively and owned through the token in their record. */
  datatype Key = HeadLock(lane: Lane) | ClaimLock(pool: Pool) | SlotFile(slot: Slot)
  datatype Holder = Holder(pid: Pid, token: Token)

  /** A ticket file; until its record is written it is not readable. */
  datatype Ticket = Ticket(pid: Pid, readable: bool)

  datatype Files = Files(
    records: map<Key, Holder>, sequence: map<Lane, nat>, head: map<Lane, TicketName>,
    tickets: map<TicketName, Ticket>)

  /** One file operation, with what it observes. */
  datatype Op =
    | NoOp
    | Create(key: Key, holder: Holder)
    | Read(key: Key, seen: Option<Holder>, ownerAlive: bool)
    | Remove(key: Key)
    | ReadSequence(lane: Lane, current: Option<nat>)
    | ReplaceSequence(lane: Lane, number: nat)
    | ReadHead(lane: Lane, name: Option<TicketName>)
    | ReplaceHead(lane: Lane, name: Option<TicketName>)
    | CreateTicket(ticket: TicketName, record: Ticket)
    | WriteTicket(ticket: TicketName, record: Ticket)
    | ReadTicket(ticket: TicketName, found: Option<Ticket>, ownerAlive: bool)
    | RemoveTicket(ticket: TicketName)
    | ListTickets(lane: Lane, first: Option<TicketName>)

  function Lookup<K, V>(m: map<K, V>, k: K): Option<V> {
    if k in m then Some(m[k]) else None
  }

  /** The meaning of a file operation. */
  ghost predicate OpStep(alive: set<Pid>, f: Files, op: Op, f': Files) {
    match op
    case NoOp => f' == f
    case Create(key, holder) =>
      key !in f.records && f' == f.(records := f.records[key := holder])
    case Read(key, seen, ownerAlive) =>
      && f' == f && seen == Lookup(f.records, key)
      && (ownerAlive <==> seen.Some? && seen.value.pid in alive)
    case Remove(key) => f' == f.(records := f.records - {key})
    case ReadSequence(lane, current) => f' == f && current == Lookup(f.sequence, lane)
    case ReplaceSequence(lane, number) => f' == f.(sequence := f.sequence[lane := number])
    case ReadHead(lane, name) => f' == f && name == Lookup(f.head, lane)
    case ReplaceHead(lane, name) =>
      f' == f.(head := if name.Some? then f.head[lane := name.value] else f.head - {lane})
    case CreateTicket(ticket, record) =>
      ticket !in f.tickets && f' == f.(tickets := f.tickets[ticket := record])
    case WriteTicket(ticket, record) =>
      f' == f.(tickets := if ticket in f.tickets then f.tickets[ticket := record] else f.tickets)
    case ReadTicket(ticket, found, ownerAlive) =>
      && f' == f && found == Lookup(f.tickets, ticket)
      && (ownerAlive <==> found.Some? && found.value.pid in alive)
    case RemoveTicket(ticket) => f' == f.(tickets := f.tickets - {ticket})
    case ListTickets(lane, first) => f' == f && IsListHead(f.tickets.Keys, lane, first)
  }

  // ---------------------------------------------------------------------------------------
  // Requests

  /** What follows a refresh of the head file. */
  datatype AfterRefresh = ThenEnqueued | ThenWait | ThenJudge | ThenLease | ThenDone

  datatype RefreshPhase =
    | Locking
    | Listing
    | Writing(head: Option<TicketName>)
    | Unlocking(head: Option<TicketName>)
    | Removing(head: Option<TicketName>)

  /** What follows releaseOwnedFiles. */
  datatype AfterFree = ThenRetry | ThenUnlock | ThenLeave | ThenFinish

  datatype Stage =
    | Planned                                    // before nextQueueSequence
    | SequenceLocked                             // head lock taken
    | SequenceRead(current: Option<nat>)
    | SequenceWritten(number: nat)               // about to check the lock record
    | SequenceUnlock(number: nat)                // about to remove the lock
    | Numbered(number: nat)                      // about to create the ticket
    | TicketCreated                              // about to write its record
    | Refreshing(phase: RefreshPhase, after: AfterRefresh)
    | Waiting                                    // about to read the head file
    | HeadSeen(name: TicketName)                 // another ticket is at the head
    | Reaping(name: TicketName)                  // about to remove that ticket
    | AtHead                                     // passed the head check
    | Claiming(next: int)                        // about to try slot `next`
    | ClaimsDone(failed: bool)
    | ClaimUnlock(failed: bool)
    | Granted                                    // all slots claimed, ticket still queued
    | Leased
    | Freeing(checked: bool, goal: AfterFree)
    | Leaving                                    // about to remove its own ticket
    | Done

  datatype Claim = Claim(slot: Slot, token: Token)

  datatype Request = Request(
    pid: Pid, demand: Demand, pressure: bool, plan: Plan, lane: Lane, stage: Stage, draws: nat,
    headToken: Option<Token>, claimToken: Option<Token>,
    name: Option<TicketName>, owned: seq<Claim>)

  /** The next sequence number: past the stored one and past the clock in nanoseconds. */
  function NextNumber(current: Option<nat>, clockMs: nat): nat {
    var seed := clockMs * 1000000;
    (if current.None? || current.value < seed then seed else current.value) + 1
  }

  /** Where a request goes once its refresh has yielded `h`. */
  function Continue(after: AfterRefresh, h: Option<TicketName>, mine: Option<TicketName>): Stage {
    match after
    case ThenEnqueued => Waiting
    case ThenWait => Waiting
    case ThenJudge =>
      if h.None? then Waiting else if h == mine then AtHead else HeadSeen(h.value)
    case ThenLease => Leased
    case ThenDone => Done
  }

  function AfterFreeing(goal: AfterFree): Stage {
    match goal
    case ThenRetry => Waiting
    case ThenUnlock => ClaimsDone(true)
    case ThenLeave => Leaving
    case ThenFinish => Done
  }

  function Record(r: Rid, q: Request): Holder { Holder(q.pid, Token(r, q.draws)) }

  /** Take the lane's head lock and go on to `stage`. */
  ghost predicate TakesHeadLock(r: Rid, q: Request, op: Op, q': Request, stage: Stage) {
    && op == Create(HeadLock(q.lane), Record(r, q))
    && q' == q.(stage := stage, headToken := Some(Token(r, q.draws)), draws := q.draws + 1)
  }

  /** Check that the head lock is still ours before removing it. */
  ghost predicate ChecksHeadLock(q: Request, op: Op, q': Request, ours: Stage, lost: Stage) {
    && op.Read? && op.key == HeadLock(q.lane) && q.headToken.Some?
    && q' == if op.seen.Some? && op.seen.value.token == q.headToken.value
             then q.(stage := ours) else q.(stage := lost, headToken := None)
  }

  /** Drawing a number under the head lock (nextQueueSequence). */
  ghost predicate SequenceStep(r: Rid, q: Request, op: Op, q': Request) {
    match q.stage
    case Planned =>
      || TakesHeadLock(r, q, op, q', SequenceLocked)
      || (op == NoOp && q' == q.(stage := Done))
    case SequenceLocked =>
      op.ReadSequence? && op.lane == q.lane && q' == q.(stage := SequenceRead(op.current))
    case SequenceRead(current) =>
      exists clockMs ::
        && NextNumber(current, clockMs) < LIMIT
        && op == ReplaceSequence(q.lane, NextNumber(current, clockMs))
        && q' == q.(stage := SequenceWritten(NextNumber(current, clockMs)))
    case SequenceWritten(n) => ChecksHeadLock(q, op, q', SequenceUnlock(n), Numbered(n))
    case SequenceUnlock(n) =>
      op == Remove(HeadLock(q.lane)) && q' == q.(stage := Numbered(n), headToken := None)
    case _ => false
  }

  /** Creating the ticket and writing its record (createQueueTicket). */
  ghost predicate TicketStep(q: Request, op: Op, q': Request) {
    match q.stage
    case Numbered(n) =>
      || (&& op.CreateTicket? && op.ticket.lane == q.lane && op.ticket.sequence == n
          && op.record == Ticket(q.pid, false)
          && q' == q.(stage := TicketCreated, name := Some(op.ticket)))
      || (op == NoOp && q' == q.(stage := Done))
    case TicketCreated =>
      && q.name.Some?
      && (|| (op == WriteTicket(q.name.value, Ticket(q.pid, true))
              && q' == q.(stage := Refreshing(Locking, ThenEnqueued)))
          || (op == RemoveTicket(q.name.value) && q' == q.(stage := Done)))
    case _ => false
  }

  /** Giving up while waiting for the head lock. */
  ghost predicate AbandonsRefresh(q: Request, op: Op, q': Request, after: AfterRefresh) {
    match after
    case ThenEnqueued => q.name.Some? && op == RemoveTicket(q.name.value) && q' == q.(stage := Done)
    case ThenLease => op == NoOp && q' == q.(stage := Freeing(false, ThenFinish))
    case ThenDone => op == NoOp && q' == q.(stage := Done)
    case _ => op == NoOp && q' == q.(stage := Leaving)
  }

  /** Recomputing the head file under the head lock (refreshQueueHead). */
  ghost predicate RefreshStep(r: Rid, q: Request, op: Op, q': Request) {
    match q.stage
    case Refreshing(Locking, after) =>
      || TakesHeadLock(r, q, op, q', Refreshing(Listing, after))
      || AbandonsRefresh(q, op, q', after)
    case Refreshing(Listing, after) =>
      op.ListTickets? && op.lane == q.lane && q' == q.(stage := Refreshing(Writing(op.first), after))
    case Refreshing(Writing(h), after) =>
      op == ReplaceHead(q.lane, h) && q' == q.(stage := Refreshing(Unlocking(h), after))
    case Refreshing(Unlocking(h), after) =>
      ChecksHeadLock(q, op, q', Refreshing(Removing(h), after), Continue(after, h, q.name))
    case Refreshing(Removing(h), after) =>
      op == Remove(HeadLock(q.lane)) && q' == q.(stage := Continue(after, h, q.name), headToken := None)
    case _ => false
  }

  /** Waiting for the head of the lane, reaping dead heads, and leaving (queueTicketIsHead). */
  ghost predicate WaitStep(r: Rid, q: Request, op: Op, q': Request) {
    match q.stage
    case Waiting =>
      || (op.ReadHead? && op.lane == q.lane
          && q' == q.(stage := if op.name.None? then Refreshing(Locking, ThenJudge)
                               else if op.name == q.name then AtHead
                               else HeadSeen(op.name.value)))
      || (op == NoOp && q' == q.(stage := Leaving))
    case HeadSeen(n) =>
      || (op.ReadTicket? && op.ticket == n
          && (|| (&& op.found.Some? && (!op.found.value.readable || op.ownerAlive)
                  && q' == q.(stage := Waiting))       // a live owner, or a record still being written
              || (&& (op.found.None? || !op.found.value.readable || !op.ownerAlive)
                  && q' == q.(stage := Reaping(n)))))  // gone, dead, or unreadable for too long
      || (op == NoOp && q' == q.(stage := Leaving))
    case Reaping(n) => op == RemoveTicket(n) && q' == q.(stage := Refreshing(Locking, ThenWait))
    case AtHead =>
      || (op == NoOp && q.demand.kind == Interactive && q' == q.(stage := Waiting))   // yields to aged work
      || (op == NoOp && q' == q.(stage := Leaving))
      || (op == NoOp && q.plan.weight == 1 && q' == q.(stage := Claiming(q.plan.low)))
      || (&& q.plan.weight > 1 && op == Create(ClaimLock(q.plan.pool), Record(r, q))
          && q' == q.(stage := Claiming(q.plan.low), claimToken := Some(Token(r, q.draws)),
                      draws := q.draws + 1))
    case Granted =>
      q.name.Some? && op == RemoveTicket(q.name.value) && q' == q.(stage := Refreshing(Locking, ThenLease))
    case Leaving =>
      q.name.Some? && op == RemoveTicket(q.name.value) && q' == q.(stage := Refreshing(Locking, ThenDone))
    case _ => false
  }

  /** Claiming slots (the claim loop of acquireExecutionSlot). */
  ghost predicate ClaimStep(r: Rid, q: Request, op: Op, q': Request) {
    match q.stage
    case Claiming(next) =>
      var slot := Slot(q.plan.pool, next);
      if next < q.plan.usable && |q.owned| < q.plan.weight then
        || (&& op == Create(SlotFile(slot), Record(r, q))
            && q' == q.(stage := Claiming(next + 1), draws := q.draws + 1,
                        owned := q.owned + [Claim(slot, Token(r, q.draws))]))
        || (op.Read? && op.key == SlotFile(slot) && op.ownerAlive && q' == q.(stage := Claiming(next + 1)))
        || (op == NoOp && q' == q.(stage := Freeing(false, ThenUnlock)))      // an I/O error
      else op == NoOp && q' == q.(stage := ClaimsDone(false))
    case _ => false
  }

  /** Releasing the claim lock and deciding whether the claim succeeded. */
  ghost predicate SettleStep(q: Request, op: Op, q': Request) {
    match q.stage
    case ClaimsDone(failed) =>
      if q.claimToken.Some? then
        || (&& op.Read? && op.key == ClaimLock(q.plan.pool)
            && q' == if op.seen.Some? && op.seen.value.token == q.claimToken.value
                     then q.(stage := ClaimUnlock(failed)) else q.(claimToken := None))
        || (op == NoOp && q' == q.(stage := Freeing(false, ThenLeave), claimToken := None))
      else
        && op == NoOp
        && q' == q.(stage := if failed then Leaving
                             else if |q.owned| == q.plan.weight then Granted
                             else Freeing(false, ThenRetry))
    case ClaimUnlock(failed) =>
      || (op == Remove(ClaimLock(q.plan.pool)) && q' == q.(stage := ClaimsDone(failed), claimToken := None))
      || (op == NoOp && q' == q.(stage := Freeing(false, ThenLeave), claimToken := None))
    case _ => false
  }

  /** Giving slots back one by one: check the token, then remove (releaseOwnedFiles). */
  ghost predicate FreeStep(q: Request, op: Op, q': Request) {
    match q.stage
    case Leased => op == NoOp && q' == q.(stage := Freeing(false, ThenFinish))
    case Freeing(checked, goal) =>
      if q.owned == [] then op == NoOp && q' == q.(stage := AfterFreeing(goal))
      else
        var first, rest := q.owned[0], q.owned[1..];
        || (&& !checked && op.Read? && op.key == SlotFile(first.slot)
            && q' == if op.seen.Some? && op.seen.value.token == first.token
                     then q.(stage := Freeing(true, goal)) else q.(owned := rest))
        || (checked && op == Remove(SlotFile(first.slot)) && q' == q.(stage := Freeing(false, goal), owned := rest))
        || (op == NoOp && q' == q.(stage := Freeing(false, goal), owned := rest))   // file left behind
    case _ => false
  }

  /** The request's own side of a step. */
  ghost predicate LocalStep(r: Rid, q: Request, op: Op, q': Request) {
    || SequenceStep(r, q, op, q') || TicketStep(q, op, q') || RefreshStep(r, q, op, q')
    || WaitStep(r, q, op, q') || ClaimStep(r, q, op, q')
    || SettleStep(q, op, q') || FreeStep(q, op, q')
  }

  // ---------------------------------------------------------------------------------------
  // The system

  datatype State = State(alive: set<Pid>, started: set<Pid>, files: Files, requests: map<Rid, Request>)

  const INITIAL: State := State({}, {}, Files(map[], map[], map[], map[]), map[])

  ghost predicate Live(s: State, r: Rid) {
    r in s.requests && s.requests[r].pid in s.alive
  }

  /** One step of a live request. */
  ghost predicate RequestStep(s: State, r: Rid, op: Op, s': State) {
    && Live(s, r) && r in s'.requests
    && LocalStep(r, s.requests[r], op, s'.requests[r])
    && OpStep(s.alive, s.files, op, s'.files)
    && s' == s.(files := s'.files, requests := s.requests[r := s'.requests[r]])
  }

  function NewRequest(c: Config, pid: Pid, d: Demand, pressure: bool): Request {
    Request(pid, d, pressure, MakePlan(c, d, pressure), LaneFor(d.kind, d.resource, pressure),
            Planned, 0, None, None, None, [])
  }

  ghost predicate Starts(s: State, pid: Pid, s': State) {
    pid !in s.started && s' == s.(alive := s.alive + {pid}, started := s.started + {pid})
  }

  ghost predicate Dies(s: State, pid: Pid, s': State) {
    pid in s.alive && s' == s.(alive := s.alive - {pid})
  }

  ghost predicate Arrives(c: Config, s: State, r: Rid, pid: Pid, d: Demand, pressure: bool, s': State) {
    && pid in s.alive && r !in s.requests
    && s' == s.(requests := s.requests[r := NewRequest(c, pid, d, pressure)])
  }

  /** removeStaleSlot: a lock or slot whose owner is dead disappears. */
  ghost predicate RemovesStale(s: State, key: Key, s': State) {
    && key in s.files.records && s.files.records[key].pid !in s.alive
    && s' == s.(files := s.files.(records := s.files.records - {key}))
  }

  /** readQueueSnapshot: anyone who lists the queue removes the ticket of a dead owner. */
  ghost predicate ReapsTicket(s: State, name: TicketName, s': State) {
    && name in s.files.tickets && s.files.tickets[name].readable && s.files.tickets[name].pid !in s.alive
    && s' == s.(files := s.files.(tickets := s.files.tickets - {name}))
  }

  ghost predicate Step(c: Config, s: State, s': State) {
    || (exists r, op :: RequestStep(s, r, op, s'))
    || (exists pid :: Starts(s, pid, s'))
    || (exists pid :: Dies(s, pid, s'))
    || (exists r, pid, d, pressure :: Arrives(c, s, r, pid, d, pressure, s'))
    || (exists key :: RemovesStale(s, key, s'))
    || (exists name :: ReapsTicket(s, name, s'))
  }

  ghost predicate StepAt(c: Config, run: seq<State>, i: nat)
    requires 0 < i < |run|
  {
    Step(c, run[i - 1], run[i])
  }

  /** A run: every state follows from the one before it by one step. */
  ghost predicate IsRun(c: Config, run: seq<State>) {
    && |run| > 0
    && run[0] == INITIAL
    && forall i :: 0 < i < |run| ==> StepAt(c, run, i)
  }
}
