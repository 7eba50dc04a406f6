/**
  No lock deadlock in the scheduler: locks never nest, a request that waits for a lock holds
  none, and a live request that holds one can always go on by an ordinary step of its own.
 */
module SchedulerProgress {
  import opened Common
  import opened SlotPlan
  import opened TicketNames
  import opened Scheduler
  import opened SchedulerFiles
  import opened SchedulerSlots
  import opened SchedulerQueue

  /** A step of the request that goes on: it does not give up a slot or lock after an error. */
  ghost predicate Moves(s: State, r: Rid, op: Op, q': Request, f': Files) {
    && Live(s, r)
    && LocalStep(r, s.requests[r], op, q')
    && OpStep(s.alive, s.files, op, f')
    && (op.NoOp? ==> !q'.stage.Freeing?)
  }

  /** The next slot is occupied by a dead owner and may be cleared. */
  ghost predicate NextSlotIsStale(s: State, r: Rid)
    requires r in s.requests
  {
    var q := s.requests[r];
    && q.stage.Claiming?
    && var key := SlotFile(Slot(q.plan.pool, q.stage.next));
       key in s.files.records && s.files.records[key].pid !in s.alive
  }

  ghost predicate CanMove(s: State, r: Rid) {
    && Live(s, r)
    && ((exists op, q', f' :: Moves(s, r, op, q', f')) || NextSlotIsStale(s, r))
  }

  /** One step of the system that takes the request further, or clears the slot it stands at. */
  ghost predicate Advances(s: State, r: Rid, s': State) {
    && Live(s, r) && r in s'.requests
    && (|| (&& s' == s.(files := s'.files, requests := s.requests[r := s'.requests[r]])
            && exists op :: Moves(s, r, op, s'.requests[r], s'.files))
        || (NextSlotIsStale(s, r)
            && RemovesStale(s, SlotFile(Slot(s.requests[r].plan.pool, s.requests[r].stage.next)), s')))
  }

  lemma MoveIsStep(c: Config, s: State, r: Rid, op: Op, q': Request, f': Files)
    requires Moves(s, r, op, q', f')
    ensures var s' := s.(files := f', requests := s.requests[r := q']);
            Step(c, s, s') && Advances(s, r, s')
  {
    var s' := s.(files := f', requests := s.requests[r := q']);
    assert RequestStep(s, r, op, s');
    assert Moves(s, r, op, s'.requests[r], s'.files);
  }

  lemma ClearingIsStep(c: Config, s: State, r: Rid)
    requires Live(s, r) && NextSlotIsStale(s, r)
    ensures var key := SlotFile(Slot(s.requests[r].plan.pool, s.requests[r].stage.next));
            var s' := s.(files := s.files.(records := s.files.records - {key}));
            Step(c, s, s') && Advances(s, r, s')
  {
    var key := SlotFile(Slot(s.requests[r].plan.pool, s.requests[r].stage.next));
    assert RemovesStale(s, key, s.(files := s.files.(records := s.files.records - {key})));
  }

  /** What can move has a step of the system. */
  lemma CanMoveIsStep(c: Config, s: State, r: Rid) returns (s': State)
    requires CanMove(s, r)
    ensures Step(c, s, s') && Advances(s, r, s')
  {
    if NextSlotIsStale(s, r) {
      var key := SlotFile(Slot(s.requests[r].plan.pool, s.requests[r].stage.next));
      ClearingIsStep(c, s, r);
      s' := s.(files := s.files.(records := s.files.records - {key}));
    } else {
      var op, q', f' :| Moves(s, r, op, q', f');
      MoveIsStep(c, s, r, op, q', f');
      s' := s.(files := f', requests := s.requests[r := q']);
    }
  }

  predicate Owned(s: State, key: Key) {
    key in s.files.records && s.files.records[key].pid in s.alive
  }

  /** Reading the head lock's record, and where the request goes on. */
  function HeadLockRead(s: State, q: Request): Op {
    Read(HeadLock(q.lane), Lookup(s.files.records, HeadLock(q.lane)), Owned(s, HeadLock(q.lane)))
  }

  function HeadLockChecked(q: Request, op: Op, ours: Stage, lost: Stage): Request
    requires op.Read? && q.headToken.Some?
  {
    if op.seen.Some? && op.seen.value.token == q.headToken.value
    then q.(stage := ours) else q.(stage := lost, headToken := None)
  }

  lemma SequenceHolderMoves(s: State, r: Rid)
    requires Live(s, r) && s.requests[r].headToken.Some?
    requires var stage := s.requests[r].stage;
             || stage.SequenceLocked? || stage.SequenceWritten? || stage.SequenceUnlock?
             || (stage.SequenceRead? && NextNumber(stage.current, 0) < LIMIT)
    ensures CanMove(s, r)
  {
    var q, f := s.requests[r], s.files;
    match q.stage
    case SequenceLocked =>
      var current := Lookup(f.sequence, q.lane);
      assert Moves(s, r, ReadSequence(q.lane, current), q.(stage := SequenceRead(current)), f);
    case SequenceRead(current) =>
      var n := NextNumber(current, 0);
      var op, q' := ReplaceSequence(q.lane, n), q.(stage := SequenceWritten(n));
      assert SequenceStep(r, q, op, q');
      assert Moves(s, r, op, q', f.(sequence := f.sequence[q.lane := n]));
    case SequenceWritten(n) =>
      var op := HeadLockRead(s, q);
      assert Moves(s, r, op, HeadLockChecked(q, op, SequenceUnlock(n), Numbered(n)), f);
    case SequenceUnlock(n) =>
      assert Moves(s, r, Remove(HeadLock(q.lane)), q.(stage := Numbered(n), headToken := None),
                   f.(records := f.records - {HeadLock(q.lane)}));
  }

  lemma RefreshListMoves(s: State, r: Rid, first: Option<TicketName>)
    requires Live(s, r) && s.requests[r].stage.Refreshing? && s.requests[r].stage.phase == Listing
    requires IsListHead(s.files.tickets.Keys, s.requests[r].lane, first)
    ensures CanMove(s, r)
  {
    var q := s.requests[r];
    var q' := q.(stage := Refreshing(Writing(first), q.stage.after));
    assert RefreshStep(r, q, ListTickets(q.lane, first), q');
    assert OpStep(s.alive, s.files, ListTickets(q.lane, first), s.files);
    assert Moves(s, r, ListTickets(q.lane, first), q', s.files);
  }

  lemma RefreshWriteMoves(s: State, r: Rid)
    requires Live(s, r) && s.requests[r].stage.Refreshing? && s.requests[r].stage.phase.Writing?
    ensures CanMove(s, r)
  {
    var q, f := s.requests[r], s.files;
    var h := q.stage.phase.head;
    var q' := q.(stage := Refreshing(Unlocking(h), q.stage.after));
    assert RefreshStep(r, q, ReplaceHead(q.lane, h), q');
    assert Moves(s, r, ReplaceHead(q.lane, h), q',
                 f.(head := if h.Some? then f.head[q.lane := h.value] else f.head - {q.lane}));
  }

  lemma RefreshUnlockMoves(s: State, r: Rid)
    requires Live(s, r) && s.requests[r].headToken.Some?
    requires s.requests[r].stage.Refreshing?
    requires s.requests[r].stage.phase.Unlocking? || s.requests[r].stage.phase.Removing?
    ensures CanMove(s, r)
  {
    var q, f, after := s.requests[r], s.files, s.requests[r].stage.after;
    var h := q.stage.phase.head;
    if q.stage.phase.Unlocking? {
      var op := HeadLockRead(s, q);
      var q' := HeadLockChecked(q, op, Refreshing(Removing(h), after), Continue(after, h, q.name));
      assert RefreshStep(r, q, op, q');
      assert Moves(s, r, op, q', f);
    } else {
      var q' := q.(stage := Continue(after, h, q.name), headToken := None);
      assert RefreshStep(r, q, Remove(HeadLock(q.lane)), q');
      assert Moves(s, r, Remove(HeadLock(q.lane)), q', f.(records := f.records - {HeadLock(q.lane)}));
    }
  }

  lemma RefreshHolderMoves(s: State, r: Rid, first: Option<TicketName>)
    requires Live(s, r) && s.requests[r].headToken.Some?
    requires s.requests[r].stage.Refreshing? && !s.requests[r].stage.phase.Locking?
    requires IsListHead(s.files.tickets.Keys, s.requests[r].lane, first)
    ensures CanMove(s, r)
  {
    match s.requests[r].stage.phase
    case Listing => RefreshListMoves(s, r, first);
    case Writing(h) => RefreshWriteMoves(s, r);
    case Unlocking(h) => RefreshUnlockMoves(s, r);
    case Removing(h) => RefreshUnlockMoves(s, r);
  }

  lemma ClaimingMoves(s: State, r: Rid)
    requires Live(s, r) && s.requests[r].stage.Claiming?
    ensures CanMove(s, r)
  {
    var q, f := s.requests[r], s.files;
    var slot := Slot(q.plan.pool, q.stage.next);
    var key := SlotFile(slot);
    if !(q.stage.next < q.plan.usable && |q.owned| < q.plan.weight) {
      assert Moves(s, r, NoOp, q.(stage := ClaimsDone(false)), f);
    } else if key !in f.records {
      var q' := q.(stage := Claiming(q.stage.next + 1), draws := q.draws + 1,
                   owned := q.owned + [Claim(slot, Token(r, q.draws))]);
      assert Moves(s, r, Create(key, Record(r, q)), q', f.(records := f.records[key := Record(r, q)]));
    } else if f.records[key].pid in s.alive {
      assert Moves(s, r, Read(key, Some(f.records[key]), true), q.(stage := Claiming(q.stage.next + 1)), f);
    }
  }

  lemma SettlingMoves(s: State, r: Rid)
    requires Live(s, r) && s.requests[r].claimToken.Some?
    requires s.requests[r].stage.ClaimsDone? || s.requests[r].stage.ClaimUnlock?
    ensures CanMove(s, r)
  {
    var q, f, key := s.requests[r], s.files, ClaimLock(s.requests[r].plan.pool);
    match q.stage
    case ClaimsDone(failed) =>
      var op := Read(key, Lookup(f.records, key), Owned(s, key));
      var q' := if op.seen.Some? && op.seen.value.token == q.claimToken.value
                then q.(stage := ClaimUnlock(failed)) else q.(claimToken := None);
      assert Moves(s, r, op, q', f);
    case ClaimUnlock(failed) =>
      assert Moves(s, r, Remove(key), q.(stage := ClaimsDone(failed), claimToken := None),
                   f.(records := f.records - {key}));
  }

  lemma FreeingMoves(s: State, r: Rid)
    requires Live(s, r) && s.requests[r].stage.Freeing?
    ensures CanMove(s, r)
  {
    var q, f, goal := s.requests[r], s.files, s.requests[r].stage.goal;
    if q.owned == [] {
      assert Moves(s, r, NoOp, q.(stage := AfterFreeing(goal)), f);
    } else {
      var key := SlotFile(q.owned[0].slot);
      if q.stage.checked {
        assert Moves(s, r, Remove(key), q.(stage := Freeing(false, goal), owned := q.owned[1..]),
                     f.(records := f.records - {key}));
      } else {
        var op := Read(key, Lookup(f.records, key), Owned(s, key));
        var q' := if op.seen.Some? && op.seen.value.token == q.owned[0].token
                  then q.(stage := Freeing(true, goal)) else q.(owned := q.owned[1..]);
        assert Moves(s, r, op, q', f);
      }
    }
  }

  lemma LockHolderCanMove(c: Config, run: seq<State>, i: nat, r: Rid)
    requires IsRun(c, run) && i < |run| && Live(run[i], r)
    requires run[i].requests[r].headToken.Some? || run[i].requests[r].claimToken.Some?
    requires run[i].requests[r].stage.SequenceRead? ==> NextNumber(run[i].requests[r].stage.current, 0) < LIMIT
    ensures CanMove(run[i], r) && !WaitsForLock(run[i].requests[r])
  {
    var s, q := run[i], run[i].requests[r];
    assert RequestOk(r, q) by {
      RunKeepsFiles(c, run, i);
    }
    LocksNeverNest(c, run, i, r);
    if q.stage.Refreshing? {
      var first := RefreshAlwaysHasHead(c, run, i, q.lane);
      RefreshHolderMoves(s, r, first);
    } else if q.headToken.Some? {
      SequenceHolderMoves(s, r);
    } else if q.stage.Claiming? {
      ClaimingMoves(s, r);
    } else if q.stage.Freeing? {
      FreeingMoves(s, r);
    } else {
      SettlingMoves(s, r);
    }
  }

  /** In every reachable state a live request that holds a head lock or a claim lock waits for no
      lock, and the system has a step in which it goes on or a dead owner's slot in its way is
      cleared, as long as numbers last. */
  lemma LockHolderMoves(c: Config, run: seq<State>, i: nat, r: Rid) returns (next: State)
    requires IsRun(c, run) && i < |run| && Live(run[i], r)
    requires run[i].requests[r].headToken.Some? || run[i].requests[r].claimToken.Some?
    requires run[i].requests[r].stage.SequenceRead? ==> NextNumber(run[i].requests[r].stage.current, 0) < LIMIT
    ensures !WaitsForLock(run[i].requests[r])
    ensures Step(c, run[i], next) && Advances(run[i], r, next)
  {
    LockHolderCanMove(c, run, i, r);
    next := CanMoveIsStep(c, run[i], r);
  }
}
