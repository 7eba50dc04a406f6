/**
  The step system is not empty: under every configuration there is a run in which a request
  draws a number, queues, reaches the head of its lane, claims a slot and holds a lease.
 */
module SchedulerExample {
  import opened Common
  import opened SlotPlan
  import opened TicketNames
  import opened Scheduler

  function Last(run: seq<State>): State
    requires run != []
  {
    run[|run| - 1]
  }

  /** The world of the example: process 0 is alive and makes request 0. */
  function World(q: Request, f: Files): State { State({0}, {0}, f, map[0 := q]) }

  ghost predicate Reaches(c: Config, run: seq<State>, q: Request, f: Files) {
    IsRun(c, run) && Last(run) == World(q, f)
  }

  lemma Extend(c: Config, run: seq<State>, s: State)
    requires IsRun(c, run) && Step(c, Last(run), s)
    ensures IsRun(c, run + [s])
  {
    var longer := run + [s];
    forall i | 0 < i < |longer| ensures StepAt(c, longer, i) {
      if i < |run| {
        assert StepAt(c, run, i);
      }
    }
  }

  lemma Advance(c: Config, run: seq<State>, q: Request, f: Files, op: Op, q': Request, f': Files)
    returns (next: seq<State>)
    requires Reaches(c, run, q, f) && q.pid == 0
    requires LocalStep(0, q, op, q') && OpStep({0}, f, op, f')
    ensures Reaches(c, next, q', f')
  {
    var s, s' := World(q, f), World(q', f');
    assert RequestStep(s, 0, op, s');
    next := run + [s'];
    Extend(c, run, s');
  }

  const NO_FILES := Files(map[], map[], map[], map[])

  lemma Begin(c: Config, d: Demand) returns (run: seq<State>)
    ensures Reaches(c, run, NewRequest(c, 0, d, false), NO_FILES)
  {
    var started := State({0}, {0}, NO_FILES, map[]);
    assert Starts(INITIAL, 0, started);
    assert IsRun(c, [INITIAL]);
    Extend(c, [INITIAL], started);
    var s := World(NewRequest(c, 0, d, false), NO_FILES);
    assert Arrives(c, started, 0, 0, d, false, s);
    run := [INITIAL] + [started] + [s];
    Extend(c, [INITIAL] + [started], s);
  }

  /** Taking the free head lock. */
  function Locked(q: Request, f: Files): Files {
    f.(records := f.records[HeadLock(q.lane) := Record(0, q)])
  }

  function Holding(q: Request, stage: Stage): Request {
    q.(stage := stage, headToken := Some(Token(0, q.draws)), draws := q.draws + 1)
  }

  lemma {:induction false} PowerGrows(k: nat)
    requires k > 0
    ensures Pow10(k) >= 10
  {
    if k > 1 {
      PowerGrows(k - 1);
    }
  }

  lemma OneIsBelowLimit()
    ensures 1 < LIMIT
  {
    PowerGrows(WIDTH);
  }

  /** Drawing the first number under the head lock. */
  lemma DrawsNumber(c: Config, before: seq<State>, q: Request) returns (run: seq<State>)
    requires Reaches(c, before, q, NO_FILES) && q.pid == 0 && q.stage == Planned
    ensures Reaches(c, run, Holding(q, SequenceWritten(1)), Locked(q, NO_FILES).(sequence := map[q.lane := 1]))
  {
    var f1, q1 := Locked(q, NO_FILES), Holding(q, SequenceLocked);
    run := Advance(c, before, q, NO_FILES, Create(HeadLock(q.lane), Record(0, q)), q1, f1);
    var q2 := q1.(stage := SequenceRead(None));
    run := Advance(c, run, q1, f1, ReadSequence(q.lane, None), q2, f1);
    assert NextNumber(None, 0) == 1;
    OneIsBelowLimit();
    run := Advance(c, run, q2, f1, ReplaceSequence(q.lane, 1), q2.(stage := SequenceWritten(1)),
                   f1.(sequence := map[q.lane := 1]));
  }

  /** Drawing the first number and removing the lock. */
  lemma Numbers(c: Config, before: seq<State>, q: Request) returns (run: seq<State>)
    requires Reaches(c, before, q, NO_FILES) && q.pid == 0 && q.stage == Planned
    ensures Reaches(c, run, q.(stage := Numbered(1), headToken := None, draws := q.draws + 1),
                    NO_FILES.(sequence := map[q.lane := 1]))
  {
    var lock := HeadLock(q.lane);
    run := DrawsNumber(c, before, q);
    var q1, f1 := Holding(q, SequenceWritten(1)), Locked(q, NO_FILES).(sequence := map[q.lane := 1]);
    var q2 := q1.(stage := SequenceUnlock(1));
    run := Advance(c, run, q1, f1, Read(lock, Some(Record(0, q)), true), q2, f1);
    var f2 := NO_FILES.(sequence := map[q.lane := 1]);
    assert f1.(records := f1.records - {lock}) == f2;
    run := Advance(c, run, q2, f1, Remove(lock), q2.(stage := Numbered(1), headToken := None), f2);
  }

  function HeadWritten(q: Request, f: Files, h: Option<TicketName>): Files {
    f.(head := if h.Some? then f.head[q.lane := h.value] else f.head - {q.lane})
  }

  /** The first half of a refresh, while the head lock is free: lock, list and write. */
  lemma RefreshWrites(c: Config, before: seq<State>, q: Request, f: Files, h: Option<TicketName>)
    returns (run: seq<State>)
    requires Reaches(c, before, q, f) && q.pid == 0
    requires q.stage.Refreshing? && q.stage.phase == Locking && HeadLock(q.lane) !in f.records
    requires IsListHead(f.tickets.Keys, q.lane, h)
    ensures Reaches(c, run, Holding(q, Refreshing(Unlocking(h), q.stage.after)), HeadWritten(q, Locked(q, f), h))
  {
    var after, f1 := q.stage.after, Locked(q, f);
    var q1 := Holding(q, Refreshing(Listing, after));
    assert RefreshStep(0, q, Create(HeadLock(q.lane), Record(0, q)), q1);
    run := Advance(c, before, q, f, Create(HeadLock(q.lane), Record(0, q)), q1, f1);
    run := ListsAndWrites(c, run, q1, f1, h, after);
  }

  lemma ListsAndWrites(c: Config, before: seq<State>, q: Request, f: Files, h: Option<TicketName>, after: AfterRefresh)
    returns (run: seq<State>)
    requires Reaches(c, before, q, f) && q.pid == 0 && q.stage == Refreshing(Listing, after)
    requires IsListHead(f.tickets.Keys, q.lane, h)
    ensures Reaches(c, run, q.(stage := Refreshing(Unlocking(h), after)), HeadWritten(q, f, h))
  {
    var q1 := q.(stage := Refreshing(Writing(h), after));
    assert RefreshStep(0, q, ListTickets(q.lane, h), q1);
    run := Advance(c, before, q, f, ListTickets(q.lane, h), q1, f);
    var q2 := q.(stage := Refreshing(Unlocking(h), after));
    assert RefreshStep(0, q1, ReplaceHead(q.lane, h), q2);
    run := Advance(c, run, q1, f, ReplaceHead(q.lane, h), q2, HeadWritten(q, f, h));
  }

  /** The second half: check the lock and remove it. */
  lemma RefreshUnlocks(c: Config, before: seq<State>, q: Request, f: Files, h: Option<TicketName>, after: AfterRefresh)
    returns (run: seq<State>)
    requires Reaches(c, before, q, f) && q.pid == 0 && q.stage == Refreshing(Unlocking(h), after)
    requires q.headToken.Some? && HeadLock(q.lane) in f.records
    requires f.records[HeadLock(q.lane)] == Holder(0, q.headToken.value)
    ensures Reaches(c, run, q.(stage := Continue(after, h, q.name), headToken := None),
                    f.(records := f.records - {HeadLock(q.lane)}))
  {
    var lock, q1 := HeadLock(q.lane), q.(stage := Refreshing(Removing(h), after));
    run := Advance(c, before, q, f, Read(lock, Some(f.records[lock]), true), q1, f);
    run := Advance(c, run, q1, f, Remove(lock), q1.(stage := Continue(after, h, q.name), headToken := None),
                   f.(records := f.records - {lock}));
  }

  /** One refresh of the head file while the head lock is free. */
  lemma Refreshes(c: Config, before: seq<State>, q: Request, f: Files, h: Option<TicketName>) returns (run: seq<State>)
    requires Reaches(c, before, q, f) && q.pid == 0
    requires q.stage.Refreshing? && q.stage.phase == Locking && HeadLock(q.lane) !in f.records
    requires IsListHead(f.tickets.Keys, q.lane, h)
    ensures Reaches(c, run, q.(stage := Continue(q.stage.after, h, q.name), headToken := None, draws := q.draws + 1),
                    HeadWritten(q, f, h))
  {
    var after := q.stage.after;
    run := RefreshWrites(c, before, q, f, h);
    var q1, f1 := Holding(q, Refreshing(Unlocking(h), after)), HeadWritten(q, Locked(q, f), h);
    run := RefreshUnlocks(c, run, q1, f1, h, after);
    assert f1.records - {HeadLock(q.lane)} == f.records;
    assert f1.(records := f.records) == HeadWritten(q, f, h);
  }

  lemma OnlyTicketIsHead(t: TicketName)
    requires t.Bounded()
    ensures IsListHead({t}, t.lane, Some(t))
  {
    ListedLanes(t.lane, t);
  }

  /** Creating the only ticket. */
  lemma Enqueues(c: Config, before: seq<State>, q: Request, f: Files, t: TicketName) returns (run: seq<State>)
    requires Reaches(c, before, q, f) && q.pid == 0 && q.stage == Numbered(1)
    requires f.tickets == map[] && t.lane == q.lane && t.sequence == 1
    ensures Reaches(c, run, q.(stage := Refreshing(Locking, ThenEnqueued), name := Some(t)),
                    f.(tickets := map[t := Ticket(0, true)]))
  {
    var q1, f1 := q.(stage := TicketCreated, name := Some(t)), f.(tickets := map[t := Ticket(0, false)]);
    run := Advance(c, before, q, f, CreateTicket(t, Ticket(0, false)), q1, f1);
    run := Advance(c, run, q1, f1, WriteTicket(t, Ticket(0, true)), q1.(stage := Refreshing(Locking, ThenEnqueued)),
                   f.(tickets := map[t := Ticket(0, true)]));
  }

  /** Seeing it at the head of its lane. */
  lemma ReachesHead(c: Config, before: seq<State>, q: Request, f: Files, t: TicketName) returns (run: seq<State>)
    requires Reaches(c, before, q, f) && q.pid == 0 && q.stage == Refreshing(Locking, ThenEnqueued)
    requires f.tickets.Keys == {t} && HeadLock(q.lane) !in f.records && f.head == map[]
    requires t.Bounded() && t.lane == q.lane && q.name == Some(t)
    ensures Reaches(c, run, q.(stage := AtHead, headToken := None, draws := q.draws + 1),
                    f.(head := map[q.lane := t]))
  {
    OnlyTicketIsHead(t);
    run := Refreshes(c, before, q, f, Some(t));
    var q1 := q.(stage := Waiting, headToken := None, draws := q.draws + 1);
    var f1 := f.(head := map[q.lane := t]);
    run := Advance(c, run, q1, f1, ReadHead(q.lane, Some(t)), q1.(stage := AtHead), f1);
  }

  /** Claiming one slot. */
  lemma ClaimsSlot(c: Config, before: seq<State>, q: Request, f: Files) returns (run: seq<State>)
    requires Reaches(c, before, q, f) && q.pid == 0 && q.stage == AtHead && q.owned == []
    requires q.plan.weight == 1 && q.plan.low < q.plan.usable && f.records == map[]
    ensures var slot := Slot(q.plan.pool, q.plan.low);
            Reaches(c, run, q.(stage := Claiming(q.plan.low + 1), draws := q.draws + 1,
                               owned := [Claim(slot, Token(0, q.draws))]),
                    f.(records := map[SlotFile(slot) := Record(0, q)]))
  {
    var slot, q1 := Slot(q.plan.pool, q.plan.low), q.(stage := Claiming(q.plan.low));
    run := Advance(c, before, q, f, NoOp, q1, f);
    run := Advance(c, run, q1, f, Create(SlotFile(slot), Record(0, q1)),
                   q1.(stage := Claiming(q.plan.low + 1), draws := q.draws + 1, owned := [Claim(slot, Token(0, q.draws))]),
                   f.(records := map[SlotFile(slot) := Record(0, q)]));
  }

  lemma ClaimsEnough(c: Config, before: seq<State>, q: Request, f: Files) returns (run: seq<State>)
    requires Reaches(c, before, q, f) && q.pid == 0 && q.stage.Claiming? && q.claimToken.None?
    requires |q.owned| == q.plan.weight
    ensures Reaches(c, run, q.(stage := Granted), f)
  {
    var q1 := q.(stage := ClaimsDone(false));
    run := Advance(c, before, q, f, NoOp, q1, f);
    run := Advance(c, run, q1, f, NoOp, q1.(stage := Granted), f);
  }

  /** Leaving the queue with the slot. */
  lemma Leases(c: Config, before: seq<State>, q: Request, f: Files) returns (run: seq<State>)
    requires Reaches(c, before, q, f) && q.pid == 0 && q.stage == Granted && q.name.Some?
    requires f.tickets.Keys == {q.name.value} && HeadLock(q.lane) !in f.records
    ensures Reaches(c, run, q.(stage := Leased, headToken := None, draws := q.draws + 1),
                    f.(head := f.head - {q.lane}, tickets := map[]))
  {
    var q1, f1 := q.(stage := Refreshing(Locking, ThenLease)), f.(tickets := map[]);
    assert f.tickets - {q.name.value} == map[];
    run := Advance(c, before, q, f, RemoveTicket(q.name.value), q1, f1);
    run := Refreshes(c, run, q1, f1, None);
  }

  /** Up to the head of the lane. */
  lemma AHeadIsReachable(c: Config, d: Demand) returns (run: seq<State>, q: Request, f: Files)
    ensures Reaches(c, run, q, f) && q.pid == 0 && q.stage == AtHead && q.owned == [] && q.claimToken.None?
    ensures q.plan == MakePlan(c, d, false) && q.name.Some?
    ensures f.records == map[] && f.tickets.Keys == {q.name.value}
  {
    var q0 := NewRequest(c, 0, d, false);
    run := Begin(c, d);
    run := Numbers(c, run, q0);
    var q1, f1 := q0.(stage := Numbered(1), draws := 1), NO_FILES.(sequence := map[q0.lane := 1]);
    var t := TicketName(q0.lane, 1, "");
    run := Enqueues(c, run, q1, f1, t);
    var q2, f2 := q1.(stage := Refreshing(Locking, ThenEnqueued), name := Some(t)), f1.(tickets := map[t := Ticket(0, true)]);
    OneIsBelowLimit();
    run := ReachesHead(c, run, q2, f2, t);
    q, f := q2.(stage := AtHead, headToken := None, draws := q2.draws + 1), f2.(head := map[q0.lane := t]);
  }

  /** Under every configuration a light request can come to hold a lease on slot 0. */
  lemma ALeaseIsReachable(c: Config) returns (run: seq<State>)
    ensures IsRun(c, run)
    ensures 0 in Last(run).requests && Last(run).requests[0].stage == Leased
    ensures SlotFile(Slot(ExecutionPool, 0)) in Last(run).files.records
  {
    var d := Demand(Interactive, Light, 1);
    PlanBounds(c, d, false);
    var q, f;
    run, q, f := AHeadIsReachable(c, d);
    run := ClaimsSlot(c, run, q, f);
    var q1, f1 := Last(run).requests[0], Last(run).files;
    run := ClaimsEnough(c, run, q1, f1);
    run := Leases(c, run, q1.(stage := Granted), f1);
  }
}
