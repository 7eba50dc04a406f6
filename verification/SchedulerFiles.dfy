/**
  Who owns which file in every reachable state: the locks and slots of a live request carry
  that request's own tokens, so two live requests never share one.
 */
module SchedulerFiles {
  import opened Common
  import opened SlotPlan
  import opened TicketNames
  import opened Scheduler

  predicate HoldsHeadLock(stage: Stage) {
    || stage.SequenceLocked? || stage.SequenceRead? || stage.SequenceWritten? || stage.SequenceUnlock?
    || (stage.Refreshing? && !stage.phase.Locking?)
  }

  predicate MayHoldClaimLock(stage: Stage) {
    || stage.Claiming? || stage.ClaimsDone? || stage.ClaimUnlock?
    || (stage.Freeing? && stage.goal == ThenUnlock)
  }

  /** Stages in which a request owns exactly the slots of its plan. */
  predicate HoldsLease(stage: Stage) {
    stage.Granted? || stage.Leased? || (stage.Refreshing? && stage.after == ThenLease)
  }

  predicate BeforeTicket(stage: Stage) {
    || stage.Planned? || stage.SequenceLocked? || stage.SequenceRead? || stage.SequenceWritten?
    || stage.SequenceUnlock? || stage.Numbered?
  }

  /** The claimed slots lie in the planned range, in increasing order. */
  ghost predicate OwnedInRange(plan: Plan, r: Rid, owned: seq<Claim>) {
    && (forall k :: 0 <= k < |owned| ==>
          && owned[k].slot.pool == plan.pool
          && plan.low <= owned[k].slot.index < plan.usable
          && owned[k].token.request == r)
    && (forall j, k :: 0 <= j < k < |owned| ==> owned[j].slot.index < owned[k].slot.index)
  }

  predicate MayOwnSome(stage: Stage) {
    stage.Claiming? || stage.ClaimsDone? || stage.ClaimUnlock? || stage.Freeing?
  }

  predicate ClaimsFailed(stage: Stage) {
    (stage.ClaimsDone? || stage.ClaimUnlock?) && stage.failed
  }

  ghost predicate OwnedFitsStage(plan: Plan, stage: Stage, owned: seq<Claim>) {
    && (HoldsLease(stage) ==> |owned| == plan.weight)
    && (MayOwnSome(stage) ==> |owned| <= plan.weight)
    && (ClaimsFailed(stage) || !(HoldsLease(stage) || MayOwnSome(stage)) ==> owned == [])
    && (stage.Claiming? ==> plan.low <= stage.next)
    && (stage.Claiming? ==> forall k :: 0 <= k < |owned| ==> owned[k].slot.index < stage.next)
  }

  /** Locks and names match the stage. */
  ghost predicate LocksFitStage(r: Rid, q: Request) {
    && (q.headToken.Some? <==> HoldsHeadLock(q.stage))
    && (q.headToken.Some? ==> q.headToken.value.request == r)
    && (q.claimToken.Some? ==> MayHoldClaimLock(q.stage) && q.claimToken.value.request == r)
    && (q.stage.ClaimUnlock? ==> q.claimToken.Some?)
    && (q.name.None? ==> BeforeTicket(q.stage) || q.stage.Done?)
    && (q.name.Some? ==> !BeforeTicket(q.stage) && q.name.value.lane == q.lane)
  }

  /** What holds of each request by itself. */
  ghost predicate RequestOk(r: Rid, q: Request) {
    && 1 <= q.plan.weight
    && LocksFitStage(r, q)
    && OwnedInRange(q.plan, r, q.owned)
    && OwnedFitsStage(q.plan, q.stage, q.owned)
  }

  // ---------------------------------------------------------------------------------------
  // Each request keeps its own facts

  /** A step changes no identity, demand or plan. */
  ghost predicate SameDemand(q: Request, q': Request) {
    && q'.pid == q.pid && q'.demand == q.demand && q'.pressure == q.pressure
    && q'.plan == q.plan && q'.lane == q.lane
  }

  lemma SequenceStepOk(r: Rid, q: Request, op: Op, q': Request)
    requires RequestOk(r, q) && SequenceStep(r, q, op, q')
    ensures RequestOk(r, q') && SameDemand(q, q')
  {
  }

  lemma TicketStepOk(r: Rid, q: Request, op: Op, q': Request)
    requires RequestOk(r, q) && TicketStep(q, op, q')
    ensures RequestOk(r, q') && SameDemand(q, q')
  {
  }

  lemma RefreshStepOk(r: Rid, q: Request, op: Op, q': Request)
    requires RequestOk(r, q) && RefreshStep(r, q, op, q')
    ensures RequestOk(r, q') && SameDemand(q, q')
  {
  }

  lemma WaitStepOk(r: Rid, q: Request, op: Op, q': Request)
    requires RequestOk(r, q) && WaitStep(r, q, op, q')
    ensures RequestOk(r, q') && SameDemand(q, q')
  {
  }

  lemma ClaimStepOk(r: Rid, q: Request, op: Op, q': Request)
    requires RequestOk(r, q) && ClaimStep(r, q, op, q')
    ensures RequestOk(r, q') && SameDemand(q, q')
  {
  }

  lemma SettleStepOk(r: Rid, q: Request, op: Op, q': Request)
    requires RequestOk(r, q) && SettleStep(q, op, q')
    ensures RequestOk(r, q') && SameDemand(q, q')
  {
  }

  lemma FreeStepOk(r: Rid, q: Request, op: Op, q': Request)
    requires RequestOk(r, q) && FreeStep(q, op, q')
    ensures RequestOk(r, q') && SameDemand(q, q')
  {
  }

  lemma LocalStepOk(r: Rid, q: Request, op: Op, q': Request)
    requires RequestOk(r, q) && LocalStep(r, q, op, q')
    ensures RequestOk(r, q') && SameDemand(q, q')
  {
    if SequenceStep(r, q, op, q') {
      SequenceStepOk(r, q, op, q');
    } else if TicketStep(q, op, q') {
      TicketStepOk(r, q, op, q');
    } else if RefreshStep(r, q, op, q') {
      RefreshStepOk(r, q, op, q');
    } else if WaitStep(r, q, op, q') {
      WaitStepOk(r, q, op, q');
    } else if ClaimStep(r, q, op, q') {
      ClaimStepOk(r, q, op, q');
    } else if SettleStep(q, op, q') {
      SettleStepOk(r, q, op, q');
    } else {
      FreeStepOk(r, q, op, q');
    }
  }

  // ---------------------------------------------------------------------------------------
  // Files change hands only through their owner

  /** The request holds this file under this token. */
  ghost predicate Holds(q: Request, key: Key, t: Token) {
    match key
    case HeadLock(lane) => lane == q.lane && q.headToken == Some(t)
    case ClaimLock(pool) => pool == q.plan.pool && q.claimToken == Some(t)
    case SlotFile(slot) => Claim(slot, t) in q.owned
  }

  /** A request creates files under its own tokens, removes only files it holds, and holds
      nothing it has neither created nor held before. */
  ghost predicate Disciplined(r: Rid, q: Request, op: Op, q': Request) {
    && (op.Create? ==> op.holder.pid == q.pid && op.holder.token.request == r)
    && (op.Remove? ==> exists t :: Holds(q, op.key, t))
    && (forall key, t :: Holds(q', key, t) ==>
          || (op.Create? && op.key == key && op.holder.token == t)
          || (Holds(q, key, t) && !(op.Remove? && op.key == key)))
  }

  lemma TicketDisciplined(r: Rid, q: Request, op: Op, q': Request)
    requires TicketStep(q, op, q')
    ensures Disciplined(r, q, op, q')
  {
  }

  lemma SequenceDisciplined(r: Rid, q: Request, op: Op, q': Request)
    requires RequestOk(r, q) && SequenceStep(r, q, op, q')
    ensures Disciplined(r, q, op, q')
  {
    if q.stage.SequenceUnlock? {
      assert Holds(q, op.key, q.headToken.value);
    }
  }

  lemma RefreshDisciplined(r: Rid, q: Request, op: Op, q': Request)
    requires RequestOk(r, q) && RefreshStep(r, q, op, q')
    ensures Disciplined(r, q, op, q')
  {
    if q.stage.phase.Removing? {
      assert Holds(q, op.key, q.headToken.value);
    }
  }

  lemma WaitDisciplined(r: Rid, q: Request, op: Op, q': Request)
    requires RequestOk(r, q) && WaitStep(r, q, op, q')
    ensures Disciplined(r, q, op, q')
  {
  }

  lemma ClaimDisciplined(r: Rid, q: Request, op: Op, q': Request)
    requires RequestOk(r, q) && ClaimStep(r, q, op, q')
    ensures Disciplined(r, q, op, q')
  {
  }

  lemma SettleDisciplined(r: Rid, q: Request, op: Op, q': Request)
    requires RequestOk(r, q) && SettleStep(q, op, q')
    ensures Disciplined(r, q, op, q')
  {
    if op.Remove? {
      assert Holds(q, op.key, q.claimToken.value);
    }
  }

  lemma FreeDisciplined(r: Rid, q: Request, op: Op, q': Request)
    requires RequestOk(r, q) && FreeStep(q, op, q')
    ensures Disciplined(r, q, op, q')
  {
    if op.Remove? {
      assert Holds(q, op.key, q.owned[0].token);
      assert forall claim :: claim in q'.owned ==> claim.slot.index != q.owned[0].slot.index;
    }
  }

  lemma LocalDisciplined(r: Rid, q: Request, op: Op, q': Request)
    requires RequestOk(r, q) && LocalStep(r, q, op, q')
    ensures Disciplined(r, q, op, q')
  {
    if SequenceStep(r, q, op, q') {
      SequenceDisciplined(r, q, op, q');
    } else if TicketStep(q, op, q') {
      TicketDisciplined(r, q, op, q');
    } else if RefreshStep(r, q, op, q') {
      RefreshDisciplined(r, q, op, q');
    } else if WaitStep(r, q, op, q') {
      WaitDisciplined(r, q, op, q');
    } else if ClaimStep(r, q, op, q') {
      ClaimDisciplined(r, q, op, q');
    } else if SettleStep(q, op, q') {
      SettleDisciplined(r, q, op, q');
    } else {
      FreeDisciplined(r, q, op, q');
    }
  }

  /** Every file a request holds carries its process and its token. */
  ghost predicate FilesOf(f: Files, q: Request) {
    forall key, t :: Holds(q, key, t) ==> Lookup(f.records, key) == Some(Holder(q.pid, t))
  }

  /** Tokens a request holds are its own draws. */
  lemma HeldTokensAreOwn(r: Rid, q: Request, key: Key, t: Token)
    requires RequestOk(r, q) && Holds(q, key, t)
    ensures t.request == r
  {
  }

  /** The acting request's files stay its own. */
  lemma OwnFilesKept(alive: set<Pid>, r: Rid, q: Request, op: Op, q': Request, f: Files, f': Files)
    requires Disciplined(r, q, op, q') && OpStep(alive, f, op, f') && FilesOf(f, q) && q'.pid == q.pid
    ensures FilesOf(f', q')
  {
  }

  /** Another request's files are not touched. */
  lemma OtherFilesKept(alive: set<Pid>, r: Rid, q: Request, op: Op, q': Request, f: Files, f': Files,
                       other: Rid, o: Request)
    requires Disciplined(r, q, op, q') && OpStep(alive, f, op, f') && FilesOf(f, q) && RequestOk(r, q)
    requires FilesOf(f, o) && RequestOk(other, o) && other != r
    ensures FilesOf(f', o)
  {
    forall key, t | Holds(o, key, t)
      ensures Lookup(f'.records, key) == Some(Holder(o.pid, t))
    {
      HeldTokensAreOwn(other, o, key, t);
      if op.Remove? {
        var mine :| Holds(q, op.key, mine);
        HeldTokensAreOwn(r, q, op.key, mine);
      }
    }
  }

  // ---------------------------------------------------------------------------------------
  // The invariant

  ghost predicate PlanIsMade(c: Config, q: Request) {
    && q.plan == MakePlan(c, q.demand, q.pressure)
    && q.lane == LaneFor(q.demand.kind, q.demand.resource, q.pressure)
  }

  ghost predicate FilesInv(c: Config, s: State) {
    && s.alive <= s.started
    && (forall r :: r in s.requests ==> s.requests[r].pid in s.started)
    && (forall r :: r in s.requests ==> PlanIsMade(c, s.requests[r]))
    && (forall r :: r in s.requests ==> RequestOk(r, s.requests[r]))
    && (forall r :: Live(s, r) ==> FilesOf(s.files, s.requests[r]))
  }

  lemma FilesInvRequestStep(c: Config, s: State, r: Rid, op: Op, s': State)
    requires FilesInv(c, s) && RequestStep(s, r, op, s')
    ensures FilesInv(c, s')
  {
    var q, q' := s.requests[r], s'.requests[r];
    LocalStepOk(r, q, op, q');
    LocalDisciplined(r, q, op, q');
    OwnFilesKept(s.alive, r, q, op, q', s.files, s'.files);
    forall o | Live(s', o)
      ensures FilesOf(s'.files, s'.requests[o])
    {
      if o != r {
        assert Live(s, o);
        OtherFilesKept(s.alive, r, q, op, q', s.files, s'.files, o, s.requests[o]);
      }
    }
  }

  lemma NewRequestOk(c: Config, r: Rid, pid: Pid, d: Demand, pressure: bool)
    ensures RequestOk(r, NewRequest(c, pid, d, pressure))
    ensures PlanIsMade(c, NewRequest(c, pid, d, pressure))
    ensures forall f :: FilesOf(f, NewRequest(c, pid, d, pressure))
  {
    PlanBounds(c, d, pressure);
  }

  lemma FilesInvArrives(c: Config, s: State, r: Rid, pid: Pid, d: Demand, pressure: bool, s': State)
    requires FilesInv(c, s) && Arrives(c, s, r, pid, d, pressure, s')
    ensures FilesInv(c, s')
  {
    NewRequestOk(c, r, pid, d, pressure);
    assert forall o :: o != r && Live(s', o) ==> Live(s, o);
  }

  /** Processes coming, dying, and stale files disappearing leave live requests' files alone. */
  lemma FilesInvWorld(c: Config, s: State, s': State)
    requires FilesInv(c, s) && s'.requests == s.requests && s'.alive <= s'.started && s.started <= s'.started
    requires forall r :: Live(s', r) ==> Live(s, r)
    requires forall key :: key in s.files.records && s.files.records[key].pid in s'.alive
               ==> Lookup(s'.files.records, key) == Some(s.files.records[key])
    ensures FilesInv(c, s')
  {
    forall r | Live(s', r)
      ensures FilesOf(s'.files, s'.requests[r])
    {
      assert FilesOf(s.files, s.requests[r]);
    }
  }

  lemma FilesInvStep(c: Config, s: State, s': State)
    requires FilesInv(c, s) && Step(c, s, s')
    ensures FilesInv(c, s')
  {
    if r, op :| RequestStep(s, r, op, s') {
      FilesInvRequestStep(c, s, r, op, s');
    } else if r, pid, d, pressure :| Arrives(c, s, r, pid, d, pressure, s') {
      FilesInvArrives(c, s, r, pid, d, pressure, s');
    } else {
      FilesInvWorld(c, s, s');
    }
  }
}
