/**
  What every run of the scheduler guarantees about slots: exclusive ownership, exact weights,
  the interactive reserve, and the separation of light and weighted work under disk pressure.
 */
module SchedulerSlots {
  import opened Common
  import opened SlotPlan
  import opened TicketNames
  import opened Scheduler
  import opened SchedulerFiles

  /** A request that holds its slots in a process that is still alive. */
  ghost predicate LiveLease(s: State, r: Rid) {
    Live(s, r) && HoldsLease(s.requests[r].stage)
  }

  /** The slot numbers a request holds. */
  ghost function SlotsOf(q: Request): set<int> {
    set claim | claim in q.owned :: claim.slot.index
  }

  lemma {:induction false} RunKeepsFiles(c: Config, run: seq<State>, i: nat)
    requires IsRun(c, run) && i < |run|
    ensures FilesInv(c, run[i])
  {
    if i > 0 {
      RunKeepsFiles(c, run, i - 1);
      assert StepAt(c, run, i);
      FilesInvStep(c, run[i - 1], run[i]);
    }
  }

  lemma IndicesOfLast(front: seq<Claim>, last: Claim)
    ensures (set claim | claim in front + [last] :: claim.slot.index)
         == (set claim | claim in front :: claim.slot.index) + {last.slot.index}
  {
    assert forall claim :: claim in front + [last] <==> claim in front || claim == last;
  }

  lemma {:induction false} IncreasingCount(owned: seq<Claim>)
    requires forall j, k :: 0 <= j < k < |owned| ==> owned[j].slot.index < owned[k].slot.index
    ensures |set claim | claim in owned :: claim.slot.index| == |owned|
  {
    if owned != [] {
      var front, last := owned[..|owned| - 1], owned[|owned| - 1];
      IncreasingCount(front);
      assert owned == front + [last];
      IndicesOfLast(front, last);
      assert last.slot.index !in set claim | claim in front :: claim.slot.index;
    }
  }

  /** A live request's slot is on disk under its own token. */
  lemma SlotOnDisk(c: Config, s: State, r: Rid, n: int)
    requires FilesInv(c, s) && Live(s, r) && n in SlotsOf(s.requests[r])
    ensures var q := s.requests[r];
            && q.plan.low <= n < q.plan.usable
            && Lookup(s.files.records, SlotFile(Slot(q.plan.pool, n))).Some?
            && var record := s.files.records[SlotFile(Slot(q.plan.pool, n))];
               record.pid == q.pid && record.token.request == r
  {
    var q := s.requests[r];
    var claim :| claim in q.owned && claim.slot.index == n;
    assert RequestOk(r, q);
    assert claim.slot == Slot(q.plan.pool, n);
    assert Holds(q, SlotFile(claim.slot), claim.token);
  }

  /** In every reachable state a live lease holds exactly as many distinct slots as its plan
      weighs, all of them in its planned range, each with its own record on disk; a background
      lease stays out of the last `reserved` slots. */
  lemma LeaseIsExact(c: Config, run: seq<State>, i: nat, r: Rid)
    requires IsRun(c, run) && i < |run| && LiveLease(run[i], r)
    ensures var q := run[i].requests[r];
            var plan := MakePlan(c, q.demand, q.pressure);
            && |SlotsOf(q)| == plan.weight
            && (forall n :: n in SlotsOf(q) ==>
                  && plan.low <= n < plan.usable <= plan.total
                  && (q.demand.kind == Background ==> n < plan.total - plan.reserved)
                  && SlotFile(Slot(plan.pool, n)) in run[i].files.records
                  && run[i].files.records[SlotFile(Slot(plan.pool, n))].pid == q.pid
                  && run[i].files.records[SlotFile(Slot(plan.pool, n))].token.request == r)
  {
    RunKeepsFiles(c, run, i);
    var q := run[i].requests[r];
    assert RequestOk(r, q) && PlanIsMade(c, q);
    PlanBounds(c, q.demand, q.pressure);
    IncreasingCount(q.owned);
    forall n | n in SlotsOf(q)
      ensures q.plan.low <= n < q.plan.usable
      ensures SlotFile(Slot(q.plan.pool, n)) in run[i].files.records
      ensures run[i].files.records[SlotFile(Slot(q.plan.pool, n))].pid == q.pid
      ensures run[i].files.records[SlotFile(Slot(q.plan.pool, n))].token.request == r
    {
      SlotOnDisk(c, run[i], r, n);
    }
  }

  /** In every reachable state two live requests hold no common slot. */
  lemma SlotsExclusive(c: Config, run: seq<State>, i: nat, r1: Rid, r2: Rid)
    requires IsRun(c, run) && i < |run| && r1 != r2
    requires Live(run[i], r1) && Live(run[i], r2)
    requires run[i].requests[r1].plan.pool == run[i].requests[r2].plan.pool
    ensures SlotsOf(run[i].requests[r1]) !! SlotsOf(run[i].requests[r2])
  {
    RunKeepsFiles(c, run, i);
    forall n | n in SlotsOf(run[i].requests[r1])
      ensures n !in SlotsOf(run[i].requests[r2])
    {
      SlotOnDisk(c, run[i], r1, n);
      if n in SlotsOf(run[i].requests[r2]) {
        SlotOnDisk(c, run[i], r2, n);
      }
    }
  }

  /** In every reachable state no two live requests hold the same lock or slot file; in
      particular at most one holds a lane's head lock and at most one a pool's claim lock. */
  lemma FilesExclusive(c: Config, run: seq<State>, i: nat, r1: Rid, r2: Rid, key: Key, t1: Token, t2: Token)
    requires IsRun(c, run) && i < |run|
    requires Live(run[i], r1) && Holds(run[i].requests[r1], key, t1)
    requires Live(run[i], r2) && Holds(run[i].requests[r2], key, t2)
    ensures r1 == r2
  {
    RunKeepsFiles(c, run, i);
    HeldTokensAreOwn(r1, run[i].requests[r1], key, t1);
    HeldTokensAreOwn(r2, run[i].requests[r2], key, t2);
    assert FilesOf(run[i].files, run[i].requests[r1]) && FilesOf(run[i].files, run[i].requests[r2]);
  }

  /** A request holds a head lock and a claim lock at no time together, and while it waits for
      one of them it holds neither; so no two requests can wait for each other's locks. */
  lemma LocksNeverNest(c: Config, run: seq<State>, i: nat, r: Rid)
    requires IsRun(c, run) && i < |run| && r in run[i].requests
    ensures var q := run[i].requests[r];
            && !(q.headToken.Some? && q.claimToken.Some?)
            && (WaitsForLock(q) ==> q.headToken.None? && q.claimToken.None?)
  {
    RunKeepsFiles(c, run, i);
    assert RequestOk(r, run[i].requests[r]);
  }

  /** About to take a lane's head lock or a pool's claim lock. */
  predicate WaitsForLock(q: Request) {
    || q.stage.Planned? || (q.stage.Refreshing? && q.stage.phase.Locking?)
    || (q.stage.AtHead? && q.plan.weight > 1)
  }

  // ---------------------------------------------------------------------------------------
  // Disk pressure

  /** The slot numbers below n. */
  ghost function Below(n: nat): (s: set<int>)
    ensures forall x :: x in s <==> 0 <= x < n
    ensures |s| == n
  {
    if n == 0 then {} else Below(n - 1) + {n - 1}
  }

  lemma CountBelow(held: set<int>, n: nat)
    requires forall x :: x in held ==> 0 <= x < n
    ensures |held| <= n
    ensures |held| == n ==> held == Below(n)
  {
    assert Below(n) == held + (Below(n) - held);
  }

  /** Under pressure a live weighted lease occupies every slot from 0 to its width. */
  lemma PressuredLeaseOccupiesCorridor(c: Config, run: seq<State>, i: nat, r: Rid)
    requires IsRun(c, run) && i < |run| && LiveLease(run[i], r)
    requires run[i].requests[r].pressure && Weighted(run[i].requests[r].demand.resource)
    ensures 0 <= run[i].requests[r].plan.usable
    ensures SlotsOf(run[i].requests[r]) == Below(run[i].requests[r].plan.usable)
    ensures run[i].requests[r].plan.pool == ExecutionPool
    ensures 0 in SlotsOf(run[i].requests[r])
  {
    var q := run[i].requests[r];
    LeaseIsExact(c, run, i, r);
    RunKeepsFiles(c, run, i);
    assert PlanIsMade(c, q);
    PressuredWeightedTakesAll(c, q.demand);
    PlanBounds(c, q.demand, true);
    CountBelow(SlotsOf(q), q.plan.usable);
  }

  /** In every reachable state at most one live heavy or I/O-heavy lease was planned under
      pressure. */
  lemma PressuredWeightedLeasesAlone(c: Config, run: seq<State>, i: nat, r1: Rid, r2: Rid)
    requires IsRun(c, run) && i < |run|
    requires LiveLease(run[i], r1) && LiveLease(run[i], r2)
    requires run[i].requests[r1].pressure && Weighted(run[i].requests[r1].demand.resource)
    requires run[i].requests[r2].pressure && Weighted(run[i].requests[r2].demand.resource)
    ensures r1 == r2
  {
    if r1 != r2 {
      PressuredLeaseOccupiesCorridor(c, run, i, r1);
      PressuredLeaseOccupiesCorridor(c, run, i, r2);
      SlotsExclusive(c, run, i, r1, r2);
    }
  }

  /** A live light lease planned under pressure leaves free every slot that weighted work of any
      weight may plan under pressure, provided that work is narrower than the light range and
      fits the corridor; work of a configured weight fits it. */
  lemma LightLeaseLeavesCorridor(c: Config, run: seq<State>, i: nat, r: Rid, heavy: Demand)
    requires IsRun(c, run) && i < |run| && LiveLease(run[i], r)
    requires run[i].requests[r].pressure && run[i].requests[r].demand.resource == Light
    requires Weighted(heavy.resource)
    ensures var h := MakePlan(c, heavy, true).usable;
            && (h < run[i].requests[r].plan.usable && h <= Corridor(c)
                ==> forall n :: n in SlotsOf(run[i].requests[r]) ==> h <= n)
            && (Or(heavy.weight, 1) == Or(if heavy.resource == Heavy then c.heavyWeight else c.ioHeavyWeight, 1)
                ==> h <= Corridor(c))
  {
    var q := run[i].requests[r];
    LeaseIsExact(c, run, i, r);
    RunKeepsFiles(c, run, i);
    assert PlanIsMade(c, q);
    CorridorDisjointIff(c, q.demand, heavy);
  }

  // ---------------------------------------------------------------------------------------
  // Capacity

  /** A set of live leases of one pool. */
  ghost predicate LeasesIn(s: State, pool: Pool, rs: set<Rid>) {
    forall r :: r in rs ==> r in s.requests && LiveLease(s, r) && s.requests[r].plan.pool == pool
  }

  /** The sum of the values of the given keys. */
  ghost function Sum(keys: set<Rid>, w: map<Rid, int>): int
    requires keys <= w.Keys
  {
    if keys == {} then 0 else
      var r :| r in keys;
      w[r] + Sum(keys - {r}, w)
  }

  /** The total weight of a set of leases. */
  ghost function TotalWeight(s: State, pool: Pool, rs: set<Rid>): int
    requires LeasesIn(s, pool, rs)
  {
    Sum(rs, map r | r in rs :: s.requests[r].plan.weight)
  }

  ghost function UnionOf(keys: set<Rid>, held: map<Rid, set<int>>): set<int>
    requires keys <= held.Keys
  {
    set r, n | r in keys && n in held[r] :: n
  }

  /** The slot numbers from `low` to `high`. */
  ghost function Between(low: int, high: int): (s: set<int>)
    requires low <= high
    ensures forall x :: x in s <==> low <= x < high
    ensures |s| == high - low
    decreases high - low
  {
    if low == high then {} else Between(low, high - 1) + {high - 1}
  }

  lemma SubsetSize(a: set<int>, b: set<int>)
    requires a <= b
    ensures |a| <= |b|
  {
    assert b == a + (b - a);
  }

  /** A request whose planned range is narrower than its weight never holds a lease, in any run. */
  lemma NarrowPlanNeverLeases(c: Config, run: seq<State>, i: nat, r: Rid)
    requires IsRun(c, run) && i < |run| && Live(run[i], r)
    requires var q := run[i].requests[r];
             var plan := MakePlan(c, q.demand, q.pressure);
             plan.weight > plan.usable - plan.low
    ensures !HoldsLease(run[i].requests[r].stage)
  {
    var q := run[i].requests[r];
    var plan := MakePlan(c, q.demand, q.pressure);
    PlanBounds(c, q.demand, q.pressure);
    if HoldsLease(q.stage) {
      LeaseIsExact(c, run, i, r);
      SubsetSize(SlotsOf(q), Between(plan.low, plan.usable));
    }
  }

  lemma UnionSplit(keys: set<Rid>, held: map<Rid, set<int>>, r: Rid)
    requires keys <= held.Keys && r in keys
    ensures UnionOf(keys, held) == held[r] + UnionOf(keys - {r}, held)
  {
    var rest := keys - {r};
    assert forall n :: n in held[r] ==> n in UnionOf(keys, held);
    forall n | n in UnionOf(keys, held)
      ensures n in held[r] || n in UnionOf(rest, held)
    {
      var o :| o in keys && n in held[o];
      assert o == r || o in rest;
    }
    forall n | n in UnionOf(rest, held)
      ensures n in UnionOf(keys, held)
    {
      var o :| o in rest && n in held[o];
      assert o in keys;
    }
  }

  /** Disjoint sets have as many elements as their sizes add up to. */
  lemma {:induction false} DisjointSizes(keys: set<Rid>, held: map<Rid, set<int>>, w: map<Rid, int>)
    requires keys <= held.Keys && keys <= w.Keys && forall r :: r in keys ==> w[r] == |held[r]|
    requires forall r, o :: r in keys && o in keys && r != o ==> held[r] !! held[o]
    ensures |UnionOf(keys, held)| == Sum(keys, w)
  {
    if keys == {} {
      assert UnionOf(keys, held) == {};
    } else {
      var r :| r in keys && Sum(keys, w) == w[r] + Sum(keys - {r}, w);
      DisjointSizes(keys - {r}, held, w);
      UnionSplit(keys, held, r);
      assert held[r] !! UnionOf(keys - {r}, held);
    }
  }

  /** The slots of a set of leases. */
  ghost function AllSlots(s: State, pool: Pool, rs: set<Rid>): set<int>
    requires LeasesIn(s, pool, rs)
  {
    UnionOf(rs, map r | r in rs :: SlotsOf(s.requests[r]))
  }

  lemma LeaseSize(c: Config, run: seq<State>, i: nat, r: Rid)
    requires IsRun(c, run) && i < |run| && LiveLease(run[i], r)
    ensures |SlotsOf(run[i].requests[r])| == run[i].requests[r].plan.weight
  {
    LeaseIsExact(c, run, i, r);
    RunKeepsFiles(c, run, i);
    assert PlanIsMade(c, run[i].requests[r]);
  }

  lemma WeightsAddUp(c: Config, run: seq<State>, i: nat, pool: Pool, rs: set<Rid>)
    requires IsRun(c, run) && i < |run| && LeasesIn(run[i], pool, rs)
    ensures |AllSlots(run[i], pool, rs)| == TotalWeight(run[i], pool, rs)
  {
    forall r | r in rs
      ensures |SlotsOf(run[i].requests[r])| == run[i].requests[r].plan.weight
    {
      LeaseSize(c, run, i, r);
    }
    forall r, o | r in rs && o in rs && r != o
      ensures SlotsOf(run[i].requests[r]) !! SlotsOf(run[i].requests[o])
    {
      SlotsExclusive(c, run, i, r, o);
    }
    DisjointSizes(rs, map r | r in rs :: SlotsOf(run[i].requests[r]),
                      map r | r in rs :: run[i].requests[r].plan.weight);
  }

  lemma LeaseWithin(c: Config, run: seq<State>, i: nat, r: Rid, n: int)
    requires IsRun(c, run) && i < |run| && LiveLease(run[i], r) && n in SlotsOf(run[i].requests[r])
    ensures var q := run[i].requests[r];
            && 0 <= n < Total(c, q.plan.pool)
            && (q.demand.kind == Background ==> n < Total(c, q.plan.pool) - Reserved(c, q.plan.pool))
  {
    LeaseIsExact(c, run, i, r);
    RunKeepsFiles(c, run, i);
    var q := run[i].requests[r];
    assert PlanIsMade(c, q);
    PlanBounds(c, q.demand, q.pressure);
  }

  /** In every reachable state the live leases of a pool together weigh no more than the pool
      holds, and its background leases no more than the pool less its interactive reserve. */
  lemma CapacityRespected(c: Config, run: seq<State>, i: nat, pool: Pool, rs: set<Rid>)
    requires IsRun(c, run) && i < |run| && LeasesIn(run[i], pool, rs)
    ensures TotalWeight(run[i], pool, rs) <= Total(c, pool)
    ensures (forall r :: r in rs ==> run[i].requests[r].demand.kind == Background)
            ==> TotalWeight(run[i], pool, rs) <= Total(c, pool) - Reserved(c, pool)
  {
    WeightsAddUp(c, run, i, pool, rs);
    var used := AllSlots(run[i], pool, rs);
    var background := forall r :: r in rs ==> run[i].requests[r].demand.kind == Background;
    forall n | n in used
      ensures 0 <= n < Total(c, pool)
      ensures background ==> n < Total(c, pool) - Reserved(c, pool)
    {
      var r :| r in rs && n in SlotsOf(run[i].requests[r]);
      LeaseWithin(c, run, i, r, n);
    }
    CountBelow(used, Total(c, pool));
    if background {
      CountBelow(used, Total(c, pool) - Reserved(c, pool));
    }
  }
}
