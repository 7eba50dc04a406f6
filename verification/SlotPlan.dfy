/**
  The admission plan of one execution request (src/execution-slots.js): which pool it
  uses, which range of slots it may claim, how many of them it needs, and which low
  slots it must leave to weighted work while the disk is under pressure.

  Numbers are whole.  A setting of zero falls back to its default, as the source's
  `Number(x) || d` does; negative settings are accepted and clamped as the source does.
 */
module SlotPlan {
  import opened Common

  datatype Kind = Interactive | Background
  datatype ResourceClass = Watch | Light | Heavy | IoHeavy
  datatype Pool = WatchPool | ExecutionPool

  /** The shared configuration that every process passes. */
  datatype Config = Config(
    maxConcurrent: int, reservedInteractive: int, watchMaxConcurrent: int,
    heavyCapacity: int, heavyWeight: int, ioHeavyCapacity: int, ioHeavyWeight: int)

  /** What one caller asks for. */
  datatype Demand = Demand(kind: Kind, resource: ResourceClass, weight: int)

  /** The half-open claim range is [low, usable); `weight` slots of it are needed. */
  datatype Plan = Plan(pool: Pool, total: int, reserved: int, usable: int, weight: int, low: int)

  function Or(value: int, default: int): int { if value == 0 then default else value }

  predicate Weighted(resource: ResourceClass) { resource == Heavy || resource == IoHeavy }

  function PoolFor(kind: Kind, resource: ResourceClass): Pool {
    if kind == Background && resource == Watch then WatchPool else ExecutionPool
  }

  function Total(c: Config, pool: Pool): int {
    Max(1, Or(if pool == WatchPool then c.watchMaxConcurrent else c.maxConcurrent, 1))
  }

  function Reserved(c: Config, pool: Pool): int {
    if pool == ExecutionPool then Max(0, Min(Total(c, pool) - 1, c.reservedInteractive)) else 0
  }

  /** The capacity setting of a weighted class, clamped to the pool. */
  function Capacity(c: Config, resource: ResourceClass, total: int): int {
    Max(1, Min(total, Or(if resource == Heavy then c.heavyCapacity else c.ioHeavyCapacity, total)))
  }

  function BaseUsable(c: Config, kind: Kind, pool: Pool): int {
    if kind == Background && pool == ExecutionPool
    then Max(1, Total(c, pool) - Reserved(c, pool))
    else Total(c, pool)
  }

  /** The slot range of a weighted class: its capacity, narrowed to the weight under pressure. */
  function WeightedUsable(base: int, capacity: int, weight: int, pressure: bool): int {
    Min(base, Max(weight, if pressure then Min(capacity, Max(1, weight)) else capacity))
  }

  function Usable(c: Config, d: Demand, pressure: bool): int {
    var pool := PoolFor(d.kind, d.resource);
    var base := BaseUsable(c, d.kind, pool);
    if pool == ExecutionPool && Weighted(d.resource)
    then WeightedUsable(base, Capacity(c, d.resource, Total(c, pool)), Or(d.weight, 1), pressure)
    else base
  }

  /** The widest corridor weighted work may be configured to take. */
  function Corridor(c: Config): int {
    Max(1, Max(Or(c.heavyWeight, 1), Or(c.ioHeavyWeight, 1)))
  }

  function MakePlan(c: Config, d: Demand, pressure: bool): Plan {
    var pool := PoolFor(d.kind, d.resource);
    var usable := Usable(c, d, pressure);
    var weight := if pool == WatchPool then 1 else Max(1, Min(usable, Or(d.weight, 1)));
    var low := if pool == ExecutionPool && pressure && d.resource == Light
               then Min(Max(0, usable - 1), Corridor(c)) else 0;
    Plan(pool, Total(c, pool), Reserved(c, pool), usable, weight, low)
  }

  /** Every plan has a non-empty range inside its pool, a weight the pool can hold, and keeps
      background work out of the last `reserved` execution slots. */
  lemma PlanBounds(c: Config, d: Demand, pressure: bool)
    ensures var p := MakePlan(c, d, pressure);
            && 0 <= p.low < p.usable <= p.total
            && 1 <= p.weight <= p.usable
            && 0 <= p.reserved < p.total
            && (d.kind == Background ==> p.usable <= p.total - p.reserved)
  {
  }

  /** A plan can be satisfied by an empty pool exactly when its weight fits beside the corridor
      that light work must leave free; only light work under pressure can fail to fit. */
  lemma RangeHoldsWeightIff(c: Config, d: Demand, pressure: bool)
    ensures var p := MakePlan(c, d, pressure);
            p.weight <= p.usable - p.low
            <==> (d.resource == Light && pressure
                  ==> Min(BaseUsable(c, d.kind, ExecutionPool), Or(d.weight, 1))
                      <= Max(1, BaseUsable(c, d.kind, ExecutionPool) - Corridor(c)))
  {
  }

  /** Light work of weight three cannot be admitted under pressure with four slots and a
      corridor of two, although three slots would hold it without pressure. */
  lemma LightWeightCanBeUnsatisfiable()
    ensures var c := Config(4, 1, 4, 4, 2, 2, 2);
            var p := MakePlan(c, Demand(Interactive, Light, 3), true);
            p.weight == 3 && p.usable - p.low == 2
  {
  }

  /** Under pressure a weighted plan takes every slot from 0 to its width, so any two such
      plans meet in slot 0. */
  lemma PressuredWeightedTakesAll(c: Config, d: Demand)
    requires Weighted(d.resource)
    ensures var p := MakePlan(c, d, true);
            && p.pool == ExecutionPool
            && p.low == 0
            && p.weight == p.usable
            && p.usable == Min(BaseUsable(c, d.kind, ExecutionPool), Max(1, Or(d.weight, 1)))
  {
  }

  /** The range of light work and the range of weighted work of any weight are disjoint under
      pressure exactly when the weighted work is narrower than the light range and no wider
      than the configured corridor; work of a configured weight is never wider than that. */
  lemma CorridorDisjointIff(c: Config, light: Demand, heavy: Demand)
    requires light.resource == Light && Weighted(heavy.resource)
    ensures var l := MakePlan(c, light, true);
            var h := MakePlan(c, heavy, true);
            && (h.usable <= l.low <==> h.usable < l.usable && h.usable <= Corridor(c))
            && (Or(heavy.weight, 1) == Or(if heavy.resource == Heavy then c.heavyWeight else c.ioHeavyWeight, 1)
                ==> h.usable <= Corridor(c))
  {
  }

  // ---------------------------------------------------------------------------------------
  // Aged background waiters

  /** The range an interactive caller recomputes for a background waiter from the class and the
      clamped weight stored in that waiter's ticket. */
  function RecomputedUsable(c: Config, resource: ResourceClass, storedWeight: int, pressure: bool): int {
    var total := Total(c, ExecutionPool);
    var base := Max(1, total - Reserved(c, ExecutionPool));
    if Weighted(resource)
    then WeightedUsable(base, Capacity(c, resource, total), Max(1, Or(storedWeight, 1)), pressure)
    else base
  }

  /** Recomputing from the stored weight gives exactly the range planned from the original
      weight, whatever the pool, reserve, capacity, weight and pressure. */
  lemma RecomputedRangeIsPlannedRange(c: Config, d: Demand, pressure: bool)
    requires d.kind == Background && d.resource != Watch
    ensures var p := MakePlan(c, d, pressure);
            RecomputedUsable(c, d.resource, p.weight, pressure) == p.usable
  {
  }

  /** If pressure changes between planning and the check, the two ranges differ exactly when the
      class capacity reaches past the weight and the pool has room for it; a check made without
      pressure then sees a range too wide and one made with pressure a range too narrow. */
  lemma RecomputedRangeAcrossPressure(c: Config, d: Demand, planned: bool, checked: bool)
    requires d.kind == Background && Weighted(d.resource) && planned != checked
    ensures var p := MakePlan(c, d, planned);
            var seen := RecomputedUsable(c, d.resource, p.weight, checked);
            var width := Max(1, Or(d.weight, 1));
            && (seen == p.usable
                <==> !(width < Capacity(c, d.resource, Total(c, ExecutionPool))
                       && width < Total(c, ExecutionPool) - Reserved(c, ExecutionPool)))
            && (checked ==> seen <= p.usable)
            && (planned ==> p.usable <= seen)
  {
  }

  predicate InRange(i: int, start: int, end: int) { start <= i < end }

  predicate RangesOverlap(firstStart: int, firstEnd: int, secondStart: int, secondEnd: int) {
    firstStart < secondEnd && secondStart < firstEnd
  }

  /** Two non-empty ranges overlap in the source's sense exactly when they share a slot. */
  lemma OverlapIsSharedSlot(a: int, b: int, x: int, y: int)
    requires a < b && x < y
    ensures RangesOverlap(a, b, x, y) <==> exists i :: InRange(i, a, b) && InRange(i, x, y)
  {
    if RangesOverlap(a, b, x, y) {
      assert InRange(Max(a, x), a, b) && InRange(Max(a, x), x, y);
    }
  }

  predicate SharesSlot(mine: Plan, end: int) { RangesOverlap(mine.low, mine.usable, 0, end) }

  /** The one case in which the scan misses a slot that a waiter planned: the pressure has risen
      since the waiter planned, the caller is light work that leaves the corridor free, and the
      waiter is weighted work whose weight fits the corridor but whose unpressured range reached
      past it. */
  predicate Missed(c: Config, caller: Demand, d: Demand, planned: bool, checked: bool) {
    var total := Total(c, ExecutionPool);
    var low := MakePlan(c, caller, checked).low;
    && checked && !planned
    && caller.resource == Light && Weighted(d.resource)
    && Max(1, Or(d.weight, 1)) <= low < Min(Max(1, total - Reserved(c, ExecutionPool)), Capacity(c, d.resource, total))
  }

  /** The overlap the scan sees is the overlap with the range that the waiter planned, except in
      exactly that case, where it sees none. */
  lemma SeenOverlapIff(c: Config, caller: Demand, d: Demand, planned: bool, checked: bool)
    requires caller.kind == Interactive && d.kind == Background && d.resource != Watch
    ensures var mine := MakePlan(c, caller, checked);
            var own := MakePlan(c, d, planned);
            var seen := RecomputedUsable(c, d.resource, own.weight, checked);
            && (SharesSlot(mine, seen) == SharesSlot(mine, own.usable) <==> !Missed(c, caller, d, planned, checked))
            && (Missed(c, caller, d, planned, checked) ==> SharesSlot(mine, own.usable) && !SharesSlot(mine, seen))
  {
  }

  /** At the default settings a light caller under pressure does not see that a heavy background
      waiter of weight two, planned before the pressure rose, also wants slots 2 and 3. */
  lemma RisenPressureIsMissed()
    ensures var c := Config(6, 1, 4, 4, 2, 2, 2);
            var mine := MakePlan(c, Demand(Interactive, Light, 1), true);
            var own := MakePlan(c, Demand(Background, Heavy, 2), false);
            && mine.low == 2 && own.usable == 4 && SharesSlot(mine, own.usable)
            && RecomputedUsable(c, Heavy, own.weight, true) == 2
            && !SharesSlot(mine, RecomputedUsable(c, Heavy, own.weight, true))
            && Missed(c, Demand(Interactive, Light, 1), Demand(Background, Heavy, 2), false, true)
  {
  }

  /** One background ticket as the directory scan sees it.  `demand` is what its owner asked for
      and `pressure` what it planned under; the ticket itself stores only the class and the
      clamped weight. */
  datatype Waiter = Waiter(demand: Demand, pressure: bool, live: bool, age: int)

  /** A live background waiter of the caller's pool that has waited long enough. */
  predicate Aged(threshold: int, w: Waiter) {
    w.live && w.age >= Max(1, Or(threshold, 30000)) && w.demand.resource != Watch
  }

  /** It planned a range that shares a slot with the caller's. */
  ghost predicate Competes(c: Config, mine: Plan, w: Waiter) {
    exists i :: InRange(i, mine.low, mine.usable) && InRange(i, 0, MakePlan(c, w.demand, w.pressure).usable)
  }

  lemma SeenIsCompetes(c: Config, caller: Demand, pressure: bool, w: Waiter)
    requires caller.kind == Interactive && w.demand.kind == Background && w.demand.resource != Watch
    ensures var mine := MakePlan(c, caller, pressure);
            var stored := MakePlan(c, w.demand, w.pressure).weight;
            SharesSlot(mine, RecomputedUsable(c, w.demand.resource, stored, pressure))
            <==> Competes(c, mine, w) && !Missed(c, caller, w.demand, w.pressure, pressure)
  {
    var mine, own := MakePlan(c, caller, pressure), MakePlan(c, w.demand, w.pressure);
    PlanBounds(c, caller, pressure);
    PlanBounds(c, w.demand, w.pressure);
    OverlapIsSharedSlot(mine.low, mine.usable, 0, own.usable);
    SeenOverlapIff(c, caller, w.demand, w.pressure, pressure);
  }

  /** Some aged waiter that is not missed competes. */
  ghost predicate SomeSeenCompetes(c: Config, caller: Demand, pressure: bool, threshold: int, queue: seq<Waiter>) {
    exists w :: w in queue && Aged(threshold, w) && Competes(c, MakePlan(c, caller, pressure), w)
                && !Missed(c, caller, w.demand, w.pressure, pressure)
  }

  /** The scan of `agedBackgroundWaiterCompetes`.  It answers yes exactly when some aged waiter
      that is not missed planned a range that shares a slot with the caller's; so a yes is
      always right, and a no is right exactly when no aged competitor is missed. */
  method AgedBackgroundWaiterCompetes(c: Config, caller: Demand, pressure: bool, threshold: int, queue: seq<Waiter>)
    returns (result: bool)
    requires caller.kind == Interactive
    requires forall w :: w in queue ==> w.demand.kind == Background
    ensures result <==> SomeSeenCompetes(c, caller, pressure, threshold, queue)
  {
    var mine := MakePlan(c, caller, pressure);
    var boundedThreshold := Max(1, Or(threshold, 30000));
    result := false;
    for k := 0 to |queue|
      invariant forall j :: 0 <= j < k ==>
                  !(Aged(threshold, queue[j]) && Competes(c, mine, queue[j])
                    && !Missed(c, caller, queue[j].demand, queue[j].pressure, pressure))
    {
      var w := queue[k];
      if w.live && w.age >= boundedThreshold && PoolFor(Background, w.demand.resource) == mine.pool {
        var stored := MakePlan(c, w.demand, w.pressure).weight;
        var usable := RecomputedUsable(c, w.demand.resource, stored, pressure);
        SeenIsCompetes(c, caller, pressure, w);
        if RangesOverlap(mine.low, mine.usable, 0, usable) {
          return true;
        }
      }
    }
  }

  /** When a "no" can be trusted: some aged waiter competes although the scan said no if and only
      if some aged waiter is missed.  None is missed while the pressure has not risen since the
      waiters planned, or when the caller is not light work. */
  lemma NoIsSoundIff(c: Config, caller: Demand, pressure: bool, threshold: int, queue: seq<Waiter>)
    requires caller.kind == Interactive
    requires forall w :: w in queue ==> w.demand.kind == Background
    requires !SomeSeenCompetes(c, caller, pressure, threshold, queue)
    ensures (exists w :: w in queue && Aged(threshold, w) && Competes(c, MakePlan(c, caller, pressure), w))
            <==> exists w :: w in queue && Aged(threshold, w) && Missed(c, caller, w.demand, w.pressure, pressure)
    ensures (forall w :: w in queue && Aged(threshold, w) ==> w.pressure || !pressure) || caller.resource != Light
            ==> forall w :: w in queue && Aged(threshold, w) ==> !Competes(c, MakePlan(c, caller, pressure), w)
  {
    var mine := MakePlan(c, caller, pressure);
    forall w | w in queue && Aged(threshold, w) && Missed(c, caller, w.demand, w.pressure, pressure)
      ensures Competes(c, mine, w)
    {
      PlanBounds(c, caller, pressure);
      PlanBounds(c, w.demand, w.pressure);
      OverlapIsSharedSlot(mine.low, mine.usable, 0, MakePlan(c, w.demand, w.pressure).usable);
      SeenOverlapIff(c, caller, w.demand, w.pressure, pressure);
    }
  }
}
