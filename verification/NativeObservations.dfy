/**
  One-shot observations of the native bridge (chrome-bridge/src/native.rs).  Observing a window
  issues an id; an input action must present such an id, and presenting it uses it up.

  What the desktop answers is an input of each request: whether the checks before and after
  the lookup succeed, the clock readings, and the id drawn.  Ids are drawn at random and are
  taken never to repeat.  A request is handled to its end before the next one.
 */
module NativeObservations {
  import opened Common

  type Id = string

  datatype Observation = Observation(window: nat, at: nat)

  /** How a check ends; `stopped` marks a failure that reports the user's stop key. */
  datatype Check = Passes | Fails(stopped: bool)

  /** Milliseconds for which an observation is usable. */
  const LIFETIME := 30000

  /** The answers of the desktop during one request. */
  datatype Desktop = Desktop(
    ready: Check,          // everything before the observation is looked up
    checkedAt: nat,        // the clock when its age is checked
    guard: Check,          // focus, identity, stop key and held keys before input starts
    startedAt: nat,        // the clock when the first input is sent
    inputs: Check,         // the input itself
    capture: Check,        // the screenshot of a new observation
    prunedAt: nat,         // the clock when old observations are dropped
    nonce: Option<Id>,     // the id drawn
    storedAt: nat)         // the clock when the new observation is stored

  datatype Request = Query | Observe(window: nat) | Act(window: nat, id: Option<Id>)

  /** An input action that has been allowed: when the age of its observation was checked, and
      when its first input was sent, after the remaining checks. */
  datatype Action = Action(id: Id, window: nat, checkedAt: nat, startedAt: nat)

  /** The store and the stop flag; `issued`, `actions` and `clock` are its history. */
  datatype State = State(
    observations: map<Id, Observation>, halted: bool,
    issued: map<Id, Observation>, actions: seq<Action>, clock: nat)

  // ---------------------------------------------------------------------------------------
  // Requests

  /** The observations that remain when those of a window, and those too old, are dropped. */
  function Pruned(observations: map<Id, Observation>, window: nat, now: Option<nat>): (r: map<Id, Observation>)
    ensures forall id :: id in r <==>
              && id in observations && observations[id].window != window
              && (now.Some? ==> now.value < observations[id].at + LIFETIME)
    ensures forall id :: id in r ==> r[id] == observations[id]
  {
    map id | id in observations && observations[id].window != window
             && (now.Some? ==> now.value < observations[id].at + LIFETIME) :: observations[id]
  }

  function Observed(s: State, window: nat, d: Desktop): (State, Check) {
    if d.capture.Fails? then (s, d.capture)
    else
      var kept := Pruned(s.observations, window, Some(d.prunedAt));
      var room := if |kept| >= 8 then map[] else kept;
      if d.nonce.None? then (s.(observations := room), Fails(false))
      else
        var o := Observation(window, d.storedAt);
        (s.(observations := room[d.nonce.value := o], issued := s.issued[d.nonce.value := o]), Passes)
  }

  function Acted(s: State, window: nat, id: Option<Id>, d: Desktop): (State, Check) {
    if id.None? || id.value !in s.observations then (s, Fails(false))
    else
      var o := s.observations[id.value];
      var t := s.(observations := Pruned(s.observations - {id.value}, window, None));
      if d.checkedAt > o.at + LIFETIME || o.window != window then (t, Fails(false))
      else if d.guard.Fails? then (t, d.guard)
      else
        var u := t.(actions := t.actions + [Action(id.value, window, d.checkedAt, d.startedAt)]);
        if d.inputs.Fails? then (u, d.inputs) else Observed(u, window, d)
  }

  function Performed(s: State, r: Request, d: Desktop): (State, Check) {
    if d.ready.Fails? then (s, d.ready)
    else match r
      case Query => (s, Passes)
      case Observe(window) => Observed(s, window, d)
      case Act(window, id) => Acted(s, window, id, d)
  }

  function Dispatched(s: State, r: Request, d: Desktop): State {
    if s.halted then s
    else
      var (t, result) := Performed(s, r, d);
      var u := t.(clock := d.storedAt);
      if result == Fails(true) then u.(halted := true, observations := map[]) else u
  }

  class Native {
    var observations: map<Id, Observation>
    var halted: bool
    ghost var issued: map<Id, Observation>
    ghost var actions: seq<Action>
    ghost var clock: nat

    ghost function History(): State
      reads this
    {
      State(observations, halted, issued, actions, clock)
    }

    constructor ()
      ensures History() == INITIAL
    {
      observations, halted := map[], false;
      issued, actions, clock := map[], [], 0;
    }

    method ObserveWindow(window: nat, d: Desktop) returns (result: Check)
      modifies this`observations, this`issued
      ensures (History(), result) == Observed(old(History()), window, d)
    {
      if d.capture.Fails? {
        return d.capture;
      }
      observations := Pruned(observations, window, Some(d.prunedAt));
      if |observations| >= 8 {
        observations := map[];
      }
      if d.nonce.None? {
        return Fails(false);
      }
      observations := observations[d.nonce.value := Observation(window, d.storedAt)];
      issued := issued[d.nonce.value := Observation(window, d.storedAt)];
      return Passes;
    }

    method Perform(r: Request, d: Desktop) returns (result: Check)
      modifies this`observations, this`issued, this`actions
      ensures (History(), result) == Performed(old(History()), r, d)
    {
      if d.ready.Fails? {
        return d.ready;
      }
      match r
      case Query =>
        return Passes;
      case Observe(window) =>
        result := ObserveWindow(window, d);
      case Act(window, id) =>
        if id.None? || id.value !in observations {
          return Fails(false);
        }
        var o := observations[id.value];
        observations := observations - {id.value};
        observations := Pruned(observations, window, None);
        if d.checkedAt > o.at + LIFETIME {
          return Fails(false);
        }
        if o.window != window {
          return Fails(false);
        }
        if d.guard.Fails? {
          return d.guard;
        }
        actions := actions + [Action(id.value, window, d.checkedAt, d.startedAt)];
        if d.inputs.Fails? {
          return d.inputs;
        }
        result := ObserveWindow(window, d);
    }

    method Dispatch(r: Request, d: Desktop)
      modifies this
      ensures History() == Dispatched(old(History()), r, d)
    {
      if halted {
        return;
      }
      var result := Perform(r, d);
      clock := d.storedAt;
      if result == Fails(true) {
        halted := true;
        observations := map[];
      }
    }
  }

  // ---------------------------------------------------------------------------------------
  // What every request keeps

  const INITIAL := State(map[], false, map[], [], 0)

  /** The clock does not run backwards and the id drawn is new. */
  ghost predicate Plausible(s: State, d: Desktop) {
    && s.clock <= d.checkedAt <= d.startedAt <= d.prunedAt <= d.storedAt
    && (d.nonce.Some? ==> d.nonce.value !in s.issued)
  }

  /** At most eight observations, at most one for each window, none after a stop. */
  ghost predicate StoreInv(s: State) {
    && |s.observations| <= 8
    && (forall a, b :: a in s.observations && b in s.observations && a != b
                       ==> s.observations[a].window != s.observations[b].window)
    && (s.halted ==> s.observations == map[])
  }

  /** An id in the store was issued as stored and has not started an action. */
  ghost predicate UnusedInv(s: State) {
    forall id :: id in s.observations ==>
      && id in s.issued && s.issued[id] == s.observations[id]
      && forall i :: 0 <= i < |s.actions| ==> s.actions[i].id != id
  }

  /** An action was allowed by an issued id, on its window, and checked within its lifetime. */
  ghost predicate Allowed(s: State, a: Action) {
    && a.id in s.issued && s.issued[a.id].window == a.window
    && s.issued[a.id].at <= a.checkedAt <= s.issued[a.id].at + LIFETIME
    && a.checkedAt <= a.startedAt
  }

  ghost predicate ActionsInv(s: State) {
    && (forall i :: 0 <= i < |s.actions| ==> Allowed(s, s.actions[i]))
    && (forall i, j :: 0 <= i < j < |s.actions| ==> s.actions[i].id != s.actions[j].id)
    && (forall id :: id in s.issued ==> s.issued[id].at <= s.clock)
  }

  ghost predicate Inv(s: State) { StoreInv(s) && UnusedInv(s) && ActionsInv(s) }

  /** A check may fail anywhere: the invariants hold of whatever state it leaves. */
  lemma ObservedKeepsStore(s: State, window: nat, d: Desktop)
    requires StoreInv(s) && !s.halted
    ensures StoreInv(Observed(s, window, d).0)
  {
    var kept := Pruned(s.observations, window, Some(d.prunedAt));
    SmallerMap(kept, s.observations);
  }

  lemma SmallerMap(a: map<Id, Observation>, b: map<Id, Observation>)
    requires a.Keys <= b.Keys
    ensures |a| <= |b|
  {
    SmallerSet(a.Keys, b.Keys);
  }

  lemma SmallerSet(a: set<Id>, b: set<Id>)
    requires a <= b
    ensures |a| <= |b|
  {
    assert b == a + (b - a);
  }

  lemma ObservedKeepsUse(s: State, window: nat, d: Desktop)
    requires UnusedInv(s) && ActionsInv(s) && s.clock <= d.storedAt
    requires d.nonce.Some? ==> d.nonce.value !in s.issued
    ensures var t := Observed(s, window, d).0;
            && UnusedInv(t)
            && ActionsInv(t.(clock := d.storedAt))
            && t.actions == s.actions && t.clock == s.clock && t.halted == s.halted
  {
    ObservedKeepsUnused(s, window, d);
    ObservedKeepsActions(s, window, d);
  }

  lemma ObservedKeeps(s: State, window: nat, d: Desktop)
    requires Inv(s) && !s.halted && s.clock <= d.storedAt
    requires d.nonce.Some? ==> d.nonce.value !in s.issued
    ensures var t := Observed(s, window, d).0;
            Inv(t.(clock := d.storedAt)) && t.actions == s.actions && t.clock == s.clock && !t.halted
  {
    ObservedKeepsStore(s, window, d);
    ObservedKeepsUse(s, window, d);
  }

  lemma ObservedKeepsUnused(s: State, window: nat, d: Desktop)
    requires UnusedInv(s) && ActionsInv(s)
    requires d.nonce.Some? ==> d.nonce.value !in s.issued
    ensures UnusedInv(Observed(s, window, d).0)
  {
    assert forall i :: 0 <= i < |s.actions| ==> Allowed(s, s.actions[i]);
  }

  lemma ObservedKeepsActions(s: State, window: nat, d: Desktop)
    requires ActionsInv(s) && s.clock <= d.storedAt
    requires d.nonce.Some? ==> d.nonce.value !in s.issued
    ensures ActionsInv(Observed(s, window, d).0.(clock := d.storedAt))
  {
    var t := Observed(s, window, d).0;
    forall i | 0 <= i < |s.actions| ensures Allowed(t, s.actions[i]) {
      assert Allowed(s, s.actions[i]);
    }
  }

  /** Using an observation up, before anything else is decided. */
  function Spent(s: State, window: nat, id: Id): State {
    s.(observations := Pruned(s.observations - {id}, window, None))
  }

  lemma SpentKeeps(s: State, window: nat, id: Id)
    requires Inv(s) && !s.halted && id in s.observations
    ensures Inv(Spent(s, window, id)) && id !in Spent(s, window, id).observations
  {
    var t := Spent(s, window, id);
    SmallerMap(t.observations, s.observations);
    assert forall i :: 0 <= i < |s.actions| ==> Allowed(s, s.actions[i]) && Allowed(t, s.actions[i]);
  }

  lemma StartedKeeps(s: State, window: nat, id: Id, checkedAt: nat, startedAt: nat)
    requires Inv(s) && !s.halted && id in s.observations && s.clock <= checkedAt <= startedAt
    requires s.observations[id].window == window && checkedAt <= s.observations[id].at + LIFETIME
    ensures var t := Spent(s, window, id);
            Inv(t.(actions := t.actions + [Action(id, window, checkedAt, startedAt)]))
  {
    var t := Spent(s, window, id);
    var a := Action(id, window, checkedAt, startedAt);
    var u := t.(actions := t.actions + [a]);
    SpentKeeps(s, window, id);
    assert Allowed(u, a);
    forall i | 0 <= i < |u.actions| ensures Allowed(u, u.actions[i]) {
      if i < |s.actions| {
        assert Allowed(s, s.actions[i]);
      }
    }
  }

  lemma ActedKeeps(s: State, window: nat, id: Option<Id>, d: Desktop)
    requires Inv(s) && !s.halted && Plausible(s, d)
    ensures var t := Acted(s, window, id, d).0;
            Inv(t.(clock := d.storedAt)) && !t.halted && s.actions <= t.actions && |t.actions| <= |s.actions| + 1
  {
    if id.Some? && id.value in s.observations {
      var o, t := s.observations[id.value], Spent(s, window, id.value);
      SpentKeeps(s, window, id.value);
      if d.checkedAt <= o.at + LIFETIME && o.window == window && d.guard.Passes? {
        StartedKeeps(s, window, id.value, d.checkedAt, d.startedAt);
        var u := t.(actions := t.actions + [Action(id.value, window, d.checkedAt, d.startedAt)]);
        if d.inputs.Passes? {
          ObservedKeeps(u, window, d);
          return;
        }
      }
    }
    LaterClock(Acted(s, window, id, d).0, d.storedAt);
  }

  lemma LaterClock(s: State, clock: nat)
    ensures Inv(s) && s.clock <= clock ==> Inv(s.(clock := clock))
  {
    var t := s.(clock := clock);
    if Inv(s) && s.clock <= clock {
      assert forall i :: 0 <= i < |s.actions| ==> Allowed(s, s.actions[i]) && Allowed(t, s.actions[i]);
    }
  }

  /** Every request keeps the invariant, starts at most one action, and leaves earlier ones. */
  lemma DispatchKeeps(s: State, r: Request, d: Desktop)
    requires Inv(s) && Plausible(s, d)
    ensures var t := Dispatched(s, r, d);
            && Inv(t) && s.actions <= t.actions && |t.actions| <= |s.actions| + 1
            && (s.halted ==> t == s)
  {
    if !s.halted {
      var t := Performed(s, r, d).0;
      LaterClock(s, d.storedAt);
      if r.Observe? {
        ObservedKeeps(s, r.window, d);
      } else if r.Act? {
        ActedKeeps(s, r.window, r.id, d);
      }
      var u := t.(clock := d.storedAt);
      assert Inv(u);
      HaltKeeps(u);
    }
  }

  lemma HaltKeeps(s: State)
    requires Inv(s)
    ensures Inv(s.(halted := true, observations := map[]))
  {
    var t := s.(halted := true, observations := map[]);
    assert forall i :: 0 <= i < |s.actions| ==> Allowed(s, s.actions[i]) && Allowed(t, s.actions[i]);
  }

  // ---------------------------------------------------------------------------------------
  // Whole runs

  datatype Step = Step(request: Request, desktop: Desktop)

  function Run(s: State, steps: seq<Step>): State {
    if steps == [] then s
    else Dispatched(Run(s, steps[..|steps| - 1]), steps[|steps| - 1].request, steps[|steps| - 1].desktop)
  }

  ghost predicate PlausibleRun(steps: seq<Step>) {
    forall i :: 0 <= i < |steps| ==> Plausible(Run(INITIAL, steps[..i]), steps[i].desktop)
  }

  /** After any run: at most eight observations and one for each window; every action that ever
      started presented an id issued for its own window at most thirty seconds before the age
      check; no id started two actions; and after a stop the store is empty. */
  lemma {:induction false} RunIsSafe(steps: seq<Step>)
    requires PlausibleRun(steps)
    ensures Inv(Run(INITIAL, steps))
  {
    if steps != [] {
      var n := |steps| - 1;
      forall i | 0 <= i < n ensures Plausible(Run(INITIAL, steps[..n][..i]), steps[..n][i].desktop) {
        assert steps[..n][..i] == steps[..i];
      }
      RunIsSafe(steps[..n]);
      DispatchKeeps(Run(INITIAL, steps[..n]), steps[n].request, steps[n].desktop);
    }
  }

  /** A stop is permanent: whatever is requested afterwards, nothing changes any more. */
  lemma {:induction false} StopIsPermanent(s: State, steps: seq<Step>)
    requires s.halted
    ensures Run(s, steps) == s
  {
    if steps != [] {
      StopIsPermanent(s, steps[..|steps| - 1]);
    }
  }

  /** A stop reported during a request halts at once and empties the store. */
  lemma StopHalts(s: State, r: Request, d: Desktop)
    requires !s.halted
    ensures Dispatched(s, r, d).halted <==> Performed(s, r, d).1 == Fails(true)
    ensures Dispatched(s, r, d).halted ==> Dispatched(s, r, d).observations == map[]
  {
    if r.Observe? {
      assert Observed(s, r.window, d).0.halted == s.halted;
    } else if r.Act? {
      assert Acted(s, r.window, r.id, d).0.halted == s.halted;
    }
  }

  // ---------------------------------------------------------------------------------------
  // When input starts

  /** After the age check of any request, its first input follows within `delay`. */
  ghost predicate Prompt(steps: seq<Step>, delay: nat) {
    forall i :: 0 <= i < |steps| ==> steps[i].desktop.startedAt <= steps[i].desktop.checkedAt + delay
  }

  /** Every action sent its first input within `bound` of the observation it presented. */
  ghost predicate AllStartWithin(s: State, bound: nat) {
    forall i :: 0 <= i < |s.actions| ==>
      s.actions[i].id in s.issued && s.actions[i].startedAt <= s.issued[s.actions[i].id].at + bound
  }

  ghost predicate ActionsPrompt(s: State, delay: nat) {
    forall i :: 0 <= i < |s.actions| ==> s.actions[i].startedAt <= s.actions[i].checkedAt + delay
  }

  /** A request adds at most one action, with the two clock readings of its own desktop. */
  lemma DispatchedActions(s: State, r: Request, d: Desktop)
    ensures var t := Dispatched(s, r, d);
            t.actions == s.actions
            || exists id, window :: t.actions == s.actions + [Action(id, window, d.checkedAt, d.startedAt)]
  {
    if !s.halted && d.ready.Passes? && r.Act? && Dispatched(s, r, d).actions != s.actions {
      assert Dispatched(s, r, d).actions == s.actions + [Action(r.id.value, r.window, d.checkedAt, d.startedAt)];
    }
  }

  lemma {:induction false} PromptRun(steps: seq<Step>, delay: nat)
    requires Prompt(steps, delay)
    ensures ActionsPrompt(Run(INITIAL, steps), delay)
  {
    if steps != [] {
      var n := |steps| - 1;
      PromptRun(steps[..n], delay);
      DispatchedActions(Run(INITIAL, steps[..n]), steps[n].request, steps[n].desktop);
    }
  }

  /** In a prompt run every action starts within the lifetime plus the delay. */
  lemma PromptRunStarts(steps: seq<Step>, delay: nat, bound: nat)
    requires PlausibleRun(steps) && Prompt(steps, delay) && LIFETIME + delay <= bound
    ensures AllStartWithin(Run(INITIAL, steps), bound)
  {
    var s := Run(INITIAL, steps);
    RunIsSafe(steps);
    PromptRun(steps, delay);
    forall i | 0 <= i < |s.actions|
      ensures s.actions[i].id in s.issued && s.actions[i].startedAt <= s.issued[s.actions[i].id].at + bound
    {
      assert Allowed(s, s.actions[i]);
    }
  }

  const SOON := Desktop(Passes, 0, Passes, 0, Passes, Passes, 0, Some("id"), 0)
  const SEEN := State(map["id" := Observation(1, 0)], false, map["id" := Observation(1, 0)], [], 0)

  /** Checked in the last millisecond of the lifetime, started `delay` later. */
  function Late(delay: nat): Desktop {
    Desktop(Passes, LIFETIME, Passes, LIFETIME + delay, Passes, Passes, LIFETIME + delay, None, LIFETIME + delay)
  }

  function LateSteps(delay: nat): seq<Step> { [Step(Observe(1), SOON), Step(Act(1, Some("id")), Late(delay))] }

  lemma SoonIsSeen()
    ensures Plausible(INITIAL, SOON) && Dispatched(INITIAL, Observe(1), SOON) == SEEN
  {
    var none: map<Id, Observation> := map[];
    assert Pruned(none, 1, Some(0)) == none;
  }

  lemma LateIsAllowed(delay: nat)
    ensures Plausible(SEEN, Late(delay))
    ensures Dispatched(SEEN, Act(1, Some("id")), Late(delay)).actions == [Action("id", 1, LIFETIME, LIFETIME + delay)]
    ensures Dispatched(SEEN, Act(1, Some("id")), Late(delay)).issued == map["id" := Observation(1, 0)]
  {
  }

  /** The age is not checked again: for every delay there is a run whose action is checked in the
      last millisecond of its observation and starts that much after its lifetime. */
  lemma LateStart(delay: nat)
    ensures PlausibleRun(LateSteps(delay)) && Prompt(LateSteps(delay), delay)
    ensures Run(INITIAL, LateSteps(delay)).issued == map["id" := Observation(1, 0)]
    ensures Run(INITIAL, LateSteps(delay)).actions == [Action("id", 1, LIFETIME, LIFETIME + delay)]
  {
    var steps := LateSteps(delay);
    assert steps[..0] == [] && steps[..1] == [] + [steps[0]] && steps == steps[..1] + [steps[1]];
    SoonIsSeen();
    LateIsAllowed(delay);
    RunSnoc(INITIAL, [], steps[0]);
    RunSnoc(INITIAL, steps[..1], steps[1]);
  }

  lemma LateBreaksBound(delay: nat, bound: nat)
    requires bound < LIFETIME + delay
    ensures !AllStartWithin(Run(INITIAL, LateSteps(delay)), bound)
  {
    LateStart(delay);
    var a := Run(INITIAL, LateSteps(delay)).actions[0];
    assert a.id == "id" && a.startedAt == LIFETIME + delay;
  }

  /** The exact bound over whole runs.  If input follows its age check within `delay`, every action
      starts within `bound` of its observation in all runs if and only if the bound is at least
      the lifetime plus the delay.  So the thirty seconds hold for the start of input exactly when
      nothing passes between the check and the input. */
  lemma StartBoundIff(delay: nat, bound: nat)
    ensures (forall steps :: PlausibleRun(steps) && Prompt(steps, delay) ==> AllStartWithin(Run(INITIAL, steps), bound))
            <==> LIFETIME + delay <= bound
  {
    if LIFETIME + delay <= bound {
      forall steps | PlausibleRun(steps) && Prompt(steps, delay)
        ensures AllStartWithin(Run(INITIAL, steps), bound)
      {
        PromptRunStarts(steps, delay, bound);
      }
    } else {
      LateStart(delay);
      LateBreaksBound(delay, bound);
    }
  }

  lemma RunSnoc(s: State, steps: seq<Step>, step: Step)
    ensures Run(s, steps + [step]) == Dispatched(Run(s, steps), step.request, step.desktop)
  {
    assert (steps + [step])[..|steps|] == steps;
  }
}
