/** Scaling decisions with a cooldown. */
module Autoscaler {

  datatype Policy = Policy(
    minWorkers: int,
    maxWorkers: int,
    targetQueueWaitMs: real,
    targetUtilizationPercent: real,
    scaleUpThresholdDeferrals: int,
    scaleDownIdleSeconds: real,
    cooldownSeconds: real)

  datatype ClusterState = ClusterState(
    currentWorkers: int,
    avgQueueWaitMs: real,
    schedulingDeferrals: int,
    idleSeconds: real,
    utilizationPercent: real)

  datatype Action = ScaleUp | ScaleDown | Hold

  datatype Decision = Decision(action: Action, currentWorkers: int, desiredWorkers: int)

  function Min(a: int, b: int): int {
    if a < b then a else b
  }

  function Max(a: int, b: int): int {
    if a > b then a else b
  }

  function Decide(p: Policy, lastScaleTime: real, s: ClusterState, now: real): Decision {
    var hold := Decision(Hold, s.currentWorkers, s.currentWorkers);
    var up, down := Min(s.currentWorkers + 1, p.maxWorkers), Max(s.currentWorkers - 1, p.minWorkers);
    if now - lastScaleTime < p.cooldownSeconds then hold
    else if s.avgQueueWaitMs > p.targetQueueWaitMs
         || s.schedulingDeferrals >= p.scaleUpThresholdDeferrals
         || s.utilizationPercent > p.targetUtilizationPercent then
      if up == s.currentWorkers then hold else Decision(ScaleUp, s.currentWorkers, up)
    else if s.idleSeconds > p.scaleDownIdleSeconds && s.currentWorkers > p.minWorkers then
      if down == s.currentWorkers then hold else Decision(ScaleDown, s.currentWorkers, down)
    else hold
  }

  class Autoscaler {
    const policy: Policy
    var lastScaleTime: real

    constructor (policy: Policy)
      ensures this.policy == policy && lastScaleTime == 0.0
    {
      this.policy := policy;
      lastScaleTime := 0.0;
    }

    predicate InCooldown(now: real)
      reads this
    {
      now - lastScaleTime < policy.cooldownSeconds
    }

    method Evaluate(state: ClusterState, now: real) returns (decision: Decision)
      modifies this
      ensures decision == Decide(policy, old(lastScaleTime), state, now)
      ensures lastScaleTime == if decision.action == Hold then old(lastScaleTime) else now
    {
      if InCooldown(now) {
        return Decision(Hold, state.currentWorkers, state.currentWorkers);
      }
      if state.avgQueueWaitMs > policy.targetQueueWaitMs {
        decision := Up(state, now);
        return;
      }
      if state.schedulingDeferrals >= policy.scaleUpThresholdDeferrals {
        decision := Up(state, now);
        return;
      }
      if state.utilizationPercent > policy.targetUtilizationPercent {
        decision := Up(state, now);
        return;
      }
      if state.idleSeconds > policy.scaleDownIdleSeconds && state.currentWorkers > policy.minWorkers {
        decision := Down(state, now);
        return;
      }
      return Decision(Hold, state.currentWorkers, state.currentWorkers);
    }

    method Up(state: ClusterState, now: real) returns (decision: Decision)
      modifies this
      ensures var desired := Min(state.currentWorkers + 1, policy.maxWorkers);
              decision == Decision(if desired == state.currentWorkers then Hold else ScaleUp, state.currentWorkers,
                                   desired)
      ensures lastScaleTime == if decision.action == Hold then old(lastScaleTime) else now
    {
      var desired := Min(state.currentWorkers + 1, policy.maxWorkers);
      if desired == state.currentWorkers {
        return Decision(Hold, state.currentWorkers, state.currentWorkers);
      }
      decision := Decision(ScaleUp, state.currentWorkers, desired);
      lastScaleTime := now;
    }

    method Down(state: ClusterState, now: real) returns (decision: Decision)
      modifies this
      ensures var desired := Max(state.currentWorkers - 1, policy.minWorkers);
              decision == Decision(if desired == state.currentWorkers then Hold else ScaleDown, state.currentWorkers,
                                   desired)
      ensures lastScaleTime == if decision.action == Hold then old(lastScaleTime) else now
    {
      var desired := Max(state.currentWorkers - 1, policy.minWorkers);
      if desired == state.currentWorkers {
        return Decision(Hold, state.currentWorkers, state.currentWorkers);
      }
      decision := Decision(ScaleDown, state.currentWorkers, desired);
      lastScaleTime := now;
    }
  }

  // ----- runs in which every decision is applied -----

  /** What is observed at one evaluation, apart from the number of workers. */
  datatype Observation = Observation(now: real, avgQueueWaitMs: real, schedulingDeferrals: int, idleSeconds: real,
                                     utilizationPercent: real)

  datatype Fleet = Fleet(workers: int, lastScaleTime: real, actions: seq<real>)

  function DecideFor(p: Policy, f: Fleet, o: Observation): Decision {
    Decide(p, f.lastScaleTime,
           ClusterState(f.workers, o.avgQueueWaitMs, o.schedulingDeferrals, o.idleSeconds, o.utilizationPercent), o.now)
  }

  function Step(p: Policy, f: Fleet, o: Observation): Fleet {
    var d := DecideFor(p, f, o);
    if d.action == Hold then f.(workers := d.desiredWorkers)
    else Fleet(d.desiredWorkers, o.now, f.actions + [o.now])
  }

  function Run(p: Policy, workers: int, os: seq<Observation>): Fleet {
    if os == [] then Fleet(workers, 0.0, []) else Step(p, Run(p, workers, os[..|os| - 1]), os[|os| - 1])
  }

  /** Consecutive actions are at least the cooldown apart. */
  ghost predicate Spaced(actions: seq<real>, cooldown: real) {
    forall i :: 0 <= i < |actions| - 1 ==> actions[i] + cooldown <= actions[i + 1]
  }

  /** From a start within the bounds, the fleet stays within them and every evaluation moves it by
      at most one; actions keep the cooldown. */
  lemma {:induction false} FleetStaysBounded(p: Policy, workers: int, os: seq<Observation>)
    requires p.minWorkers <= workers <= p.maxWorkers
    ensures var f := Run(p, workers, os);
            && p.minWorkers <= f.workers <= p.maxWorkers
            && (os != [] ==> -1 <= f.workers - Run(p, workers, os[..|os| - 1]).workers <= 1)
            && Spaced(f.actions, p.cooldownSeconds)
            && f.lastScaleTime == (if f.actions == [] then 0.0 else f.actions[|f.actions| - 1])
  {
    if os != [] {
      FleetStaysBounded(p, workers, os[..|os| - 1]);
    }
  }

  /** One of the three triggers for more workers. */
  predicate Pressed(p: Policy, o: Observation) {
    || o.avgQueueWaitMs > p.targetQueueWaitMs
    || o.schedulingDeferrals >= p.scaleUpThresholdDeferrals
    || o.utilizationPercent > p.targetUtilizationPercent
  }

  /** A single decision, whatever the number of workers. On pressure a fleet above its upper bound is told
      to scale up to fewer workers. */
  lemma DecisionExactly(p: Policy, lastScaleTime: real, s: ClusterState, now: real)
    ensures var d := Decide(p, lastScaleTime, s, now);
            var pressed := s.avgQueueWaitMs > p.targetQueueWaitMs
                           || s.schedulingDeferrals >= p.scaleUpThresholdDeferrals
                           || s.utilizationPercent > p.targetUtilizationPercent;
            var rested := now >= lastScaleTime + p.cooldownSeconds;
            && d.currentWorkers == s.currentWorkers
            && (d.action == ScaleUp <==> rested && pressed && s.currentWorkers != p.maxWorkers)
            && (d.action == ScaleUp ==>
                  d.desiredWorkers == if s.currentWorkers < p.maxWorkers then s.currentWorkers + 1 else p.maxWorkers)
            && (d.action == ScaleDown <==>
                  rested && !pressed && s.idleSeconds > p.scaleDownIdleSeconds && s.currentWorkers > p.minWorkers)
            && (d.action == ScaleDown ==> d.desiredWorkers == s.currentWorkers - 1)
            && (d.action == Hold ==> d.desiredWorkers == s.currentWorkers)
  {
  }

  /** Has the cooldown since the last action of the run passed? The clock of a fresh scaler is 0. */
  predicate Rested(p: Policy, f: Fleet, now: real) {
    now - (if f.actions == [] then 0.0 else f.actions[|f.actions| - 1]) >= p.cooldownSeconds
  }

  /** When a fleet moves, after any run: up on pressure, down on idleness without pressure, and only
      when rested and not at the bound. */
  lemma {:induction false} MovesExactly(p: Policy, workers: int, os: seq<Observation>, o: Observation)
    requires p.minWorkers <= workers <= p.maxWorkers
    ensures var f := Run(p, workers, os); var next := Run(p, workers, os + [o]);
            && (next.workers == f.workers + 1 <==> Rested(p, f, o.now) && Pressed(p, o) && f.workers < p.maxWorkers)
            && (next.workers == f.workers - 1 <==>
                  Rested(p, f, o.now) && !Pressed(p, o) && o.idleSeconds > p.scaleDownIdleSeconds
                      && f.workers > p.minWorkers)
            && next.actions == f.actions + if next.workers != f.workers then [o.now] else []
  {
    FleetStaysBounded(p, workers, os);
    assert (os + [o])[..|os|] == os;
  }

  function CountBetween(ts: seq<real>, lo: real, hi: real): nat {
    if ts == [] then 0
    else CountBetween(ts[..|ts| - 1], lo, hi) + if lo <= ts[|ts| - 1] <= hi then 1 else 0
  }

  /** The least time from the first to the last of `n` spaced actions. */
  function Span(n: nat, cooldown: real): real {
    if n <= 1 then 0.0 else Span(n - 1, cooldown) + cooldown
  }

  lemma {:induction false} SpanIsProduct(n: nat, cooldown: real)
    requires n >= 1
    ensures Span(n, cooldown) == (n - 1) as real * cooldown
  {
    if n > 1 {
      SpanIsProduct(n - 1, cooldown);
      assert (n - 1) as real * cooldown == (n - 2) as real * cooldown + cooldown;
    }
  }

  lemma {:induction false} CountOfSpaced(ts: seq<real>, cooldown: real, lo: real, hi: real)
    requires cooldown > 0.0 && Spaced(ts, cooldown)
    ensures var n := CountBetween(ts, lo, hi);
            n >= 1 ==> ts != [] && Span(n, cooldown) <= ts[|ts| - 1] - lo && Span(n, cooldown) <= hi - lo
  {
    if ts != [] {
      var init := ts[..|ts| - 1];
      CountOfSpaced(init, cooldown, lo, hi);
      assert init == [] || ts[|ts| - 2] + cooldown <= ts[|ts| - 2 + 1];
    }
  }

  lemma Quotient(k: real, c: real, length: real)
    requires c > 0.0 && k * c <= length
    ensures k <= length / c
  {
    var q := length / c;
    assert q * c == length;
    if k > q {
      assert (k - q) * c > 0.0;
      assert k * c == q * c + (k - q) * c;
    }
  }

  lemma FloorAtLeast(k: int, x: real)
    requires k as real <= x
    ensures k <= x.Floor
  {
  }

  function WholePeriods(length: real, cooldown: real): int
    requires cooldown > 0.0
  {
    (length / cooldown).Floor
  }

  lemma {:induction false} SpanFits(n: nat, cooldown: real, length: real)
    requires cooldown > 0.0 && length >= 0.0 && Span(n, cooldown) <= length
    ensures n <= WholePeriods(length, cooldown) + 1
  {
    var k := if n >= 1 then n - 1 else 0;
    if n >= 1 {
      SpanIsProduct(n, cooldown);
    }
    Quotient(k as real, cooldown, length);
    FloorAtLeast(k, length / cooldown);
  }

  /** An interval of length L holds at most floor(L / cooldown) + 1 actions. */
  lemma ActionRateIsBounded(p: Policy, workers: int, os: seq<Observation>, lo: real, length: real)
    requires p.minWorkers <= workers <= p.maxWorkers && p.cooldownSeconds > 0.0 && length >= 0.0
    ensures CountBetween(Run(p, workers, os).actions, lo, lo + length) <= WholePeriods(length, p.cooldownSeconds) + 1
  {
    FleetStaysBounded(p, workers, os);
    CountOfSpaced(Run(p, workers, os).actions, p.cooldownSeconds, lo, lo + length);
    SpanFits(CountBetween(Run(p, workers, os).actions, lo, lo + length), p.cooldownSeconds, length);
  }
}
