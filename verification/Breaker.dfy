/** The circuit breaker in front of the inference backend. */
module Breaker {

  datatype Phase = Closed | Open | HalfOpen

  datatype Policy = Policy(failureThreshold: int, recoveryTimeout: real, halfOpenMaxProbes: int)

  datatype State = State(phase: Phase, failureCount: int, lastFailureTime: real, halfOpenProbes: int)

  const FRESH := State(Closed, 0, 0.0, 0)

  function Transition(s: State, phase: Phase): State {
    match phase
    case Closed => s.(phase := Closed, failureCount := 0, halfOpenProbes := 0)
    case HalfOpen => s.(phase := HalfOpen, halfOpenProbes := 0)
    case Open => s.(phase := Open)
  }

  /** Reading the `state` property: an open circuit whose timeout has passed turns half-open. */
  function Read(p: Policy, s: State, now: real): State {
    if s.phase == Open && now - s.lastFailureTime >= p.recoveryTimeout then Transition(s, HalfOpen) else s
  }

  function Allow(p: Policy, s: State, now: real): (State, bool) {
    var r := Read(p, s, now);
    match r.phase
    case Closed => (r, true)
    case HalfOpen =>
      if r.halfOpenProbes < p.halfOpenMaxProbes then (r.(halfOpenProbes := r.halfOpenProbes + 1), true) else (r, false)
    case Open => (r, false)
  }

  function Success(s: State): State {
    (if s.phase == HalfOpen then Transition(s, Closed) else s).(failureCount := 0)
  }

  function Failure(p: Policy, s: State, now: real): State {
    var r := s.(failureCount := s.failureCount + 1, lastFailureTime := now);
    if r.phase == HalfOpen || (r.phase == Closed && r.failureCount >= p.failureThreshold)
    then Transition(r, Open) else r
  }

  class CircuitBreaker {
    const policy: Policy
    var phase: Phase
    var failureCount: int
    var lastFailureTime: real
    var halfOpenProbes: int

    function View(): State
      reads this
    {
      State(phase, failureCount, lastFailureTime, halfOpenProbes)
    }

    constructor (policy: Policy)
      ensures this.policy == policy && View() == FRESH
    {
      this.policy := policy;
      phase, failureCount, lastFailureTime, halfOpenProbes := Closed, 0, 0.0, 0;
    }

    method GetState(now: real) returns (current: Phase)
      modifies this
      ensures View() == Read(policy, old(View()), now) && current == phase
    {
      if phase == Open {
        var elapsed := now - lastFailureTime;
        if elapsed >= policy.recoveryTimeout {
          MoveTo(HalfOpen);
        }
      }
      current := phase;
    }

    method AllowRequest(now: real) returns (allowed: bool)
      modifies this
      ensures (View(), allowed) == Allow(policy, old(View()), now)
    {
      var current := GetState(now);
      if current == Closed {
        return true;
      }
      if current == HalfOpen {
        if halfOpenProbes < policy.halfOpenMaxProbes {
          halfOpenProbes := halfOpenProbes + 1;
          return true;
        }
        return false;
      }
      return false;
    }

    method RecordSuccess()
      modifies this
      ensures View() == Success(old(View()))
    {
      if phase == HalfOpen {
        MoveTo(Closed);
      }
      failureCount := 0;
    }

    method RecordFailure(now: real)
      modifies this
      ensures View() == Failure(policy, old(View()), now)
    {
      failureCount := failureCount + 1;
      lastFailureTime := now;
      if phase == HalfOpen {
        MoveTo(Open);
      } else if phase == Closed && failureCount >= policy.failureThreshold {
        MoveTo(Open);
      }
    }

    method Reset()
      modifies this
      ensures View() == Transition(old(View()), Closed)
    {
      MoveTo(Closed);
    }

    method MoveTo(newPhase: Phase)
      modifies this
      ensures View() == Transition(old(View()), newPhase)
    {
      phase := newPhase;
      if newPhase == Closed {
        failureCount := 0;
        halfOpenProbes := 0;
      } else if newPhase == HalfOpen {
        halfOpenProbes := 0;
      }
    }
  }

  // ----- runs -----

  datatype Call = AllowCall(now: real) | ReadCall(now: real) | SuccessCall | FailureCall(now: real) | ResetCall

  function Step(p: Policy, s: State, c: Call): State {
    match c
    case AllowCall(now) => Allow(p, s, now).0
    case ReadCall(now) => Read(p, s, now)
    case SuccessCall => Success(s)
    case FailureCall(now) => Failure(p, s, now)
    case ResetCall => Transition(s, Closed)
  }

  function Run(p: Policy, s: State, calls: seq<Call>): State {
    if calls == [] then s else Step(p, Run(p, s, calls[..|calls| - 1]), calls[|calls| - 1])
  }

  /** Was the i-th call of the run an admitted request? */
  predicate Granted(p: Policy, s: State, calls: seq<Call>, i: nat)
    requires i < |calls|
  {
    calls[i].AllowCall? && Allow(p, Run(p, s, calls[..i]), calls[i].now).1
  }

  function Grants(p: Policy, s: State, calls: seq<Call>): nat {
    if calls == [] then 0
    else
      Grants(p, s, calls[..|calls| - 1]) + if Granted(p, s, calls, |calls| - 1) then 1 else 0
  }

  // ----- tripping equals outcome history -----

  predicate IsOutcome(c: Call) {
    c.SuccessCall? || c.FailureCall?
  }

  /** Length of the run of failures at the end of the history. */
  function TrailingFailures(calls: seq<Call>): nat {
    if calls == [] || !calls[|calls| - 1].FailureCall? then 0 else 1 + TrailingFailures(calls[..|calls| - 1])
  }

  predicate FailuresAt(calls: seq<Call>, i: int, k: int) {
    0 <= i <= i + k <= |calls| && forall j :: i <= j < i + k ==> calls[j].FailureCall?
  }

  /** Are there `k` failures in a row somewhere in the history? */
  ghost predicate FailureStreak(calls: seq<Call>, k: int) {
    exists i :: FailuresAt(calls, i, k)
  }

  lemma {:induction false} TrailingIsStreak(calls: seq<Call>)
    ensures TrailingFailures(calls) <= |calls|
    ensures forall j :: |calls| - TrailingFailures(calls) <= j < |calls| ==> calls[j].FailureCall?
    ensures TrailingFailures(calls) < |calls| ==> !calls[|calls| - TrailingFailures(calls) - 1].FailureCall?
  {
    if calls != [] {
      TrailingIsStreak(calls[..|calls| - 1]);
    }
  }

  /** A streak of the extended history is an old one or the one at its end. */
  lemma {:induction false} StreakSnoc(calls: seq<Call>, k: int)
    requires calls != [] && k >= 1
    ensures FailureStreak(calls, k) <==> FailureStreak(calls[..|calls| - 1], k) || TrailingFailures(calls) >= k
  {
    var init, n := calls[..|calls| - 1], |calls|;
    TrailingIsStreak(calls);
    if i :| FailuresAt(calls, i, k) && i + k < n {
      assert FailuresAt(init, i, k);
    }
    if i :| FailuresAt(init, i, k) {
      assert FailuresAt(calls, i, k);
    }
    if TrailingFailures(calls) >= k {
      assert FailuresAt(calls, n - k, k);
    }
  }

  /** Tripping is exactly the outcome history: open if and only if `failureThreshold` failures
      came in a row; while closed, the counter is the length of the trailing run of failures. */
  lemma {:induction false} TrippingIsHistory(p: Policy, calls: seq<Call>)
    requires p.failureThreshold >= 1 && forall c :: c in calls ==> IsOutcome(c)
    ensures var s := Run(p, FRESH, calls);
            && s.phase == (if FailureStreak(calls, p.failureThreshold) then Open else Closed)
            && (s.phase == Closed ==> s.failureCount == TrailingFailures(calls) < p.failureThreshold)
  {
    if calls != [] {
      TrippingIsHistory(p, calls[..|calls| - 1]);
      StreakSnoc(calls, p.failureThreshold);
      assert IsOutcome(calls[|calls| - 1]);
    }
  }

  // ----- gating over timed runs -----

  /** The clock of a call, if it reads one. */
  predicate Within(c: Call, lo: real, hi: real) {
    match c
    case AllowCall(now) => lo <= now < hi
    case ReadCall(now) => lo <= now < hi
    case FailureCall(now) => lo <= now < hi
    case SuccessCall => true
    case ResetCall => false
  }

  /** A recorded failure that leaves the circuit open keeps it open, and refuses every request,
      until the recovery timeout has passed since then: successes that arrive meanwhile and later
      failures do not shorten it. Only a reset does. */
  lemma {:induction false} OpenRefusesUntilTimeout(p: Policy, s: State, failedAt: real, calls: seq<Call>)
    requires Failure(p, s, failedAt).phase == Open
    requires forall c :: c in calls ==> Within(c, failedAt, failedAt + p.recoveryTimeout)
    ensures var f := Failure(p, s, failedAt);
            && Run(p, f, calls).phase == Open && Run(p, f, calls).lastFailureTime >= failedAt
            && Grants(p, f, calls) == 0
  {
    if calls != [] {
      var init, last := calls[..|calls| - 1], calls[|calls| - 1];
      assert last in calls && forall c :: c in init ==> c in calls;
      assert Within(last, failedAt, failedAt + p.recoveryTimeout);
      OpenRefusesUntilTimeout(p, s, failedAt, init);
    }
  }

  /** The time of the last failure on record, 0 when there is none. */
  function LastFailure(calls: seq<Call>): real {
    if calls == [] then 0.0
    else if calls[|calls| - 1].FailureCall? then calls[|calls| - 1].now
    else LastFailure(calls[..|calls| - 1])
  }

  /** Whether a request finding the circuit open is let through depends on the call history only
      through the time of the last recorded failure. */
  lemma {:induction false} OpenGateIsTimeout(p: Policy, calls: seq<Call>, now: real)
    ensures var s := Run(p, FRESH, calls);
            && s.lastFailureTime == LastFailure(calls)
            && (s.phase == Open ==>
                  (Allow(p, s, now).1 <==>
                     p.halfOpenMaxProbes >= 1 && now >= LastFailure(calls) + p.recoveryTimeout))
  {
    if calls != [] {
      OpenGateIsTimeout(p, calls[..|calls| - 1], now);
    }
  }

  // ----- every state is history -----

  /** The failures on record since the last success or reset. */
  function FailuresSince(calls: seq<Call>): nat {
    if calls == [] then 0
    else
      match calls[|calls| - 1]
      case FailureCall(_) => FailuresSince(calls[..|calls| - 1]) + 1
      case SuccessCall => 0
      case ResetCall => 0
      case _ => FailuresSince(calls[..|calls| - 1])
  }

  /** The requests let through since the circuit turned half-open, while it is. */
  function GrantsSince(p: Policy, calls: seq<Call>): nat {
    if calls == [] || Run(p, FRESH, calls).phase != HalfOpen then 0
    else
      var init := calls[..|calls| - 1];
      GrantsSince(p, init) + if Granted(p, FRESH, calls, |calls| - 1) then 1 else 0
  }

  /** After any calls, resets included, the counters are counts of the history. */
  lemma {:induction false} CountersAreHistory(p: Policy, calls: seq<Call>)
    ensures var s := Run(p, FRESH, calls);
            && s.failureCount == FailuresSince(calls) && s.lastFailureTime == LastFailure(calls)
            && (s.phase != Open ==> s.halfOpenProbes == GrantsSince(p, calls))
  {
    if calls != [] {
      CountersAreHistory(p, calls[..|calls| - 1]);
    }
  }

  /** What any next call does after any calls, and which requests it lets through. */
  lemma {:induction false} MovesExactly(p: Policy, calls: seq<Call>, c: Call)
    ensures var was, next := Run(p, FRESH, calls).phase, Run(p, FRESH, calls + [c]).phase;
            && (c.ResetCall? ==> next == Closed)
            && (c.SuccessCall? ==> next == if was == HalfOpen then Closed else was)
            && (c.FailureCall? ==>
                  next == if was == Closed && FailuresSince(calls) + 1 < p.failureThreshold then Closed else Open)
            && (IsPoll(c) ==>
                  next == if was == Open && c.now >= LastFailure(calls) + p.recoveryTimeout then HalfOpen else was)
            && (Granted(p, FRESH, calls + [c], |calls|) <==>
                  && c.AllowCall?
                  && (next == Closed || (next == HalfOpen && GrantsSince(p, calls) < p.halfOpenMaxProbes)))
  {
    assert (calls + [c])[..|calls|] == calls;
    CountersAreHistory(p, calls);
  }

  predicate IsPoll(c: Call) {
    c.AllowCall? || c.ReadCall?
  }

  function ProbesLeft(p: Policy, s: State): nat
    requires s.phase != Closed
  {
    var used := if s.phase == HalfOpen then s.halfOpenProbes else 0;
    if used < p.halfOpenMaxProbes then p.halfOpenMaxProbes - used else 0
  }

  /** Until an outcome is recorded or the circuit is reset, a circuit that is not closed lets
      through at most the probes it has left, at whatever times it is asked. */
  lemma {:induction false} ProbesAreBounded(p: Policy, s: State, calls: seq<Call>)
    requires s.phase != Closed && s.halfOpenProbes >= 0
    requires forall c :: c in calls ==> IsPoll(c)
    ensures var r := Run(p, s, calls);
            && r.phase != Closed && r.halfOpenProbes >= 0
            && Grants(p, s, calls) + ProbesLeft(p, r) <= ProbesLeft(p, s)
  {
    if calls != [] {
      ProbesAreBounded(p, s, calls[..|calls| - 1]);
      assert IsPoll(calls[|calls| - 1]);
    }
  }

  /** Half-open with no probe left. */
  predicate Exhausted(p: Policy, s: State) {
    s.phase == HalfOpen && s.halfOpenProbes >= p.halfOpenMaxProbes
  }

  /** Time alone never leads out of an exhausted half-open circuit. */
  lemma {:induction false} ExhaustedIsPermanent(p: Policy, s: State, calls: seq<Call>)
    requires Exhausted(p, s) && forall c :: c in calls ==> IsPoll(c)
    ensures Run(p, s, calls) == s && Grants(p, s, calls) == 0
  {
    if calls != [] {
      ExhaustedIsPermanent(p, s, calls[..|calls| - 1]);
      assert IsPoll(calls[|calls| - 1]);
    }
  }

  /** Any recorded outcome, and only that or a reset, ends a half-open episode. */
  lemma HalfOpenExits(p: Policy, s: State, c: Call)
    requires s.phase == HalfOpen
    ensures Step(p, s, c).phase != HalfOpen <==> !IsPoll(c)
    ensures Step(p, s, c).phase == Open <==> c.FailureCall?
  {
  }
}
