/** Per-tenant rate limits and concurrency caps. */
module Tenant {
  import opened Options

  datatype Policy = Policy(maxRequestsPerMinute: int, maxConcurrent: int, priorityBoost: int)

  datatype TenantState = TenantState(timestamps: seq<real>, activeCount: nat)

  datatype CheckResult =
    | Allowed(effectivePriority: int)
    | RateLimited(inWindow: nat, retryAfterSeconds: int)
    | ConcurrencyLimited(active: nat, retryAfterSeconds: int)
    | EmptyWindowError  // timestamps[0] raises on an empty window when the limit is not positive

  const IDLE := TenantState([], 0)
  const DEFAULT_TENANT := "__default__"

  function ExtractTenant(metadataTenant: Option<string>): string {
    if metadataTenant.Some? then metadataTenant.value else DEFAULT_TENANT
  }

  /** The admissions later than `cutoff`, in order. */
  function Later(ts: seq<real>, cutoff: real): seq<real> {
    if ts == [] then []
    else Later(ts[..|ts| - 1], cutoff) + if ts[|ts| - 1] > cutoff then [ts[|ts| - 1]] else []
  }

  /** Truncation towards zero. */
  function Truncate(x: real): int {
    if x >= 0.0 then x.Floor else -((-x).Floor)
  }

  function Check(p: Policy, s: TenantState, now: real, requestPriority: int): (TenantState, CheckResult) {
    var window := Later(s.timestamps, now - 60.0);
    var pruned := s.(timestamps := window);
    if |window| >= p.maxRequestsPerMinute then
      if window == [] then (pruned, EmptyWindowError)
      else
        var retryAfter := Truncate(60.0 - (now - window[0])) + 1;
        (pruned, RateLimited(|window|, if retryAfter < 1 then 1 else retryAfter))
    else if s.activeCount >= p.maxConcurrent then
      (pruned, ConcurrencyLimited(s.activeCount, 5))
    else
      var boosted := requestPriority + p.priorityBoost;
      (TenantState(window + [now], s.activeCount + 1), Allowed(if boosted < 10 then boosted else 10))
  }

  function Release(s: TenantState): TenantState {
    s.(activeCount := if s.activeCount >= 1 then s.activeCount - 1 else 0)
  }

  // ----- the engine -----

  datatype Engine = Engine(defaultPolicy: Policy, policies: map<string, Policy>, states: map<string, TenantState>) {
    function PolicyOf(tenant: string): Policy {
      if tenant in policies then policies[tenant] else defaultPolicy
    }

    function StateOf(tenant: string): TenantState {
      if tenant in states then states[tenant] else IDLE
    }

    function CheckIn(tenant: string, now: real, requestPriority: int): (Engine, CheckResult) {
      var (s, r) := Check(PolicyOf(tenant), StateOf(tenant), now, requestPriority);
      (this.(states := states[tenant := s]), r)
    }

    function ReleaseIn(tenant: string): Engine {
      this.(states := states[tenant := Release(StateOf(tenant))])
    }
  }

  class TenantPolicyEngine {
    const defaultPolicy: Policy
    var policies: map<string, Policy>
    var states: map<string, TenantState>

    function View(): Engine
      reads this
    {
      Engine(defaultPolicy, policies, states)
    }

    constructor (defaultPolicy: Policy)
      ensures View() == Engine(defaultPolicy, map[], map[])
    {
      this.defaultPolicy := defaultPolicy;
      policies := map[];
      states := map[];
    }

    method SetPolicy(tenant: string, policy: Policy)
      modifies this`policies
      ensures View() == old(View()).(policies := old(policies)[tenant := policy])
    {
      policies := policies[tenant := policy];
    }

    function GetPolicy(tenant: string): (p: Policy)
      reads this
      ensures tenant in policies ==> p == policies[tenant]
      ensures tenant !in policies ==> p == defaultPolicy
    {
      if tenant in policies then policies[tenant] else defaultPolicy
    }

    method CheckTenant(tenant: string, now: real, requestPriority: int) returns (result: CheckResult)
      modifies this`states
      ensures (View(), result) == old(View()).CheckIn(tenant, now, requestPriority)
    {
      var policy := GetPolicy(tenant);
      var state := if tenant in states then states[tenant] else IDLE;
      var cutoff := now - 60.0;
      state := state.(timestamps := Later(state.timestamps, cutoff));
      states := states[tenant := state];
      if |state.timestamps| >= policy.maxRequestsPerMinute {
        if state.timestamps == [] {
          return EmptyWindowError;
        }
        var oldest := state.timestamps[0];
        var retryAfter := Truncate(60.0 - (now - oldest)) + 1;
        return RateLimited(|state.timestamps|, if retryAfter < 1 then 1 else retryAfter);
      }
      if state.activeCount >= policy.maxConcurrent {
        return ConcurrencyLimited(state.activeCount, 5);
      }
      assert states[tenant := TenantState(state.timestamps + [now], state.activeCount + 1)]
          == old(states)[tenant := TenantState(state.timestamps + [now], state.activeCount + 1)];
      states := states[tenant := TenantState(state.timestamps + [now], state.activeCount + 1)];
      var boosted := requestPriority + policy.priorityBoost;
      return Allowed(if boosted < 10 then boosted else 10);
    }

    method ReleaseTenant(tenant: string)
      modifies this`states
      ensures View() == old(View()).ReleaseIn(tenant)
    {
      var state := if tenant in states then states[tenant] else IDLE;
      states := states[tenant := state.(activeCount := if state.activeCount - 1 > 0 then state.activeCount - 1 else 0)];
    }
  }

  // ----- runs of one tenant under a fixed policy -----

  datatype Call = CheckCall(now: real, requestPriority: int) | ReleaseCall

  function Step(p: Policy, s: TenantState, c: Call): TenantState {
    match c
    case CheckCall(now, priority) => Check(p, s, now, priority).0
    case ReleaseCall => Release(s)
  }

  function Run(p: Policy, s: TenantState, calls: seq<Call>): TenantState {
    if calls == [] then s else Step(p, Run(p, s, calls[..|calls| - 1]), calls[|calls| - 1])
  }

  function ResultOf(p: Policy, s: TenantState, c: Call): Option<CheckResult> {
    match c
    case CheckCall(now, priority) => Some(Check(p, s, now, priority).1)
    case ReleaseCall => None
  }

  /** Every admission of the run, in order: the history the engine itself forgets. */
  function Admissions(p: Policy, s: TenantState, calls: seq<Call>): seq<real> {
    if calls == [] then []
    else
      var init, c := calls[..|calls| - 1], calls[|calls| - 1];
      var r := ResultOf(p, Run(p, s, init), c);
      Admissions(p, s, init) + if r.Some? && r.value.Allowed? then [c.now] else []
  }

  /** The time of the last check, if any. */
  function LastCheck(calls: seq<Call>): Option<real> {
    if calls == [] then None
    else if calls[|calls| - 1].CheckCall? then Some(calls[|calls| - 1].now)
    else LastCheck(calls[..|calls| - 1])
  }

  /** The clock never goes backwards. */
  predicate Monotone(calls: seq<Call>) {
    calls == [] ||
    (var init, c := calls[..|calls| - 1], calls[|calls| - 1];
     Monotone(init) && (c.CheckCall? && LastCheck(init).Some? ==> LastCheck(init).value <= c.now))
  }

  predicate Ascending(ts: seq<real>) {
    forall i, j :: 0 <= i < j < |ts| ==> ts[i] <= ts[j]
  }

  lemma {:induction false} LaterSnoc(ts: seq<real>, t: real, cutoff: real)
    ensures Later(ts + [t], cutoff) == Later(ts, cutoff) + if t > cutoff then [t] else []
  {
    assert (ts + [t])[..|ts|] == ts;
  }

  /** Pruning twice is pruning once at the later cutoff. */
  lemma {:induction false} LaterLater(ts: seq<real>, a: real, b: real)
    requires a <= b
    ensures Later(Later(ts, a), b) == Later(ts, b)
  {
    if ts != [] {
      var init, t := ts[..|ts| - 1], ts[|ts| - 1];
      LaterLater(init, a, b);
      if t > a {
        LaterSnoc(Later(init, a), t, b);
      } else {
        assert Later(init, a) + [] == Later(init, a);
      }
    }
  }

  lemma {:induction false} LaterFacts(ts: seq<real>, cutoff: real)
    ensures |Later(ts, cutoff)| <= |ts|
    ensures forall t :: t in Later(ts, cutoff) <==> t in ts && t > cutoff
  {
    if ts != [] {
      var init, t := ts[..|ts| - 1], ts[|ts| - 1];
      LaterFacts(init, cutoff);
      assert ts == init + [t];
    }
  }

  lemma {:induction false} LaterShrinks(ts: seq<real>, cutoff: real)
    ensures |Later(ts, cutoff)| <= |ts|
    ensures |Later(ts, cutoff)| == |ts| ==> Later(ts, cutoff) == ts
    ensures (forall t :: t in ts ==> t > cutoff) ==> Later(ts, cutoff) == ts
  {
    if ts != [] {
      var init, t := ts[..|ts| - 1], ts[|ts| - 1];
      assert ts == init + [t];
      LaterShrinks(init, cutoff);
      assert t > cutoff ==> Later(ts, cutoff) == Later(init, cutoff) + [t];
      assert t <= cutoff ==> |Later(ts, cutoff)| == |Later(init, cutoff)|;
      assert t in ts && forall x :: x in init ==> x in ts;
    }
  }

  lemma AscendingSnoc(ts: seq<real>, t: real)
    ensures Ascending(ts + [t]) <==> Ascending(ts) && forall x :: x in ts ==> x <= t
  {
    var us := ts + [t];
    if Ascending(us) {
      assert forall i :: 0 <= i < |ts| ==> us[i] == ts[i] && us[i] <= us[|ts|];
    }
    if Ascending(ts) && forall x :: x in ts ==> x <= t {
      forall i, j | 0 <= i < j < |us| ensures us[i] <= us[j] {
        assert us[i] == ts[i] && ts[i] in ts;
        assert j < |ts| ==> us[j] == ts[j];
      }
    }
  }

  lemma {:induction false} LaterAscends(ts: seq<real>, cutoff: real)
    requires Ascending(ts)
    ensures Ascending(Later(ts, cutoff))
  {
    if ts != [] {
      var init, t := ts[..|ts| - 1], ts[|ts| - 1];
      assert ts == init + [t];
      AscendingSnoc(init, t);
      LaterAscends(init, cutoff);
      LaterFacts(init, cutoff);
      AscendingSnoc(Later(init, cutoff), t);
      assert Later(init, cutoff) + [] == Later(init, cutoff);
    }
  }

  function Limit(p: Policy): nat {
    if p.maxRequestsPerMinute < 0 then 0 else p.maxRequestsPerMinute
  }

  /** The pruned list `ts` is the admission history `h` restricted to the 60 seconds before the
      last check. */
  ghost predicate Follows(ts: seq<real>, h: seq<real>, last: Option<real>) {
    && Ascending(h)
    && match last
       case None => ts == [] && h == []
       case Some(t) => ts == Later(h, t - 60.0) && forall x :: x in h ==> x <= t
  }

  ghost predicate Tracks(p: Policy, ts: seq<real>, h: seq<real>, last: Option<real>) {
    Follows(ts, h, last) && |ts| <= Limit(p)
  }

  lemma FollowsWindow(ts: seq<real>, h: seq<real>, last: Option<real>, now: real)
    requires Follows(ts, h, last) && (last.Some? ==> last.value <= now)
    ensures Later(ts, now - 60.0) == Later(h, now - 60.0)
    ensures forall x :: x in h ==> x <= now
  {
    LaterShrinks(ts, now - 60.0);
    if last.Some? {
      LaterLater(h, last.value - 60.0, now - 60.0);
    }
  }

  lemma FollowsCheck(p: Policy, s: TenantState, h: seq<real>, last: Option<real>, now: real, priority: int)
    requires Follows(s.timestamps, h, last) && (last.Some? ==> last.value <= now)
    ensures var (s', r) := Check(p, s, now, priority);
            Follows(s'.timestamps, if r.Allowed? then h + [now] else h, Some(now))
  {
    FollowsWindow(s.timestamps, h, last, now);
    LaterSnoc(h, now, now - 60.0);
    AscendingSnoc(h, now);
  }

  /** The admissions of the last 60 seconds, counted on the full history and on the pruned list. */
  lemma {:induction false} FollowsCount(ts: seq<real>, h: seq<real>, last: Option<real>, now: real)
    requires Follows(ts, h, last) && (last.Some? ==> last.value <= now)
    ensures CountIn(h, now) == |Later(ts, now - 60.0)|
  {
    FollowsWindow(ts, h, last, now);
    assert forall i :: 0 <= i < |h| ==> h[i] in h;
    CountIsLater(h, now);
  }

  lemma TracksCheck(p: Policy, s: TenantState, h: seq<real>, last: Option<real>, now: real, priority: int)
    requires Tracks(p, s.timestamps, h, last) && (last.Some? ==> last.value <= now)
    ensures var (s', r) := Check(p, s, now, priority);
            Tracks(p, s'.timestamps, if r.Allowed? then h + [now] else h, Some(now))
  {
    FollowsCheck(p, s, h, last, now, priority);
    LaterShrinks(s.timestamps, now - 60.0);
  }

  /** The engine's pruned list is the full admission history restricted to the last 60 seconds,
      as of the last check, and never exceeds the limit. */
  lemma {:induction false} WindowIsHistory(p: Policy, calls: seq<Call>)
    requires Monotone(calls)
    ensures Tracks(p, Run(p, IDLE, calls).timestamps, Admissions(p, IDLE, calls), LastCheck(calls))
  {
    if calls != [] {
      var init, c := calls[..|calls| - 1], calls[|calls| - 1];
      WindowIsHistory(p, init);
      if c.CheckCall? {
        TracksCheck(p, Run(p, IDLE, init), Admissions(p, IDLE, init), LastCheck(init), c.now, c.requestPriority);
      }
      assert Admissions(p, IDLE, init) + [] == Admissions(p, IDLE, init);
    }
  }

  /** How many admissions fall in the window (t - 60, t]. */
  function CountIn(h: seq<real>, t: real): nat {
    if h == [] then 0
    else CountIn(h[..|h| - 1], t) + if t - 60.0 < h[|h| - 1] <= t then 1 else 0
  }

  lemma {:induction false} CountBelowLater(h: seq<real>, t: real, cutoff: real)
    requires cutoff <= t - 60.0
    ensures CountIn(h, t) <= |Later(h, cutoff)|
  {
    if h != [] {
      CountBelowLater(h[..|h| - 1], t, cutoff);
    }
  }

  lemma {:induction false} CountPast(h: seq<real>, t: real, c: Call)
    requires c.CheckCall?
    ensures CountIn(h + [c.now], t) == CountIn(h, t) + if t - 60.0 < c.now <= t then 1 else 0
  {
    assert (h + [c.now])[..|h|] == h;
  }

  lemma {:induction false} CountIsLater(h: seq<real>, now: real)
    requires forall i :: 0 <= i < |h| ==> h[i] <= now
    ensures CountIn(h, now) == |Later(h, now - 60.0)|
  {
    if h != [] {
      CountIsLater(h[..|h| - 1], now);
    }
  }

  lemma {:induction false} CheckCases(p: Policy, s: TenantState, now: real, priority: int)
    ensures var n, r := |Later(s.timestamps, now - 60.0)|, Check(p, s, now, priority).1;
            && Reports(r, n, s.activeCount, priority + p.priorityBoost)
            && (r.RateLimited? <==> n >= p.maxRequestsPerMinute && n >= 1)
            && (r.ConcurrencyLimited? <==> n < p.maxRequestsPerMinute && s.activeCount >= p.maxConcurrent)
            && (r.Allowed? <==> n < p.maxRequestsPerMinute && s.activeCount < p.maxConcurrent)
  {
  }

  lemma {:induction false} MonotoneInit(calls: seq<Call>, c: Call)
    requires Monotone(calls + [c])
    ensures Monotone(calls)
    ensures c.CheckCall? && LastCheck(calls).Some? ==> LastCheck(calls).value <= c.now
  {
    assert (calls + [c])[..|calls + [c]| - 1] == calls;
  }

  lemma {:induction false} HistoryCount(p: Policy, calls: seq<Call>, now: real, priority: int)
    requires Monotone(calls + [CheckCall(now, priority)])
    ensures var n := CountIn(Admissions(p, IDLE, calls), now);
            n == |Later(Run(p, IDLE, calls).timestamps, now - 60.0)| <= Limit(p)
  {
    MonotoneInit(calls, CheckCall(now, priority));
    WindowIsHistory(p, calls);
    LaterShrinks(Run(p, IDLE, calls).timestamps, now - 60.0);
    FollowsCount(Run(p, IDLE, calls).timestamps, Admissions(p, IDLE, calls), LastCheck(calls), now);
  }

  /** What an answer reports: the admissions counted, the slots taken, or the boosted priority, at most 10. */
  predicate Reports(r: CheckResult, inWindow: nat, taken: nat, boosted: int) {
    match r
    case RateLimited(n, _) => n == inWindow
    case ConcurrencyLimited(n, retryAfterSeconds) => n == taken && retryAfterSeconds == 5
    case Allowed(priority) => priority <= 10 && priority <= boosted && (priority == 10 || priority == boosted)
    case EmptyWindowError => true
  }

  /** The outcome of a check after any run, in terms of the admissions of the last 60 seconds and
      the slots taken: rate first, then concurrency. */
  lemma {:induction false} OutcomeIsHistory(p: Policy, calls: seq<Call>, now: real, priority: int)
    requires Monotone(calls + [CheckCall(now, priority)])
    ensures var s, n := Run(p, IDLE, calls), CountIn(Admissions(p, IDLE, calls), now);
            var r := Check(p, s, now, priority).1;
            && (r.RateLimited? <==> n >= p.maxRequestsPerMinute >= 1)
            && (r.ConcurrencyLimited? <==> n < p.maxRequestsPerMinute && s.activeCount >= p.maxConcurrent)
            && (r.Allowed? <==> n < p.maxRequestsPerMinute && s.activeCount < p.maxConcurrent)
            && Reports(r, n, s.activeCount, priority + p.priorityBoost)
  {
    HistoryCount(p, calls, now, priority);
    CheckCases(p, Run(p, IDLE, calls), now, priority);
  }

  /** No window of 60 seconds, wherever it ends, holds more admissions than the limit. */
  lemma {:induction false} SlidingWindowBound(p: Policy, calls: seq<Call>, t: real)
    requires Monotone(calls)
    ensures CountIn(Admissions(p, IDLE, calls), t) <= Limit(p)
  {
    if calls != [] {
      var init, c := calls[..|calls| - 1], calls[|calls| - 1];
      SlidingWindowBound(p, init, t);
      var h := Admissions(p, IDLE, init);
      var r := ResultOf(p, Run(p, IDLE, init), c);
      if r.Some? && r.value.Allowed? {
        WindowIsHistory(p, calls);
        OneMoreInWindow(p, Run(p, IDLE, calls).timestamps, h, c, t);
      } else {
        assert h + [] == h;
      }
    }
  }

  /** One more admission keeps every window within the limit. */
  lemma {:induction false} OneMoreInWindow(p: Policy, ts: seq<real>, h: seq<real>, c: Call, t: real)
    requires c.CheckCall? && Tracks(p, ts, h + [c.now], Some(c.now)) && CountIn(h, t) <= Limit(p)
    ensures CountIn(h + [c.now], t) <= Limit(p)
  {
    CountPast(h, t, c);
    if c.now <= t {
      CountBelowLater(h + [c.now], t, c.now - 60.0);
    }
  }

  // ----- retry-after -----

  /** Without admissions the window only shrinks. */
  lemma {:induction false} WithoutAdmissions(p: Policy, s: TenantState, calls: seq<Call>)
    requires Admissions(p, s, calls) == []
    ensures |Run(p, s, calls).timestamps| <= |s.timestamps|
    ensures |Run(p, s, calls).timestamps| == |s.timestamps| ==> Run(p, s, calls).timestamps == s.timestamps
  {
    if calls != [] {
      var init, c := calls[..|calls| - 1], calls[|calls| - 1];
      WithoutAdmissions(p, s, init);
      if c.CheckCall? {
        LaterShrinks(Run(p, s, init).timestamps, c.now - 60.0);
      }
    }
  }

  predicate RefusedOnRate(p: Policy, s: TenantState, now: real) {
    Check(p, s, now, 0).1.RateLimited?
  }

  lemma {:induction false} RunSnoc(p: Policy, calls: seq<Call>, c: Call)
    ensures Run(p, IDLE, calls + [c]) == Step(p, Run(p, IDLE, calls), c)
    ensures c.CheckCall? ==> LastCheck(calls + [c]) == Some(c.now)
  {
    assert (calls + [c])[..|calls|] == calls;
  }

  lemma TruncateBounds(x: real)
    requires x >= 0.0
    ensures 0 <= Truncate(x) && Truncate(x) as real <= x < Truncate(x) as real + 1.0
  {
  }

  /** A rate-refused window is full, and its first entry is its oldest. */
  lemma {:induction false} RefusedWindow(p: Policy, calls: seq<Call>, now: real, priority: int)
    requires p.maxRequestsPerMinute >= 1 && Monotone(calls + [CheckCall(now, priority)])
    requires Check(p, Run(p, IDLE, calls), now, priority).1.RateLimited?
    ensures var ts := Run(p, IDLE, calls + [CheckCall(now, priority)]).timestamps;
            && |ts| == p.maxRequestsPerMinute
            && ts == Later(Run(p, IDLE, calls).timestamps, now - 60.0)
            && Ascending(ts) && forall t :: t in ts ==> now - 60.0 < t <= now
  {
    var c := CheckCall(now, priority);
    RunSnoc(p, calls, c);
    WindowIsHistory(p, calls + [c]);
    var h := Admissions(p, IDLE, calls + [c]);
    LaterFacts(h, now - 60.0);
    LaterAscends(h, now - 60.0);
  }

  /** A rate refusal in any run names a retry time that is sound and tight. Let `expiry` be the
      moment the oldest admission of the window leaves it. Without admissions in between, a check
      is refused on rate exactly before `expiry`; the advertised time lies after `expiry`, by at
      most one second, and is between 1 and 61 seconds away. */
  lemma {:induction false} RetryAfterSoundAndTight(p: Policy, calls: seq<Call>, now: real, priority: int)
    requires p.maxRequestsPerMinute >= 1 && Monotone(calls + [CheckCall(now, priority)])
    requires Check(p, Run(p, IDLE, calls), now, priority).1.RateLimited?
    ensures var retry := Check(p, Run(p, IDLE, calls), now, priority).1.retryAfterSeconds;
            var refused := Run(p, IDLE, calls + [CheckCall(now, priority)]);
            && refused.timestamps != []
            && var expiry := refused.timestamps[0] + 60.0;
            && 1 <= retry <= 61
            && now < expiry && expiry < now + retry as real <= expiry + 1.0
            && (forall t :: now <= t < expiry ==> RefusedOnRate(p, refused, t))
            && (forall more, t :: Admissions(p, refused, more) == [] && t >= expiry ==>
                  !RefusedOnRate(p, Run(p, refused, more), t))
  {
    var refused := Run(p, IDLE, calls + [CheckCall(now, priority)]);
    RefusedWindow(p, calls, now, priority);
    var expiry := refused.timestamps[0] + 60.0;
    assert refused.timestamps[0] in refused.timestamps;
    TruncateBounds(60.0 - (now - refused.timestamps[0]));
    forall t | now <= t < expiry ensures RefusedOnRate(p, refused, t) {
      RefusedBeforeExpiry(p, refused, t);
    }
    forall more, t | Admissions(p, refused, more) == [] && t >= expiry
      ensures !RefusedOnRate(p, Run(p, refused, more), t)
    {
      AdmissibleAfterExpiry(p, refused, more, t);
    }
  }

  lemma RefusedBeforeExpiry(p: Policy, s: TenantState, t: real)
    requires s.timestamps != [] && Ascending(s.timestamps) && |s.timestamps| >= p.maxRequestsPerMinute
    requires t < s.timestamps[0] + 60.0
    ensures RefusedOnRate(p, s, t)
  {
    LaterShrinks(s.timestamps, t - 60.0);
  }

  lemma {:induction false} AdmissibleAfterExpiry(p: Policy, s: TenantState, more: seq<Call>, t: real)
    requires s.timestamps != [] && |s.timestamps| == p.maxRequestsPerMinute
    requires Admissions(p, s, more) == [] && t >= s.timestamps[0] + 60.0
    ensures !RefusedOnRate(p, Run(p, s, more), t)
  {
    var later := Run(p, s, more).timestamps;
    WithoutAdmissions(p, s, more);
    LaterShrinks(later, t - 60.0);
    LaterFacts(s.timestamps, t - 60.0);
    assert s.timestamps[0] in s.timestamps;
  }

  /** The index error under a fixed policy: exactly the checks under a limit that is not positive, in
      any run. */
  lemma {:induction false} EmptyWindowErrorExactly(p: Policy, calls: seq<Call>, now: real, priority: int)
    requires Monotone(calls)
    ensures Check(p, Run(p, IDLE, calls), now, priority).1.EmptyWindowError? <==> p.maxRequestsPerMinute <= 0
  {
    WindowIsHistory(p, calls);
    LaterFacts(Run(p, IDLE, calls).timestamps, now - 60.0);
  }

  // ----- isolation -----

  datatype EngineCall = EngineCall(tenant: string, call: Call)

  function EngineStep(e: Engine, c: EngineCall): Engine {
    match c.call
    case CheckCall(now, priority) => e.CheckIn(c.tenant, now, priority).0
    case ReleaseCall => e.ReleaseIn(c.tenant)
  }

  function EngineRun(e: Engine, calls: seq<EngineCall>): Engine {
    if calls == [] then e else EngineStep(EngineRun(e, calls[..|calls| - 1]), calls[|calls| - 1])
  }

  function EngineResult(e: Engine, c: EngineCall): Option<CheckResult> {
    match c.call
    case CheckCall(now, priority) => Some(e.CheckIn(c.tenant, now, priority).1)
    case ReleaseCall => None
  }

  /** The calls that concern one tenant. */
  function Project(calls: seq<EngineCall>, tenant: string): seq<Call> {
    if calls == [] then []
    else
      var c := calls[|calls| - 1];
      Project(calls[..|calls| - 1], tenant) + if c.tenant == tenant then [c.call] else []
  }

  lemma EngineStepIsLocal(e: Engine, c: EngineCall, tenant: string)
    ensures EngineStep(e, c).StateOf(tenant)
         == if c.tenant == tenant then Step(e.PolicyOf(tenant), e.StateOf(tenant), c.call) else e.StateOf(tenant)
    ensures EngineStep(e, c).PolicyOf(tenant) == e.PolicyOf(tenant)
  {
  }

  /** The engine keeps tenants apart: a tenant's state is that of a run in which only its own
      calls ever happened. */
  lemma {:induction false} TenantsAreIsolated(e: Engine, calls: seq<EngineCall>, tenant: string)
    ensures EngineRun(e, calls).StateOf(tenant) == Run(e.PolicyOf(tenant), e.StateOf(tenant), Project(calls, tenant))
    ensures EngineRun(e, calls).PolicyOf(tenant) == e.PolicyOf(tenant)
  {
    if calls != [] {
      var init, c := calls[..|calls| - 1], calls[|calls| - 1];
      TenantsAreIsolated(e, init, tenant);
      EngineStepIsLocal(EngineRun(e, init), c, tenant);
      var own := Project(init, tenant);
      if c.tenant == tenant {
        assert (own + [c.call])[..|own|] == own;
      } else {
        assert own + [] == own;
      }
    }
  }

  /** Two runs that agree on a tenant's own calls give that tenant's next call the same outcome. */
  lemma {:induction false} OutcomesAreIsolated(e: Engine, calls: seq<EngineCall>, others: seq<EngineCall>,
                                               tenant: string, next: Call)
    requires Project(calls, tenant) == Project(others, tenant)
    ensures EngineResult(EngineRun(e, calls), EngineCall(tenant, next))
         == EngineResult(EngineRun(e, others), EngineCall(tenant, next))
  {
    TenantsAreIsolated(e, calls, tenant);
    TenantsAreIsolated(e, others, tenant);
  }
}
