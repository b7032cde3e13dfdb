/** Tenant runs in which policies change between the calls. */
module TenantPolicies {
  import opened Options
  import opened Tenant

  datatype Event = Called(tenant: string, call: Call) | PolicySet(tenant: string, policy: Policy)

  function After(e: Engine, event: Event): Engine {
    match event
    case Called(tenant, call) => EngineStep(e, EngineCall(tenant, call))
    case PolicySet(tenant, policy) => e.(policies := e.policies[tenant := policy])
  }

  /** A fresh engine after some events. */
  function EngineAfter(defaultPolicy: Policy, events: seq<Event>): Engine {
    if events == [] then Engine(defaultPolicy, map[], map[])
    else After(EngineAfter(defaultPolicy, events[..|events| - 1]), events[|events| - 1])
  }

  /** The policy last set for a tenant, or else the default. */
  function LastSet(defaultPolicy: Policy, events: seq<Event>, tenant: string): Policy {
    if events == [] then defaultPolicy
    else
      var last := events[|events| - 1];
      if last.PolicySet? && last.tenant == tenant then last.policy
      else LastSet(defaultPolicy, events[..|events| - 1], tenant)
  }

  /** Whatever else happens, the policy in force for a tenant is the one last set for it. */
  lemma {:induction false} PolicyIsLastSet(defaultPolicy: Policy, events: seq<Event>, tenant: string)
    ensures EngineAfter(defaultPolicy, events).PolicyOf(tenant) == LastSet(defaultPolicy, events, tenant)
  {
    if events != [] {
      var init, last := events[..|events| - 1], events[|events| - 1];
      PolicyIsLastSet(defaultPolicy, init, tenant);
      if last.Called? {
        EngineStepIsLocal(EngineAfter(defaultPolicy, init), EngineCall(last.tenant, last.call), tenant);
      }
    }
  }

  /** The admissions of a tenant, in order. */
  function AdmissionsOf(defaultPolicy: Policy, events: seq<Event>, tenant: string): seq<real> {
    if events == [] then []
    else
      var init, last := events[..|events| - 1], events[|events| - 1];
      var admitted := last.Called? && last.tenant == tenant && last.call.CheckCall?
                      && EngineAfter(defaultPolicy, init).CheckIn(tenant, last.call.now,
                                                                  last.call.requestPriority).1.Allowed?;
      AdmissionsOf(defaultPolicy, init, tenant) + if admitted then [last.call.now] else []
  }

  function LastCheckOf(events: seq<Event>, tenant: string): Option<real> {
    if events == [] then None
    else
      var last := events[|events| - 1];
      if last.Called? && last.tenant == tenant && last.call.CheckCall? then Some(last.call.now)
      else LastCheckOf(events[..|events| - 1], tenant)
  }

  /** The clock never goes backwards between the checks of a tenant. */
  predicate MonotoneFor(events: seq<Event>, tenant: string) {
    events == [] ||
    (var init, last := events[..|events| - 1], events[|events| - 1];
     && MonotoneFor(init, tenant)
     && (last.Called? && last.tenant == tenant && last.call.CheckCall? && LastCheckOf(init, tenant).Some? ==>
           LastCheckOf(init, tenant).value <= last.call.now))
  }

  /** The pruned list is the admission history of the last 60 seconds under any policies: what was
      admitted under an old policy counts under the new one. */
  lemma {:induction false} WindowIsHistoryAlways(defaultPolicy: Policy, events: seq<Event>, tenant: string)
    requires MonotoneFor(events, tenant)
    ensures Follows(EngineAfter(defaultPolicy, events).StateOf(tenant).timestamps,
                    AdmissionsOf(defaultPolicy, events, tenant), LastCheckOf(events, tenant))
  {
    if events != [] {
      var init, last := events[..|events| - 1], events[|events| - 1];
      var e, h := EngineAfter(defaultPolicy, init), AdmissionsOf(defaultPolicy, init, tenant);
      WindowIsHistoryAlways(defaultPolicy, init, tenant);
      assert h + [] == h;
      if last.Called? {
        EngineStepIsLocal(e, EngineCall(last.tenant, last.call), tenant);
        if last.tenant == tenant && last.call.CheckCall? {
          FollowsCheck(e.PolicyOf(tenant), e.StateOf(tenant), h, LastCheckOf(init, tenant), last.call.now,
                       last.call.requestPriority);
        }
      }
    }
  }

  /** A tenant's admissions less its releases. */
  function Excess(defaultPolicy: Policy, events: seq<Event>, tenant: string): int {
    |AdmissionsOf(defaultPolicy, events, tenant)| - ReleasesOf(events, tenant)
  }

  function ReleasesOf(events: seq<Event>, tenant: string): nat {
    if events == [] then 0
    else
      ReleasesOf(events[..|events| - 1], tenant) + if events[|events| - 1] == Called(tenant, ReleaseCall) then 1 else 0
  }

  ghost predicate Since(defaultPolicy: Policy, events: seq<Event>, tenant: string, k: nat, excess: int) {
    k <= |events| && Excess(defaultPolicy, events, tenant) - Excess(defaultPolicy, events[..k], tenant) == excess
  }

  /** One event moves the slots taken as it moves the excess, but not below zero. */
  lemma {:induction false} TakenStep(defaultPolicy: Policy, events: seq<Event>, tenant: string)
    requires events != []
    ensures var init := events[..|events| - 1];
            var before := EngineAfter(defaultPolicy, init).StateOf(tenant).activeCount;
            var now := before + Excess(defaultPolicy, events, tenant) - Excess(defaultPolicy, init, tenant);
            EngineAfter(defaultPolicy, events).StateOf(tenant).activeCount == if now < 0 then 0 else now
  {
    var init, last := events[..|events| - 1], events[|events| - 1];
    if last.Called? {
      EngineStepIsLocal(EngineAfter(defaultPolicy, init), EngineCall(last.tenant, last.call), tenant);
    }
  }

  /** The slots a tenant has taken, under any policies: the greatest excess of its admissions over its
      releases since any moment. A release without an admission is not credited. */
  lemma {:induction false} SlotsAreHistory(defaultPolicy: Policy, events: seq<Event>, tenant: string)
    ensures var taken := EngineAfter(defaultPolicy, events).StateOf(tenant).activeCount;
            && (forall k: nat, excess :: Since(defaultPolicy, events, tenant, k, excess) ==> excess <= taken)
            && (exists k: nat :: Since(defaultPolicy, events, tenant, k, taken))
  {
    var n, taken := |events|, EngineAfter(defaultPolicy, events).StateOf(tenant).activeCount;
    assert events[..n] == events && Since(defaultPolicy, events, tenant, n, 0);
    if events != [] {
      var init := events[..n - 1];
      var before := EngineAfter(defaultPolicy, init).StateOf(tenant).activeCount;
      var grown := Excess(defaultPolicy, events, tenant) - Excess(defaultPolicy, init, tenant);
      SlotsAreHistory(defaultPolicy, init, tenant);
      TakenStep(defaultPolicy, events, tenant);
      forall k: nat, excess | Since(defaultPolicy, events, tenant, k, excess) ensures excess <= taken {
        if k < n {
          SinceStep(defaultPolicy, events, tenant, k, excess - grown);
        }
      }
      var k: nat :| Since(defaultPolicy, init, tenant, k, before);
      SinceStep(defaultPolicy, events, tenant, k, before);
    }
  }

  lemma {:induction false} SinceStep(defaultPolicy: Policy, events: seq<Event>, tenant: string, k: nat, excess: int)
    requires k < |events|
    ensures var init := events[..|events| - 1];
            var grown := Excess(defaultPolicy, events, tenant) - Excess(defaultPolicy, init, tenant);
            Since(defaultPolicy, init, tenant, k, excess) <==> Since(defaultPolicy, events, tenant, k, excess + grown)
  {
    assert events[..k] == events[..|events| - 1][..k];
  }

  /** The outcome of a check after any events, the index error included: by the policy last set, the
      tenant's own admissions of the last 60 seconds, and the slots it has taken. */
  lemma {:induction false} OutcomeIsHistoryAlways(defaultPolicy: Policy, events: seq<Event>, tenant: string, now: real,
                                                  priority: int)
    requires MonotoneFor(events, tenant) && (LastCheckOf(events, tenant).Some?
                                             ==> LastCheckOf(events, tenant).value <= now)
    ensures var e, p := EngineAfter(defaultPolicy, events), LastSet(defaultPolicy, events, tenant);
            var n, r := CountIn(AdmissionsOf(defaultPolicy, events, tenant), now), e.CheckIn(tenant, now, priority).1;
            && (r.EmptyWindowError? <==> p.maxRequestsPerMinute <= 0 && n == 0)
            && (r.RateLimited? <==> n >= p.maxRequestsPerMinute && n >= 1)
            && (r.ConcurrencyLimited? <==>
                  n < p.maxRequestsPerMinute && e.StateOf(tenant).activeCount >= p.maxConcurrent)
            && (r.Allowed? <==> n < p.maxRequestsPerMinute && e.StateOf(tenant).activeCount < p.maxConcurrent)
            && Reports(r, n, e.StateOf(tenant).activeCount, priority + p.priorityBoost)
  {
    var e := EngineAfter(defaultPolicy, events);
    PolicyIsLastSet(defaultPolicy, events, tenant);
    WindowIsHistoryAlways(defaultPolicy, events, tenant);
    FollowsCount(e.StateOf(tenant).timestamps, AdmissionsOf(defaultPolicy, events, tenant),
                 LastCheckOf(events, tenant), now);
    CheckCases(e.PolicyOf(tenant), e.StateOf(tenant), now, priority);
  }
}
