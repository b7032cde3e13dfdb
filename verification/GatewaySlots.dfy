/** What authentication and a failing queue do to the tenant slots: when a submission unbalances them,
    and what failed submissions add up to over a run. */
module GatewaySlots {
  import opened Options
  import opened Results
  import opened Demo
  import opened DemoProofs
  import opened Gateways
  import Admission
  import DemoWorkers
  import PriorityQueue
  import Tenant

  // ----- one submission -----

  /** The caller is let in and granted a slot. */
  predicate GetsSlot(cfg: Config, s: System, now: real, req: GatewayRequest, auth: AuthResult)
    requires s.core.store.Valid()
  {
    && auth.authenticated
    && AdmissionOf(cfg, s) in {Admission.Admit, Admission.Disabled}
    && s.core.tenants.CheckIn(ChargedTenant(auth, req), now, req.priority).1.Allowed?
  }

  /** All requests that hold a slot: queued, taken, or still to be released. */
  ghost function Held(s: System): multiset<Payload>
    requires Known(s.worker.raw, s.worker.prog)
  {
    QueueBag(s) + multiset(s.worker.taken) + Outstanding(s.worker.raw, s.worker.prog)
  }

  /** Checking a tenant in moves that tenant's count only. */
  lemma CheckInCounts(tenants: Tenant.Engine, tenant: string, now: real, priority: int, other: string)
    ensures var (next, r) := tenants.CheckIn(tenant, now, priority);
            next.StateOf(other).activeCount
              == tenants.StateOf(other).activeCount + One(r.Allowed? && other == tenant)
  {
  }

  lemma SlotGranted(cfg: Config, s: System, id: string, now: real, req: GatewayRequest, auth: AuthResult,
                    published: bool)
    requires cfg.router.Valid() && s.core.store.Valid()
    ensures var (s', o) := SubmitAs(cfg, s, id, now, req, auth, published);
            && s'.worker == s.worker
            && (o == Decided(Accepted) <==> GetsSlot(cfg, s, now, req, auth) && published)
            && (o == Unavailable <==> GetsSlot(cfg, s, now, req, auth) && !published)
  {
  }

  /** A submission joins those that hold a slot exactly when it is accepted. */
  lemma SubmitJoins(cfg: Config, s: System, id: string, now: real, req: GatewayRequest, auth: AuthResult,
                    published: bool)
    requires cfg.Valid() && s.core.store.Valid() && Known(s.worker.raw, s.worker.prog)
    ensures var (s', o) := SubmitAs(cfg, s, id, now, req, auth, published);
            && s'.worker == s.worker
            && Held(s') == Held(s) + if o == Decided(Accepted) then multiset{PayloadFor(cfg, id, now, req)}
                                     else multiset{}
  {
    var (s', o) := SubmitAs(cfg, s, id, now, req, auth, published);
    if o == Decided(Accepted) {
      var lane, p := PriorityQueue.PriorityToLane(req.priority), PayloadFor(cfg, id, now, req);
      PutKeepsBag(s, lane, p);
      assert QueueBag(s') == QueueBag(s.(queue := s.queue.Put(lane, p)));
    } else {
      assert QueueBag(s') == QueueBag(s);
    }
  }

  /** Slots, and requests that hold one, after a submission, counted for one tenant. */
  lemma {:induction false} SubmitCounts(cfg: Config, s: System, id: string, now: real, req: GatewayRequest,
                                        auth: AuthResult, published: bool, tenant: string)
    requires cfg.Valid() && s.core.store.Valid() && Known(s.worker.raw, s.worker.prog)
    ensures var s' := SubmitAs(cfg, s, id, now, req, auth, published).0;
            var granted := GetsSlot(cfg, s, now, req, auth);
            && s'.worker == s.worker
            && s'.core.tenants.StateOf(tenant).activeCount
                 == s.core.tenants.StateOf(tenant).activeCount + One(granted && tenant == ChargedTenant(auth, req))
            && TenantCount(Held(s'), tenant)
                 == TenantCount(Held(s), tenant)
                    + One(granted && published && tenant == Tenant.ExtractTenant(req.tenant))
  {
    var (s', o) := SubmitAs(cfg, s, id, now, req, auth, published);
    SlotGranted(cfg, s, id, now, req, auth, published);
    CheckInCounts(s.core.tenants, ChargedTenant(auth, req), now, req.priority, tenant);
    SubmitJoins(cfg, s, id, now, req, auth, published);
    if o == Decided(Accepted) {
      TenantCountAdd(Held(s), PayloadFor(cfg, id, now, req), tenant);
    } else {
      assert Held(s') == Held(s);
    }
  }

  /** A slot is granted that no queued request of the tenant will give back. */
  predicate GrantsToNobody(cfg: Config, s: System, now: real, req: GatewayRequest, auth: AuthResult, published: bool)
    requires s.core.store.Valid()
  {
    && GetsSlot(cfg, s, now, req, auth)
    && (!published || ChargedTenant(auth, req) != Tenant.ExtractTenant(req.tenant))
  }

  lemma {:induction false} SubmitBalances(cfg: Config, s: System, id: string, now: real, req: GatewayRequest,
                                          auth: AuthResult, published: bool, tenant: string)
    requires cfg.Valid() && s.core.store.Valid() && Known(s.worker.raw, s.worker.prog)
    requires Balanced(s.core.tenants, Held(s))
    ensures var s' := SubmitAs(cfg, s, id, now, req, auth, published).0;
            && s'.worker == s.worker
            && (!GrantsToNobody(cfg, s, now, req, auth, published) ==>
                  s'.core.tenants.StateOf(tenant).activeCount == TenantCount(Held(s'), tenant))
            && (GrantsToNobody(cfg, s, now, req, auth, published) && tenant == ChargedTenant(auth, req) ==>
                  s'.core.tenants.StateOf(tenant).activeCount != TenantCount(Held(s'), tenant))
  {
    SubmitCounts(cfg, s, id, now, req, auth, published, tenant);
  }

  /** When a submission leaves the slots balanced: exactly unless the caller is granted a slot and
      either the queue fails or the slot is not that of the tenant whom the payload names. */
  lemma BalanceExactly(cfg: Config, s: System, id: string, now: real, req: GatewayRequest, auth: AuthResult,
                       published: bool)
    requires cfg.Valid() && s.core.store.Valid() && Known(s.worker.raw, s.worker.prog)
    requires Balanced(s.core.tenants, Held(s))
    ensures var s' := SubmitAs(cfg, s, id, now, req, auth, published).0;
            && s'.worker == s.worker
            && (Balanced(s'.core.tenants, Held(s')) <==> !GrantsToNobody(cfg, s, now, req, auth, published))
  {
    SubmitBalances(cfg, s, id, now, req, auth, published, ChargedTenant(auth, req));
    var s' := SubmitAs(cfg, s, id, now, req, auth, published).0;
    if !GrantsToNobody(cfg, s, now, req, auth, published) {
      forall tenant ensures s'.core.tenants.StateOf(tenant).activeCount == TenantCount(Held(s'), tenant) {
        SubmitBalances(cfg, s, id, now, req, auth, published, tenant);
      }
    }
  }

  // ----- runs with a queue that may fail -----

  /** A caller without a tenant of its own. */
  const ANYONE := AuthResult(true, None)

  datatype SlotEvent = Sent(id: string, now: real, req: GatewayRequest, published: bool) | Worked(tick: Tick)

  function NextWith(cfg: Config, s: System, e: SlotEvent): System
    requires Runs(cfg, s)
  {
    match e
    case Sent(id, now, req, published) =>
      if id in s.core.store.records then s else SubmitAs(cfg, s, id, now, req, ANYONE, published).0
    case Worked(tick) => Work(cfg, s, tick)
  }

  /** The tenant, if any, whose slot the event takes without putting a request on the queue. */
  function LosesSlot(cfg: Config, s: System, e: SlotEvent): multiset<string>
    requires s.core.store.Valid()
  {
    if e.Sent? && e.id !in s.core.store.records && !e.published && GetsSlot(cfg, s, e.now, e.req, ANYONE)
    then multiset{Tenant.ExtractTenant(e.req.tenant)} else multiset{}
  }

  /** The tenants without the slots that were lost. */
  function Without(tenants: Tenant.Engine, lost: multiset<string>): Tenant.Engine {
    tenants.(states := map t | t in tenants.states :: t :=
      tenants.states[t].(activeCount := Less(tenants.states[t].activeCount, lost[t])))
  }

  function Less(n: nat, m: nat): nat {
    if n >= m then n - m else 0
  }

  function WithTenants(s: System, tenants: Tenant.Engine): System {
    s.(core := s.core.(tenants := tenants))
  }

  /** Lost slots are still taken, and no tenant has more than its policy allows. */
  ghost predicate Covers(tenants: Tenant.Engine, lost: multiset<string>) {
    forall t :: lost[t] <= tenants.StateOf(t).activeCount <= NonNegative(tenants.PolicyOf(t).maxConcurrent)
  }

  /** But for the slots lost so far, the platform is in order. */
  ghost predicate LossInv(cfg: Config, s: System, lost: multiset<string>) {
    Inv(cfg, WithTenants(s, Without(s.core.tenants, lost))) && Covers(s.core.tenants, lost)
  }

  ghost predicate SameCounts(a: Tenant.Engine, b: Tenant.Engine) {
    && a.defaultPolicy == b.defaultPolicy && a.policies == b.policies
    && forall t :: a.StateOf(t).activeCount == b.StateOf(t).activeCount
  }

  /** Of the tenants, the invariant reads nothing but the counts and the policies. */
  lemma InvReadsCounts(cfg: Config, s: System, tenants: Tenant.Engine)
    requires Inv(cfg, s) && SameCounts(tenants, s.core.tenants)
    ensures Inv(cfg, WithTenants(s, tenants))
  {
    assert QueueBag(WithTenants(s, tenants)) == QueueBag(s);
    assert forall t :: tenants.PolicyOf(t) == s.core.tenants.PolicyOf(t);
  }

  lemma WithoutAt(tenants: Tenant.Engine, lost: multiset<string>, t: string)
    ensures Without(tenants, lost).StateOf(t)
         == tenants.StateOf(t).(activeCount := Less(tenants.StateOf(t).activeCount, lost[t]))
    ensures Without(tenants, lost).PolicyOf(t) == tenants.PolicyOf(t)
  {
  }

  /** A slot that is not lost is released. */
  lemma ReleaseWithout(tenants: Tenant.Engine, lost: multiset<string>, tenant: string)
    requires Covers(tenants, lost) && Without(tenants, lost).StateOf(tenant).activeCount >= 1
    ensures Covers(tenants.ReleaseIn(tenant), lost)
    ensures SameCounts(Without(tenants.ReleaseIn(tenant), lost), Without(tenants, lost).ReleaseIn(tenant))
  {
    var call := Tenant.EngineCall(tenant, Tenant.ReleaseCall);
    var next := tenants.ReleaseIn(tenant);
    forall t
      ensures lost[t] <= next.StateOf(t).activeCount <= NonNegative(next.PolicyOf(t).maxConcurrent)
      ensures Without(next, lost).StateOf(t).activeCount
           == Without(tenants, lost).ReleaseIn(tenant).StateOf(t).activeCount
    {
      WithoutAt(tenants, lost, t);
      WithoutAt(next, lost, t);
      Tenant.EngineStepIsLocal(tenants, call, t);
      Tenant.EngineStepIsLocal(Without(tenants, lost), call, t);
    }
  }

  /** A slot is granted and lost, or none is granted. */
  lemma LostWithout(tenants: Tenant.Engine, lost: multiset<string>, tenant: string, now: real, priority: int)
    requires Covers(tenants, lost)
    ensures var (next, r) := tenants.CheckIn(tenant, now, priority);
            var lost' := lost + if r.Allowed? then multiset{tenant} else multiset{};
            Covers(next, lost') && SameCounts(Without(next, lost'), Without(tenants, lost))
  {
    var call := Tenant.EngineCall(tenant, Tenant.CheckCall(now, priority));
    var (next, r) := tenants.CheckIn(tenant, now, priority);
    var lost' := lost + if r.Allowed? then multiset{tenant} else multiset{};
    forall t
      ensures lost'[t] <= next.StateOf(t).activeCount <= NonNegative(next.PolicyOf(t).maxConcurrent)
      ensures Without(next, lost').StateOf(t).activeCount == Without(tenants, lost).StateOf(t).activeCount
    {
      WithoutAt(tenants, lost, t);
      WithoutAt(next, lost', t);
      Tenant.EngineStepIsLocal(tenants, call, t);
    }
  }

  /** Whoever is let in is let in without the lost slots. */
  lemma AllowedWithout(tenants: Tenant.Engine, lost: multiset<string>, tenant: string, now: real, priority: int)
    requires Covers(tenants, lost) && tenants.CheckIn(tenant, now, priority).1.Allowed?
    ensures Covers(tenants.CheckIn(tenant, now, priority).0, lost)
    ensures Without(tenants, lost).CheckIn(tenant, now, priority).1.Allowed?
    ensures SameCounts(Without(tenants.CheckIn(tenant, now, priority).0, lost),
                       Without(tenants, lost).CheckIn(tenant, now, priority).0)
  {
    var call := Tenant.EngineCall(tenant, Tenant.CheckCall(now, priority));
    var next := tenants.CheckIn(tenant, now, priority).0;
    WithoutAt(tenants, lost, tenant);
    forall t
      ensures lost[t] <= next.StateOf(t).activeCount <= NonNegative(next.PolicyOf(t).maxConcurrent)
      ensures Without(next, lost).StateOf(t).activeCount
           == Without(tenants, lost).CheckIn(tenant, now, priority).0.StateOf(t).activeCount
    {
      WithoutAt(tenants, lost, t);
      WithoutAt(next, lost, t);
      Tenant.EngineStepIsLocal(tenants, call, t);
      Tenant.EngineStepIsLocal(Without(tenants, lost), call, t);
    }
  }

  /** An operation reads the tenants only to release a slot. */
  lemma StepWithTenants(cfg: Config, raw: map<string, Payload>, core: Core, op: Op, tenants: Tenant.Engine, t: Tick)
    requires IdsOf(op) <= raw.Keys
    ensures var (core', pushed), with := Step(cfg, raw, core, op, t), Step(cfg, raw, core.(tenants := tenants), op, t);
            if op.Release? then
              && op.requestId in raw
              && var tenant := raw[op.requestId].TenantId();
                 core'.tenants == core.tenants.ReleaseIn(tenant)
                 && with == (core'.(tenants := tenants.ReleaseIn(tenant)), pushed)
            else core'.tenants == core.tenants && with == (core'.(tenants := tenants), pushed)
  {
  }

  lemma {:induction false} WorkWithTenants(cfg: Config, s: System, tenants: Tenant.Engine, t: Tick)
    requires Runs(cfg, s)
    ensures var w := s.worker;
            if w.prog == [] || !w.prog[0].Release?
            then
              && Work(cfg, WithTenants(s, tenants), t) == WithTenants(Work(cfg, s, t), tenants)
              && Work(cfg, s, t).core.tenants == s.core.tenants
            else
              && w.prog[0].requestId in w.raw
              && var tenant := w.raw[w.prog[0].requestId].TenantId();
                 && Work(cfg, WithTenants(s, tenants), t) == WithTenants(Work(cfg, s, t), tenants.ReleaseIn(tenant))
                 && Work(cfg, s, t).core.tenants == s.core.tenants.ReleaseIn(tenant)
  {
    var w := s.worker;
    if w.prog != [] {
      Unfold(w.raw, w.prog);
      StepWithTenants(cfg, w.raw, s.core, w.prog[0], tenants, t);
    }
  }

  lemma WorkKeepsLoss(cfg: Config, s: System, lost: multiset<string>, t: Tick)
    requires Runs(cfg, s) && LossInv(cfg, s, lost)
    ensures LossInv(cfg, Work(cfg, s, t), lost)
  {
    var w, s', without := s.worker, Work(cfg, s, t), Without(s.core.tenants, lost);
    WorkPreserves(cfg, WithTenants(s, without), t);
    WorkWithTenants(cfg, s, without, t);
    if w.prog != [] && w.prog[0].Release? {
      var tenant := w.raw[w.prog[0].requestId].TenantId();
      ReleaseIsHeld(cfg, WithTenants(s, without), t);
      ReleaseWithout(s.core.tenants, lost, tenant);
      InvReadsCounts(cfg, Work(cfg, WithTenants(s, without), t), Without(s'.core.tenants, lost));
    }
  }

  lemma ReleaseIsHeld(cfg: Config, s: System, t: Tick)
    requires Inv(cfg, s) && s.worker.prog != [] && s.worker.prog[0].Release?
    ensures s.worker.prog[0].requestId in s.worker.raw
    ensures s.core.tenants.StateOf(s.worker.raw[s.worker.prog[0].requestId].TenantId()).activeCount >= 1
  {
    ReleasePreserves(cfg, s.worker.raw, s.core, s.worker.prog, QueueBag(s) + multiset(s.worker.taken), t);
  }

  /** A slot is lost, or the caller is refused: but for the lost slots, only windows change. */
  lemma TurnedAwayKeepsLoss(cfg: Config, s: System, lost: multiset<string>, tenant: string, now: real, priority: int)
    requires LossInv(cfg, s, lost)
    ensures var (tenants, r) := s.core.tenants.CheckIn(tenant, now, priority);
            LossInv(cfg, WithTenants(s, tenants), lost + if r.Allowed? then multiset{tenant} else multiset{})
  {
    var (tenants, r) := s.core.tenants.CheckIn(tenant, now, priority);
    var lost' := lost + if r.Allowed? then multiset{tenant} else multiset{};
    LostWithout(s.core.tenants, lost, tenant, now, priority);
    InvReadsCounts(cfg, WithTenants(s, Without(s.core.tenants, lost)), Without(tenants, lost'));
  }

  lemma AcceptedKeepsLoss(cfg: Config, s: System, lost: multiset<string>, id: string, now: real, req: GatewayRequest)
    requires Runs(cfg, s) && LossInv(cfg, s, lost) && id !in s.core.store.records
    requires GetsSlot(cfg, s, now, req, ANYONE)
    ensures LossInv(cfg, SubmitAs(cfg, s, id, now, req, ANYONE, true).0, lost)
  {
    var p, lane := PayloadFor(cfg, id, now, req), PriorityQueue.PriorityToLane(req.priority);
    var before, s' := WithTenants(s, Without(s.core.tenants, lost)), SubmitAs(cfg, s, id, now, req, ANYONE, true).0;
    AllowedWithout(s.core.tenants, lost, p.TenantId(), now, req.priority);
    JoinPreserves(cfg, before, p, lane, now, req.priority);
    var tenants := before.core.tenants.CheckIn(p.TenantId(), now, req.priority).0;
    InvReadsCounts(cfg, WithTenants(s', tenants), Without(s'.core.tenants, lost));
  }

  lemma NextKeepsLoss(cfg: Config, s: System, lost: multiset<string>, e: SlotEvent)
    requires Runs(cfg, s) && LossInv(cfg, s, lost)
    ensures LossInv(cfg, NextWith(cfg, s, e), lost + LosesSlot(cfg, s, e))
  {
    match e
    case Sent(id, now, req, published) =>
      if id !in s.core.store.records {
        if GetsSlot(cfg, s, now, req, ANYONE) && published {
          AcceptedKeepsLoss(cfg, s, lost, id, now, req);
        } else {
          TurnedAwayKeepsLoss(cfg, s, lost, Tenant.ExtractTenant(req.tenant), now, req.priority);
        }
      }
      assert lost + multiset{} == lost;
    case Worked(t) =>
      WorkKeepsLoss(cfg, s, lost, t);
      assert lost + multiset{} == lost;
  }

  lemma InitialLoss(cfg: Config)
    requires cfg.Valid()
    ensures LossInv(cfg, Initial(cfg), multiset{})
  {
    InitialInv(cfg);
    InvReadsCounts(cfg, Initial(cfg), Without(Initial(cfg).core.tenants, multiset{}));
  }

  // ----- runs -----

  lemma NextRuns(cfg: Config, s: System, e: SlotEvent)
    requires Runs(cfg, s)
    ensures Runs(cfg, NextWith(cfg, s, e))
  {
    match e
    case Sent(id, now, req, published) =>
      if id !in s.core.store.records && GetsSlot(cfg, s, now, req, ANYONE) {
        PutValid(s.core.store, PendingRecord(PayloadFor(cfg, id, now, req)));
      }
    case Worked(t) => WorkRuns(cfg, s, t);
  }

  lemma WorkRuns(cfg: Config, s: System, t: Tick)
    requires Runs(cfg, s)
    ensures Runs(cfg, Work(cfg, s, t))
  {
    var w := s.worker;
    if w.prog != [] {
      StepShrinks(cfg, w.raw, s.core, w.prog, t);
      StepStores(cfg, w.raw, s.core, w.prog[0], t);
      if Writes(w.prog[0]) {
        PutValid(s.core.store, Written(w.raw, w.prog[0], t));
      }
    } else {
      var items := s.queue.Of(PriorityQueue.ProbeLane(w.probe));
      DemoWorkers.GatesKnown(cfg, s.core.latency, w.taken);
      if items != [] {
        DemoWorkers.GatesKnown(cfg, s.core.latency, w.taken + [items[0]]);
      }
    }
  }

  ghost function RunWith(cfg: Config, trace: seq<SlotEvent>): (s: System)
    requires cfg.Valid()
    ensures Runs(cfg, s)
  {
    if trace == [] then Initial(cfg)
    else
      var s := RunWith(cfg, trace[..|trace| - 1]);
      NextRuns(cfg, s, trace[|trace| - 1]);
      NextWith(cfg, s, trace[|trace| - 1])
  }

  /** The slots lost in a run, by tenant. */
  ghost function LostIn(cfg: Config, trace: seq<SlotEvent>): multiset<string>
    requires cfg.Valid()
  {
    if trace == [] then multiset{}
    else LostIn(cfg, trace[..|trace| - 1]) + LosesSlot(cfg, RunWith(cfg, trace[..|trace| - 1]), trace[|trace| - 1])
  }

  lemma {:induction false} RunKeepsLoss(cfg: Config, trace: seq<SlotEvent>)
    requires cfg.Valid()
    ensures LossInv(cfg, RunWith(cfg, trace), LostIn(cfg, trace))
  {
    if trace == [] {
      InitialLoss(cfg);
    } else {
      var init := trace[..|trace| - 1];
      RunKeepsLoss(cfg, init);
      NextKeepsLoss(cfg, RunWith(cfg, init), LostIn(cfg, init), trace[|trace| - 1]);
    }
  }

  /** In every run each tenant holds one slot per request in flight, and one for every submission
      that was granted a slot and could not be queued: those are never given back. */
  lemma {:induction false} SlotsAreHeldOrLost(cfg: Config, trace: seq<SlotEvent>, tenant: string)
    requires cfg.Valid()
    ensures var s, lost := RunWith(cfg, trace), LostIn(cfg, trace);
            && s.core.tenants.StateOf(tenant).activeCount == TenantCount(Held(s), tenant) + lost[tenant]
                 <= NonNegative(s.core.tenants.PolicyOf(tenant).maxConcurrent)
            && s.core.tenants.PolicyOf(tenant) == PolicyFor(cfg, tenant)
  {
    RunKeepsLoss(cfg, trace);
    BooksWithoutLoss(cfg, RunWith(cfg, trace), LostIn(cfg, trace), tenant);
  }

  function PolicyFor(cfg: Config, tenant: string): Tenant.Policy {
    if tenant in cfg.tenantPolicies then cfg.tenantPolicies[tenant] else cfg.tenantDefault
  }

  lemma {:induction false} BooksWithoutLoss(cfg: Config, s: System, lost: multiset<string>, tenant: string)
    requires LossInv(cfg, s, lost)
    ensures Known(s.worker.raw, s.worker.prog)
    ensures s.core.tenants.StateOf(tenant).activeCount == TenantCount(Held(s), tenant) + lost[tenant]
    ensures s.core.tenants.PolicyOf(tenant) == PolicyFor(cfg, tenant)
  {
    var without := WithTenants(s, Without(s.core.tenants, lost));
    assert QueueBag(without) == QueueBag(s);
    WithoutAt(s.core.tenants, lost, tenant);
  }

  // ----- what lost slots lead to -----

  /** Slots stay lost. */
  lemma {:induction false} LossGrows(cfg: Config, trace: seq<SlotEvent>, more: seq<SlotEvent>)
    requires cfg.Valid()
    ensures LostIn(cfg, trace) <= LostIn(cfg, trace + more)
  {
    if more == [] {
      assert trace + more == trace;
    } else {
      LossGrows(cfg, trace, more[..|more| - 1]);
      assert (trace + more)[..|trace + more| - 1] == trace + more[..|more| - 1];
    }
  }

  /** Once lost slots make up a tenant's whole allowance, none of its requests is ever accepted again,
      whatever happens meanwhile and however little of it is in flight. */
  lemma {:induction false} StarvedForEver(cfg: Config, trace: seq<SlotEvent>, more: seq<SlotEvent>, now: real,
                                          req: GatewayRequest)
    requires cfg.Valid()
    requires var tenant := Tenant.ExtractTenant(req.tenant);
             LostIn(cfg, trace)[tenant] >= PolicyFor(cfg, tenant).maxConcurrent
    ensures !GetsSlot(cfg, RunWith(cfg, trace + more), now, req, ANYONE)
  {
    LossGrows(cfg, trace, more);
    SlotsAreHeldOrLost(cfg, trace + more, Tenant.ExtractTenant(req.tenant));
    FullIsRefused(cfg, RunWith(cfg, trace + more), now, req);
  }

  lemma FullIsRefused(cfg: Config, s: System, now: real, req: GatewayRequest)
    requires s.core.store.Valid()
    requires var tenant := Tenant.ExtractTenant(req.tenant);
             s.core.tenants.StateOf(tenant).activeCount >= s.core.tenants.PolicyOf(tenant).maxConcurrent
    ensures !GetsSlot(cfg, s, now, req, ANYONE)
  {
  }

  /** With nothing in flight and room in its window, a tenant is refused exactly if its whole allowance
      is lost. */
  lemma {:induction false} IdleTenantIsRefusedExactly(cfg: Config, trace: seq<SlotEvent>, tenant: string, now: real,
                                                      priority: int)
    requires cfg.Valid() && TenantCount(Held(RunWith(cfg, trace)), tenant) == 0
    ensures var tenants, policy := RunWith(cfg, trace).core.tenants, PolicyFor(cfg, tenant);
            |Tenant.Later(tenants.StateOf(tenant).timestamps, now - 60.0)| < policy.maxRequestsPerMinute ==>
              (!tenants.CheckIn(tenant, now, priority).1.Allowed?
               <==> LostIn(cfg, trace)[tenant] >= policy.maxConcurrent)
  {
    SlotsAreHeldOrLost(cfg, trace, tenant);
  }

  // ----- and that this happens -----

  /** The time of the k-th failure: a little over a minute after the one before. */
  function FailureTime(k: nat): real {
    61.0 * (k as real)
  }

  /** Submissions that fail to be queued. */
  function Failures(req: GatewayRequest, k: nat): seq<SlotEvent> {
    if k == 0 then [] else Failures(req, k - 1) + [Sent("", FailureTime(k), req, false)]
  }

  /** The tenants when nothing has happened but that `k` slots of one tenant were lost. */
  function AfterFailures(cfg: Config, tenant: string, k: nat): Tenant.Engine {
    Tenant.Engine(cfg.tenantDefault, cfg.tenantPolicies,
                  if k == 0 then map[] else map[tenant := Tenant.TenantState([FailureTime(k)], k)])
  }

  /** Every platform that accepts a tenant's requests can be brought to refuse them for ever. */
  lemma {:induction false} StarvationIsReachable(cfg: Config, req: GatewayRequest, k: nat)
    requires cfg.Valid() && GetsSlot(cfg, Initial(cfg), 0.0, req, ANYONE)
    requires k <= PolicyFor(cfg, Tenant.ExtractTenant(req.tenant)).maxConcurrent
    ensures var tenant, s := Tenant.ExtractTenant(req.tenant), RunWith(cfg, Failures(req, k));
            && s == WithTenants(Initial(cfg), AfterFailures(cfg, tenant, k))
            && Held(s) == multiset{} && LostIn(cfg, Failures(req, k))[tenant] == k
  {
    InitialRuns(cfg, AfterFailures(cfg, Tenant.ExtractTenant(req.tenant), k));
    FailuresLead(cfg, req, k);
  }

  /** The failures have cost the tenant as many slots, and done nothing else. */
  ghost predicate Leads(cfg: Config, req: GatewayRequest, k: nat)
    requires cfg.Valid()
  {
    var tenant := Tenant.ExtractTenant(req.tenant);
    && RunWith(cfg, Failures(req, k)) == WithTenants(Initial(cfg), AfterFailures(cfg, tenant, k))
    && LostIn(cfg, Failures(req, k))[tenant] == k
  }

  lemma {:induction false} FailuresLead(cfg: Config, req: GatewayRequest, k: nat)
    requires cfg.Valid() && GetsSlot(cfg, Initial(cfg), 0.0, req, ANYONE)
    requires k <= PolicyFor(cfg, Tenant.ExtractTenant(req.tenant)).maxConcurrent
    ensures Leads(cfg, req, k)
  {
    if k == 0 {
      NoFailures(cfg, req);
    } else {
      FailuresLead(cfg, req, k - 1);
      FailuresStep(cfg, req, k);
    }
  }

  lemma {:induction false} FailuresStep(cfg: Config, req: GatewayRequest, k: nat)
    requires cfg.Valid() && k >= 1 && GetsSlot(cfg, Initial(cfg), 0.0, req, ANYONE)
    requires k <= PolicyFor(cfg, Tenant.ExtractTenant(req.tenant)).maxConcurrent && Leads(cfg, req, k - 1)
    ensures Leads(cfg, req, k)
  {
    OneMoreFailure(cfg, req, k);
    FailuresSnoc(cfg, req, k);
  }

  lemma {:induction false} NoFailures(cfg: Config, req: GatewayRequest)
    requires cfg.Valid()
    ensures Leads(cfg, req, 0)
  {
  }

  lemma {:induction false} FailuresSnoc(cfg: Config, req: GatewayRequest, k: nat)
    requires cfg.Valid() && k >= 1
    ensures var before, e := Failures(req, k - 1), Sent("", FailureTime(k), req, false);
            && RunWith(cfg, Failures(req, k)) == NextWith(cfg, RunWith(cfg, before), e)
            && LostIn(cfg, Failures(req, k)) == LostIn(cfg, before) + LosesSlot(cfg, RunWith(cfg, before), e)
  {
    var events := Failures(req, k);
    assert events[..|events| - 1] == Failures(req, k - 1);
  }

  /** The check finds the window empty again. */
  lemma FailureCharges(cfg: Config, req: GatewayRequest, k: nat)
    requires k >= 1 && Initial(cfg).core.tenants.CheckIn(Tenant.ExtractTenant(req.tenant), 0.0, req.priority).1.Allowed?
    requires k <= PolicyFor(cfg, Tenant.ExtractTenant(req.tenant)).maxConcurrent
    ensures var tenant := Tenant.ExtractTenant(req.tenant);
            var (tenants, r) := AfterFailures(cfg, tenant, k - 1).CheckIn(tenant, FailureTime(k), req.priority);
            r.Allowed? && tenants == AfterFailures(cfg, tenant, k)
  {
    var tenant := Tenant.ExtractTenant(req.tenant);
    var before := AfterFailures(cfg, tenant, k - 1).StateOf(tenant).timestamps;
    if k > 1 {
      assert before == [FailureTime(k - 1)] && before[..0] == [];
      assert FailureTime(k - 1) <= FailureTime(k) - 60.0;
    }
    assert Tenant.Later(before, FailureTime(k) - 60.0) == [];
    assert [] + [FailureTime(k)] == [FailureTime(k)];
  }

  lemma OneMoreFailure(cfg: Config, req: GatewayRequest, k: nat)
    requires cfg.Valid() && k >= 1 && GetsSlot(cfg, Initial(cfg), 0.0, req, ANYONE)
    requires k <= PolicyFor(cfg, Tenant.ExtractTenant(req.tenant)).maxConcurrent
    ensures var tenant, e := Tenant.ExtractTenant(req.tenant), Sent("", FailureTime(k), req, false);
            var s := WithTenants(Initial(cfg), AfterFailures(cfg, tenant, k - 1));
            && Runs(cfg, s) && LosesSlot(cfg, s, e) == multiset{tenant}
            && NextWith(cfg, s, e) == WithTenants(Initial(cfg), AfterFailures(cfg, tenant, k))
  {
    var tenant, e := Tenant.ExtractTenant(req.tenant), Sent("", FailureTime(k), req, false);
    var s := WithTenants(Initial(cfg), AfterFailures(cfg, tenant, k - 1));
    InitialRuns(cfg, s.core.tenants);
    FailureCharges(cfg, req, k);
    assert AdmissionOf(cfg, s) == AdmissionOf(cfg, Initial(cfg));
    FailureLoses(cfg, s, e);
  }

  lemma InitialRuns(cfg: Config, tenants: Tenant.Engine)
    requires cfg.Valid()
    ensures Runs(cfg, WithTenants(Initial(cfg), tenants))
    ensures Held(WithTenants(Initial(cfg), tenants)) == multiset{}
  {
  }

  /** A failure takes the slot and does nothing else. */
  lemma FailureLoses(cfg: Config, s: System, e: SlotEvent)
    requires Runs(cfg, s) && e.Sent? && !e.published && e.id !in s.core.store.records
    requires GetsSlot(cfg, s, e.now, e.req, ANYONE)
    ensures var tenant := Tenant.ExtractTenant(e.req.tenant);
            && LosesSlot(cfg, s, e) == multiset{tenant}
            && NextWith(cfg, s, e) == WithTenants(s, s.core.tenants.CheckIn(tenant, e.now, e.req.priority).0)
  {
  }

  /** The demo, for one, after ten failures. */
  lemma {:induction false} DemoStarves(req: GatewayRequest, more: seq<SlotEvent>, now: real)
    ensures DEMO.Valid()
    ensures Held(RunWith(DEMO, Failures(req, 10))) == multiset{}
    ensures !GetsSlot(DEMO, RunWith(DEMO, Failures(req, 10) + more), now, req, ANYONE)
  {
    DemoConfigurationIsCovered();
    StarvationIsReachable(DEMO, req, 10);
    StarvedForEver(DEMO, Failures(req, 10), more, now, req);
  }
}
