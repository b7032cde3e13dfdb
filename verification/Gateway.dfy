/** The gateway of the in-process platform as the objects it is made of: `SubmitInference` is proved
    to be the submission step of the platform's model, extended by authentication and by a queue
    that may fail to take the request. */
module Gateways {
  import opened Options
  import opened Results
  import opened Demo
  import Admission
  import PriorityQueue
  import Router
  import Tenant

  type Queue = PriorityQueue.PriorityInferenceQueue<Payload>

  /** What authentication says of a caller. */
  datatype AuthResult = AuthResult(authenticated: bool, tenantId: Option<string>)

  datatype Outcome = Unauthorized | Unavailable | Decided(result: SubmitResult)

  /** The tenant that is charged: the authenticated one, or else the one the metadata names. */
  function ChargedTenant(auth: AuthResult, req: GatewayRequest): string {
    if auth.tenantId.Some? && auth.tenantId.value != "" then auth.tenantId.value else Tenant.ExtractTenant(req.tenant)
  }

  /** What admission control says; the gateway leaves the queue depth at its default, zero. */
  function AdmissionOf(cfg: Config, s: System): Admission.Decision
    requires s.core.store.Valid()
  {
    Admission.Check(cfg.admission,
                    Admission.SystemLoad(0, s.core.store.CountOf(Pending), s.core.store.CountOf(Processing)))
  }

  /** Submission by a caller, to a queue that takes the request or fails. */
  function SubmitAs(cfg: Config, s: System, id: string, now: real, req: GatewayRequest, auth: AuthResult,
                    published: bool)
    : (System, Outcome)
    requires cfg.router.Valid() && s.core.store.Valid()
  {
    var admission := AdmissionOf(cfg, s);
    if !auth.authenticated then (s, Unauthorized)
    else if admission != Admission.Admit && admission != Admission.Disabled
        then (s, Decided(RejectedByAdmission(admission)))
    else
      var (tenants, check) := s.core.tenants.CheckIn(ChargedTenant(auth, req), now, req.priority);
      var charged := s.(core := s.core.(tenants := tenants));
      if !check.Allowed? then (charged, Decided(RejectedByTenant(check)))
      else if !published then (charged, Unavailable)
      else
        var p := PayloadFor(cfg, id, now, req);
        var queue := s.queue.Put(PriorityQueue.PriorityToLane(req.priority), p);
        (System(queue, s.core.(store := s.core.store.Put(PendingRecord(p)), tenants := tenants), s.worker),
         Decided(Accepted))
  }

  /** Without authentication and with a queue that works, this is the platform's submission step. */
  lemma PlainSubmission(cfg: Config, s: System, id: string, now: real, req: GatewayRequest, auth: AuthResult)
    requires cfg.router.Valid() && s.core.store.Valid() && auth.authenticated
             && ChargedTenant(auth, req) == Tenant.ExtractTenant(req.tenant)
    ensures SubmitAs(cfg, s, id, now, req, auth, true)
         == (Submit(cfg, s, id, now, req).0, Decided(Submit(cfg, s, id, now, req).1))
  {
  }

  /** The Retry-After header of an answer. */
  function RetryAfterHeader(o: Outcome): Option<int> {
    match o
    case Decided(RejectedByAdmission(d)) => Admission.RetryAfter(d)
    case Decided(RejectedByTenant(RateLimited(_, seconds))) => Some(seconds)
    case Decided(RejectedByTenant(ConcurrencyLimited(_, seconds))) => Some(seconds)
    case _ => None
  }

  /** Which answers say when to come back: exactly those refused by admission control or on a limit
      of the tenant, not those refused for want of authentication or of a queue. */
  lemma RefusalsSayWhen(cfg: Config, s: System, id: string, now: real, req: GatewayRequest, auth: AuthResult,
                        published: bool)
    requires cfg.router.Valid() && s.core.store.Valid()
    ensures var (_, o) := SubmitAs(cfg, s, id, now, req, auth, published);
            var check := s.core.tenants.CheckIn(ChargedTenant(auth, req), now, req.priority).1;
            && (RetryAfterHeader(o).Some? <==>
                  && auth.authenticated
                  && (AdmissionOf(cfg, s) !in {Admission.Admit, Admission.Disabled}
                      || check.RateLimited? || check.ConcurrencyLimited?))
            && (RetryAfterHeader(o).Some? ==>
                  RetryAfterHeader(o).value
                  == match o.result
                     case RejectedByAdmission(RejectQueueDepth) => 10
                     case RejectedByAdmission(RejectPending) => 5
                     case RejectedByAdmission(_) => 15
                     case _ => check.retryAfterSeconds)
            && (RetryAfterHeader(o).Some? ==> RetryAfterHeader(o).value >= 1)
  {
  }

  /** The decision on every submission: who is charged, why it is refused, and what is left of it. */
  lemma SubmissionExactly(cfg: Config, s: System, id: string, now: real, req: GatewayRequest, auth: AuthResult,
                          published: bool)
    requires cfg.router.Valid() && s.core.store.Valid()
    ensures var (s', o) := SubmitAs(cfg, s, id, now, req, auth, published);
            var tenant := if auth.tenantId.Some? && auth.tenantId.value != "" then auth.tenantId.value
                          else if req.tenant.Some? then req.tenant.value else "__default__";
            var (tenants, check) := s.core.tenants.CheckIn(tenant, now, req.priority);
            var full := cfg.admission.enabled && (cfg.admission.maxQueueDepth <= 0
                                                  || s.core.store.CountOf(Pending) >= cfg.admission.maxPendingRequests
                                                  || s.core.store.CountOf(Processing)
                                                     >= cfg.admission.maxProcessingRequests);
            && (o.Unauthorized? <==> !auth.authenticated)
            && (o.Decided? && o.result.RejectedByAdmission? <==> auth.authenticated && full)
            && (o.Decided? && o.result.RejectedByTenant? <==> auth.authenticated && !full && !check.Allowed?)
            && (o.Decided? && o.result.RejectedByTenant? ==> o.result.r == check)
            && (o.Unavailable? <==> auth.authenticated && !full && check.Allowed? && !published)
            && s'.core.tenants == (if auth.authenticated && !full then tenants else s.core.tenants)
            && (s'.core.breaker, s'.core.latency, s'.worker) == (s.core.breaker, s.core.latency, s.worker)
            && if o == Decided(Accepted) then IsQueued(cfg, s, s', id, now, req)
               else s'.core.store == s.core.store && s'.queue == s.queue
  {
  }

  /** The request is at the end of one lane, with a PENDING record under its id. */
  predicate IsQueued(cfg: Config, s: System, s': System, id: string, now: real, req: GatewayRequest)
    requires cfg.router.Valid()
  {
    var model := Router.Route(cfg.router, Router.Request(req.prompt, req.context, req.eventType, req.priority,
                                                         req.requestedModel), _ => false).modelName;
    var p := Payload(id, now, req.prompt, req.context, req.eventType, req.priority, model, req.tenant);
    && s'.queue.high == s.queue.high + (if req.priority <= 2 then [p] else [])
    && s'.queue.normal == s.queue.normal + (if 3 <= req.priority <= 7 then [p] else [])
    && s'.queue.low == s.queue.low + (if 8 <= req.priority then [p] else [])
    && s'.core.store.records
       == s.core.store.records[id := Record(id, Pending, Some(now), None, Some(model), None, None)]
    && s'.core.store.order == s.core.store.order + (if id in s.core.store.records then [] else [id])
  }

  class InProcessPublisher {
    const queue: Queue

    constructor (queue: Queue)
      ensures this.queue == queue
    {
      this.queue := queue;
    }

    method Publish(payload: Payload)
      requires queue.Valid()
      modifies queue
      ensures queue.Valid() && queue.lanes == old(queue.lanes).Put(PriorityQueue.PriorityToLane(payload.priority),
                                                                   payload)
    {
      queue.Put(payload, payload.priority);
    }
  }

  class Gateway {
    const cfg: Config
    const resultStore: InMemoryResultStore
    const tenantEngine: Tenant.TenantPolicyEngine
    const publisher: InProcessPublisher

    ghost predicate Valid()
      reads resultStore, publisher.queue
    {
      cfg.router.Valid() && resultStore.store.Valid() && publisher.queue.Valid()
    }

    /** The gateway's objects hold what the platform's state `s` says. */
    ghost predicate Shows(s: System)
      reads resultStore, tenantEngine, publisher.queue
    {
      s.core.store == resultStore.store && s.core.tenants == tenantEngine.View() && s.queue == publisher.queue.lanes
    }

    constructor (cfg: Config, resultStore: InMemoryResultStore, tenantEngine: Tenant.TenantPolicyEngine,
                 publisher: InProcessPublisher)
      requires cfg.router.Valid() && resultStore.store.Valid() && publisher.queue.Valid()
      ensures Valid() && this.cfg == cfg && this.resultStore == resultStore
      ensures this.tenantEngine == tenantEngine && this.publisher == publisher
    {
      this.cfg := cfg;
      this.resultStore := resultStore;
      this.tenantEngine := tenantEngine;
      this.publisher := publisher;
    }

    /** `id` and `now` are the fresh request id and the clock; `auth` is what the caller's
        authorization header amounts to, `published` whether the queue takes the request. */
    method SubmitInference(id: string, now: real, request: GatewayRequest, auth: AuthResult, published: bool,
                           ghost s: System)
      returns (outcome: Outcome)
      requires Valid() && Shows(s)
      modifies resultStore, tenantEngine, publisher.queue
      ensures Valid() && Shows(SubmitAs(cfg, s, id, now, request, auth, published).0)
      ensures outcome == SubmitAs(cfg, s, id, now, request, auth, published).1
    {
      if !auth.authenticated {
        return Unauthorized;
      }
      var pending := resultStore.ScanByStatus(Pending);
      var processing := resultStore.ScanByStatus(Processing);
      var admission := Admission.Check(cfg.admission, Admission.SystemLoad(0, |pending|, |processing|));
      if admission != Admission.Admit && admission != Admission.Disabled {
        return Decided(RejectedByAdmission(admission));
      }
      var tenantId := if auth.tenantId.Some? && auth.tenantId.value != "" then auth.tenantId.value
                      else Tenant.ExtractTenant(request.tenant);
      var tenantResult := tenantEngine.CheckTenant(tenantId, now, request.priority);
      if !tenantResult.Allowed? {
        return Decided(RejectedByTenant(tenantResult));
      }
      var routingDecision := Router.Route(cfg.router,
        Router.Request(request.prompt, request.context, request.eventType, request.priority,
                       request.requestedModel), _ => false);
      var payload := Payload(id, now, request.prompt, request.context, request.eventType, request.priority,
                             routingDecision.modelName, request.tenant);
      if !published {
        return Unavailable;
      }
      publisher.Publish(payload);
      resultStore.Put(Record(id, Pending, Some(now), None, Some(routingDecision.modelName), None, None));
      outcome := Decided(Accepted);
    }
  }
}
