/** The in-process platform: one gateway, one priority queue, one worker, sharing a result store
    and a tenant engine. The worker's remaining work on a batch is a program, a list of operations;
    executing the head of the program is one step, between any two of which the gateway may act. */
module Demo {
  import opened Options
  import opened Results
  import Admission
  import Batching
  import Breaker
  import Latency
  import PriorityQueue
  import Reconciliation
  import Router
  import Scheduler
  import Tenant

  /** The queued message: what the worker reads of it. `tenant` is the tenant its metadata
      names, if any. */
  datatype Payload = Payload(
    eventId: string,
    timestamp: real,
    prompt: string,
    context: string,
    eventType: string,
    priority: int,
    requestedModel: string,
    tenant: Option<string>)
  {
    function TenantId(): string {
      Tenant.ExtractTenant(tenant)
    }
  }

  /** The fixed configuration of a deployment. The gateway and the worker route over the same
      profiles; only the worker's router has a latency tracker. */
  datatype Config = Config(
    router: Router.ModelRouter,
    batching: Batching.Policy,
    profiles: map<string, Scheduler.Profile>,
    scheduling: Scheduler.Policy,
    gpu: Scheduler.Device,
    breaker: Breaker.Policy,
    admission: Admission.Policy,
    tenantDefault: Tenant.Policy,
    tenantPolicies: map<string, Tenant.Policy>,
    latency: Latency.Policy,
    reconciliation: Reconciliation.Config)
  {
    ghost predicate Valid() {
      router.Valid() && batching.Valid() && batching.allowSingleItemBatches
    }
  }

  /** The configuration of the demo. */
  const DEMO := Config(
    Router.ModelRouter([Router.ModelProfile("demo-small", 4096, 10, true, true),
                        Router.ModelProfile("demo-large", 32768, 20, true, true)], "demo-small"),
    Batching.Policy(4, 12000, 2, true),
    map["demo-small" := Scheduler.Profile("demo-small", 4096, 20.0, 8),
        "demo-large" := Scheduler.Profile("demo-large", 16384, 50.0, 2)],
    Scheduler.Policy(1024, 92.0, false),
    Scheduler.Device("gpu-0", 49152, 0, 0.0, false),
    Breaker.Policy(3, 10.0, 1),
    Admission.Policy(100, 50, 20, true),
    Tenant.Policy(60, 10, 0),
    map[],
    Latency.Policy(100, 2000.0, 10),
    Reconciliation.Config(60.0, 300.0, true, false, false, false))

  /** What the worker shares with the gateway, or keeps between batches. */
  datatype Core = Core(store: Store, tenants: Tenant.Engine, breaker: Breaker.State, latency: Latency.Tracker)

  /** The world's contribution to one step: the clock, and the adapter's output if one is awaited. */
  datatype Tick = Tick(now: real, text: Option<string>, error: Option<string>, durationMs: real) {
    predicate Success() {
      text.Some? && error.None?
    }
  }

  // ----- the worker's program -----

  datatype Op =
    | Gate(batch: Batching.Batch)                                        // schedule, then ask the breaker
    | Fail(candidate: Batching.Candidate, model: string, cause: Failure) // write FAILED
    | Mark(candidate: Batching.Candidate, model: string)                 // write PROCESSING
    | Answer(candidate: Batching.Candidate, model: string)               // record one output
    | Release(requestId: string)                                         // free the tenant slot

  function FailAll(cs: seq<Batching.Candidate>, model: string, cause: Failure): seq<Op> {
    if cs == [] then [] else [Fail(cs[0], model, cause), Release(cs[0].requestId)] + FailAll(cs[1..], model, cause)
  }

  function MarkAll(cs: seq<Batching.Candidate>, model: string): seq<Op> {
    if cs == [] then [] else [Mark(cs[0], model)] + MarkAll(cs[1..], model)
  }

  function AnswerAll(cs: seq<Batching.Candidate>, model: string): seq<Op> {
    if cs == [] then [] else [Answer(cs[0], model), Release(cs[0].requestId)] + AnswerAll(cs[1..], model)
  }

  function Gates(bs: seq<Batching.Batch>): seq<Op> {
    if bs == [] then [] else [Gate(bs[0])] + Gates(bs[1..])
  }

  /** The ids an operation looks up in the message table. */
  function IdsOf(op: Op): set<string> {
    match op
    case Gate(b) => set c | c in b.candidates :: c.requestId
    case Fail(c, _, _) => {c.requestId}
    case Mark(c, _) => {c.requestId}
    case Answer(c, _) => {c.requestId}
    case Release(id) => {id}
  }

  predicate Known(raw: map<string, Payload>, prog: seq<Op>) {
    forall op :: op in prog ==> IdsOf(op) <= raw.Keys
  }

  function FailedRecord(id: string, p: Payload, model: string, cause: Failure, now: real): Record {
    Record(id, Failed, Some(p.timestamp), Some(now), Some(model), None, Some(cause))
  }

  function ProcessingRecord(id: string, p: Payload, model: string): Record {
    Record(id, Processing, Some(p.timestamp), None, Some(model), None, None)
  }

  function ErrorOf(error: Option<string>): Option<Failure> {
    if error.Some? then Some(InferenceError(error.value)) else None
  }

  function AnswerRecord(id: string, p: Payload, model: string, t: Tick): Record {
    if t.Success() then Record(id, Completed, Some(p.timestamp), Some(t.now), Some(model), t.text, None)
    else Record(id, Failed, Some(p.timestamp), Some(t.now), Some(model), None, ErrorOf(t.error))
  }

  predicate Writes(op: Op) {
    op.Fail? || op.Mark? || op.Answer?
  }

  /** The record an operation writes. */
  function Written(raw: map<string, Payload>, op: Op, t: Tick): (r: Record)
    requires Writes(op) && op.candidate.requestId in raw
    ensures r.requestId == op.candidate.requestId && r.status != Pending
    ensures r.status == Processing <==> op.Mark?
  {
    var id := op.candidate.requestId;
    match op
    case Fail(_, model, cause) => FailedRecord(id, raw[id], model, cause, t.now)
    case Mark(_, model) => ProcessingRecord(id, raw[id], model)
    case Answer(_, model) => AnswerRecord(id, raw[id], model, t)
  }

  /** A batch at the gate: the scheduler first, then the breaker. */
  function PassGate(cfg: Config, core: Core, b: Batching.Batch, now: real): (Core, seq<Op>) {
    var placement := Scheduler.Schedule(cfg.profiles, cfg.scheduling, b.modelName, [cfg.gpu], |b.candidates|);
    if placement.status != Scheduler.Scheduled then (core, FailAll(b.candidates, b.modelName, SchedulingDeferred))
    else
      var (breaker, allowed) := Breaker.Allow(cfg.breaker, core.breaker, now);
      (core.(breaker := breaker),
       if allowed then MarkAll(b.candidates, b.modelName) + AnswerAll(b.candidates, b.modelName)
       else FailAll(b.candidates, b.modelName, BreakerOpen))
  }

  /** One operation: the new core and the operations it expands to. */
  function Step(cfg: Config, raw: map<string, Payload>, core: Core, op: Op, t: Tick): (Core, seq<Op>)
    requires IdsOf(op) <= raw.Keys
  {
    match op
    case Gate(b) => PassGate(cfg, core, b, t.now)
    case Fail(c, _, _) => (core.(store := core.store.Put(Written(raw, op, t))), [])
    case Mark(c, _) => (core.(store := core.store.Put(Written(raw, op, t))), [])
    case Answer(c, model) =>
      var store := core.store.Put(Written(raw, op, t));
      if t.Success()
      then (core.(store := store, breaker := Breaker.Success(core.breaker),
                  latency := core.latency.Record(model, t.durationMs)), [])
      else (core.(store := store, breaker := Breaker.Failure(cfg.breaker, core.breaker, t.now)), [])
    case Release(id) =>
      (core.(tenants := core.tenants.ReleaseIn(raw[id].TenantId())), [])
  }

  function OpCost(op: Op): nat {
    match op
    case Gate(b) => 1 + 3 * |b.candidates|
    case _ => 1
  }

  /** A bound on the number of steps a program takes. */
  function Cost(prog: seq<Op>): nat {
    if prog == [] then 0 else OpCost(prog[0]) + Cost(prog[1..])
  }

  lemma {:induction false} CostConcat(a: seq<Op>, b: seq<Op>)
    ensures Cost(a + b) == Cost(a) + Cost(b)
  {
    if a == [] {
      assert a + b == b;
    } else {
      CostConcat(a[1..], b);
      assert (a + b)[1..] == a[1..] + b;
    }
  }

  lemma {:induction false} ExpansionFacts(raw: map<string, Payload>, cs: seq<Batching.Candidate>, model: string,
                                          cause: Failure)
    requires forall c :: c in cs ==> c.requestId in raw
    ensures Cost(FailAll(cs, model, cause)) == 2 * |cs| && Known(raw, FailAll(cs, model, cause))
    ensures Cost(MarkAll(cs, model)) == |cs| && Known(raw, MarkAll(cs, model))
    ensures Cost(AnswerAll(cs, model)) == 2 * |cs| && Known(raw, AnswerAll(cs, model))
  {
    if cs != [] {
      ExpansionFacts(raw, cs[1..], model, cause);
      var f, r, a := Fail(cs[0], model, cause), Release(cs[0].requestId), Answer(cs[0], model);
      assert cs[0] in cs;
      assert ([f, r] + FailAll(cs[1..], model, cause))[1..][1..] == FailAll(cs[1..], model, cause);
      assert ([a, r] + AnswerAll(cs[1..], model))[1..][1..] == AnswerAll(cs[1..], model);
    }
  }

  lemma GateShrinks(cfg: Config, raw: map<string, Payload>, core: Core, op: Op, t: Tick)
    requires op.Gate? && IdsOf(op) <= raw.Keys
    ensures Cost(Step(cfg, raw, core, op, t).1) < OpCost(op) && Known(raw, Step(cfg, raw, core, op, t).1)
  {
    var cs, model := op.batch.candidates, op.batch.modelName;
    forall c | c in cs ensures c.requestId in raw {
      assert c.requestId in IdsOf(op);
    }
    ExpansionFacts(raw, cs, model, SchedulingDeferred);
    ExpansionFacts(raw, cs, model, BreakerOpen);
    CostConcat(MarkAll(cs, model), AnswerAll(cs, model));
  }

  /** Every step makes progress and stays within the message table. */
  lemma {:induction false} StepShrinks(cfg: Config, raw: map<string, Payload>, core: Core, prog: seq<Op>, t: Tick)
    requires prog != [] && Known(raw, prog)
    ensures prog[0] in prog && IdsOf(prog[0]) <= raw.Keys
    ensures var next := Step(cfg, raw, core, prog[0], t).1 + prog[1..];
            Cost(next) < Cost(prog) && Known(raw, next)
  {
    assert prog[0] in prog;
    if prog[0].Gate? {
      GateShrinks(cfg, raw, core, prog[0], t);
    }
    CostConcat(Step(cfg, raw, core, prog[0], t).1, prog[1..]);
  }

  /** The program run to its end with nobody else acting; `world(n)` is what step `n` meets. */
  function Execute(cfg: Config, raw: map<string, Payload>, core: Core, prog: seq<Op>, world: nat -> Tick, n: nat): Core
    requires Known(raw, prog)
    decreases Cost(prog)
  {
    if prog == [] then core
    else
      StepShrinks(cfg, raw, core, prog, world(n));
      var (next, pushed) := Step(cfg, raw, core, prog[0], world(n));
      Execute(cfg, raw, next, pushed + prog[1..], world, n + 1)
  }

  // ----- from messages to a program -----

  /** The bodies of a delivery under their request ids; a repeated id keeps the last body. */
  function RawOf(ps: seq<Payload>): map<string, Payload> {
    if ps == [] then map[] else RawOf(ps[..|ps| - 1])[ps[|ps| - 1].eventId := ps[|ps| - 1]]
  }

  function CandidateOf(cfg: Config, latency: Latency.Tracker, p: Payload): Batching.Candidate
    requires cfg.router.Valid()
  {
    var d := Router.Route(cfg.router, Router.Request(p.prompt, p.context, p.eventType, p.priority,
                                                     Some(p.requestedModel)),
                          model => latency.IsDegraded(model));
    Batching.Candidate(p.eventId, p.prompt, p.context, d.modelName, p.eventType, p.priority,
                       d.estimatedTokens, d.batchable, p.timestamp)
  }

  function CandidatesOf(cfg: Config, latency: Latency.Tracker, ps: seq<Payload>): seq<Batching.Candidate>
    requires cfg.router.Valid()
  {
    if ps == [] then []
    else CandidatesOf(cfg, latency, ps[..|ps| - 1]) + [CandidateOf(cfg, latency, ps[|ps| - 1])]
  }

  function ProgramFor(cfg: Config, latency: Latency.Tracker, ps: seq<Payload>): seq<Op>
    requires cfg.router.Valid() && cfg.batching.Valid()
  {
    Gates(Batching.Plan(cfg.batching, CandidatesOf(cfg, latency, ps)))
  }

  // ----- the system -----

  /** Idle or inside `get_batch` when `prog` is empty: `taken` holds the items so far, `probe` is
      the lane probe of the current `get` to be made next. */
  datatype Worker = Worker(taken: seq<Payload>, probe: nat, raw: map<string, Payload>, prog: seq<Op>)

  datatype System = System(queue: PriorityQueue.Lanes<Payload>, core: Core, worker: Worker)

  datatype GatewayRequest = GatewayRequest(
    prompt: string,
    context: string,
    eventType: string,
    priority: int,
    requestedModel: Option<string>,
    tenant: Option<string>)

  datatype SubmitResult =
    | Accepted
    | RejectedByAdmission(d: Admission.Decision)
    | RejectedByTenant(r: Tenant.CheckResult)

  /** Submission, as one step: admission, tenant check, routing, publishing, PENDING record. The
      gateway leaves the queue depth of the load at its default, zero. */
  function Submit(cfg: Config, s: System, id: string, now: real, req: GatewayRequest): (System, SubmitResult)
    requires cfg.router.Valid() && s.core.store.Valid()
  {
    var load := Admission.SystemLoad(0, s.core.store.CountOf(Pending), s.core.store.CountOf(Processing));
    var admission := Admission.Check(cfg.admission, load);
    if admission != Admission.Admit && admission != Admission.Disabled then (s, RejectedByAdmission(admission))
    else
      var (tenants, check) := s.core.tenants.CheckIn(Tenant.ExtractTenant(req.tenant), now, req.priority);
      if !check.Allowed? then (s.(core := s.core.(tenants := tenants)), RejectedByTenant(check))
      else
        var p := PayloadFor(cfg, id, now, req);
        var queue := s.queue.Put(PriorityQueue.PriorityToLane(req.priority), p);
        (System(queue, s.core.(store := s.core.store.Put(PendingRecord(p)), tenants := tenants), s.worker), Accepted)
  }

  function PayloadFor(cfg: Config, id: string, now: real, req: GatewayRequest): Payload
    requires cfg.router.Valid()
  {
    var d := Router.Route(cfg.router, Router.Request(req.prompt, req.context, req.eventType, req.priority,
                                                     req.requestedModel),
                          _ => false);
    Payload(id, now, req.prompt, req.context, req.eventType, req.priority, d.modelName, req.tenant)
  }

  function PendingRecord(p: Payload): Record {
    Record(p.eventId, Pending, Some(p.timestamp), None, Some(p.requestedModel), None, None)
  }

  /** The worker starts on the items it has taken. */
  function Begin(cfg: Config, s: System, taken: seq<Payload>): System
    requires cfg.router.Valid() && cfg.batching.Valid()
  {
    s.(worker := Worker([], 0, RawOf(taken), ProgramFor(cfg, s.core.latency, taken)))
  }

  /** One step of the worker: the next operation of its program, or else the next lane probe. */
  function Work(cfg: Config, s: System, t: Tick): System
    requires cfg.router.Valid() && cfg.batching.Valid()
    requires Known(s.worker.raw, s.worker.prog) && s.worker.probe < 6
  {
    var w := s.worker;
    if w.prog != [] then
      StepShrinks(cfg, w.raw, s.core, w.prog, t);
      var (core, pushed) := Step(cfg, w.raw, s.core, w.prog[0], t);
      System(s.queue, core, w.(prog := pushed + w.prog[1..]))
    else
      var lane := PriorityQueue.ProbeLane(w.probe);
      var items := s.queue.Of(lane);
      if items != [] then
        var taken := w.taken + [items[0]];
        var popped := s.(queue := s.queue.With(lane, items[1..]));
        if |taken| >= cfg.batching.maxBatchSize then Begin(cfg, popped, taken)
        else popped.(worker := w.(taken := taken, probe := 0))
      else if w.probe < 5 then s.(worker := w.(probe := w.probe + 1))
      else if w.taken == [] then s.(worker := w.(probe := 0))
      else Begin(cfg, s, w.taken)
  }

  // ----- runs -----

  function Initial(cfg: Config): System {
    System(PriorityQueue.Lanes([], [], []),
           Core(EMPTY, Tenant.Engine(cfg.tenantDefault, cfg.tenantPolicies, map[]), Breaker.FRESH,
                Latency.Tracker(cfg.latency, map[])),
           Worker([], 0, map[], []))
  }

  datatype Event =
    | SubmitEvent(id: string, now: real, req: GatewayRequest)
    | WorkEvent(tick: Tick)
    | ReconcileEvent(now: real)

  /** What every step relies on. */
  ghost predicate Runs(cfg: Config, s: System) {
    && cfg.Valid() && s.core.store.Valid()
    && Known(s.worker.raw, s.worker.prog) && s.worker.probe < 6
  }

  /** Request ids are fresh: a submission never draws one that is in use. */
  function Next(cfg: Config, s: System, e: Event): System
    requires Runs(cfg, s)
  {
    match e
    case SubmitEvent(id, now, req) => if id in s.core.store.records then s else Submit(cfg, s, id, now, req).0
    case WorkEvent(tick) => Work(cfg, s, tick)
    case ReconcileEvent(now) =>
      if Reconciliation.Heals(cfg.reconciliation) then
        var stale := Reconciliation.StaleRecords(cfg.reconciliation, s.core.store, now);
        s.(core := s.core.(store := Reconciliation.Heal(s.core.store, stale, false, now)))
      else s
  }
}
