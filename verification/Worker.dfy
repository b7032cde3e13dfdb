/** The queue worker: a message stays on the queue until it is deleted and may be delivered again.
    As for the demo worker, the rest of a batch is a program whose head is executed step by step. */
module Worker {
  import opened Options
  import opened Results
  import Batching
  import Breaker
  import Latency
  import Router
  import Scheduler
  import Sorting

  datatype Task = Task(
    eventId: string,
    timestamp: real,
    prompt: string,
    context: string,
    eventType: string,
    priority: int,
    requestedModel: Option<string>)

  /** A queue message; a body that does not parse as a task is None. */
  datatype Message = Message(receipt: string, body: Option<Task>)

  datatype Config = Config(
    router: Router.ModelRouter,
    batching: Batching.Policy,
    gpuSchedulingEnabled: bool,
    profiles: map<string, Scheduler.Profile>,
    scheduling: Scheduler.Policy,
    devices: seq<Scheduler.Device>,
    breaker: Breaker.Policy,
    ttlSeconds: real)
  {
    ghost predicate Valid() {
      router.Valid() && batching.Valid() && batching.allowSingleItemBatches && profiles != map[]
    }
  }

  /** `deleted` are the receipts of deleted messages; `completions` lists the ids of all COMPLETED
      writes in order. */
  datatype Core = Core(
    store: Store,
    breaker: Breaker.State,
    latency: Latency.Tracker,
    deleted: set<string>,
    completions: seq<string>)

  datatype Tick = Tick(now: real, text: Option<string>, error: Option<string>, durationMs: real) {
    predicate Success() {
      text.Some? && error.None?
    }
  }

  datatype Op =
    | Gate(batch: Batching.Batch)
    | Refuse(candidate: Batching.Candidate, model: string)               // breaker open: FAILED, not deleted
    | Sweep(unchecked: seq<Batching.Candidate>, live: seq<Batching.Candidate>, model: string)  // TTL check
    | Mark(candidate: Batching.Candidate, model: string)
    | Answer(candidate: Batching.Candidate, model: string)
    | Delete(requestId: string)

  function RefuseAll(cs: seq<Batching.Candidate>, model: string): seq<Op> {
    if cs == [] then [] else [Refuse(cs[0], model)] + RefuseAll(cs[1..], model)
  }

  function MarkAll(cs: seq<Batching.Candidate>, model: string): seq<Op> {
    if cs == [] then [] else [Mark(cs[0], model)] + MarkAll(cs[1..], model)
  }

  function AnswerAll(cs: seq<Batching.Candidate>, model: string): seq<Op> {
    if cs == [] then [] else [Answer(cs[0], model)] + AnswerAll(cs[1..], model)
  }

  /** The position of the last candidate with this id. */
  function LastAt(cs: seq<Batching.Candidate>, id: string): nat {
    if cs == [] then 0 else if cs[|cs| - 1].requestId == id then |cs| - 1 else LastAt(cs[..|cs| - 1], id)
  }

  /** The first candidate with the id of `c`. */
  function FirstLike(cs: seq<Batching.Candidate>, c: Batching.Candidate): (first: Batching.Candidate)
    ensures first.requestId == c.requestId
  {
    if cs == [] then c else if cs[0].requestId == c.requestId then cs[0] else FirstLike(cs[1..], c)
  }

  function FirstsLike(cs: seq<Batching.Candidate>, xs: seq<Batching.Candidate>): (firsts: seq<Batching.Candidate>)
    ensures |firsts| == |xs| && forall i :: 0 <= i < |xs| ==> firsts[i] == FirstLike(cs, xs[i])
  {
    if xs == [] then [] else [FirstLike(cs, xs[0])] + FirstsLike(cs, xs[1..])
  }

  function ByLast(cs: seq<Batching.Candidate>): (Batching.Candidate, Batching.Candidate) -> bool {
    (a: Batching.Candidate, b: Batching.Candidate) => LastAt(cs, a.requestId) <= LastAt(cs, b.requestId)
  }

  /** The candidates in the order in which their outputs are recorded: an id that occurs more than once
      comes where it occurs last, and stands for its first candidate. */
  function AnswerOrder(cs: seq<Batching.Candidate>): (order: seq<Batching.Candidate>)
    ensures |order| == |cs|
  {
    Sorting.SortPermutes(ByLast(cs), cs);
    FirstsLike(cs, Sorting.Sort(ByLast(cs), cs))
  }

  function Gates(bs: seq<Batching.Batch>): seq<Op> {
    if bs == [] then [] else [Gate(bs[0])] + Gates(bs[1..])
  }

  function FailedRecord(c: Batching.Candidate, model: string, cause: Failure, now: real): Record {
    Record(c.requestId, Failed, Some(c.timestamp), Some(now), Some(model), None, Some(cause))
  }

  function ProcessingRecord(c: Batching.Candidate, model: string): Record {
    Record(c.requestId, Processing, Some(c.timestamp), None, Some(model), None, None)
  }

  function CompletedRecord(c: Batching.Candidate, model: string, t: Tick): Record {
    Record(c.requestId, Completed, Some(c.timestamp), Some(t.now), Some(model), t.text, None)
  }

  function ErrorOf(error: Option<string>): Failure {
    InferenceError(if error.Some? && error.value != "" then error.value else "Inference failed")
  }

  predicate IsExpired(cfg: Config, c: Batching.Candidate, now: real) {
    now - c.timestamp > cfg.ttlSeconds
  }

  predicate Placed(cfg: Config, b: Batching.Batch) {
    !cfg.gpuSchedulingEnabled
    || Scheduler.Schedule(cfg.profiles, cfg.scheduling, b.modelName, cfg.devices, |b.candidates|).status
        == Scheduler.Scheduled
  }

  function Write(core: Core, r: Record): Core {
    core.(store := core.store.Put(r),
          completions := core.completions + if r.status == Completed then [r.requestId] else [])
  }

  /** Does the operation write a record, and which? */
  predicate Writes(cfg: Config, op: Op, t: Tick) {
    match op
    case Refuse(_, _) => true
    case Mark(_, _) => true
    case Answer(_, _) => true
    case Sweep(unchecked, _, _) => unchecked != [] && IsExpired(cfg, unchecked[0], t.now)
    case _ => false
  }

  function Written(cfg: Config, op: Op, t: Tick): Record
    requires Writes(cfg, op, t)
  {
    match op
    case Refuse(c, model) => FailedRecord(c, model, BreakerOpen, t.now)
    case Mark(c, model) => ProcessingRecord(c, model)
    case Answer(c, model) =>
      if t.Success() then CompletedRecord(c, model, t) else FailedRecord(c, model, ErrorOf(t.error), t.now)
    case Sweep(unchecked, _, model) => FailedRecord(unchecked[0], model, Expired, t.now)
  }

  /** What an operation does. `receipts` maps the request ids of the current messages to their
      receipts. */
  function Effect(cfg: Config, receipts: map<string, string>, core: Core, op: Op, t: Tick): Core {
    if Writes(cfg, op, t) then
      var written := Write(core, Written(cfg, op, t));
      if !op.Answer? then written
      else if t.Success() then
        written.(breaker := Breaker.Success(core.breaker), latency := core.latency.Record(op.model, t.durationMs))
      else written.(breaker := Breaker.Failure(cfg.breaker, core.breaker, t.now))
    else if op.Gate? && Placed(cfg, op.batch) then
      core.(breaker := Breaker.Allow(cfg.breaker, core.breaker, t.now).0)
    else if op.Delete? && op.requestId in receipts then
      core.(deleted := core.deleted + {receipts[op.requestId]})
    else core
  }

  /** The operations it expands to. */
  function Expand(cfg: Config, breaker: Breaker.State, op: Op, t: Tick): seq<Op> {
    match op
    case Gate(b) =>
      if !Placed(cfg, b) then []
      else if Breaker.Allow(cfg.breaker, breaker, t.now).1 then [Sweep(b.candidates, [], b.modelName)]
      else RefuseAll(b.candidates, b.modelName)
    case Sweep(unchecked, live, model) =>
      if unchecked == [] then MarkAll(live, model) + AnswerAll(AnswerOrder(live), model)
      else if IsExpired(cfg, unchecked[0], t.now) then
        [Delete(unchecked[0].requestId), Sweep(unchecked[1..], live, model)]
      else [Sweep(unchecked[1..], live + [unchecked[0]], model)]
    case Answer(c, _) => if t.Success() then [Delete(c.requestId)] else []
    case _ => []
  }

  function OpCost(op: Op): nat {
    match op
    case Gate(b) => 2 + 4 * |b.candidates|
    case Sweep(unchecked, live, _) => 1 + 4 * |unchecked| + 3 * |live|
    case Answer(_, _) => 2
    case _ => 1
  }

  function Cost(prog: seq<Op>): nat {
    if prog == [] then 0 else OpCost(prog[0]) + Cost(prog[1..])
  }

  lemma {:induction false} CostConcat(a: seq<Op>, b: seq<Op>)
    ensures Cost(a + b) == Cost(a) + Cost(b)
  {
    if a == [] {
      assert a + b == b;
    } else {
      CostConcat(a[1..], b);
      assert (a + b)[1..] == a[1..] + b;
    }
  }

  lemma {:induction false} ExpansionCosts(cs: seq<Batching.Candidate>, model: string)
    ensures Cost(RefuseAll(cs, model)) == |cs| && Cost(MarkAll(cs, model)) == |cs|
            && Cost(AnswerAll(cs, model)) == 2 * |cs|
  {
    if cs != [] {
      ExpansionCosts(cs[1..], model);
    }
  }

  lemma CostOne(op: Op)
    ensures Cost([op]) == OpCost(op)
  {
    assert [op][1..] == [];
  }

  lemma SweepShrinks(cfg: Config, breaker: Breaker.State, op: Op, t: Tick)
    requires op.Sweep?
    ensures Cost(Expand(cfg, breaker, op, t)) < OpCost(op)
  {
    var Sweep(unchecked, live, model) := op;
    if unchecked == [] {
      ExpansionCosts(live, model);
      ExpansionCosts(AnswerOrder(live), model);
      CostConcat(MarkAll(live, model), AnswerAll(AnswerOrder(live), model));
    } else {
      var d, s := Delete(unchecked[0].requestId), Sweep(unchecked[1..], live, model);
      CostConcat([d], [s]);
      CostOne(d);
      CostOne(s);
      CostOne(Sweep(unchecked[1..], live + [unchecked[0]], model));
    }
  }

  lemma ExpandShrinks(cfg: Config, breaker: Breaker.State, op: Op, t: Tick)
    ensures Cost(Expand(cfg, breaker, op, t)) < OpCost(op)
  {
    match op {
      case Gate(b) =>
        ExpansionCosts(b.candidates, b.modelName);
        CostOne(Sweep(b.candidates, [], b.modelName));
      case Sweep(_, _, _) => SweepShrinks(cfg, breaker, op, t);
      case Answer(c, _) =>
        CostOne(Delete(c.requestId));
      case _ =>
    }
  }

  /** Every step makes progress. */
  lemma {:induction false} StepShrinks(cfg: Config, breaker: Breaker.State, prog: seq<Op>, t: Tick)
    requires prog != []
    ensures Cost(Expand(cfg, breaker, prog[0], t) + prog[1..]) < Cost(prog)
  {
    CostConcat(Expand(cfg, breaker, prog[0], t), prog[1..]);
    ExpandShrinks(cfg, breaker, prog[0], t);
  }

  function Execute(cfg: Config, receipts: map<string, string>, core: Core, prog: seq<Op>, world: nat -> Tick,
                   n: nat): Core
    decreases Cost(prog)
  {
    if prog == [] then core
    else
      StepShrinks(cfg, core.breaker, prog, world(n));
      Execute(cfg, receipts, Effect(cfg, receipts, core, prog[0], world(n)),
              Expand(cfg, core.breaker, prog[0], world(n)) + prog[1..], world, n + 1)
  }

  /** Does the operation leave its requests on the way to being deleted? */
  predicate GoesWell(cfg: Config, core: Core, op: Op, t: Tick) {
    match op
    case Gate(b) => Placed(cfg, b) && Breaker.Allow(cfg.breaker, core.breaker, t.now).1
    case Refuse(_, _) => false
    case Answer(_, _) => t.Success()
    case _ => true
  }

  /** Does every operation of the program go well? */
  predicate Succeeds(cfg: Config, receipts: map<string, string>, core: Core, prog: seq<Op>, world: nat -> Tick, n: nat)
    decreases Cost(prog)
  {
    prog == [] ||
    (StepShrinks(cfg, core.breaker, prog, world(n));
     GoesWell(cfg, core, prog[0], world(n))
     && Succeeds(cfg, receipts, Effect(cfg, receipts, core, prog[0], world(n)),
                 Expand(cfg, core.breaker, prog[0], world(n)) + prog[1..], world, n + 1))
  }

  // ----- from messages to a program -----

  function CandidateOf(cfg: Config, latency: Latency.Tracker, t: Task): Batching.Candidate
    requires cfg.router.Valid()
  {
    var d := Router.Route(cfg.router, Router.Request(t.prompt, t.context, t.eventType, t.priority, t.requestedModel),
                          model => latency.IsDegraded(model));
    Batching.Candidate(t.eventId, t.prompt, t.context, d.modelName, t.eventType, t.priority,
                       d.estimatedTokens, d.batchable, t.timestamp)
  }

  /** Messages whose body does not parse are skipped. */
  function CandidatesOf(cfg: Config, latency: Latency.Tracker, ms: seq<Message>): seq<Batching.Candidate>
    requires cfg.router.Valid()
  {
    if ms == [] then []
    else
      CandidatesOf(cfg, latency, ms[..|ms| - 1])
        + match ms[|ms| - 1].body
          case None => []
          case Some(task) => [CandidateOf(cfg, latency, task)]
  }

  function ReceiptsOf(ms: seq<Message>): map<string, string> {
    if ms == [] then map[]
    else
      var before := ReceiptsOf(ms[..|ms| - 1]);
      match ms[|ms| - 1].body
      case None => before
      case Some(task) => before[task.eventId := ms[|ms| - 1].receipt]
  }

  function ProgramFor(cfg: Config, latency: Latency.Tracker, ms: seq<Message>): seq<Op>
    requires cfg.router.Valid() && cfg.batching.Valid()
  {
    Gates(Batching.Plan(cfg.batching, CandidatesOf(cfg, latency, ms)))
  }

  // ----- the platform as one worker sees it -----

  /** `inbox` holds every message ever sent, by receipt; those not deleted can be delivered, again
      and again. The inbox, and the store, deletions and completions of the core, are shared with
      all other workers; the rest is the worker's own. */
  datatype System = System(inbox: map<string, Message>, core: Core, receipts: map<string, string>, prog: seq<Op>)

  datatype Event =
    | Publish(message: Message, model: string)  // a gateway accepts a request
    | Receive(messages: seq<Message>)           // the worker polls
    | Work(tick: Tick)                          // the worker executes one operation
    | Crash                                     // an exception abandons the rest of the batch

  /** Request ids are fresh, and a receipt belongs to one message. */
  predicate CanPublish(s: System, m: Message) {
    && m.receipt !in s.inbox
    && (m.body.Some? ==> m.body.value.eventId !in s.core.store.records)
  }

  /** A delivery: distinct messages that have not been deleted, to an idle worker. */
  predicate CanReceive(s: System, ms: seq<Message>) {
    && s.prog == []
    && (forall m :: m in ms ==> m.receipt in s.inbox && s.inbox[m.receipt] == m && m.receipt !in s.core.deleted)
    && (forall i, j :: 0 <= i < j < |ms| ==> ms[i].receipt != ms[j].receipt)
  }

  /** Events that cannot happen in a state leave it unchanged. */
  function Next(cfg: Config, s: System, e: Event): System
    requires cfg.Valid()
  {
    match e
    case Publish(m, model) =>
      if !CanPublish(s, m) then s
      else
        var inbox := s.inbox[m.receipt := m];
        (match m.body
         case None => s.(inbox := inbox)
         case Some(task) =>
           s.(inbox := inbox,
              core := Write(s.core, Record(task.eventId, Pending, Some(task.timestamp), None, Some(model), None,
                                           None))))
    case Receive(ms) =>
      if !CanReceive(s, ms) then s
      else s.(receipts := ReceiptsOf(ms), prog := ProgramFor(cfg, s.core.latency, ms))
    case Work(t) =>
      if s.prog == [] then s
      else
        s.(core := Effect(cfg, s.receipts, s.core, s.prog[0], t),
           prog := Expand(cfg, s.core.breaker, s.prog[0], t) + s.prog[1..])
    case Crash => s.(prog := [])
  }
}
