/** The demo worker as the objects it is made of: `ProcessBatch` is proved to be the execution of
    the program for its messages. */
module DemoWorkers {
  import opened Options
  import opened Results
  import opened Demo
  import Adapter
  import Batching
  import BatchingProofs
  import Breaker
  import DemoProofs
  import Latency
  import PriorityQueue
  import Scheduler
  import Sorting
  import Tenant

  class DemoWorker {
    const cfg: Config
    const resultStore: InMemoryResultStore
    const tenantEngine: Tenant.TenantPolicyEngine
    const circuitBreaker: Breaker.CircuitBreaker
    const latencyTracker: Latency.LatencyTracker
    const batcher: Batching.DynamicBatcher
    const scheduler: Scheduler.GPUScheduler

    ghost predicate Valid()
      reads resultStore
    {
      && cfg.Valid() && resultStore.store.Valid()
      && circuitBreaker.policy == cfg.breaker && batcher.policy == cfg.batching
      && scheduler.modelProfiles == cfg.profiles && scheduler.policy == cfg.scheduling
    }

    function View(): Core
      reads resultStore, tenantEngine, circuitBreaker, latencyTracker
    {
      Core(resultStore.store, tenantEngine.View(), circuitBreaker.View(), latencyTracker.View())
    }

    constructor (cfg: Config, resultStore: InMemoryResultStore, tenantEngine: Tenant.TenantPolicyEngine)
      requires cfg.Valid() && cfg.profiles != map[] && resultStore.store.Valid()
      ensures Valid() && this.cfg == cfg
      ensures View() == Core(resultStore.store, tenantEngine.View(), Breaker.FRESH, Latency.Tracker(cfg.latency, map[]))
    {
      this.cfg := cfg;
      this.resultStore := resultStore;
      this.tenantEngine := tenantEngine;
      this.circuitBreaker := new Breaker.CircuitBreaker(cfg.breaker);
      this.latencyTracker := new Latency.LatencyTracker(cfg.latency);
      this.batcher := new Batching.DynamicBatcher(cfg.batching);
      this.scheduler := new Scheduler.GPUScheduler(cfg.profiles, cfg.scheduling);
    }

    method ReleaseTenant(payload: Payload)
      requires Valid()
      modifies tenantEngine
      ensures Valid() && View() == old(View()).(tenants := old(View()).tenants.ReleaseIn(payload.TenantId()))
    {
      tenantEngine.ReleaseTenant(Tenant.ExtractTenant(payload.tenant));
    }

    /** One turn of the polling loop: the requests first in drain order leave the queue and are
        processed to their end. */
    method PollOnce(queue: PriorityQueue.PriorityInferenceQueue<Payload>, world: nat -> Tick)
      requires Valid() && queue.Valid()
      modifies queue, resultStore, tenantEngine, circuitBreaker, latencyTracker
      ensures Valid() && queue.Valid()
      ensures var out, size := PriorityQueue.DrainOrder(old(queue.arrivals)), |old(queue.arrivals)|;
              var n := if cfg.batching.maxBatchSize <= size then cfg.batching.maxBatchSize else size;
              && n <= |out| && PriorityQueue.DrainOrder(queue.arrivals) == out[n..]
              && var taken := PriorityQueue.Payloads(out[..n]); var prog := ProgramFor(cfg, old(View()).latency, taken);
                 Known(RawOf(taken), prog) && View() == Execute(cfg, RawOf(taken), old(View()), prog, world, 0)
    {
      var batch := queue.GetBatch(cfg.batching.maxBatchSize);
      if batch != [] {
        ProcessBatch(batch, world);
      }
    }

    /** Processes a batch of messages; `world(n)` is what the n-th operation meets. */
    method ProcessBatch(messages: seq<Payload>, world: nat -> Tick)
      requires Valid()
      modifies resultStore, tenantEngine, circuitBreaker, latencyTracker
      ensures Valid()
      ensures var prog := ProgramFor(cfg, old(View()).latency, messages);
              Known(RawOf(messages), prog) && View() == Execute(cfg, RawOf(messages), old(View()), prog, world, 0)
    {
      var candidates: seq<Batching.Candidate> := [];
      var rawById: map<string, Payload> := map[];
      for i := 0 to |messages|
        invariant candidates == CandidatesOf(cfg, View().latency, messages[..i])
        invariant rawById == RawOf(messages[..i])
      {
        var body := messages[i];
        assert messages[..i + 1][..i] == messages[..i];
        candidates := candidates + [CandidateOf(cfg, View().latency, body)];
        rawById := rawById[body.eventId := body];
      }
      assert messages[..|messages|] == messages;
      var batches := batcher.BuildBatches(candidates);
      ghost var start := View();
      GatesKnown(cfg, start.latency, messages);
      var tick := 0;
      for i := 0 to |batches|
        invariant Valid()
        invariant Known(rawById, Gates(batches[i..]))
        invariant Execute(cfg, rawById, View(), Gates(batches[i..]), world, tick)
               == Execute(cfg, rawById, start, Gates(batches), world, 0)
      {
        assert batches[i..][0] == batches[i] && batches[i..][1..] == batches[i + 1..];
        tick := RunBatch(batches[i], rawById, world, tick, Gates(batches[i + 1..]));
      }
      assert Gates(batches[|batches|..]) == [];
    }

    /** The body of the loop over the batches: execution of the gate and all it expands to. */
    method RunBatch(batch: Batching.Batch, rawById: map<string, Payload>, world: nat -> Tick, tick: nat,
                    ghost rest: seq<Op>)
      returns (tick': nat)
      requires Valid() && Known(rawById, [Gate(batch)] + rest)
      modifies resultStore, tenantEngine, circuitBreaker, latencyTracker
      ensures Valid() && Known(rawById, rest)
      ensures Execute(cfg, rawById, View(), rest, world, tick')
           == Execute(cfg, rawById, old(View()), [Gate(batch)] + rest, world, tick)
    {
      ghost var start, prog := View(), [Gate(batch)] + rest;
      assert prog[1..] == rest;
      StepShrinks(cfg, rawById, start, prog, world(tick));
      BatchKnown(rawById, batch, prog);
      KnownTail(rawById, prog);
      var now := world(tick).now;
      tick' := tick + 1;
      var decision := scheduler.Place(batch.modelName, [cfg.gpu], |batch.candidates|);
      if decision.status != Scheduler.Scheduled {
        tick' := FailBatch(batch, SchedulingDeferred, rawById, world, tick', rest);
        return;
      }
      var allowed := circuitBreaker.AllowRequest(now);
      if !allowed {
        tick' := FailBatch(batch, BreakerOpen, rawById, world, tick', rest);
        return;
      }
      ghost var answers := AnswerAll(batch.candidates, batch.modelName);
      ExpansionFacts(rawById, batch.candidates, batch.modelName, BreakerOpen);
      Sorting.ConcatAssociative(MarkAll(batch.candidates, batch.modelName), answers, rest);
      KnownBoth(rawById, answers, rest);
      tick' := MarkBatch(batch, rawById, world, tick', answers + rest);
      tick' := InferBatch(batch, rawById, world, tick', rest);
    }

    /** Fails every request of a batch and releases its slot. */
    method FailBatch(batch: Batching.Batch, cause: Failure, rawById: map<string, Payload>, world: nat -> Tick,
                     tick: nat, ghost rest: seq<Op>)
      returns (tick': nat)
      requires Valid() && (forall c :: c in batch.candidates ==> c.requestId in rawById) && Known(rawById, rest)
      modifies resultStore, tenantEngine
      ensures Valid()
      ensures var prog := FailAll(batch.candidates, batch.modelName, cause) + rest;
              Known(rawById, prog)
              && Execute(cfg, rawById, View(), rest, world, tick')
                  == Execute(cfg, rawById, old(View()), prog, world, tick)
    {
      ghost var start := View();
      var cs, model := batch.candidates, batch.modelName;
      tick' := tick;
      ExpansionFacts(rawById, cs, model, cause);
      KnownBoth(rawById, FailAll(cs, model, cause), rest);
      assert cs[0..] == cs;
      for i := 0 to |cs|
        invariant Valid()
        invariant Known(rawById, FailAll(cs[i..], model, cause) + rest)
        invariant Execute(cfg, rawById, View(), FailAll(cs[i..], model, cause) + rest, world, tick')
               == Execute(cfg, rawById, start, FailAll(cs, model, cause) + rest, world, tick)
      {
        var c := cs[i];
        var payload := rawById[c.requestId];
        assert cs[i..][1..] == cs[i + 1..];
        ExecutePair(cfg, rawById, View(), Fail(c, model, cause), c, FailAll(cs[i + 1..], model, cause), rest, world,
                    tick');
        resultStore.Put(FailedRecord(c.requestId, payload, model, cause, world(tick').now));
        ReleaseTenant(payload);
        tick' := tick' + 2;
      }
      assert FailAll(cs[|cs|..], model, cause) + rest == rest;
    }

    /** Marks every request of a batch as processing. */
    method MarkBatch(batch: Batching.Batch, rawById: map<string, Payload>, world: nat -> Tick, tick: nat,
                     ghost rest: seq<Op>)
      returns (tick': nat)
      requires Valid() && (forall c :: c in batch.candidates ==> c.requestId in rawById) && Known(rawById, rest)
      modifies resultStore
      ensures Valid()
      ensures var prog := MarkAll(batch.candidates, batch.modelName) + rest;
              Known(rawById, prog)
              && Execute(cfg, rawById, View(), rest, world, tick')
                  == Execute(cfg, rawById, old(View()), prog, world, tick)
    {
      ghost var start := View();
      var cs, model := batch.candidates, batch.modelName;
      tick' := tick;
      ExpansionFacts(rawById, cs, model, BreakerOpen);
      KnownBoth(rawById, MarkAll(cs, model), rest);
      assert cs[0..] == cs;
      for i := 0 to |cs|
        invariant Valid()
        invariant Known(rawById, MarkAll(cs[i..], model) + rest)
        invariant Execute(cfg, rawById, View(), MarkAll(cs[i..], model) + rest, world, tick')
               == Execute(cfg, rawById, start, MarkAll(cs, model) + rest, world, tick)
      {
        var candidate := cs[i];
        assert cs[i..][1..] == cs[i + 1..];
        ghost var tail := MarkAll(cs[i + 1..], model) + rest;
        Sorting.ConcatAssociative([Mark(candidate, model)], MarkAll(cs[i + 1..], model), rest);
        ExecuteWrite(cfg, rawById, View(), Mark(candidate, model), tail, world, tick');
        resultStore.Put(ProcessingRecord(candidate.requestId, rawById[candidate.requestId], model));
        tick' := tick' + 1;
      }
      assert MarkAll(cs[|cs|..], model) + rest == rest;
    }

    /** Records one output: the breaker, the latency window and the result store. */
    method RecordOutput(model: string, output: Adapter.Output, payload: Payload, now: real,
                        ghost rawById: map<string, Payload>, ghost c: Batching.Candidate, ghost t: Tick)
      requires Valid() && c.requestId in rawById && rawById[c.requestId] == payload
      requires output == OutputFor(c, t) && now == t.now
      modifies resultStore, circuitBreaker, latencyTracker
      ensures Valid() && View() == Step(cfg, rawById, old(View()), Answer(c, model), t).0
    {
      if output.Success() {
        circuitBreaker.RecordSuccess();
        latencyTracker.Record(model, output.durationMs);
        resultStore.Put(Record(output.requestId, Completed, Some(payload.timestamp), Some(now), Some(model),
                               output.text, None));
      } else {
        circuitBreaker.RecordFailure(now);
        resultStore.Put(Record(output.requestId, Failed, Some(payload.timestamp), Some(now), Some(model), None,
                               ErrorOf(output.error)));
      }
    }

    /** Records one output and releases the slot of its request. */
    method TakeOutput(ghost c: Batching.Candidate, model: string, output: Adapter.Output, rawById: map<string, Payload>,
                      world: nat -> Tick, tick: nat, ghost more: seq<Op>, ghost rest: seq<Op>)
      requires Valid() && output == OutputFor(c, world(tick))
      requires Known(rawById, ([Answer(c, model), Release(c.requestId)] + more) + rest)
      modifies resultStore, tenantEngine, circuitBreaker, latencyTracker
      ensures Valid() && Known(rawById, more + rest)
      ensures Execute(cfg, rawById, View(), more + rest, world, tick + 2)
           == Execute(cfg, rawById, old(View()), ([Answer(c, model), Release(c.requestId)] + more) + rest, world, tick)
    {
      ExecutePair(cfg, rawById, View(), Answer(c, model), c, more, rest, world, tick);
      var payload := rawById[output.requestId];
      RecordOutput(model, output, payload, world(tick).now, rawById, c, world(tick));
      ReleaseTenant(payload);
    }

    /** Runs the adapter on a batch and records its outputs, which come back in input order. */
    method InferBatch(batch: Batching.Batch, rawById: map<string, Payload>, world: nat -> Tick, tick: nat,
                      ghost rest: seq<Op>)
      returns (tick': nat)
      requires Valid() && (forall c :: c in batch.candidates ==> c.requestId in rawById) && Known(rawById, rest)
      modifies resultStore, tenantEngine, circuitBreaker, latencyTracker
      ensures Valid()
      ensures var prog := AnswerAll(batch.candidates, batch.modelName) + rest;
              Known(rawById, prog)
              && Execute(cfg, rawById, View(), rest, world, tick')
                  == Execute(cfg, rawById, old(View()), prog, world, tick)
    {
      ghost var start := View();
      var cs, model := batch.candidates, batch.modelName;
      var inputs := Adapter.InputsFor(cs);
      var outputs := AdapterOutputs(inputs, cs, world, tick);
      tick' := tick;
      ExpansionFacts(rawById, cs, model, BreakerOpen);
      KnownBoth(rawById, AnswerAll(cs, model), rest);
      assert cs[0..] == cs;
      OutputsCount(cs, world, tick);
      for i := 0 to |outputs|
        invariant Valid() && outputs[i..] == OutputsFor(cs[i..], world, tick')
        invariant Known(rawById, AnswerAll(cs[i..], model) + rest)
        invariant Execute(cfg, rawById, View(), AnswerAll(cs[i..], model) + rest, world, tick')
               == Execute(cfg, rawById, start, AnswerAll(cs, model) + rest, world, tick)
      {
        Sorting.Slices(cs, i);
        Sorting.Slices(outputs, i);
        TakeOutput(cs[i], model, outputs[i], rawById, world, tick', AnswerAll(cs[i + 1..], model), rest);
        tick' := tick' + 2;
      }
      assert AnswerAll(cs[|cs|..], model) + rest == rest;
    }
  }

  /** What the adapter returns for a request. */
  function OutputFor(c: Batching.Candidate, t: Tick): Adapter.Output {
    Adapter.Output(c.requestId, t.text, t.error, t.durationMs)
  }

  /** One output per input, in input order; an answer and its release take two steps. */
  function OutputsFor(cs: seq<Batching.Candidate>, world: nat -> Tick, n: nat): seq<Adapter.Output> {
    if cs == [] then [] else [OutputFor(cs[0], world(n))] + OutputsFor(cs[1..], world, n + 2)
  }

  /** The mock adapter. */
  method AdapterOutputs(inputs: seq<Adapter.Input>, ghost cs: seq<Batching.Candidate>, world: nat -> Tick, tick: nat)
    returns (outputs: seq<Adapter.Output>)
    requires inputs == Adapter.InputsFor(cs)
    ensures outputs == OutputsFor(cs, world, tick)
  {
    outputs := [];
    var n := tick;
    for i := 0 to |inputs|
      invariant outputs + OutputsFor(cs[i..], world, n) == OutputsFor(cs, world, tick)
    {
      assert cs[i..][1..] == cs[i + 1..];
      Sorting.ConcatAssociative(outputs, [OutputFor(cs[i], world(n))], OutputsFor(cs[i + 1..], world, n + 2));
      var t := world(n);
      outputs := outputs + [Adapter.Output(inputs[i].requestId, t.text, t.error, t.durationMs)];
      n := n + 2;
    }
  }

  lemma {:induction false} OutputsCount(cs: seq<Batching.Candidate>, world: nat -> Tick, n: nat)
    ensures |OutputsFor(cs, world, n)| == |cs|
  {
    if cs != [] {
      OutputsCount(cs[1..], world, n + 2);
    }
  }

  // ----- unfolding an execution -----

  lemma KnownTail(raw: map<string, Payload>, prog: seq<Op>)
    requires prog != [] && Known(raw, prog)
    ensures Known(raw, prog[1..])
  {
  }

  lemma KnownBoth(raw: map<string, Payload>, a: seq<Op>, b: seq<Op>)
    requires Known(raw, a) && Known(raw, b)
    ensures Known(raw, a + b)
  {
  }

  lemma BatchKnown(raw: map<string, Payload>, b: Batching.Batch, prog: seq<Op>)
    requires prog != [] && prog[0] == Gate(b) && Known(raw, prog)
    ensures forall c :: c in b.candidates ==> c.requestId in raw
  {
    assert prog[0] in prog;
    forall c | c in b.candidates ensures c.requestId in raw {
      assert c.requestId in IdsOf(prog[0]);
    }
  }

  /** Executing a write is one step. */
  lemma {:induction false} ExecuteWrite(cfg: Config, raw: map<string, Payload>, core: Core, op: Op, tail: seq<Op>,
                                        world: nat -> Tick, n: nat)
    requires Writes(op) && Known(raw, [op] + tail)
    ensures IdsOf(op) <= raw.Keys && Known(raw, tail)
    ensures Execute(cfg, raw, core, [op] + tail, world, n)
         == Execute(cfg, raw, Step(cfg, raw, core, op, world(n)).0, tail, world, n + 1)
  {
    StepShrinks(cfg, raw, core, [op] + tail, world(n));
    assert ([op] + tail)[1..] == tail && [] + tail == tail;
  }

  lemma {:induction false} ExecuteRelease(cfg: Config, raw: map<string, Payload>, core: Core, id: string, tail: seq<Op>,
                                         world: nat -> Tick, n: nat)
    requires Known(raw, [Release(id)] + tail)
    ensures id in raw && Known(raw, tail)
    ensures Execute(cfg, raw, core, [Release(id)] + tail, world, n)
         == Execute(cfg, raw, core.(tenants := core.tenants.ReleaseIn(raw[id].TenantId())), tail, world, n + 1)
  {
    StepShrinks(cfg, raw, core, [Release(id)] + tail, world(n));
    assert ([Release(id)] + tail)[1..] == tail && [] + tail == tail;
  }

  /** Executing a terminal write and the release behind it. */
  lemma {:induction false} ExecutePair(cfg: Config, raw: map<string, Payload>, core: Core, op: Op,
                                       c: Batching.Candidate, more: seq<Op>, rest: seq<Op>, world: nat -> Tick, n: nat)
    requires Writes(op) && op.candidate == c && Known(raw, ([op, Release(c.requestId)] + more) + rest)
    ensures c.requestId in raw && IdsOf(op) <= raw.Keys && Known(raw, more + rest)
    ensures var written := Step(cfg, raw, core, op, world(n)).0;
            Execute(cfg, raw, core, ([op, Release(c.requestId)] + more) + rest, world, n)
              == Execute(cfg, raw, written.(tenants := written.tenants.ReleaseIn(raw[c.requestId].TenantId())),
                         more + rest, world, n + 2)
  {
    var tail := [Release(c.requestId)] + (more + rest);
    assert ([op, Release(c.requestId)] + more) + rest == [op] + tail;
    ExecuteWrite(cfg, raw, core, op, tail, world, n);
    ExecuteRelease(cfg, raw, Step(cfg, raw, core, op, world(n)).0, c.requestId, more + rest, world, n + 1);
  }

  lemma {:induction false} CandidatesInTable(cfg: Config, raw: map<string, Payload>, latency: Latency.Tracker,
                                             ps: seq<Payload>)
    requires cfg.router.Valid() && forall p :: p in ps ==> p.eventId in raw
    ensures DemoProofs.AllIn(raw, CandidatesOf(cfg, latency, ps))
  {
    if ps != [] {
      var init, last := ps[..|ps| - 1], ps[|ps| - 1];
      assert ps == init + [last];
      CandidatesInTable(cfg, raw, latency, init);
    }
  }

  /** Every candidate of the plan has its message in the table. */
  lemma {:induction false} GatesKnown(cfg: Config, latency: Latency.Tracker, ps: seq<Payload>)
    requires cfg.Valid()
    ensures Known(RawOf(ps), ProgramFor(cfg, latency, ps))
  {
    var raw, cs := RawOf(ps), CandidatesOf(cfg, latency, ps);
    var bs := Batching.Plan(cfg.batching, cs);
    DemoProofs.RawFacts(ps);
    CandidatesInTable(cfg, raw, latency, ps);
    BatchingProofs.BatchesPartitionInput(cfg.batching, cs);
    BatchingProofs.BatchesWellFormed(cfg.batching, cs);
    Sorting.SameMembers(cs, BatchingProofs.Flatten(bs));
    forall b | b in bs ensures b.candidates != [] {
      assert BatchingProofs.WellFormed(cfg.batching, b);
    }
    DemoProofs.GatesShaped(raw, bs);
  }
}
