/** In which order things happen in the in-process worker, and what it reports to its breaker and its
    latency tracker. */
module DemoStories {
  import opened Results
  import opened Demo
  import opened DemoRecords
  import Batching
  import Breaker
  import Latency
  import Reconciliation
  import Scheduler
  import Sorting

  // ----- the order of events -----

  /** Every request of a batch is started, or answered, or given up, in its order. */
  ghost predicate Starts(cs: seq<Batching.Candidate>, facts: seq<Fact>) {
    |facts| == |cs| && forall i :: 0 <= i < |cs| ==> facts[i] == Started(cs[i].requestId)
  }

  ghost predicate Answering(cs: seq<Batching.Candidate>, facts: seq<Fact>) {
    |facts| == |cs| && forall i :: 0 <= i < |cs| ==> facts[i].Answered? && facts[i].id == cs[i].requestId
  }

  ghost predicate Losses(cs: seq<Batching.Candidate>, facts: seq<Fact>) {
    |facts| == |cs| && forall i :: 0 <= i < |cs| ==> facts[i].GivenUp? && facts[i].id == cs[i].requestId
  }

  /** What happens to a batch: it meets the gate and, if it gets through, every request is started, then
      every request is answered; otherwise every request is given up. */
  ghost predicate BatchStory(b: Batching.Batch, facts: seq<Fact>) {
    var n := |b.candidates|;
    && facts != [] && facts[0].Gated? && facts[0].batch == b
    && if facts[0].placed && facts[0].granted
       then |facts| == 1 + n + n && Starts(b.candidates, facts[1..n + 1]) && Answering(b.candidates, facts[n + 1..])
       else Losses(b.candidates, facts[1..])
  }

  /** One batch after the other. */
  ghost predicate Story(bs: seq<Batching.Batch>, facts: seq<Fact>)
    decreases |bs|, 1
  {
    if bs == [] then facts == []
    else exists k :: Chapter(bs, facts, k)
  }

  ghost predicate Chapter(bs: seq<Batching.Batch>, facts: seq<Fact>, k: nat)
    requires bs != []
    decreases |bs|, 0
  {
    k <= |facts| && BatchStory(bs[0], facts[..k]) && Story(bs[1..], facts[k..])
  }

  lemma {:induction false} Unfolding(cfg: Config, raw: map<string, Payload>, core: Core, op: Op, rest: seq<Op>,
                                     world: nat -> Tick, n: nat)
    requires Known(raw, [op] + rest)
    ensures IdsOf(op) <= raw.Keys && Known(raw, rest) && Known(raw, Step(cfg, raw, core, op, world(n)).1 + rest)
    ensures ExecuteFacts(cfg, raw, core, [op] + rest, world, n)
         == StepFacts(cfg, core, op, world(n))
            + ExecuteFacts(cfg, raw, Step(cfg, raw, core, op, world(n)).0,
                           Step(cfg, raw, core, op, world(n)).1 + rest, world, n + 1)
  {
    var prog := [op] + rest;
    assert prog[0] == op && prog[1..] == rest;
    StepShrinks(cfg, raw, core, prog, world(n));
  }

  /** An operation that expands to nothing. */
  lemma {:induction false} Simple(cfg: Config, raw: map<string, Payload>, core: Core, op: Op, rest: seq<Op>,
                                  world: nat -> Tick, n: nat) returns (after: Core)
    requires Known(raw, [op] + rest) && !op.Gate?
    ensures Known(raw, rest)
    ensures ExecuteFacts(cfg, raw, core, [op] + rest, world, n)
         == StepFacts(cfg, core, op, world(n)) + ExecuteFacts(cfg, raw, after, rest, world, n + 1)
  {
    Unfolding(cfg, raw, core, op, rest, world, n);
    after := Step(cfg, raw, core, op, world(n)).0;
    assert [] + rest == rest;
  }

  /** Two operations: the request is settled and its slot released. */
  lemma {:induction false} Settling(cfg: Config, raw: map<string, Payload>, core: Core, op: Op, id: string,
                                    later: seq<Op>, world: nat -> Tick, n: nat) returns (after: Core)
    requires Known(raw, [op] + ([Release(id)] + later)) && (op.Fail? || op.Answer?)
    ensures Known(raw, later)
    ensures ExecuteFacts(cfg, raw, core, [op] + ([Release(id)] + later), world, n)
         == StepFacts(cfg, core, op, world(n)) + ExecuteFacts(cfg, raw, after, later, world, n + 2)
  {
    var settled := Simple(cfg, raw, core, op, [Release(id)] + later, world, n);
    after := Simple(cfg, raw, settled, Release(id), later, world, n + 1);
    var facts := ExecuteFacts(cfg, raw, after, later, world, n + 2);
    assert [] + facts == facts;
  }

  lemma Regroup<T>(x: T, y: T, xs: seq<T>, ys: seq<T>)
    ensures ([x, y] + xs) + ys == [x] + ([y] + (xs + ys))
  {
  }

  lemma {:induction false} LossStory(cfg: Config, raw: map<string, Payload>, core: Core, cs: seq<Batching.Candidate>,
                                     model: string, cause: Failure, rest: seq<Op>, world: nat -> Tick, n: nat)
    returns (facts: seq<Fact>, after: Core, n': nat)
    requires Known(raw, FailAll(cs, model, cause) + rest)
    ensures Known(raw, rest)
    ensures ExecuteFacts(cfg, raw, core, FailAll(cs, model, cause) + rest, world, n)
         == facts + ExecuteFacts(cfg, raw, after, rest, world, n')
    ensures Losses(cs, facts)
    decreases |cs|
  {
    if cs == [] {
      facts, after, n' := [], core, n;
      assert FailAll(cs, model, cause) + rest == rest;
    } else {
      var op, id, later := Fail(cs[0], model, cause), cs[0].requestId, FailAll(cs[1..], model, cause) + rest;
      Regroup(op, Release(id), FailAll(cs[1..], model, cause), rest);
      var settled := Settling(cfg, raw, core, op, id, later, world, n);
      var facts';
      facts', after, n' := LossStory(cfg, raw, settled, cs[1..], model, cause, rest, world, n + 2);
      var first := StepFacts(cfg, core, op, world(n));
      facts := first + facts';
      Sorting.ConcatAssociative(first, facts', ExecuteFacts(cfg, raw, after, rest, world, n'));
    }
  }

  lemma {:induction false} StartStory(cfg: Config, raw: map<string, Payload>, core: Core, cs: seq<Batching.Candidate>,
                                      model: string, rest: seq<Op>, world: nat -> Tick, n: nat)
    returns (facts: seq<Fact>, after: Core, n': nat)
    requires Known(raw, MarkAll(cs, model) + rest)
    ensures Known(raw, rest)
    ensures ExecuteFacts(cfg, raw, core, MarkAll(cs, model) + rest, world, n)
         == facts + ExecuteFacts(cfg, raw, after, rest, world, n')
    ensures Starts(cs, facts)
    decreases |cs|
  {
    if cs == [] {
      facts, after, n' := [], core, n;
      assert MarkAll(cs, model) + rest == rest;
    } else {
      var later := MarkAll(cs[1..], model) + rest;
      var op := Mark(cs[0], model);
      assert MarkAll(cs, model) + rest == [op] + later;
      var marked := Simple(cfg, raw, core, op, later, world, n);
      var facts';
      facts', after, n' := StartStory(cfg, raw, marked, cs[1..], model, rest, world, n + 1);
      var first := StepFacts(cfg, core, op, world(n));
      facts := first + facts';
      Sorting.ConcatAssociative(first, facts', ExecuteFacts(cfg, raw, after, rest, world, n'));
    }
  }

  lemma {:induction false} AnswerStory(cfg: Config, raw: map<string, Payload>, core: Core, cs: seq<Batching.Candidate>,
                                       model: string, rest: seq<Op>, world: nat -> Tick, n: nat)
    returns (facts: seq<Fact>, after: Core, n': nat)
    requires Known(raw, AnswerAll(cs, model) + rest)
    ensures Known(raw, rest)
    ensures ExecuteFacts(cfg, raw, core, AnswerAll(cs, model) + rest, world, n)
         == facts + ExecuteFacts(cfg, raw, after, rest, world, n')
    ensures Answering(cs, facts)
    decreases |cs|
  {
    if cs == [] {
      facts, after, n' := [], core, n;
      assert AnswerAll(cs, model) + rest == rest;
    } else {
      var op, id, later := Answer(cs[0], model), cs[0].requestId, AnswerAll(cs[1..], model) + rest;
      Regroup(op, Release(id), AnswerAll(cs[1..], model), rest);
      var settled := Settling(cfg, raw, core, op, id, later, world, n);
      var facts';
      facts', after, n' := AnswerStory(cfg, raw, settled, cs[1..], model, rest, world, n + 2);
      var first := StepFacts(cfg, core, op, world(n));
      facts := first + facts';
      Sorting.ConcatAssociative(first, facts', ExecuteFacts(cfg, raw, after, rest, world, n'));
    }
  }

  lemma {:induction false} GateStory(cfg: Config, raw: map<string, Payload>, core: Core, b: Batching.Batch,
                                     rest: seq<Op>, world: nat -> Tick, n: nat)
    returns (facts: seq<Fact>, after: Core, n': nat)
    requires Known(raw, [Gate(b)] + rest)
    ensures Known(raw, rest) && BatchStory(b, facts)
    ensures ExecuteFacts(cfg, raw, core, [Gate(b)] + rest, world, n)
         == facts + ExecuteFacts(cfg, raw, after, rest, world, n')
  {
    var cs, model, gate := b.candidates, b.modelName, StepFacts(cfg, core, Gate(b), world(n));
    var next := PassGate(cfg, core, b, world(n).now).0;
    Unfolding(cfg, raw, core, Gate(b), rest, world, n);
    var placed, granted := gate[0].placed, gate[0].granted;
    var parts;
    if placed && granted {
      Sorting.ConcatAssociative(MarkAll(cs, model), AnswerAll(cs, model), rest);
      var starts, marked, m := StartStory(cfg, raw, next, cs, model, AnswerAll(cs, model) + rest, world, n + 1);
      var answers;
      answers, after, n' := AnswerStory(cfg, raw, marked, cs, model, rest, world, m);
      parts := starts + answers;
      Sorting.ConcatAssociative(starts, answers, ExecuteFacts(cfg, raw, after, rest, world, n'));
      assert parts[..|cs|] == starts && parts[|cs|..] == answers;
    } else {
      var cause := if placed then BreakerOpen else SchedulingDeferred;
      parts, after, n' := LossStory(cfg, raw, next, cs, model, cause, rest, world, n + 1);
    }
    facts := gate + parts;
    Sorting.ConcatAssociative(gate, parts, ExecuteFacts(cfg, raw, after, rest, world, n'));
    GateFirst(b, gate[0], parts);
  }

  lemma GateFirst(b: Batching.Batch, gate: Fact, parts: seq<Fact>)
    requires gate.Gated? && gate.batch == b
    requires if gate.placed && gate.granted
             then |parts| == |b.candidates| + |b.candidates| && Starts(b.candidates, parts[..|b.candidates|])
                  && Answering(b.candidates, parts[|b.candidates|..])
             else Losses(b.candidates, parts)
    ensures BatchStory(b, [gate] + parts)
  {
    var n, facts := |b.candidates|, [gate] + parts;
    assert facts[1..] == parts;
    if gate.placed && gate.granted {
      assert facts[1..n + 1] == parts[..n] && facts[n + 1..] == parts[n..];
    }
  }

  lemma {:induction false} GatesStory(cfg: Config, raw: map<string, Payload>, core: Core, bs: seq<Batching.Batch>,
                                      world: nat -> Tick, n: nat)
    requires Known(raw, Gates(bs))
    ensures Story(bs, ExecuteFacts(cfg, raw, core, Gates(bs), world, n))
    decreases |bs|
  {
    if bs != [] {
      assert Gates(bs) == [Gate(bs[0])] + Gates(bs[1..]);
      var facts, after, m := GateStory(cfg, raw, core, bs[0], Gates(bs[1..]), world, n);
      GatesStory(cfg, raw, after, bs[1..], world, m);
      var later := ExecuteFacts(cfg, raw, after, Gates(bs[1..]), world, m);
      assert (facts + later)[..|facts|] == facts && (facts + later)[|facts|..] == later;
      assert Chapter(bs, facts + later, |facts|);
    }
  }

  /** Processing a batch of messages: the planned batches meet the gate one after the other, and each is
      carried to its end before the next. */
  lemma {:induction false} BatchesInTurn(cfg: Config, core: Core, raw: map<string, Payload>, ps: seq<Payload>,
                                         world: nat -> Tick)
    requires cfg.Valid() && Known(raw, ProgramFor(cfg, core.latency, ps))
    ensures Story(Batching.Plan(cfg.batching, CandidatesOf(cfg, core.latency, ps)),
                  ExecuteFacts(cfg, raw, core, ProgramFor(cfg, core.latency, ps), world, 0))
  {
    GatesStory(cfg, raw, core, Batching.Plan(cfg.batching, CandidatesOf(cfg, core.latency, ps)), world, 0);
  }

  // ----- what is reported -----

  /** A batch that has a device asks the breaker; an answer reports success if it is a text without an
      error, and failure otherwise. */
  function CallsOf(cfg: Config, op: Op, t: Tick): seq<Breaker.Call> {
    match op
    case Gate(b) =>
      if Scheduler.Schedule(cfg.profiles, cfg.scheduling, b.modelName, [cfg.gpu], |b.candidates|).status
         == Scheduler.Scheduled then [Breaker.AllowCall(t.now)]
      else []
    case Answer(_, _) =>
      if t.text.Some? && t.error.None? then [Breaker.SuccessCall] else [Breaker.FailureCall(t.now)]
    case _ => []
  }

  /** The durations of successes are reported, under the model. */
  function SamplesOf(op: Op, t: Tick): seq<Latency.Sample> {
    if op.Answer? && t.text.Some? && t.error.None? then [Latency.Sample(op.model, t.durationMs)] else []
  }

  /** What the worker reported in a run. */
  ghost function Reported(cfg: Config, trace: seq<Event>): (r: (seq<Breaker.Call>, seq<Latency.Sample>))
    requires cfg.Valid() && !Reconciliation.Heals(cfg.reconciliation)
  {
    if trace == [] then ([], [])
    else
      var init, e := trace[..|trace| - 1], trace[|trace| - 1];
      var (calls, samples) := Reported(cfg, init);
      var prog := DemoProofs.Run(cfg, init).worker.prog;
      if e.WorkEvent? && prog != []
      then (calls + CallsOf(cfg, prog[0], e.tick), samples + SamplesOf(prog[0], e.tick))
      else (calls, samples)
  }

  lemma {:induction false} StepReports(cfg: Config, raw: map<string, Payload>, core: Core, op: Op, t: Tick,
                                       calls: seq<Breaker.Call>, samples: seq<Latency.Sample>)
    requires IdsOf(op) <= raw.Keys
    requires core.breaker == Breaker.Run(cfg.breaker, Breaker.FRESH, calls)
    requires core.latency == Latency.RecordAll(Latency.Tracker(cfg.latency, map[]), samples)
    ensures var next := Step(cfg, raw, core, op, t).0;
            && next.breaker == Breaker.Run(cfg.breaker, Breaker.FRESH, calls + CallsOf(cfg, op, t))
            && next.latency == Latency.RecordAll(Latency.Tracker(cfg.latency, map[]), samples + SamplesOf(op, t))
  {
    var more, further := CallsOf(cfg, op, t), SamplesOf(op, t);
    assert more == [] ==> calls + more == calls;
    assert further == [] ==> samples + further == samples;
    assert more != [] ==> (calls + more)[..|calls|] == calls && (calls + more)[|calls|] == more[0];
    assert further != [] ==> (samples + further)[..|samples|] == samples;
  }

  /** Breaker and tracker are in the state in which these reports, and nothing else, leave them. */
  ghost predicate Reflects(cfg: Config, core: Core, calls: seq<Breaker.Call>, samples: seq<Latency.Sample>) {
    && core.breaker == Breaker.Run(cfg.breaker, Breaker.FRESH, calls)
    && core.latency == Latency.RecordAll(Latency.Tracker(cfg.latency, map[]), samples)
  }

  lemma {:induction false} OthersReportNothing(cfg: Config, s: System, e: Event)
    requires Runs(cfg, s) && !(e.WorkEvent? && s.worker.prog != [])
    ensures Next(cfg, s, e).core.breaker == s.core.breaker && Next(cfg, s, e).core.latency == s.core.latency
  {
  }

  lemma {:induction false} WorkReports(cfg: Config, s: System, t: Tick, calls: seq<Breaker.Call>,
                                       samples: seq<Latency.Sample>)
    requires Runs(cfg, s) && s.worker.prog != [] && Reflects(cfg, s.core, calls, samples)
    ensures var op := s.worker.prog[0];
            Reflects(cfg, Work(cfg, s, t).core, calls + CallsOf(cfg, op, t), samples + SamplesOf(op, t))
  {
    StepShrinks(cfg, s.worker.raw, s.core, s.worker.prog, t);
    StepReports(cfg, s.worker.raw, s.core, s.worker.prog[0], t, calls, samples);
  }

  /** Over every run, breaker and tracker know what was reported. */
  lemma {:induction false} ReportsExactly(cfg: Config, trace: seq<Event>)
    requires cfg.Valid() && !Reconciliation.Heals(cfg.reconciliation)
    ensures Reflects(cfg, DemoProofs.Run(cfg, trace).core, Reported(cfg, trace).0, Reported(cfg, trace).1)
  {
    if trace != [] {
      var init, e := trace[..|trace| - 1], trace[|trace| - 1];
      ReportsExactly(cfg, init);
      var s := DemoProofs.Run(cfg, init);
      if e.WorkEvent? && s.worker.prog != [] {
        WorkReports(cfg, s, e.tick, Reported(cfg, init).0, Reported(cfg, init).1);
      } else {
        OthersReportNothing(cfg, s, e);
      }
    }
  }
}
