/** What the worker of the in-process platform gets done while nobody else acts: it executes its
    program, a poll takes what the queue hands out first, and enough steps empty the platform. */
module DemoProgress {
  import opened Results
  import opened Demo
  import opened DemoProofs
  import opened DemoConservation
  import opened PriorityQueue
  import Batching
  import BatchingProofs
  import Latency
  import Reconciliation
  import Sorting

  /** `k` worker steps from step `n` of the world on. */
  function Works(world: nat -> Tick, n: nat, k: nat): seq<Event>
    decreases k
  {
    if k == 0 then [] else [WorkEvent(world(n))] + Works(world, n + 1, k - 1)
  }

  lemma {:induction false} WorksConcat(world: nat -> Tick, n: nat, j: nat, k: nat)
    ensures Works(world, n, j + k) == Works(world, n, j) + Works(world, n + j, k)
    decreases j
  {
    if j == 0 {
      assert [] + Works(world, n, k) == Works(world, n, k);
    } else {
      WorksConcat(world, n + 1, j - 1, k);
      Sorting.ConcatAssociative([WorkEvent(world(n))], Works(world, n + 1, j - 1), Works(world, n + j, k));
    }
  }

  /** A worker step at the end of a run. */
  lemma {:induction false} RunWorks(cfg: Config, trace: seq<Event>, t: Tick)
    requires cfg.Valid() && !Reconciliation.Heals(cfg.reconciliation)
    ensures Run(cfg, trace + [WorkEvent(t)]) == Work(cfg, Run(cfg, trace), t)
  {
    assert (trace + [WorkEvent(t)])[..|trace|] == trace;
  }

  // ----- executing a program -----

  /** The state after the worker's program, executed on its own. */
  function Finished(cfg: Config, s: System, world: nat -> Tick, n: nat): System
    requires Known(s.worker.raw, s.worker.prog)
  {
    s.(core := Execute(cfg, s.worker.raw, s.core, s.worker.prog, world, n), worker := s.worker.(prog := []))
  }

  lemma WorkKeepsFinish(cfg: Config, s: System, world: nat -> Tick, n: nat)
    requires cfg.Valid() && Known(s.worker.raw, s.worker.prog) && s.worker.probe < 6 && s.worker.prog != []
    ensures var s' := Work(cfg, s, world(n));
            && Known(s'.worker.raw, s'.worker.prog) && Cost(s'.worker.prog) < Cost(s.worker.prog)
            && Finished(cfg, s', world, n + 1) == Finished(cfg, s, world, n)
  {
    StepShrinks(cfg, s.worker.raw, s.core, s.worker.prog, world(n));
  }

  /** Executing a program is what the worker's steps do while nobody else acts. */
  lemma {:induction false} ExecutionIsARun(cfg: Config, trace: seq<Event>, world: nat -> Tick, n: nat)
    requires cfg.Valid() && !Reconciliation.Heals(cfg.reconciliation)
    ensures exists k: nat :: Run(cfg, trace + Works(world, n, k)) == Finished(cfg, Run(cfg, trace), world, n)
    decreases Cost(Run(cfg, trace).worker.prog)
  {
    if Run(cfg, trace).worker.prog == [] {
      assert trace + Works(world, n, 0) == trace;
    } else {
      var e := WorkEvent(world(n));
      RunWorks(cfg, trace, world(n));
      WorkKeepsFinish(cfg, Run(cfg, trace), world, n);
      ExecutionIsARun(cfg, trace + [e], world, n + 1);
      var k: nat :| Run(cfg, (trace + [e]) + Works(world, n + 1, k))
          == Finished(cfg, Run(cfg, trace + [e]), world, n + 1);
      Sorting.ConcatAssociative(trace, [e], Works(world, n + 1, k));
      assert Works(world, n, k + 1) == [e] + Works(world, n + 1, k);
    }
  }

  // ----- one poll of the queue -----

  lemma OneMoreStep(cfg: Config, trace: seq<Event>, world: nat -> Tick, n: nat, j: nat)
    requires cfg.Valid() && !Reconciliation.Heals(cfg.reconciliation)
    ensures Run(cfg, trace + Works(world, n, j + 1)) == Work(cfg, Run(cfg, trace + Works(world, n, j)), world(n + j))
  {
    var e := WorkEvent(world(n + j));
    WorksConcat(world, n, j, 1);
    assert Works(world, n + j, 1) == [e] + Works(world, n + j + 1, 0) == [e];
    Sorting.ConcatAssociative(trace, Works(world, n, j), [e]);
    RunWorks(cfg, trace + Works(world, n, j), world(n + j));
  }

  /** A probe that finds nothing, before the last. */
  lemma EmptyProbe(cfg: Config, s: System, t: Tick)
    requires cfg.Valid() && s.worker.prog == [] && s.worker.probe < 5 && s.queue.Of(ProbeLane(s.worker.probe)) == []
    ensures Known(s.worker.raw, s.worker.prog)
    ensures Work(cfg, s, t) == s.(worker := s.worker.(probe := s.worker.probe + 1))
  {
  }

  /** An idle worker whose next probes find nothing goes on to the probe after them. */
  lemma {:induction false} SkipEmpty(cfg: Config, trace: seq<Event>, world: nat -> Tick, n: nat, j: nat)
    requires cfg.Valid() && !Reconciliation.Heals(cfg.reconciliation) && j <= 5
    requires Run(cfg, trace).worker.prog == [] && Run(cfg, trace).worker.probe == 0
    requires forall i: nat :: i < j ==> Run(cfg, trace).queue.Of(ProbeLane(i)) == []
    ensures var s := Run(cfg, trace);
            Run(cfg, trace + Works(world, n, j)) == s.(worker := s.worker.(probe := j))
  {
    if j == 0 {
      assert trace + Works(world, n, 0) == trace;
    } else {
      SkipEmpty(cfg, trace, world, n, j - 1);
      OneMoreStep(cfg, trace, world, n, j - 1);
      var s := Run(cfg, trace);
      EmptyProbe(cfg, s.(worker := s.worker.(probe := j - 1)), world(n + (j - 1)));
    }
  }

  /** The probes needed to reach the lane that `get` serves. */
  function ProbesTo(lane: Lane): nat {
    match lane case High => 0 case Normal => 1 case Low => 2
  }

  /** What the worker has after it finds an item in this lane. */
  function Found(cfg: Config, s: System, lane: Lane): System
    requires cfg.router.Valid() && cfg.batching.Valid() && s.queue.Of(lane) != []
  {
    var items := s.queue.Of(lane);
    var taken, popped := s.worker.taken + [items[0]], s.(queue := s.queue.With(lane, items[1..]));
    if |taken| >= cfg.batching.maxBatchSize then Begin(cfg, popped, taken)
    else popped.(worker := s.worker.(taken := taken, probe := 0))
  }

  lemma ProbeReaches(lane: Lane)
    ensures ProbesTo(lane) <= 5 && ProbeLane(ProbesTo(lane)) == lane
  {
  }

  lemma FullProbe(cfg: Config, s: System, lane: Lane, t: Tick, j: nat)
    requires cfg.Valid() && s.worker.prog == [] && s.queue.Of(lane) != [] && j < 6 && ProbeLane(j) == lane
    ensures var s' := s.(worker := s.worker.(probe := j));
            Known(s'.worker.raw, s'.worker.prog) && Work(cfg, s', t) == Found(cfg, s, lane)
  {
  }

  /** One `get` of an idle worker: a few probes, and the head of the first non-empty lane. */
  lemma GetIsARun(cfg: Config, trace: seq<Event>, world: nat -> Tick, n: nat, lane: Lane)
    requires cfg.Valid() && !Reconciliation.Heals(cfg.reconciliation)
    requires Run(cfg, trace).worker.prog == [] && Run(cfg, trace).worker.probe == 0
    requires Run(cfg, trace).queue.Of(lane) != []
    requires forall i: nat :: i < ProbesTo(lane) ==> Run(cfg, trace).queue.Of(ProbeLane(i)) == []
    ensures Run(cfg, trace + Works(world, n, ProbesTo(lane) + 1)) == Found(cfg, Run(cfg, trace), lane)
  {
    var j := ProbesTo(lane);
    ProbeReaches(lane);
    SkipEmpty(cfg, trace, world, n, j);
    OneMoreStep(cfg, trace, world, n, j);
    FullProbe(cfg, Run(cfg, trace), lane, world(n + j), j);
  }

  lemma LastProbe(cfg: Config, s: System, t: Tick)
    requires cfg.Valid() && s.worker.prog == [] && s.worker.taken != [] && s.queue.Of(Low) == []
    ensures var s' := s.(worker := s.worker.(probe := 5));
            Known(s'.worker.raw, s'.worker.prog) && Work(cfg, s', t) == Begin(cfg, s, s.worker.taken)
  {
  }

  /** A `get` that finds nothing more makes the worker begin on what it has. */
  lemma GiveUpIsARun(cfg: Config, trace: seq<Event>, world: nat -> Tick, n: nat)
    requires cfg.Valid() && !Reconciliation.Heals(cfg.reconciliation)
    requires Run(cfg, trace).worker.prog == [] && Run(cfg, trace).worker.probe == 0
             && Run(cfg, trace).worker.taken != []
    requires forall lane: Lane :: Run(cfg, trace).queue.Of(lane) == []
    ensures Run(cfg, trace + Works(world, n, LAST_PROBE + 1))
         == Begin(cfg, Run(cfg, trace), Run(cfg, trace).worker.taken)
  {
    SkipEmpty(cfg, trace, world, n, LAST_PROBE);
    OneMoreStep(cfg, trace, world, n, LAST_PROBE);
    assert Run(cfg, trace).queue.Of(Low) == [];
    LastProbe(cfg, Run(cfg, trace), world(n + LAST_PROBE));
  }

  /** The worker has begun on the payloads at the head of `out`, as many as a batch may hold; the
      rest of `out` is still queued. */
  ghost predicate Polled(cfg: Config, s: System, r: System, out: seq<Entry<Payload>>)
    requires cfg.router.Valid() && cfg.batching.Valid()
  {
    exists rest: seq<Entry<Payload>> ::
      var m := if cfg.batching.maxBatchSize <= |out| then cfg.batching.maxBatchSize else |out|;
      && Implements(r.queue, rest) && DrainOrder(rest) == out[m..]
      && r == Begin(cfg, s.(queue := r.queue), Payloads(out[..m]))
  }

  lemma PolledWith(cfg: Config, s: System, r: System, out: seq<Entry<Payload>>, taken: seq<Payload>,
                   rest: seq<Entry<Payload>>)
    requires cfg.router.Valid() && cfg.batching.Valid() && Drained(out, taken, rest) && Implements(r.queue, rest)
    requires |taken| <= cfg.batching.maxBatchSize && (|taken| == cfg.batching.maxBatchSize || rest == [])
    requires r == Begin(cfg, s.(queue := r.queue), taken)
    ensures Polled(cfg, s, r, out)
  {
  }

  /** The lane that `get` serves, in terms of the arrival list the lanes implement. */
  lemma ServedLane(lanes: Lanes<Payload>, es: seq<Entry<Payload>>) returns (lane: Lane)
    requires Implements(lanes, es) && es != []
    ensures Serves(es, lane) && lanes.Of(lane) != []
    ensures forall i: nat :: i < ProbesTo(lane) ==> lanes.Of(ProbeLane(i)) == []
  {
    LaneSizes(es);
    assert lanes.Of(High) == Payloads(Column(es, High)) && lanes.Of(Normal) == Payloads(Column(es, Normal))
        && lanes.Of(Low) == Payloads(Column(es, Low));
    lane := if Column(es, High) != [] then High else if Column(es, Normal) != [] then Normal else Low;
    assert lanes.Of(lane) == Payloads(Column(es, lane));
  }

  /** One more item, on both sides. */
  lemma {:induction false} FoundDrains(cfg: Config, s: System, es: seq<Entry<Payload>>, lane: Lane,
                                       out: seq<Entry<Payload>>)
    requires cfg.Valid() && Implements(s.queue, es) && Serves(es, lane) && s.queue.Of(lane) != []
             && Drained(out, s.worker.taken, es)
    ensures var items := s.queue.Of(lane);
            && Implements(s.queue.With(lane, items[1..]), RemoveFirst(es, lane))
            && Drained(out, s.worker.taken + [items[0]], RemoveFirst(es, lane)) && |RemoveFirst(es, lane)| == |es| - 1
  {
    TakeImplements(s.queue, es, lane);
    FirstOut(es, lane);
    DrainedOneMore(out, s.worker.taken, es, RemoveFirst(es, lane), s.queue.Of(lane)[0]);
  }

  lemma {:induction false} PollFrom(cfg: Config, trace: seq<Event>, world: nat -> Tick, n: nat, es: seq<Entry<Payload>>,
                                    out: seq<Entry<Payload>>)
    requires cfg.Valid() && !Reconciliation.Heals(cfg.reconciliation)
    requires Run(cfg, trace).worker.prog == [] && Run(cfg, trace).worker.probe == 0
    requires Implements(Run(cfg, trace).queue, es) && Drained(out, Run(cfg, trace).worker.taken, es)
    requires |Run(cfg, trace).worker.taken| < cfg.batching.maxBatchSize
             && (es != [] || Run(cfg, trace).worker.taken != [])
    ensures exists k: nat :: Polled(cfg, Run(cfg, trace), Run(cfg, trace + Works(world, n, k)), out)
    decreases |es|, 0
  {
    var s := Run(cfg, trace);
    if es == [] {
      forall lane: Lane ensures s.queue.Of(lane) == [] {
        assert s.queue.Of(lane) == Payloads(Column(es, lane));
      }
      GiveUpIsARun(cfg, trace, world, n);
      var r := Run(cfg, trace + Works(world, n, LAST_PROBE + 1));
      assert s.(queue := r.queue) == s;
      PolledWith(cfg, s, r, out, s.worker.taken, es);
    } else {
      var lane := ServedLane(s.queue, es);
      var j := ProbesTo(lane) + 1;
      GetIsARun(cfg, trace, world, n, lane);
      FoundDrains(cfg, s, es, lane, out);
      PollOn(cfg, trace, world, n, es, lane, out, j);
    }
  }

  /** Beginning depends on the platform's core and queue only. */
  lemma PolledAlike(cfg: Config, s: System, s': System, r: System, out: seq<Entry<Payload>>)
    requires cfg.router.Valid() && cfg.batching.Valid() && Polled(cfg, s', r, out) && s'.core == s.core
    ensures Polled(cfg, s, r, out)
  {
    var m := if cfg.batching.maxBatchSize <= |out| then cfg.batching.maxBatchSize else |out|;
    assert Begin(cfg, s.(queue := r.queue), Payloads(out[..m]))
           == Begin(cfg, s'.(queue := r.queue), Payloads(out[..m]));
  }

  lemma FoundShape(cfg: Config, s: System, lane: Lane)
    requires cfg.router.Valid() && cfg.batching.Valid() && s.queue.Of(lane) != []
    ensures var f, items := Found(cfg, s, lane), s.queue.Of(lane); var taken := s.worker.taken + [items[0]];
            && f.core == s.core && f.queue == s.queue.With(lane, items[1..])
            && (if |taken| >= cfg.batching.maxBatchSize then f == Begin(cfg, s.(queue := f.queue), taken)
                else f.worker == s.worker.(taken := taken, probe := 0))
  {
  }

  lemma {:induction false} PollOn(cfg: Config, trace: seq<Event>, world: nat -> Tick, n: nat, es: seq<Entry<Payload>>,
                                  lane: Lane, out: seq<Entry<Payload>>, j: nat)
    requires cfg.Valid() && !Reconciliation.Heals(cfg.reconciliation)
    requires Run(cfg, trace).worker.prog == [] && Run(cfg, trace).worker.probe == 0
             && Run(cfg, trace).queue.Of(lane) != []
    requires Run(cfg, trace + Works(world, n, j)) == Found(cfg, Run(cfg, trace), lane)
    requires |Run(cfg, trace).worker.taken| < cfg.batching.maxBatchSize && |RemoveFirst(es, lane)| < |es|
    requires var items := Run(cfg, trace).queue.Of(lane);
             && Implements(Run(cfg, trace).queue.With(lane, items[1..]), RemoveFirst(es, lane))
             && Drained(out, Run(cfg, trace).worker.taken + [items[0]], RemoveFirst(es, lane))
    ensures exists k: nat :: Polled(cfg, Run(cfg, trace), Run(cfg, trace + Works(world, n, k)), out)
    decreases |RemoveFirst(es, lane)|, 1
  {
    var s, more := Run(cfg, trace), trace + Works(world, n, j);
    var taken, rest := s.worker.taken + [s.queue.Of(lane)[0]], RemoveFirst(es, lane);
    FoundShape(cfg, s, lane);
    if |taken| >= cfg.batching.maxBatchSize {
      PolledWith(cfg, s, Run(cfg, more), out, taken, rest);
    } else {
      PollFrom(cfg, more, world, n + j, rest, out);
      var k: nat :| Polled(cfg, Run(cfg, more), Run(cfg, more + Works(world, n + j, k)), out);
      PolledAlike(cfg, s, Run(cfg, more), Run(cfg, more + Works(world, n + j, k)), out);
      WorksConcat(world, n, j, k);
      Sorting.ConcatAssociative(trace, Works(world, n, j), Works(world, n + j, k));
    }
  }

  /** One poll is a run: an idle worker's steps take from the queue exactly what `get_batch` returns,
      and begin on it. */
  lemma PollIsARun(cfg: Config, trace: seq<Event>, world: nat -> Tick, n: nat, arrivals: seq<Entry<Payload>>)
    requires cfg.Valid() && !Reconciliation.Heals(cfg.reconciliation)
    requires Run(cfg, trace).worker.prog == [] && Run(cfg, trace).worker.probe == 0
             && Run(cfg, trace).worker.taken == []
    requires Implements(Run(cfg, trace).queue, arrivals) && arrivals != []
    ensures exists k: nat :: Polled(cfg, Run(cfg, trace), Run(cfg, trace + Works(world, n, k)), DrainOrder(arrivals))
  {
    Sorting.SortPermutes(LaneLe<Payload>, arrivals);
    PollFrom(cfg, trace, world, n, arrivals, DrainOrder(arrivals));
  }

  // ----- enough steps empty the platform -----

  /** Nothing is queued and nothing is in the worker's hands. */
  predicate Quiet(s: System) {
    s.queue.Size() == 0 && s.worker.taken == [] && s.worker.prog == []
  }

  /** The queue is not empty, but the probes still to come in this `get` will not find anything. */
  predicate Missed(s: System) {
    s.queue.Size() > 0 && s.worker.probe >= 4 && s.queue.low == [] && (s.worker.probe == 4 ==> s.queue.high == [])
  }

  /** A bound on the number of steps until the platform is quiet, if nothing more is submitted. */
  function StepsLeft(s: System): nat
    requires s.worker.probe < 6
  {
    16 * s.queue.Size() + 10 * |s.worker.taken| + Cost(s.worker.prog) + (6 - s.worker.probe)
    + if Missed(s) then 6 else 0
  }

  lemma {:induction false} GatesCost(bs: seq<Batching.Batch>)
    requires forall b :: b in bs ==> b.candidates != []
    ensures Cost(Gates(bs)) <= 4 * |BatchingProofs.Flatten(bs)|
  {
    if bs != [] {
      GatesCost(bs[1..]);
      BatchingProofs.FlattenConcat([bs[0]], bs[1..]);
      BatchingProofs.FlattenOne(bs[0]);
      Sorting.ShiftHead([], bs);
      assert bs[0] in bs && [bs[0]] + bs[1..] == bs;
    }
  }

  lemma {:induction false} CandidatesCount(cfg: Config, latency: Latency.Tracker, ps: seq<Payload>)
    requires cfg.router.Valid()
    ensures |CandidatesOf(cfg, latency, ps)| == |ps|
  {
    if ps != [] {
      CandidatesCount(cfg, latency, ps[..|ps| - 1]);
    }
  }

  /** The work planned for some requests is bounded by their number. */
  lemma ProgramCosts(cfg: Config, latency: Latency.Tracker, ps: seq<Payload>)
    requires cfg.Valid()
    ensures Cost(ProgramFor(cfg, latency, ps)) <= 4 * |ps|
  {
    var cs := CandidatesOf(cfg, latency, ps);
    var bs := Batching.Plan(cfg.batching, cs);
    CandidatesCount(cfg, latency, ps);
    BatchingProofs.BatchesPartitionInput(cfg.batching, cs);
    Sorting.SameMembers(cs, BatchingProofs.Flatten(bs));
    BatchingProofs.BatchesWellFormed(cfg.batching, cs);
    forall b | b in bs ensures b.candidates != [] {
      assert BatchingProofs.WellFormed(cfg.batching, b);
    }
    GatesCost(bs);
  }

  lemma BeginCosts(cfg: Config, s: System, taken: seq<Payload>)
    requires cfg.Valid()
    ensures Begin(cfg, s, taken).worker.probe == 0
    ensures StepsLeft(Begin(cfg, s, taken)) <= 16 * s.queue.Size() + 4 * |taken| + 6
  {
    ProgramCosts(cfg, s.core.latency, taken);
  }

  lemma FoundCosts(cfg: Config, s: System, lane: Lane)
    requires cfg.Valid() && s.worker.prog == [] && s.worker.probe < 6 && s.queue.Of(lane) != []
    ensures Found(cfg, s, lane).worker.probe < 6 && StepsLeft(Found(cfg, s, lane)) < StepsLeft(s)
  {
    var items := s.queue.Of(lane);
    var taken, popped := s.worker.taken + [items[0]], s.(queue := s.queue.With(lane, items[1..]));
    assert popped.queue.Size() == s.queue.Size() - 1;
    if |taken| >= cfg.batching.maxBatchSize {
      BeginCosts(cfg, popped, taken);
    }
  }

  lemma IdleLowers(cfg: Config, s: System, t: Tick)
    requires cfg.Valid() && s.worker.prog == [] && s.worker.probe < 6 && s.queue.Of(ProbeLane(s.worker.probe)) == []
    ensures Known(s.worker.raw, s.worker.prog) && Work(cfg, s, t).worker.probe < 6
    ensures if Quiet(s) then Quiet(Work(cfg, s, t)) else StepsLeft(Work(cfg, s, t)) < StepsLeft(s)
  {
    if s.worker.probe == 5 && s.worker.taken != [] {
      BeginCosts(cfg, s, s.worker.taken);
    }
  }

  lemma WorkLowers(cfg: Config, s: System, t: Tick)
    requires cfg.Valid() && Known(s.worker.raw, s.worker.prog) && s.worker.probe < 6
    ensures Work(cfg, s, t).worker.probe < 6
    ensures if Quiet(s) then Quiet(Work(cfg, s, t)) else StepsLeft(Work(cfg, s, t)) < StepsLeft(s)
  {
    if s.worker.prog != [] {
      StepShrinks(cfg, s.worker.raw, s.core, s.worker.prog, t);
    } else {
      var lane := ProbeLane(s.worker.probe);
      if s.queue.Of(lane) != [] {
        FoundCosts(cfg, s, lane);
        assert Work(cfg, s, t) == Found(cfg, s, lane);
      } else {
        IdleLowers(cfg, s, t);
      }
    }
  }

  predicate OnlyWork(es: seq<Event>) {
    forall e :: e in es ==> e.WorkEvent?
  }

  lemma {:induction false} RunLowers(cfg: Config, trace: seq<Event>, t: Tick)
    requires cfg.Valid() && !Reconciliation.Heals(cfg.reconciliation)
    ensures var s, r := Run(cfg, trace), Run(cfg, trace + [WorkEvent(t)]);
            if Quiet(s) then Quiet(r) else StepsLeft(r) < StepsLeft(s)
  {
    RunWorks(cfg, trace, t);
    WorkLowers(cfg, Run(cfg, trace), t);
  }

  lemma LastIsWork(trace: seq<Event>, es: seq<Event>)
    requires OnlyWork(es) && es != []
    ensures es[|es| - 1].WorkEvent?
    ensures trace + es == (trace + es[..|es| - 1]) + [WorkEvent(es[|es| - 1].tick)]
  {
    assert es[|es| - 1] in es;
  }

  lemma {:induction false} WorkDrains(cfg: Config, trace: seq<Event>, es: seq<Event>)
    requires cfg.Valid() && !Reconciliation.Heals(cfg.reconciliation) && OnlyWork(es)
    ensures Quiet(Run(cfg, trace + es)) || StepsLeft(Run(cfg, trace + es)) + |es| <= StepsLeft(Run(cfg, trace))
  {
    if es == [] {
      assert trace + es == trace;
    } else {
      var init, e := es[..|es| - 1], es[|es| - 1];
      assert OnlyWork(init);
      WorkDrains(cfg, trace, init);
      LastIsWork(trace, es);
      RunLowers(cfg, trace + init, e.tick);
    }
  }

  lemma StepsArePositive(s: System)
    requires s.worker.probe < 6
    ensures StepsLeft(s) >= 1
  {
  }

  lemma {:induction false} EnoughSteps(cfg: Config, trace: seq<Event>, es: seq<Event>)
    requires cfg.Valid() && !Reconciliation.Heals(cfg.reconciliation) && OnlyWork(es)
    requires |es| >= StepsLeft(Run(cfg, trace))
    ensures Quiet(Run(cfg, trace + es))
  {
    WorkDrains(cfg, trace, es);
    StepsArePositive(Run(cfg, trace + es));
  }

  lemma {:induction false} AcceptedStay(cfg: Config, trace: seq<Event>, es: seq<Event>)
    requires cfg.Valid() && !Reconciliation.Heals(cfg.reconciliation)
    ensures AcceptedIds(cfg, trace) <= AcceptedIds(cfg, trace + es)
  {
    if es == [] {
      assert trace + es == trace;
    } else {
      AcceptedStay(cfg, trace, es[..|es| - 1]);
      assert (trace + es)[..|trace + es| - 1] == trace + es[..|es| - 1];
    }
  }

  /** With nothing more submitted, boundedly many worker steps empty the platform: every accepted
      request is COMPLETED or FAILED and every tenant slot is free. */
  lemma {:induction false} PlatformDrains(cfg: Config, trace: seq<Event>, es: seq<Event>)
    requires cfg.Valid() && !Reconciliation.Heals(cfg.reconciliation) && OnlyWork(es)
    requires |es| >= StepsLeft(Run(cfg, trace))
    ensures var r := Run(cfg, trace + es);
            && Quiet(r)
            && (forall id :: id in AcceptedIds(cfg, trace) ==>
                  id in r.core.store.records && Terminal(r.core.store.records[id].status))
            && (forall tenant :: r.core.tenants.StateOf(tenant).activeCount == 0)
  {
    EnoughSteps(cfg, trace, es);
    AcceptedStay(cfg, trace, es);
    QuietIsSettled(cfg, trace + es);
  }

  lemma {:induction false} QuietIsSettled(cfg: Config, trace: seq<Event>)
    requires cfg.Valid() && !Reconciliation.Heals(cfg.reconciliation) && Quiet(Run(cfg, trace))
    ensures var r := Run(cfg, trace);
            && (forall id :: id in AcceptedIds(cfg, trace) ==>
                  id in r.core.store.records && Terminal(r.core.store.records[id].status))
            && (forall tenant :: r.core.tenants.StateOf(tenant).activeCount == 0)
  {
    var r := Run(cfg, trace);
    Conservation(cfg, trace);
    QuietHoldsNothing(r);
    forall id | id in AcceptedIds(cfg, trace)
      ensures id in r.core.store.records && Terminal(r.core.store.records[id].status)
    {
      assert InOnePlace(r, id);
    }
  }

  lemma QuietHoldsNothing(s: System)
    requires Quiet(s) && Known(s.worker.raw, s.worker.prog)
    ensures QueueBag(s) == multiset{} && HandBag(s) == multiset{} && QueueBag(s) + HandBag(s) == multiset{}
  {
  }
}
