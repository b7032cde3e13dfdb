/** The failures described elsewhere do happen: runs from the initial state that reach them, with
    nothing in them but publications, exclusive deliveries and the worker's own operations. */
module FleetReach {
  import opened Options
  import opened Results
  import opened Worker
  import opened Fleets
  import opened WorkerProofs
  import opened FleetProofs
  import opened FleetProbes
  import Batching
  import Breaker
  import Latency
  import Executions
  import Router
  import Scheduler

  /** A clean run in which only the first worker acts takes it to `s`. */
  ghost predicate Takes(cfg: Config, n: nat, latency: Latency.Policy, es: seq<FleetEvent>, s: System)
    requires cfg.Valid()
  {
    var f := Run(cfg, Initial(n, latency), es);
    && Disciplined(cfg, Initial(n, latency), es, true)
    && f.Has(0) && f.SystemOf(0) == s
    && forall v: nat :: f.Has(v) && v != 0 ==> f.SystemOf(v).prog == []
  }

  ghost predicate Reaches(cfg: Config, n: nat, latency: Latency.Policy, s: System)
    requires cfg.Valid()
  {
    exists es :: Takes(cfg, n, latency, es, s)
  }

  function Start(latency: Latency.Policy): System {
    System(map[], Core(EMPTY, Breaker.FRESH, Latency.Tracker(latency, map[]), {}, []), map[], [])
  }

  lemma ReachesStart(cfg: Config, n: nat, latency: Latency.Policy)
    requires cfg.Valid() && n >= 1
    ensures Reaches(cfg, n, latency, Start(latency))
  {
    assert Takes(cfg, n, latency, [], Start(latency));
  }

  lemma ReadyToStart(latency: Latency.Policy)
    ensures Ready(Start(latency), latency, 0)
    ensures Start(latency).core.breaker == Breaker.FRESH
    ensures Start(latency).core.latency == Latency.Tracker(latency, map[])
  {
  }

  lemma ReachesNext(cfg: Config, n: nat, latency: Latency.Policy, s: System, e: Event)
    requires cfg.Valid() && Reaches(cfg, n, latency, s) && !e.Crash?
    ensures Reaches(cfg, n, latency, Next(cfg, s, e))
  {
    var es :| Takes(cfg, n, latency, es, s);
    TakesNext(cfg, n, latency, es, s, e);
  }

  lemma TakesNext(cfg: Config, n: nat, latency: Latency.Policy, es: seq<FleetEvent>, s: System, e: Event)
    requires cfg.Valid() && Takes(cfg, n, latency, es, s) && !e.Crash?
    ensures Takes(cfg, n, latency, es + [Act(0, e)], Next(cfg, s, e))
  {
    var f := Run(cfg, Initial(n, latency), es);
    assert (es + [Act(0, e)])[..|es|] == es;
    AllIdleIsExclusive(f, e);
    forall v: nat | f.Has(v) ensures v != 0 ==> f.Absorb(0, Next(cfg, s, e)).SystemOf(v).prog == [] {
      AbsorbViews(f, 0, Next(cfg, s, e), v);
    }
    AbsorbViews(f, 0, Next(cfg, s, e), 0);
  }

  /** Idle workers hold nothing. */
  lemma AllIdleIsExclusive(f: Fleet, e: Event)
    requires f.Has(0) && forall v: nat :: f.Has(v) && v != 0 ==> f.SystemOf(v).prog == []
    ensures Exclusive(f, Act(0, e))
  {
    if e.Receive? && CanReceive(f.SystemOf(0), e.messages) {
      forall m, v: nat | m in e.messages && f.Has(v) ensures !Holds(f, v, m.receipt) {
        assert f.SystemOf(v).prog == [];
      }
    }
  }

  // ----- fresh messages -----

  function Name(i: nat): string {
    seq(i, _ => 'm')
  }

  /** The i-th message of a run: the same task under a new id. */
  function MessageNo(task: Task, i: nat): Message {
    Message(Name(i), Some(task.(eventId := Name(i))))
  }

  /** The worker is idle, has seen no latency, and all messages so far have shorter names. */
  ghost predicate Ready(s: System, latency: Latency.Policy, i: nat) {
    && s.prog == [] && s.core.latency == Latency.Tracker(latency, map[])
    && (forall r :: r in s.inbox ==> |r| < i)
    && (forall id :: id in s.core.store.records ==> |id| < i)
    && (forall d :: d in s.core.deleted ==> |d| < i)
  }

  /** The next message is published and delivered: its candidate stands before the gate. */
  ghost predicate AtGate(cfg: Config, s: System, latency: Latency.Policy, task: Task, i: nat, before: System)
    requires cfg.Valid()
  {
    var m := MessageNo(task, i);
    && |s.prog| == 1 && s.prog[0].Gate? && Placed(cfg, s.prog[0].batch)
    && s.prog[0].batch.candidates == [CandidateOf(cfg, before.core.latency, m.body.value)]
    && s.receipts == map[Name(i) := Name(i)]
    && s.core == before.core.(store := s.core.store)
    && Ready(s.(prog := []), latency, i + 1)
  }

  lemma Deliver(cfg: Config, n: nat, latency: Latency.Policy, s: System, task: Task, i: nat) returns (s': System)
    requires cfg.Valid() && Reaches(cfg, n, latency, s) && Ready(s, latency, i)
             && PlacedAlone(cfg, s.core.latency, task)
    ensures Reaches(cfg, n, latency, s') && AtGate(cfg, s', latency, task, i, s)
  {
    var m := MessageNo(task, i);
    var s1 := Next(cfg, s, Publish(m, ""));
    ReachesNext(cfg, n, latency, s, Publish(m, ""));
    AfterPublish(cfg, s, latency, task, i);
    s' := Next(cfg, s1, Receive([m]));
    ReachesNext(cfg, n, latency, s1, Receive([m]));
    AfterReceive(cfg, s1, task, i);
  }

  lemma AfterPublish(cfg: Config, s: System, latency: Latency.Policy, task: Task, i: nat)
    requires cfg.Valid() && Ready(s, latency, i)
    ensures var m := MessageNo(task, i); var s' := Next(cfg, s, Publish(m, ""));
            && Ready(s', latency, i + 1) && CanReceive(s', [m]) && s'.core == s.core.(store := s'.core.store)
  {
    assert s.core.completions + [] == s.core.completions;
  }

  lemma AfterReceive(cfg: Config, s: System, task: Task, i: nat)
    requires cfg.Valid() && CanReceive(s, [MessageNo(task, i)]) && PlacedAlone(cfg, s.core.latency, task)
    ensures var m := MessageNo(task, i); var s' := Next(cfg, s, Receive([m]));
            && |s'.prog| == 1 && s'.prog[0].Gate? && Placed(cfg, s'.prog[0].batch)
            && s'.prog[0].batch.candidates == [CandidateOf(cfg, s.core.latency, m.body.value)]
            && s' == s.(prog := s'.prog, receipts := map[Name(i) := Name(i)])
  {
    var m := MessageNo(task, i);
    ProgramOfOne(cfg, s.core.latency, m);
    assert [m][..0] == [];
    assert ReceiptsOf([m]) == map[Name(i) := Name(i)];
  }

  /** The gate lets the candidate through: the TTL check is next. */
  lemma PassGate(cfg: Config, n: nat, latency: Latency.Policy, before: System, s: System, task: Task, i: nat, t: Tick)
    returns (c: Batching.Candidate, model: string, s': System)
    requires cfg.Valid() && Reaches(cfg, n, latency, s) && AtGate(cfg, s, latency, task, i, before)
    requires Breaker.Allow(cfg.breaker, before.core.breaker, t.now).1
    ensures Reaches(cfg, n, latency, s') && c.requestId == Name(i) && c.timestamp == task.timestamp
    ensures s' == s.(prog := [Sweep([c], [], model)],
                     core := s.core.(breaker := Breaker.Allow(cfg.breaker, before.core.breaker, t.now).0))
  {
    c, model := s.prog[0].batch.candidates[0], s.prog[0].batch.modelName;
    s' := Next(cfg, s, Work(t));
    ReachesNext(cfg, n, latency, s, Work(t));
    AfterOnlyOne(cfg, s, t);
  }

  lemma AfterOnlyOne(cfg: Config, s: System, t: Tick)
    requires cfg.Valid() && |s.prog| == 1
    ensures Next(cfg, s, Work(t))
         == s.(prog := Expand(cfg, s.core.breaker, s.prog[0], t), core := Effect(cfg, s.receipts, s.core, s.prog[0], t))
  {
    assert s.prog[1..] == [];
  }

  /** A live candidate comes to the adapter: its answer is next. */
  lemma PassSweep(cfg: Config, n: nat, latency: Latency.Policy, s: System, c: Batching.Candidate, model: string,
                  t: Tick)
    returns (s': System)
    requires cfg.Valid() && Reaches(cfg, n, latency, s) && s.prog == [Sweep([c], [], model)]
             && !IsExpired(cfg, c, t.now)
    ensures Reaches(cfg, n, latency, s')
    ensures s' == s.(prog := [Answer(c, model)], core := Write(s.core, ProcessingRecord(c, model)))
  {
    var s1, s2 := Next(cfg, s, Work(t)), s.(prog := MarkAll([c], model) + AnswerAll([c], model));
    AfterOnlyOne(cfg, s, t);
    ReachesNext(cfg, n, latency, s, Work(t));
    assert [c][1..] == [] && [] + [c] == [c];
    assert s1 == s.(prog := [Sweep([], [c], model)]);
    AfterOnlyOne(cfg, s1, t);
    ReachesNext(cfg, n, latency, s1, Work(t));
    assert AnswerOrder([c]) == [c];
    assert Next(cfg, s1, Work(t)) == s2;
    assert MarkAll([c], model) == [Mark(c, model)] && AnswerAll([c], model) == [Answer(c, model)];
    assert s2.prog[0] == Mark(c, model) && s2.prog[1..] == [Answer(c, model)];
    s' := Next(cfg, s2, Work(t));
    ReachesNext(cfg, n, latency, s2, Work(t));
    AfterWork(cfg, s2, t);
  }

  /** An expired candidate is failed and its message deleted; the probe is dropped. */
  lemma Expire(cfg: Config, n: nat, latency: Latency.Policy, s: System, c: Batching.Candidate, model: string, t: Tick)
    returns (s': System)
    requires cfg.Valid() && Reaches(cfg, n, latency, s) && s.prog == [Sweep([c], [], model)] && IsExpired(cfg, c, t.now)
    requires c.requestId in s.receipts
    ensures Reaches(cfg, n, latency, s')
    ensures s' == s.(prog := [], core := Executions.AfterExpiry(s.receipts, s.core, c, model, t))
  {
    var s1 := Next(cfg, s, Work(t));
    AfterOnlyOne(cfg, s, t);
    ReachesNext(cfg, n, latency, s, Work(t));
    assert [c][1..] == [];
    assert s1.prog == [Delete(c.requestId), Sweep([], [], model)];
    var s2 := Next(cfg, s1, Work(t));
    ReachesNext(cfg, n, latency, s1, Work(t));
    AfterWork(cfg, s1, t);
    assert s2.prog == [Sweep([], [], model)];
    s' := Next(cfg, s2, Work(t));
    ReachesNext(cfg, n, latency, s2, Work(t));
    AfterOnlyOne(cfg, s2, t);
  }

  // ----- the breaker gets stuck -----

  /** One request, failed by the adapter. */
  lemma FailOne(cfg: Config, n: nat, latency: Latency.Policy, s: System, task: Task, i: nat, t: Tick)
    returns (s': System)
    requires cfg.Valid() && Reaches(cfg, n, latency, s) && Ready(s, latency, i)
             && PlacedAlone(cfg, s.core.latency, task)
    requires !t.Success() && t.now - task.timestamp <= cfg.ttlSeconds && s.core.breaker.phase == Breaker.Closed
    ensures Reaches(cfg, n, latency, s') && Ready(s', latency, i + 1)
    ensures s'.core.breaker == Breaker.Failure(cfg.breaker, s.core.breaker, t.now)
  {
    var s1 := Deliver(cfg, n, latency, s, task, i);
    var c, model, s2 := PassGate(cfg, n, latency, s, s1, task, i, t);
    var s3 := PassSweep(cfg, n, latency, s2, c, model, t);
    s' := AnswerFails(cfg, n, latency, s3, c, model, t);
    WriteKeepsReady(s1, latency, i + 1, ProcessingRecord(c, model));
    WriteKeepsReady(s1.(core := Write(s1.core, ProcessingRecord(c, model))), latency, i + 1,
                    FailedRecord(c, model, ErrorOf(t.error), t.now));
  }

  lemma AnswerFails(cfg: Config, n: nat, latency: Latency.Policy, s: System, c: Batching.Candidate, model: string,
                    t: Tick)
    returns (s': System)
    requires cfg.Valid() && Reaches(cfg, n, latency, s) && s.prog == [Answer(c, model)] && !t.Success()
    ensures Reaches(cfg, n, latency, s')
    ensures var failed := Write(s.core, FailedRecord(c, model, ErrorOf(t.error), t.now));
            s' == s.(prog := [], core := failed.(breaker := Breaker.Failure(cfg.breaker, s.core.breaker, t.now)))
  {
    s' := Next(cfg, s, Work(t));
    ReachesNext(cfg, n, latency, s, Work(t));
    AfterOnlyOne(cfg, s, t);
  }

  lemma WriteKeepsReady(s: System, latency: Latency.Policy, i: nat, r: Record)
    requires Ready(s.(prog := []), latency, i) && |r.requestId| < i
    ensures Ready(s.(prog := [], core := Write(s.core, r)), latency, i)
  {
  }

  /** Failing requests until the breaker opens. */
  lemma Trip(cfg: Config, n: nat, latency: Latency.Policy, s: System, task: Task, i: nat, t: Tick)
    returns (s': System, i': nat)
    requires cfg.Valid() && Reaches(cfg, n, latency, s) && Ready(s, latency, i)
             && PlacedAlone(cfg, s.core.latency, task)
    requires !t.Success() && t.now - task.timestamp <= cfg.ttlSeconds && s.core.breaker.phase == Breaker.Closed
    ensures Reaches(cfg, n, latency, s') && Ready(s', latency, i')
    ensures s'.core.breaker.phase == Breaker.Open && s'.core.breaker.lastFailureTime == t.now
    decreases if s.core.breaker.failureCount < cfg.breaker.failureThreshold
              then cfg.breaker.failureThreshold - s.core.breaker.failureCount else 0
  {
    s' := FailOne(cfg, n, latency, s, task, i, t);
    i' := i + 1;
    if s'.core.breaker.phase != Breaker.Open {
      s', i' := Trip(cfg, n, latency, s', task, i + 1, t);
    }
  }

  /** Expired requests until the breaker has no probe left. */
  lemma Drain(cfg: Config, n: nat, latency: Latency.Policy, s: System, task: Task, i: nat, t: Tick) returns (s': System)
    requires cfg.Valid() && Reaches(cfg, n, latency, s) && Ready(s, latency, i)
             && PlacedAlone(cfg, s.core.latency, task)
    requires t.now - task.timestamp > cfg.ttlSeconds
    requires Breaker.Read(cfg.breaker, s.core.breaker, t.now).phase == Breaker.HalfOpen
    ensures Reaches(cfg, n, latency, s') && Stuck(cfg, s')
    decreases cfg.breaker.halfOpenMaxProbes - Breaker.Read(cfg.breaker, s.core.breaker, t.now).halfOpenProbes
  {
    var s1 := Deliver(cfg, n, latency, s, task, i);
    if Breaker.Allow(cfg.breaker, s.core.breaker, t.now).1 {
      var c, model, s2 := PassGate(cfg, n, latency, s, s1, task, i, t);
      s' := Expire(cfg, n, latency, s2, c, model, t);
      s' := Drain(cfg, n, latency, s', task, i + 1, t);
    } else {
      s' := Next(cfg, s1, Work(t));
      ReachesNext(cfg, n, latency, s1, Work(t));
      AfterOnlyOne(cfg, s1, t);
      RefusalsAreGated(s1.prog[0].batch.candidates, s1.prog[0].batch.modelName);
    }
  }

  /** In every valid configuration whose scheduler places some request alone, a run without a single
      crash gets a worker stuck. */
  lemma StuckIsReachable(cfg: Config, n: nat, latency: Latency.Policy, task: Task)
    requires cfg.Valid() && n >= 1 && PlacedAlone(cfg, Latency.Tracker(latency, map[]), task)
    ensures exists s :: Reaches(cfg, n, latency, s) && Stuck(cfg, s)
  {
    ReachesStart(cfg, n, latency);
    ReadyToStart(latency);
    var early := Tick(task.timestamp + cfg.ttlSeconds, None, None, 0.0);
    var s, i := Trip(cfg, n, latency, Start(latency), task, 0, early);
    var later := early.now + 1.0 + if cfg.breaker.recoveryTimeout > 0.0 then cfg.breaker.recoveryTimeout else 0.0;
    s := Drain(cfg, n, latency, s, task, i, early.(now := later));
  }

  // ----- a completion that can be lost -----

  /** A worker can be about to delete the message of a completed request, so a crash there and a
      redelivery can overwrite the record. */
  lemma {:induction false} InterruptionIsReachable(cfg: Config, n: nat, latency: Latency.Policy, task: Task)
    requires cfg.Valid() && n >= 1 && PlacedAlone(cfg, Latency.Tracker(latency, map[]), task)
    ensures exists es :: Disciplined(cfg, Initial(n, latency), es, true) && FleetSafe(Run(cfg, Initial(n, latency), es))
                         && Interrupts(Run(cfg, Initial(n, latency), es), Act(0, Crash))
  {
    var t := Tick(task.timestamp + cfg.ttlSeconds, Some(""), None, 0.0);
    var s, c, model := Answering(cfg, n, latency, task, t);
    var s' := Next(cfg, s, Work(t));
    ReachesNext(cfg, n, latency, s, Work(t));
    AfterOnlyOne(cfg, s, t);
    var es :| Takes(cfg, n, latency, es, s');
    InitialSafe(n, latency);
    RunIsSafe(cfg, Initial(n, latency), es, true);
  }

  /** The first request comes to its answer. */
  lemma Answering(cfg: Config, n: nat, latency: Latency.Policy, task: Task, t: Tick)
    returns (s: System, c: Batching.Candidate, model: string)
    requires cfg.Valid() && n >= 1 && PlacedAlone(cfg, Latency.Tracker(latency, map[]), task)
    requires t.now - task.timestamp <= cfg.ttlSeconds
    ensures Reaches(cfg, n, latency, s) && s.prog == [Answer(c, model)]
  {
    ReachesStart(cfg, n, latency);
    ReadyToStart(latency);
    var s1 := Deliver(cfg, n, latency, Start(latency), task, 0);
    var s2;
    c, model, s2 := PassGate(cfg, n, latency, Start(latency), s1, task, 0, t);
    s := PassSweep(cfg, n, latency, s2, c, model, t);
  }

  /** With two workers, one can be about to answer while the other is idle, so a second delivery of
      the message can overwrite the record without any crash. */
  lemma {:induction false} OverlapIsReachable(cfg: Config, n: nat, latency: Latency.Policy, task: Task)
    requires cfg.Valid() && n >= 2 && PlacedAlone(cfg, Latency.Tracker(latency, map[]), task)
    ensures exists es :: var f := Run(cfg, Initial(n, latency), es);
              && Disciplined(cfg, Initial(n, latency), es, true) && FleetSafe(f) && f.Has(0) && f.Has(1)
              && f.SystemOf(0).prog != [] && f.SystemOf(0).prog[0].Answer? && f.SystemOf(1).prog == []
  {
    var s, c, model := Answering(cfg, n, latency, task, Tick(task.timestamp + cfg.ttlSeconds, None, None, 0.0));
    var es :| Takes(cfg, n, latency, es, s);
    InitialSafe(n, latency);
    RunIsSafe(cfg, Initial(n, latency), es, true);
    RunKeepsNodes(cfg, Initial(n, latency), es);
  }

  // ----- the shipped configuration -----

  /** The worker's production settings. */
  const SHIPPED := Config(
    Router.ModelRouter([Router.ModelProfile("llama-3.1-8b", 4096, 10, true, true)], "llama-3.1-8b"),
    Batching.Policy(4, 12000, 2, true),
    true,
    map["llama-3.1-8b" := Scheduler.Profile("llama-3.1-8b", 8192, 25.0, 8)],
    Scheduler.Policy(1024, 92.0, false),
    [Scheduler.Device("gpu-0", 49152, 0, 0.0, false)],
    Breaker.Policy(5, 30.0, 1),
    300.0)

  /** In production every request is placed, so all of the above applies to it. */
  lemma ShippedPlacesAll(latency: Latency.Tracker, task: Task)
    ensures SHIPPED.Valid() && PlacedAlone(SHIPPED, latency, task)
  {
    var only, gpu := SHIPPED.router.profiles[0], SHIPPED.devices[0];
    assert only in SHIPPED.router.profiles;
    var req := Router.Request(task.prompt, task.context, task.eventType, task.priority, task.requestedModel);
    Router.RoutingFitsAndIsMinimal(SHIPPED.router, req, model => latency.IsDegraded(model));
    assert CandidateOf(SHIPPED, latency, task).modelName == "llama-3.1-8b";
    assert gpu in SHIPPED.devices;
    assert Scheduler.Eligible(SHIPPED.scheduling, SHIPPED.profiles["llama-3.1-8b"], gpu);
    Scheduler.PlacementIsTightestFit(SHIPPED.profiles, SHIPPED.scheduling, "llama-3.1-8b", SHIPPED.devices, 1);
  }
}
