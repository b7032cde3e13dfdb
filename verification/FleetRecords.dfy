/** What the records say that a fleet of queue workers leaves, in terms of what happened: which task was
    published, what came of its batch at the gate, when its age was checked, and what the adapter
    answered. */
module FleetRecords {
  import opened Options
  import opened Results
  import opened Worker
  import opened Fleets
  import opened WorkerProofs
  import Adapter
  import Batching
  import BatchingProofs
  import Breaker
  import Latency
  import RagWorkers
  import Router
  import Scheduler
  import Sorting

  // ----- what happens in a run -----

  datatype Fact =
    | Published(task: Task, model: string)
    | Gated(batch: Batching.Batch, placed: bool, granted: bool)          // by the scheduler, by the breaker
    | Refused(candidate: Batching.Candidate, model: string, now: real)
    | Checked(candidate: Batching.Candidate, model: string, now: real)   // its turn of the TTL check
    | Started(candidate: Batching.Candidate, model: string)
    | Answered(candidate: Batching.Candidate, model: string, tick: Tick)

  function FactsOf(cfg: Config, s: System, e: Event): seq<Fact>
    requires cfg.Valid()
  {
    match e
    case Publish(m, model) => if CanPublish(s, m) && m.body.Some? then [Published(m.body.value, model)] else []
    case Work(t) => if s.prog == [] then [] else StepFacts(cfg, s.core.breaker, s.prog[0], t)
    case _ => []
  }

  function StepFacts(cfg: Config, breaker: Breaker.State, op: Op, t: Tick): seq<Fact> {
    match op
    case Gate(b) =>
      [Gated(b, !cfg.gpuSchedulingEnabled
                || Scheduler.Schedule(cfg.profiles, cfg.scheduling, b.modelName, cfg.devices, |b.candidates|).status
                   == Scheduler.Scheduled,
             Breaker.Allow(cfg.breaker, breaker, t.now).1)]
    case Refuse(c, model) => [Refused(c, model, t.now)]
    case Sweep(unchecked, _, model) => if unchecked == [] then [] else [Checked(unchecked[0], model, t.now)]
    case Mark(c, model) => [Started(c, model)]
    case Answer(c, model) => [Answered(c, model, t)]
    case Delete(_) => []
  }

  function EventFacts(cfg: Config, f: Fleet, e: FleetEvent): seq<Fact>
    requires cfg.Valid()
  {
    if e.Act? && f.Has(e.worker) then FactsOf(cfg, f.SystemOf(e.worker), e.event) else []
  }

  function History(cfg: Config, f: Fleet, es: seq<FleetEvent>): seq<Fact>
    requires cfg.Valid()
  {
    if es == [] then []
    else
      var init := es[..|es| - 1];
      History(cfg, f, init) + EventFacts(cfg, Run(cfg, f, init), es[|es| - 1])
  }

  // ----- what is said of a request -----

  /** By this a record of the request is written; at its turn of the TTL check only if it is too old. */
  predicate IsWrite(cfg: Config, f: Fact, id: string) {
    match f
    case Published(task, _) => task.eventId == id
    case Gated(_, _, _) => false
    case Refused(c, _, _) => c.requestId == id
    case Checked(c, _, now) => c.requestId == id && now - c.timestamp > cfg.ttlSeconds
    case Started(c, _) => c.requestId == id
    case Answered(c, _, _) => c.requestId == id
  }

  /** The last of them. */
  function Latest(cfg: Config, h: seq<Fact>, id: string): Option<Fact> {
    if h == [] then None
    else if IsWrite(cfg, h[|h| - 1], id) then Some(h[|h| - 1])
    else Latest(cfg, h[..|h| - 1], id)
  }

  /** The record that a write leaves, for the request of a task. */
  predicate Says(r: Record, task: Task, f: Fact) {
    match f
    case Published(_, model) =>
      r == Record(task.eventId, Pending, Some(task.timestamp), None, Some(model), None, None)
    case Gated(_, _, _) => false
    case Refused(_, model, now) =>
      r == Record(task.eventId, Failed, Some(task.timestamp), Some(now), Some(model), None, Some(BreakerOpen))
    case Checked(_, model, now) =>
      r == Record(task.eventId, Failed, Some(task.timestamp), Some(now), Some(model), None, Some(Expired))
    case Started(_, model) =>
      r == Record(task.eventId, Processing, Some(task.timestamp), None, Some(model), None, None)
    case Answered(_, model, t) =>
      if t.text.Some? && t.error.None?
      then r == Record(task.eventId, Completed, Some(task.timestamp), Some(t.now), Some(model), t.text, None)
      else
        var message := if t.error.Some? && t.error.value != "" then t.error.value else "Inference failed";
        r == Record(task.eventId, Failed, Some(task.timestamp), Some(t.now), Some(model), None,
                    Some(InferenceError(message)))
  }

  ghost predicate IsPublished(h: seq<Fact>, task: Task) {
    exists model :: Published(task, model) in h
  }

  ghost predicate RecordTold(cfg: Config, h: seq<Fact>, r: Record, id: string) {
    exists task ::
      IsPublished(h, task) && task.eventId == id && Latest(cfg, h, id).Some? && Says(r, task, Latest(cfg, h, id).value)
  }

  /** The candidate carries a task, and what routing decides on it. */
  ghost predicate CarriesTask(cfg: Config, c: Batching.Candidate, task: Task)
    requires cfg.router.Valid()
  {
    exists latency: Latency.Tracker :: RoutedAs(cfg, c, task, latency)
  }

  predicate RoutedAs(cfg: Config, c: Batching.Candidate, task: Task, latency: Latency.Tracker)
    requires cfg.router.Valid()
  {
    var d := Router.Route(cfg.router, Router.Request(task.prompt, task.context, task.eventType, task.priority,
                                                     task.requestedModel),
                          model => latency.IsDegraded(model));
    c == Batching.Candidate(task.eventId, task.prompt, task.context, d.modelName, task.eventType, task.priority,
                            d.estimatedTokens, d.batchable, task.timestamp)
  }

  ghost predicate CandidateTold(cfg: Config, h: seq<Fact>, c: Batching.Candidate, model: string)
    requires cfg.router.Valid()
  {
    c.modelName == model && exists task :: IsPublished(h, task) && CarriesTask(cfg, c, task)
  }

  /** The batch of the candidate met the gate: placed, and granted by the breaker or not. */
  ghost predicate Met(h: seq<Fact>, c: Batching.Candidate, granted: bool) {
    exists b :: Gated(b, true, granted) in h && c in b.candidates
  }

  /** At its turn of the TTL check the candidate was young enough. */
  ghost predicate FoundAlive(cfg: Config, h: seq<Fact>, c: Batching.Candidate) {
    exists model, now :: Checked(c, model, now) in h && now - c.timestamp <= cfg.ttlSeconds
  }

  /** What must have happened for this to happen. */
  ghost predicate FactTold(cfg: Config, h: seq<Fact>, f: Fact)
    requires cfg.router.Valid()
  {
    match f
    case Published(_, _) => true
    case Gated(b, _, _) => forall c :: c in b.candidates ==> CandidateTold(cfg, h, c, b.modelName)
    case Refused(c, model, _) => CandidateTold(cfg, h, c, model) && Met(h, c, false)
    case Checked(c, model, _) => CandidateTold(cfg, h, c, model) && Met(h, c, true)
    case Started(c, model) => CandidateTold(cfg, h, c, model) && Met(h, c, true) && FoundAlive(cfg, h, c)
    case Answered(c, model, _) => CandidateTold(cfg, h, c, model) && Met(h, c, true) && FoundAlive(cfg, h, c)
  }

  // ----- the invariant -----

  ghost predicate OpTold(cfg: Config, h: seq<Fact>, op: Op)
    requires cfg.router.Valid()
  {
    match op
    case Gate(b) => forall c :: c in b.candidates ==> CandidateTold(cfg, h, c, b.modelName)
    case Refuse(c, model) => CandidateTold(cfg, h, c, model) && Met(h, c, false)
    case Sweep(unchecked, live, model) =>
      && (forall c :: c in unchecked || c in live ==> CandidateTold(cfg, h, c, model) && Met(h, c, true))
      && (forall c :: c in live ==> FoundAlive(cfg, h, c))
    case Mark(c, model) => CandidateTold(cfg, h, c, model) && Met(h, c, true) && FoundAlive(cfg, h, c)
    case Answer(c, model) => CandidateTold(cfg, h, c, model) && Met(h, c, true) && FoundAlive(cfg, h, c)
    case Delete(_) => true
  }

  ghost predicate ProgTold(cfg: Config, h: seq<Fact>, prog: seq<Op>)
    requires cfg.router.Valid()
  {
    forall op :: op in prog ==> OpTold(cfg, h, op)
  }

  ghost predicate StoreTold(cfg: Config, h: seq<Fact>, store: Store) {
    && (forall id :: id in store.records ==> RecordTold(cfg, h, store.records[id], id))
    && (forall task :: IsPublished(h, task) ==> task.eventId in store.records)
  }

  ghost predicate InboxTold(h: seq<Fact>, inbox: map<string, Message>) {
    forall r :: r in inbox && inbox[r].body.Some? ==> IsPublished(h, inbox[r].body.value)
  }

  ghost predicate HistoryTold(cfg: Config, h: seq<Fact>)
    requires cfg.router.Valid()
  {
    forall f :: f in h ==> FactTold(cfg, h, f)
  }

  // ----- more happens -----

  lemma PublishedStays(h: seq<Fact>, more: seq<Fact>, task: Task)
    requires IsPublished(h, task)
    ensures IsPublished(h + more, task)
  {
    var model :| Published(task, model) in h;
    assert Published(task, model) in h + more;
  }

  lemma CandidateStays(cfg: Config, h: seq<Fact>, more: seq<Fact>, c: Batching.Candidate, model: string)
    requires cfg.router.Valid() && CandidateTold(cfg, h, c, model)
    ensures CandidateTold(cfg, h + more, c, model)
  {
    var task :| IsPublished(h, task) && CarriesTask(cfg, c, task);
    PublishedStays(h, more, task);
  }

  lemma MetStays(h: seq<Fact>, more: seq<Fact>, c: Batching.Candidate, granted: bool)
    requires Met(h, c, granted)
    ensures Met(h + more, c, granted)
  {
    var b :| Gated(b, true, granted) in h && c in b.candidates;
    assert Gated(b, true, granted) in h + more;
  }

  lemma AliveStays(cfg: Config, h: seq<Fact>, more: seq<Fact>, c: Batching.Candidate)
    requires FoundAlive(cfg, h, c)
    ensures FoundAlive(cfg, h + more, c)
  {
    var model, now :| Checked(c, model, now) in h && now - c.timestamp <= cfg.ttlSeconds;
    assert Checked(c, model, now) in h + more;
  }

  lemma OpStays(cfg: Config, h: seq<Fact>, more: seq<Fact>, op: Op)
    requires cfg.router.Valid() && OpTold(cfg, h, op)
    ensures OpTold(cfg, h + more, op)
  {
    match op {
      case Gate(b) =>
        forall c | c in b.candidates ensures CandidateTold(cfg, h + more, c, b.modelName) {
          CandidateStays(cfg, h, more, c, b.modelName);
        }
      case Refuse(c, model) =>
        CandidateStays(cfg, h, more, c, model);
        MetStays(h, more, c, false);
      case Sweep(unchecked, live, model) =>
        forall c | c in unchecked || c in live
          ensures CandidateTold(cfg, h + more, c, model) && Met(h + more, c, true)
        {
          CandidateStays(cfg, h, more, c, model);
          MetStays(h, more, c, true);
        }
        forall c | c in live ensures FoundAlive(cfg, h + more, c) {
          AliveStays(cfg, h, more, c);
        }
      case Mark(c, model) => LiveStays(cfg, h, more, c, model);
      case Answer(c, model) => LiveStays(cfg, h, more, c, model);
      case Delete(_) =>
    }
  }

  lemma LiveStays(cfg: Config, h: seq<Fact>, more: seq<Fact>, c: Batching.Candidate, model: string)
    requires cfg.router.Valid() && CandidateTold(cfg, h, c, model) && Met(h, c, true) && FoundAlive(cfg, h, c)
    ensures CandidateTold(cfg, h + more, c, model) && Met(h + more, c, true) && FoundAlive(cfg, h + more, c)
  {
    CandidateStays(cfg, h, more, c, model);
    MetStays(h, more, c, true);
    AliveStays(cfg, h, more, c);
  }

  lemma ProgStays(cfg: Config, h: seq<Fact>, more: seq<Fact>, prog: seq<Op>)
    requires cfg.router.Valid() && ProgTold(cfg, h, prog)
    ensures ProgTold(cfg, h + more, prog)
  {
    forall op | op in prog ensures OpTold(cfg, h + more, op) {
      OpStays(cfg, h, more, op);
    }
  }

  lemma InboxStays(h: seq<Fact>, more: seq<Fact>, inbox: map<string, Message>)
    requires InboxTold(h, inbox)
    ensures InboxTold(h + more, inbox)
  {
    forall task | IsPublished(h, task) ensures IsPublished(h + more, task) {
      PublishedStays(h, more, task);
    }
  }

  lemma FactStays(cfg: Config, h: seq<Fact>, more: seq<Fact>, f: Fact)
    requires cfg.router.Valid() && FactTold(cfg, h, f)
    ensures FactTold(cfg, h + more, f)
  {
    match f {
      case Published(_, _) =>
      case Gated(b, _, _) => OpStays(cfg, h, more, Gate(b));
      case Refused(c, model, _) => OpStays(cfg, h, more, Refuse(c, model));
      case Checked(c, model, _) => OpStays(cfg, h, more, Sweep([c], [], model));
      case Started(c, model) => LiveStays(cfg, h, more, c, model);
      case Answered(c, model, _) => LiveStays(cfg, h, more, c, model);
    }
  }

  lemma {:induction false} LatestSnoc(cfg: Config, h: seq<Fact>, f: Fact, id: string)
    ensures Latest(cfg, h + [f], id) == if IsWrite(cfg, f, id) then Some(f) else Latest(cfg, h, id)
  {
    assert (h + [f])[..|h|] == h;
  }

  lemma RecordStays(cfg: Config, h: seq<Fact>, f: Fact, r: Record, id: string)
    requires RecordTold(cfg, h, r, id) && !IsWrite(cfg, f, id)
    ensures RecordTold(cfg, h + [f], r, id)
  {
    var task :|
      IsPublished(h, task) && task.eventId == id && Latest(cfg, h, id).Some? && Says(r, task, Latest(cfg, h, id).value);
    LatestSnoc(cfg, h, f, id);
    PublishedStays(h, [f], task);
  }

  // ----- a worker's operations -----

  lemma {:induction false} RefuseAllTold(cfg: Config, h: seq<Fact>, cs: seq<Batching.Candidate>, model: string)
    requires cfg.router.Valid() && forall c :: c in cs ==> CandidateTold(cfg, h, c, model) && Met(h, c, false)
    ensures ProgTold(cfg, h, RefuseAll(cs, model))
  {
    if cs != [] {
      RefuseAllTold(cfg, h, cs[1..], model);
      assert cs[0] in cs;
    }
  }

  lemma {:induction false} LiveAllTold(cfg: Config, h: seq<Fact>, cs: seq<Batching.Candidate>, model: string)
    requires cfg.router.Valid()
    requires forall c :: c in cs ==> CandidateTold(cfg, h, c, model) && Met(h, c, true) && FoundAlive(cfg, h, c)
    ensures ProgTold(cfg, h, MarkAll(cs, model)) && ProgTold(cfg, h, AnswerAll(cs, model))
  {
    if cs != [] {
      LiveAllTold(cfg, h, cs[1..], model);
      assert cs[0] in cs;
    }
  }

  lemma {:induction false} AnswerOrderMembers(cs: seq<Batching.Candidate>)
    ensures forall c :: c in AnswerOrder(cs) ==> c in cs
  {
    var sorted := Sorting.Sort(ByLast(cs), cs);
    Sorting.SortPermutes(ByLast(cs), cs);
    Sorting.SameMembers(sorted, cs);
    forall i | 0 <= i < |cs| ensures AnswerOrder(cs)[i] in cs {
      assert sorted[i] in cs;
      RagWorkers.FirstLikeAgain(cs, sorted[i]);
    }
  }

  lemma {:induction false} ExpandTold(cfg: Config, h: seq<Fact>, breaker: Breaker.State, op: Op, t: Tick)
    requires cfg.router.Valid() && OpTold(cfg, h, op)
    ensures ProgTold(cfg, h + StepFacts(cfg, breaker, op, t), Expand(cfg, breaker, op, t))
  {
    var facts := StepFacts(cfg, breaker, op, t);
    var after := h + facts;
    OpStays(cfg, h, facts, op);
    match op {
      case Gate(b) =>
        assert facts[0] in after;
        forall c | c in b.candidates && facts[0].placed ensures Met(after, c, facts[0].granted) {
        }
        if facts[0].placed && !facts[0].granted {
          RefuseAllTold(cfg, after, b.candidates, b.modelName);
        }
      case Sweep(unchecked, live, model) =>
        if unchecked == [] {
          LiveAllTold(cfg, after, live, model);
          AnswerOrderMembers(live);
          LiveAllTold(cfg, after, AnswerOrder(live), model);
        } else {
          SweepTold(cfg, after, unchecked, live, model, t);
        }
      case _ =>
    }
  }

  lemma SweepTold(cfg: Config, h: seq<Fact>, unchecked: seq<Batching.Candidate>, live: seq<Batching.Candidate>,
                  model: string, t: Tick)
    requires cfg.router.Valid() && unchecked != [] && OpTold(cfg, h, Sweep(unchecked, live, model))
    requires Checked(unchecked[0], model, t.now) in h
    ensures OpTold(cfg, h, Sweep(unchecked[1..], live, model))
    ensures !IsExpired(cfg, unchecked[0], t.now) ==> OpTold(cfg, h, Sweep(unchecked[1..], live + [unchecked[0]], model))
  {
    var c, rest := unchecked[0], unchecked[1..];
    assert unchecked == [c] + rest;
    if !IsExpired(cfg, c, t.now) {
      assert FoundAlive(cfg, h, c);
    }
  }

  /** The record written is the one that the fact says. */
  lemma WriteTold(cfg: Config, h: seq<Fact>, breaker: Breaker.State, op: Op, t: Tick)
    requires cfg.router.Valid() && Writes(cfg, op, t) && OpTold(cfg, h, op)
    ensures var r, facts := Written(cfg, op, t), StepFacts(cfg, breaker, op, t);
            |facts| == 1 && IsWrite(cfg, facts[0], r.requestId) && RecordTold(cfg, h + facts, r, r.requestId)
  {
    var r, f := Written(cfg, op, t), StepFacts(cfg, breaker, op, t)[0];
    var c := if op.Sweep? then op.unchecked[0] else op.candidate;
    assert op.Sweep? ==> c in op.unchecked;
    var task :| IsPublished(h, task) && CarriesTask(cfg, c, task);
    LatestSnoc(cfg, h, f, r.requestId);
    PublishedStays(h, [f], task);
    assert Says(r, task, f);
  }

  /** An operation that writes nothing is no write. */
  lemma NoWrite(cfg: Config, breaker: Breaker.State, op: Op, t: Tick, id: string)
    ensures var facts := StepFacts(cfg, breaker, op, t);
            && |facts| <= 1
            && (facts != [] && IsWrite(cfg, facts[0], id) ==>
                  Writes(cfg, op, t) && Written(cfg, op, t).requestId == id)
            && (facts != [] ==> !facts[0].Published?)
  {
  }

  lemma StepStore(cfg: Config, h: seq<Fact>, receipts: map<string, string>, core: Core, op: Op, t: Tick)
    requires cfg.router.Valid() && OpTold(cfg, h, op) && StoreTold(cfg, h, core.store)
    ensures StoreTold(cfg, h + StepFacts(cfg, core.breaker, op, t), Effect(cfg, receipts, core, op, t).store)
  {
    var facts, before := StepFacts(cfg, core.breaker, op, t), core.store;
    var after := Effect(cfg, receipts, core, op, t).store;
    if Writes(cfg, op, t) {
      WriteTold(cfg, h, core.breaker, op, t);
      WriteEffect(cfg, receipts, core, op, t);
    }
    forall id | id in after.records ensures RecordTold(cfg, h + facts, after.records[id], id) {
      NoWrite(cfg, core.breaker, op, t, id);
      if facts == [] {
        assert h + facts == h;
      } else if !(Writes(cfg, op, t) && Written(cfg, op, t).requestId == id) {
        RecordStays(cfg, h, facts[0], before.records[id], id);
      }
    }
    NoWrite(cfg, core.breaker, op, t, "");
    forall task | IsPublished(h + facts, task) ensures task.eventId in after.records {
      var model :| Published(task, model) in h + facts;
      assert Published(task, model) in h;
    }
  }

  lemma StepFactTold(cfg: Config, h: seq<Fact>, breaker: Breaker.State, op: Op, t: Tick)
    requires cfg.router.Valid() && OpTold(cfg, h, op) && HistoryTold(cfg, h)
    ensures HistoryTold(cfg, h + StepFacts(cfg, breaker, op, t))
  {
    var facts := StepFacts(cfg, breaker, op, t);
    forall f | f in h + facts ensures FactTold(cfg, h + facts, f) {
      if f !in h {
        assert FactTold(cfg, h, f);
      }
      FactStays(cfg, h, facts, f);
    }
  }

  // ----- publications and deliveries -----

  lemma PublishTold(cfg: Config, h: seq<Fact>, s: System, m: Message, model: string)
    requires cfg.Valid() && CanPublish(s, m) && StoreTold(cfg, h, s.core.store) && InboxTold(h, s.inbox)
    ensures var h', s' := h + FactsOf(cfg, s, Publish(m, model)), Next(cfg, s, Publish(m, model));
            StoreTold(cfg, h', s'.core.store) && InboxTold(h', s'.inbox)
  {
    match m.body {
      case None => assert h + [] == h;
      case Some(task) =>
        var f, s' := Published(task, model), Next(cfg, s, Publish(m, model));
        var h', store := h + [f], s.core.store;
        assert f in h';
        InboxStays(h, [f], s.inbox);
        LatestSnoc(cfg, h, f, task.eventId);
        forall id | id in store.records ensures RecordTold(cfg, h', store.records[id], id) {
          RecordStays(cfg, h, f, store.records[id], id);
        }
        assert Says(s'.core.store.records[task.eventId], task, f);
        forall other | IsPublished(h', other) ensures other == task || IsPublished(h, other) {
          var y :| Published(other, y) in h';
        }
    }
  }

  lemma {:induction false} DeliveredTold(cfg: Config, h: seq<Fact>, latency: Latency.Tracker, ms: seq<Message>)
    requires cfg.router.Valid() && forall m :: m in ms && m.body.Some? ==> IsPublished(h, m.body.value)
    ensures forall c :: c in CandidatesOf(cfg, latency, ms) ==> CandidateTold(cfg, h, c, c.modelName)
  {
    if ms != [] {
      var init, last := ms[..|ms| - 1], ms[|ms| - 1];
      assert ms == init + [last] && last in ms;
      DeliveredTold(cfg, h, latency, init);
      if last.body.Some? {
        var c := CandidateOf(cfg, latency, last.body.value);
        assert RoutedAs(cfg, c, last.body.value, latency);
        assert CandidateTold(cfg, h, c, c.modelName);
      }
    }
  }

  lemma {:induction false} GatesTold(cfg: Config, h: seq<Fact>, bs: seq<Batching.Batch>)
    requires cfg.router.Valid()
    requires forall b, c :: b in bs && c in b.candidates ==> CandidateTold(cfg, h, c, b.modelName)
    ensures ProgTold(cfg, h, Gates(bs))
  {
    if bs != [] {
      GatesTold(cfg, h, bs[1..]);
      assert bs[0] in bs;
    }
  }

  lemma {:induction false} ProgramTold(cfg: Config, h: seq<Fact>, latency: Latency.Tracker, ms: seq<Message>)
    requires cfg.Valid() && forall m :: m in ms && m.body.Some? ==> IsPublished(h, m.body.value)
    ensures ProgTold(cfg, h, ProgramFor(cfg, latency, ms))
  {
    var cs := CandidatesOf(cfg, latency, ms);
    var bs := Batching.Plan(cfg.batching, cs);
    DeliveredTold(cfg, h, latency, ms);
    BatchingProofs.BatchesPartitionInput(cfg.batching, cs);
    BatchingProofs.BatchesWellFormed(cfg.batching, cs);
    Sorting.SameMembers(cs, BatchingProofs.Flatten(bs));
    forall b, c | b in bs && c in b.candidates ensures CandidateTold(cfg, h, c, b.modelName) {
      BatchingProofs.FlattenHolds(bs, b);
      assert BatchingProofs.WellFormed(cfg.batching, b);
      assert c.CompatibilityKey() == (b.modelName, b.eventType);
    }
    GatesTold(cfg, h, bs);
  }

  // ----- runs -----

  /** The platform as one worker sees it. */
  ghost predicate ViewTold(cfg: Config, h: seq<Fact>, s: System)
    requires cfg.router.Valid()
  {
    StoreTold(cfg, h, s.core.store) && InboxTold(h, s.inbox) && ProgTold(cfg, h, s.prog) && HistoryTold(cfg, h)
  }

  lemma PublishFactTold(cfg: Config, h: seq<Fact>, s: System, m: Message, model: string)
    requires cfg.Valid() && HistoryTold(cfg, h)
    ensures HistoryTold(cfg, h + FactsOf(cfg, s, Publish(m, model)))
  {
    var facts := FactsOf(cfg, s, Publish(m, model));
    forall f | f in h + facts ensures FactTold(cfg, h + facts, f) {
      if f in h {
        FactStays(cfg, h, facts, f);
      }
    }
  }

  lemma EventTold(cfg: Config, h: seq<Fact>, s: System, e: Event)
    requires cfg.Valid() && ViewTold(cfg, h, s)
    ensures ViewTold(cfg, h + FactsOf(cfg, s, e), Next(cfg, s, e))
  {
    var facts := FactsOf(cfg, s, e);
    assert facts == [] ==> h + facts == h;
    ProgStays(cfg, h, facts, s.prog);
    InboxStays(h, facts, s.inbox);
    match e {
      case Publish(m, model) =>
        PublishFactTold(cfg, h, s, m, model);
        if CanPublish(s, m) {
          PublishTold(cfg, h, s, m, model);
        }
      case Receive(ms) =>
        if CanReceive(s, ms) {
          ProgramTold(cfg, h, s.core.latency, ms);
        }
      case Work(t) =>
        if s.prog != [] {
          assert s.prog[0] in s.prog;
          AfterWork(cfg, s, t);
          StepStore(cfg, h, s.receipts, s.core, s.prog[0], t);
          StepFactTold(cfg, h, s.core.breaker, s.prog[0], t);
          ExpandTold(cfg, h, s.core.breaker, s.prog[0], t);
        }
      case Crash =>
    }
  }

  ghost predicate FleetTold(cfg: Config, h: seq<Fact>, f: Fleet)
    requires cfg.router.Valid()
  {
    && StoreTold(cfg, h, f.store) && InboxTold(h, f.inbox) && HistoryTold(cfg, h)
    && forall w: nat :: f.Has(w) ==> ProgTold(cfg, h, f.nodes[w].prog)
  }

  lemma AdvanceTold(cfg: Config, h: seq<Fact>, f: Fleet, e: FleetEvent)
    requires cfg.Valid() && FleetTold(cfg, h, f)
    ensures FleetTold(cfg, h + EventFacts(cfg, f, e), Advance(cfg, f, e))
  {
    var facts := EventFacts(cfg, f, e);
    if f.Has(e.worker) && e.Act? {
      EventTold(cfg, h, f.SystemOf(e.worker), e.event);
      forall w: nat | f.Has(w) ensures ProgTold(cfg, h + facts, f.nodes[w].prog) {
        ProgStays(cfg, h, facts, f.nodes[w].prog);
      }
    } else {
      assert h + facts == h;
    }
  }

  lemma {:induction false} RunTold(cfg: Config, n: nat, latency: Latency.Policy, es: seq<FleetEvent>)
    requires cfg.Valid()
    ensures FleetTold(cfg, History(cfg, Initial(n, latency), es), Run(cfg, Initial(n, latency), es))
  {
    if es != [] {
      var init := es[..|es| - 1];
      RunTold(cfg, n, latency, init);
      AdvanceTold(cfg, History(cfg, Initial(n, latency), init), Run(cfg, Initial(n, latency), init), es[|es| - 1]);
    }
  }

  // ----- what it means -----

  /** In every run of every fleet, whatever is redelivered to whom and wherever workers stop: a record
      says what the last write for its request says, with the text, the model and the clock of the tick
      that answered it, or with the cause for which it failed, and with its task's time. */
  lemma {:induction false} RecordsTell(cfg: Config, n: nat, latency: Latency.Policy, es: seq<FleetEvent>, id: string)
    requires cfg.Valid() && id in Run(cfg, Initial(n, latency), es).store.records
    ensures var h := History(cfg, Initial(n, latency), es);
            RecordTold(cfg, h, Run(cfg, Initial(n, latency), es).store.records[id], id)
  {
    RunTold(cfg, n, latency, es);
  }

  /** And these writes have their reasons: what is refused met an open circuit, what is answered met a
      closed or probing one and was young enough; and each concerns a candidate that carries a published
      task, prompt and context included, and what routing decides on it. */
  lemma {:induction false} FactsHaveReasons(cfg: Config, n: nat, latency: Latency.Policy, es: seq<FleetEvent>, f: Fact)
    requires cfg.Valid() && f in History(cfg, Initial(n, latency), es)
    ensures FactTold(cfg, History(cfg, Initial(n, latency), es), f)
  {
    RunTold(cfg, n, latency, es);
  }

  /** The adapter is asked what its task says. */
  lemma InputsCarryTasks(cfg: Config, live: seq<Batching.Candidate>, i: nat, task: Task)
    requires cfg.router.Valid() && i < |live| && CarriesTask(cfg, live[i], task)
    ensures Adapter.InputsFor(live)[i] == Adapter.Input(task.eventId, task.prompt, task.context)
  {
  }

  ghost predicate OneTaskEach(h: seq<Fact>) {
    forall f, g :: f in h && g in h && f.Published? && g.Published? && f.task.eventId == g.task.eventId ==> f == g
  }

  lemma FreshOnce(cfg: Config, h: seq<Fact>, f: Fleet, e: FleetEvent)
    requires cfg.Valid() && StoreTold(cfg, h, f.store) && OneTaskEach(h)
    ensures OneTaskEach(h + EventFacts(cfg, f, e))
  {
    var facts := EventFacts(cfg, f, e);
    forall x | x in h && x.Published? ensures x.task.eventId in f.store.records {
      assert IsPublished(h, x.task);
    }
    NewTaskIsFresh(cfg, f, e);
    assert forall x :: x in h + facts <==> x in h || x in facts;
  }

  lemma NewTaskIsFresh(cfg: Config, f: Fleet, e: FleetEvent)
    requires cfg.Valid()
    ensures |EventFacts(cfg, f, e)| <= 1
    ensures forall x :: x in EventFacts(cfg, f, e) && x.Published? ==> x.task.eventId !in f.store.records
  {
  }

  /** There is one task for a request. */
  lemma {:induction false} PublishedOnce(cfg: Config, n: nat, latency: Latency.Policy, es: seq<FleetEvent>)
    requires cfg.Valid()
    ensures OneTaskEach(History(cfg, Initial(n, latency), es))
  {
    if es != [] {
      var init := es[..|es| - 1];
      PublishedOnce(cfg, n, latency, init);
      RunTold(cfg, n, latency, init);
      FreshOnce(cfg, History(cfg, Initial(n, latency), init), Run(cfg, Initial(n, latency), init), es[|es| - 1]);
    }
  }
}
