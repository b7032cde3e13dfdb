/** What the records of the in-process platform say, in terms of what happened: who submitted the
    request, what came of its batch at the gate, and what the adapter answered. */
module DemoRecords {
  import opened Options
  import opened Results
  import opened Demo
  import opened DemoProofs
  import opened DemoConservation
  import Adapter
  import Batching
  import BatchingProofs
  import Breaker
  import Latency
  import PriorityQueue
  import Reconciliation
  import Router
  import Scheduler
  import Sorting

  // ----- what happens in a run -----

  datatype Fact =
    | Submitted(id: string, now: real, req: GatewayRequest)               // and accepted
    | Gated(batch: Batching.Batch, placed: bool, granted: bool)           // by the scheduler, by the breaker
    | Started(id: string)
    | GivenUp(id: string, now: real)
    | Answered(id: string, tick: Tick)

  function FactsOf(cfg: Config, s: System, e: Event): seq<Fact>
    requires Runs(cfg, s)
  {
    match e
    case SubmitEvent(id, now, req) =>
      if id !in s.core.store.records && Submit(cfg, s, id, now, req).1 == Accepted then [Submitted(id, now, req)]
      else []
    case WorkEvent(t) => if s.worker.prog == [] then [] else StepFacts(cfg, s.core, s.worker.prog[0], t)
    case ReconcileEvent(_) => []
  }

  function StepFacts(cfg: Config, core: Core, op: Op, t: Tick): seq<Fact> {
    match op
    case Gate(b) =>
      [Gated(b, Scheduler.Schedule(cfg.profiles, cfg.scheduling, b.modelName, [cfg.gpu], |b.candidates|).status
                == Scheduler.Scheduled,
             Breaker.Allow(cfg.breaker, core.breaker, t.now).1)]
    case Fail(c, _, _) => [GivenUp(c.requestId, t.now)]
    case Mark(c, _) => [Started(c.requestId)]
    case Answer(c, _) => [Answered(c.requestId, t)]
    case Release(_) => []
  }

  ghost function History(cfg: Config, trace: seq<Event>): seq<Fact>
    requires cfg.Valid() && !Reconciliation.Heals(cfg.reconciliation)
  {
    if trace == [] then []
    else
      var init := trace[..|trace| - 1];
      History(cfg, init) + FactsOf(cfg, Run(cfg, init), trace[|trace| - 1])
  }

  // ----- what is said of a request -----

  /** What the gateway decided on. */
  function GatewayDecision(cfg: Config, req: GatewayRequest): Router.Decision
    requires cfg.router.Valid()
  {
    Router.Route(cfg.router, Router.Request(req.prompt, req.context, req.eventType, req.priority, req.requestedModel),
                 _ => false)
  }

  /** The payload carries its submission, and the model that the gateway decided on. */
  predicate Carries(cfg: Config, p: Payload, id: string, now: real, req: GatewayRequest)
    requires cfg.router.Valid()
  {
    && p.eventId == id && p.timestamp == now
    && p.prompt == req.prompt && p.context == req.context && p.eventType == req.eventType
    && p.priority == req.priority && p.tenant == req.tenant
    && p.requestedModel == GatewayDecision(cfg, req).modelName
  }

  ghost predicate AsSubmitted(cfg: Config, h: seq<Fact>, p: Payload)
    requires cfg.router.Valid()
  {
    exists now, req :: Submitted(p.eventId, now, req) in h && Carries(cfg, p, p.eventId, now, req)
  }

  ghost predicate Answers(h: seq<Fact>, id: string) {
    exists t :: Answered(id, t) in h
  }

  ghost predicate GivesUp(h: seq<Fact>, id: string) {
    exists now :: GivenUp(id, now) in h
  }

  /** The batch of the request did not get through: for want of a device, or else by the breaker. */
  ghost predicate Stopped(h: seq<Fact>, id: string, placed: bool) {
    exists b, granted ::
      Gated(b, placed, granted) in h && !(placed && granted) && exists c :: c in b.candidates && c.requestId == id
  }

  /** The record `r` of a request accepted at `accepted` for `model`, as what happened has it. */
  ghost predicate Tells(h: seq<Fact>, r: Record, id: string, accepted: real, model: string) {
    && r.requestId == id && r.acceptedAt == Some(accepted) && r.modelName == Some(model)
    && (r.status == Pending <==> Started(id) !in h && !Answers(h, id) && !GivesUp(h, id))
    && (r.status == Processing <==> Started(id) in h && !Answers(h, id) && !GivesUp(h, id))
    && (r.status == Pending || r.status == Processing ==>
          r.completedAt == None && r.result == None && r.error == None)
    && (forall t :: Answered(id, t) in h ==> TellsAnswer(r, t))
    && (forall now :: GivenUp(id, now) in h ==> TellsFailure(h, r, id, now))
    && (r.status == Completed || r.status == Failed <==> Answers(h, id) || GivesUp(h, id))
  }

  /** A text without an error completes the request with that text; anything else fails it, with the
      adapter's error if there is one. */
  predicate TellsAnswer(r: Record, t: Tick) {
    && r.completedAt == Some(t.now)
    && if t.text.Some? && t.error.None?
       then r.status == Completed && r.result == t.text && r.error == None
       else
         && r.status == Failed && r.result == None
         && r.error == (match t.error case Some(e) => Some(InferenceError(e)) case None => None)
  }

  ghost predicate TellsFailure(h: seq<Fact>, r: Record, id: string, now: real) {
    && r.status == Failed && r.completedAt == Some(now) && r.result == None
    && ((r.error == Some(SchedulingDeferred) && Stopped(h, id, false))
        || (r.error == Some(BreakerOpen) && Stopped(h, id, true)))
  }

  // ----- the invariant -----

  ghost predicate CandidateTold(cfg: Config, h: seq<Fact>, raw: map<string, Payload>, c: Batching.Candidate,
                                model: string)
    requires cfg.router.Valid()
  {
    && c.requestId in raw && raw[c.requestId].eventId == c.requestId && AsSubmitted(cfg, h, raw[c.requestId])
    && (raw[c.requestId].requestedModel != "" ==> model == raw[c.requestId].requestedModel)
  }

  ghost predicate OpTold(cfg: Config, h: seq<Fact>, raw: map<string, Payload>, op: Op)
    requires cfg.router.Valid()
  {
    match op
    case Gate(b) => forall c :: c in b.candidates ==> CandidateTold(cfg, h, raw, c, b.modelName)
    case Fail(c, model, cause) =>
      && CandidateTold(cfg, h, raw, c, model)
      && ((cause == SchedulingDeferred && Stopped(h, c.requestId, false))
          || (cause == BreakerOpen && Stopped(h, c.requestId, true)))
    case Mark(c, model) => CandidateTold(cfg, h, raw, c, model)
    case Answer(c, model) => CandidateTold(cfg, h, raw, c, model)
    case Release(id) => id in raw && AsSubmitted(cfg, h, raw[id])
  }

  ghost predicate ProgTold(cfg: Config, h: seq<Fact>, raw: map<string, Payload>, prog: seq<Op>)
    requires cfg.router.Valid()
  {
    forall op :: op in prog ==> OpTold(cfg, h, raw, op)
  }

  /** A recorded request was submitted, and its record tells what happened to it; its model is the
      gateway's, unless that has no name. */
  ghost predicate RecordTold(cfg: Config, h: seq<Fact>, r: Record, id: string)
    requires cfg.router.Valid()
  {
    exists now, req, model ::
      && Submitted(id, now, req) in h && Tells(h, r, id, now, model)
      && (GatewayDecision(cfg, req).modelName != "" ==> model == GatewayDecision(cfg, req).modelName)
  }

  /** The request that something happened to. */
  predicate IsAbout(f: Fact, id: string) {
    match f
    case Submitted(x, _, _) => x == id
    case Gated(_, _, _) => false
    case Started(x) => x == id
    case GivenUp(x, _) => x == id
    case Answered(x, _) => x == id
  }

  ghost predicate StoreTold(cfg: Config, h: seq<Fact>, store: Store)
    requires cfg.router.Valid()
  {
    && (forall id :: id in store.records ==> RecordTold(cfg, h, store.records[id], id))
    && (forall f, id :: f in h && IsAbout(f, id) ==> id in store.records)
  }

  // ----- more happens -----

  lemma SubmittedStays(cfg: Config, h: seq<Fact>, more: seq<Fact>, p: Payload)
    requires cfg.router.Valid() && AsSubmitted(cfg, h, p)
    ensures AsSubmitted(cfg, h + more, p)
  {
    var now, req :| Submitted(p.eventId, now, req) in h && Carries(cfg, p, p.eventId, now, req);
    assert Submitted(p.eventId, now, req) in h + more;
  }

  lemma StoppedStays(h: seq<Fact>, more: seq<Fact>, id: string, placed: bool)
    requires Stopped(h, id, placed)
    ensures Stopped(h + more, id, placed)
  {
    var b, granted :|
      Gated(b, placed, granted) in h && !(placed && granted) && exists c :: c in b.candidates && c.requestId == id;
    assert Gated(b, placed, granted) in h + more;
  }

  lemma CandidateStays(cfg: Config, h: seq<Fact>, more: seq<Fact>, raw: map<string, Payload>, c: Batching.Candidate,
                       model: string)
    requires cfg.router.Valid() && CandidateTold(cfg, h, raw, c, model)
    ensures CandidateTold(cfg, h + more, raw, c, model)
  {
    SubmittedStays(cfg, h, more, raw[c.requestId]);
  }

  lemma OpStays(cfg: Config, h: seq<Fact>, more: seq<Fact>, raw: map<string, Payload>, op: Op)
    requires cfg.router.Valid() && OpTold(cfg, h, raw, op)
    ensures OpTold(cfg, h + more, raw, op)
  {
    match op {
      case Gate(b) =>
        forall c | c in b.candidates ensures CandidateTold(cfg, h + more, raw, c, b.modelName) {
          CandidateStays(cfg, h, more, raw, c, b.modelName);
        }
      case Fail(c, model, cause) =>
        CandidateStays(cfg, h, more, raw, c, model);
        if cause == SchedulingDeferred {
          StoppedStays(h, more, c.requestId, false);
        } else {
          StoppedStays(h, more, c.requestId, true);
        }
      case Mark(c, model) => CandidateStays(cfg, h, more, raw, c, model);
      case Answer(c, model) => CandidateStays(cfg, h, more, raw, c, model);
      case Release(id) => SubmittedStays(cfg, h, more, raw[id]);
    }
  }

  lemma ProgStays(cfg: Config, h: seq<Fact>, more: seq<Fact>, raw: map<string, Payload>, prog: seq<Op>)
    requires cfg.router.Valid() && ProgTold(cfg, h, raw, prog)
    ensures ProgTold(cfg, h + more, raw, prog)
  {
    forall op | op in prog ensures OpTold(cfg, h + more, raw, op) {
      OpStays(cfg, h, more, raw, op);
    }
  }

  /** What happens to others is not told of a request. */
  lemma TellsStays(h: seq<Fact>, f: Fact, r: Record, id: string, accepted: real, model: string)
    requires Tells(h, r, id, accepted, model) && !IsAbout(f, id)
    ensures Tells(h + [f], r, id, accepted, model)
  {
    var more := h + [f];
    assert forall x :: x in more <==> x in h || x == f;
    forall now | GivenUp(id, now) in more ensures TellsFailure(more, r, id, now) {
      if r.error == Some(SchedulingDeferred) {
        StoppedStays(h, [f], id, false);
      } else {
        StoppedStays(h, [f], id, true);
      }
    }
    assert Answers(more, id) <==> Answers(h, id);
    assert GivesUp(more, id) <==> GivesUp(h, id);
  }

  lemma RecordStays(cfg: Config, h: seq<Fact>, f: Fact, r: Record, id: string)
    requires cfg.router.Valid() && RecordTold(cfg, h, r, id) && !IsAbout(f, id)
    ensures RecordTold(cfg, h + [f], r, id)
  {
    var now, req, model :|
      && Submitted(id, now, req) in h && Tells(h, r, id, now, model)
      && (GatewayDecision(cfg, req).modelName != "" ==> model == GatewayDecision(cfg, req).modelName);
    TellsStays(h, f, r, id, now, model);
    assert Submitted(id, now, req) in h + [f];
  }

  // ----- the worker's operations -----

  lemma {:induction false} FailAllTold(cfg: Config, h: seq<Fact>, raw: map<string, Payload>,
                                       cs: seq<Batching.Candidate>, model: string, cause: Failure)
    requires cfg.router.Valid()
    requires forall c :: c in cs ==> CandidateTold(cfg, h, raw, c, model)
    requires cause == SchedulingDeferred || cause == BreakerOpen
    requires forall c :: c in cs ==> Stopped(h, c.requestId, cause == BreakerOpen)
    ensures ProgTold(cfg, h, raw, FailAll(cs, model, cause))
  {
    if cs != [] {
      FailAllTold(cfg, h, raw, cs[1..], model, cause);
      assert cs[0] in cs;
    }
  }

  lemma {:induction false} RunAllTold(cfg: Config, h: seq<Fact>, raw: map<string, Payload>,
                                      cs: seq<Batching.Candidate>, model: string)
    requires cfg.router.Valid()
    requires forall c :: c in cs ==> CandidateTold(cfg, h, raw, c, model)
    ensures ProgTold(cfg, h, raw, MarkAll(cs, model)) && ProgTold(cfg, h, raw, AnswerAll(cs, model))
  {
    if cs != [] {
      RunAllTold(cfg, h, raw, cs[1..], model);
      assert cs[0] in cs;
    }
  }

  lemma {:induction false} GateTold(cfg: Config, h: seq<Fact>, raw: map<string, Payload>, core: Core, b: Batching.Batch,
                                    t: Tick)
    requires cfg.router.Valid() && OpTold(cfg, h, raw, Gate(b))
    ensures ProgTold(cfg, h + StepFacts(cfg, core, Gate(b), t), raw, PassGate(cfg, core, b, t.now).1)
  {
    var facts := StepFacts(cfg, core, Gate(b), t);
    var after := h + facts;
    OpStays(cfg, h, facts, raw, Gate(b));
    var placed, granted := facts[0].placed, facts[0].granted;
    assert Gated(b, placed, granted) in after;
    RunAllTold(cfg, after, raw, b.candidates, b.modelName);
    if !placed {
      forall c | c in b.candidates ensures Stopped(after, c.requestId, false) {
      }
      FailAllTold(cfg, after, raw, b.candidates, b.modelName, SchedulingDeferred);
    } else if !granted {
      forall c | c in b.candidates ensures Stopped(after, c.requestId, true) {
      }
      FailAllTold(cfg, after, raw, b.candidates, b.modelName, BreakerOpen);
    }
  }

  /** An open request is written for: the new record tells that. */
  lemma {:induction false} WriteTold(cfg: Config, h: seq<Fact>, raw: map<string, Payload>, core: Core, op: Op, t: Tick)
    requires cfg.router.Valid() && Writes(op) && op.candidate.requestId in raw && OpTold(cfg, h, raw, op)
    requires !Answers(h, op.candidate.requestId) && !GivesUp(h, op.candidate.requestId)
    ensures RecordTold(cfg, h + StepFacts(cfg, core, op, t), Written(raw, op, t), op.candidate.requestId)
  {
    var id, r, f := op.candidate.requestId, Written(raw, op, t), StepFacts(cfg, core, op, t)[0];
    var now, req :| Submitted(id, now, req) in h && Carries(cfg, raw[id], id, now, req);
    var more := h + [f];
    assert Submitted(id, now, req) in more;
    if op.Fail? {
      StoppedStays(h, [f], id, op.cause == BreakerOpen);
    }
    OneMoreFact(h, f, id);
    assert Tells(more, r, id, now, op.model);
  }

  lemma OneMoreFact(h: seq<Fact>, f: Fact, id: string)
    requires !Answers(h, id) && !GivesUp(h, id)
    ensures forall t :: Answered(id, t) in h + [f] <==> f == Answered(id, t)
    ensures forall now :: GivenUp(id, now) in h + [f] <==> f == GivenUp(id, now)
    ensures Started(id) in h + [f] <==> Started(id) in h || f == Started(id)
    ensures Answers(h + [f], id) <==> f.Answered? && f.id == id
    ensures GivesUp(h + [f], id) <==> f.GivenUp? && f.id == id
  {
    if f.Answered? && f.id == id {
      assert Answered(id, f.tick) in h + [f];
    }
    if f.GivenUp? && f.id == id {
      assert GivenUp(id, f.now) in h + [f];
    }
  }

  lemma StepTold(cfg: Config, h: seq<Fact>, raw: map<string, Payload>, core: Core, prog: seq<Op>, t: Tick)
    requires cfg.router.Valid() && prog != [] && Known(raw, prog) && ProgTold(cfg, h, raw, prog)
    requires StoreTold(cfg, h, core.store)
    requires Writes(prog[0]) ==> prog[0].candidate.requestId in core.store.records
                                 && !Settled(core.store, prog[0].candidate.requestId)
    ensures IdsOf(prog[0]) <= raw.Keys
    ensures var (core', pushed), h' := Step(cfg, raw, core, prog[0], t), h + StepFacts(cfg, core, prog[0], t);
            ProgTold(cfg, h', raw, pushed + prog[1..]) && StoreTold(cfg, h', core'.store)
  {
    var op, facts := prog[0], StepFacts(cfg, core, prog[0], t);
    assert op in prog;
    ProgStays(cfg, h, facts, raw, prog);
    StepStores(cfg, raw, core, op, t);
    if op.Gate? {
      GateTold(cfg, h, raw, core, op.batch, t);
    }
    if facts != [] {
      StoreAfterFact(cfg, h, raw, core, op, t);
    } else {
      assert h + facts == h;
    }
  }

  lemma StoreAfterFact(cfg: Config, h: seq<Fact>, raw: map<string, Payload>, core: Core, op: Op, t: Tick)
    requires cfg.router.Valid() && !op.Release? && IdsOf(op) <= raw.Keys && OpTold(cfg, h, raw, op)
    requires StoreTold(cfg, h, core.store)
    requires Writes(op) ==> op.candidate.requestId in core.store.records
                            && !Settled(core.store, op.candidate.requestId)
    ensures StoreTold(cfg, h + StepFacts(cfg, core, op, t), Step(cfg, raw, core, op, t).0.store)
  {
    var f := StepFacts(cfg, core, op, t)[0];
    var before, after := core.store, Step(cfg, raw, core, op, t).0.store;
    StepStores(cfg, raw, core, op, t);
    if Writes(op) {
      OpenIsUntold(cfg, h, before.records[op.candidate.requestId], op.candidate.requestId);
      WriteTold(cfg, h, raw, core, op, t);
    }
    assert StepFacts(cfg, core, op, t) == [f];
    var written := if Writes(op) then {op.candidate.requestId} else {};
    OthersStay(cfg, h, f, before, written);
    forall id | id in after.records ensures RecordTold(cfg, h + [f], after.records[id], id) {
    }
  }

  /** The records of all requests but those a fact is about stay told, and the facts are about requests. */
  lemma OthersStay(cfg: Config, h: seq<Fact>, f: Fact, store: Store, written: set<string>)
    requires cfg.router.Valid() && StoreTold(cfg, h, store) && written <= store.records.Keys
    requires forall id :: IsAbout(f, id) ==> id in written
    ensures forall id :: id in store.records && id !in written ==> RecordTold(cfg, h + [f], store.records[id], id)
    ensures forall x, id :: x in h + [f] && IsAbout(x, id) ==> id in store.records
  {
    forall id | id in store.records && id !in written ensures RecordTold(cfg, h + [f], store.records[id], id) {
      RecordStays(cfg, h, f, store.records[id], id);
    }
    assert forall x :: x in h + [f] <==> x in h || x == f;
  }

  lemma OpenIsUntold(cfg: Config, h: seq<Fact>, r: Record, id: string)
    requires cfg.router.Valid() && RecordTold(cfg, h, r, id) && !Terminal(r.status)
    ensures !Answers(h, id) && !GivesUp(h, id)
  {
  }

  // ----- submissions and beginnings -----

  /** The requests not yet part of a program carry their submissions, and lie in the lane of their
      priority. */
  ghost predicate QueueTold(cfg: Config, h: seq<Fact>, s: System)
    requires cfg.router.Valid()
  {
    && (forall p :: p in s.queue.high ==> AsSubmitted(cfg, h, p) && p.priority <= 2)
    && (forall p :: p in s.queue.normal ==> AsSubmitted(cfg, h, p) && 3 <= p.priority <= 7)
    && (forall p :: p in s.queue.low ==> AsSubmitted(cfg, h, p) && 8 <= p.priority)
    && (forall p :: p in s.worker.taken ==> AsSubmitted(cfg, h, p))
  }

  lemma QueueStays(cfg: Config, h: seq<Fact>, more: seq<Fact>, s: System)
    requires cfg.router.Valid() && QueueTold(cfg, h, s)
    ensures QueueTold(cfg, h + more, s)
  {
    forall p | AsSubmitted(cfg, h, p) ensures AsSubmitted(cfg, h + more, p) {
      SubmittedStays(cfg, h, more, p);
    }
  }

  lemma QueuedAtEnd(cfg: Config, s: System, id: string, now: real, req: GatewayRequest)
    requires Runs(cfg, s) && Submit(cfg, s, id, now, req).1 == Accepted
    ensures var s', p := Submit(cfg, s, id, now, req).0, PayloadFor(cfg, id, now, req);
            && s'.queue.high == s.queue.high + (if req.priority <= 2 then [p] else [])
            && s'.queue.normal == s.queue.normal + (if 3 <= req.priority <= 7 then [p] else [])
            && s'.queue.low == s.queue.low + (if 8 <= req.priority then [p] else [])
            && s'.worker == s.worker && s'.core.store == s.core.store.Put(PendingRecord(p))
  {
  }

  lemma SubmitTold(cfg: Config, h: seq<Fact>, s: System, id: string, now: real, req: GatewayRequest)
    requires Runs(cfg, s) && id !in s.core.store.records && Submit(cfg, s, id, now, req).1 == Accepted
    requires QueueTold(cfg, h, s) && StoreTold(cfg, h, s.core.store)
    ensures var h', s' := h + [Submitted(id, now, req)], Submit(cfg, s, id, now, req).0;
            QueueTold(cfg, h', s') && StoreTold(cfg, h', s'.core.store)
  {
    var f, s' := Submitted(id, now, req), Submit(cfg, s, id, now, req).0;
    var h', p := h + [f], PayloadFor(cfg, id, now, req);
    assert f in h' && Carries(cfg, p, id, now, req);
    QueueStays(cfg, h, [f], s);
    QueuedAtEnd(cfg, s, id, now, req);
    NewRecordTold(cfg, h, s.core.store, id, now, req);
  }

  lemma NewRecordTold(cfg: Config, h: seq<Fact>, store: Store, id: string, now: real, req: GatewayRequest)
    requires cfg.router.Valid() && StoreTold(cfg, h, store) && id !in store.records
    ensures StoreTold(cfg, h + [Submitted(id, now, req)], store.Put(PendingRecord(PayloadFor(cfg, id, now, req))))
  {
    var f, r := Submitted(id, now, req), PendingRecord(PayloadFor(cfg, id, now, req));
    var h' := h + [f];
    assert forall x :: x in h' <==> x in h || x == f;
    forall x | x in h ensures !IsAbout(x, id) {
    }
    assert forall t :: Answered(id, t) in h ==> IsAbout(Answered(id, t), id);
    assert forall t :: GivenUp(id, t) in h ==> IsAbout(GivenUp(id, t), id);
    assert IsAbout(Started(id), id);
    assert Tells(h', r, id, now, GatewayDecision(cfg, req).modelName);
    forall x | x in store.records ensures RecordTold(cfg, h', store.records[x], x) {
      RecordStays(cfg, h, f, store.records[x], x);
    }
  }

  lemma {:induction false} CandidatesAreOf(cfg: Config, latency: Latency.Tracker, ps: seq<Payload>)
    requires cfg.router.Valid()
    ensures forall c :: c in CandidatesOf(cfg, latency, ps) ==> exists p :: p in ps && c == CandidateOf(cfg, latency, p)
  {
    if ps != [] {
      var init, last := ps[..|ps| - 1], ps[|ps| - 1];
      assert ps == init + [last] && last in ps;
      CandidatesAreOf(cfg, latency, init);
      forall c | c in CandidatesOf(cfg, latency, init)
        ensures exists p :: p in ps && c == CandidateOf(cfg, latency, p)
      {
        var p :| p in init && c == CandidateOf(cfg, latency, p);
        assert p in ps;
      }
    }
  }

  /** Routing in the worker gives what the gateway decided, and the candidate carries the submission. */
  lemma CandidateCarries(cfg: Config, latency: Latency.Tracker, p: Payload, id: string, now: real, req: GatewayRequest)
    requires cfg.router.Valid() && Carries(cfg, p, id, now, req) && GatewayDecision(cfg, req).modelName != ""
    ensures CandidateOf(cfg, latency, p)
         == Batching.Candidate(id, req.prompt, req.context, GatewayDecision(cfg, req).modelName, req.eventType,
                               req.priority, GatewayDecision(cfg, req).estimatedTokens,
                               GatewayDecision(cfg, req).batchable, now)
  {
    Router.ReroutingIsStable(cfg.router,
                             Router.Request(req.prompt, req.context, req.eventType, req.priority, req.requestedModel),
                             _ => false, model => latency.IsDegraded(model));
  }

  /** The adapter is asked what was submitted. */
  lemma InputsCarry(cfg: Config, latency: Latency.Tracker, cs: seq<Batching.Candidate>, i: nat, p: Payload, id: string,
                    now: real, req: GatewayRequest)
    requires cfg.router.Valid() && i < |cs| && cs[i] == CandidateOf(cfg, latency, p) && Carries(cfg, p, id, now, req)
    ensures Adapter.InputsFor(cs)[i] == Adapter.Input(id, req.prompt, req.context)
  {
  }

  lemma {:induction false} CandidateIsTold(cfg: Config, h: seq<Fact>, latency: Latency.Tracker, ps: seq<Payload>,
                                           c: Batching.Candidate)
    requires cfg.router.Valid() && c in CandidatesOf(cfg, latency, ps)
    requires forall p :: p in ps ==> AsSubmitted(cfg, h, p)
    requires forall p, q :: p in ps && q in ps && p.eventId == q.eventId ==> p == q
    ensures CandidateTold(cfg, h, RawOf(ps), c, c.modelName)
  {
    CandidatesAreOf(cfg, latency, ps);
    RawFacts(ps);
    var p :| p in ps && c == CandidateOf(cfg, latency, p);
    var now, req :| Submitted(p.eventId, now, req) in h && Carries(cfg, p, p.eventId, now, req);
    if p.requestedModel != "" {
      CandidateCarries(cfg, latency, p, p.eventId, now, req);
    }
  }

  lemma {:induction false} GatesTold(cfg: Config, h: seq<Fact>, raw: map<string, Payload>, bs: seq<Batching.Batch>)
    requires cfg.router.Valid()
    requires forall b, c :: b in bs && c in b.candidates ==> CandidateTold(cfg, h, raw, c, b.modelName)
    ensures ProgTold(cfg, h, raw, Gates(bs))
  {
    if bs != [] {
      GatesTold(cfg, h, raw, bs[1..]);
      assert bs[0] in bs;
    }
  }

  lemma {:induction false} ProgramTold(cfg: Config, h: seq<Fact>, latency: Latency.Tracker, ps: seq<Payload>)
    requires cfg.Valid() && forall p :: p in ps ==> AsSubmitted(cfg, h, p)
    requires forall p, q :: p in ps && q in ps && p.eventId == q.eventId ==> p == q
    ensures ProgTold(cfg, h, RawOf(ps), ProgramFor(cfg, latency, ps))
  {
    var cs := CandidatesOf(cfg, latency, ps);
    var bs := Batching.Plan(cfg.batching, cs);
    BatchingProofs.BatchesPartitionInput(cfg.batching, cs);
    BatchingProofs.BatchesWellFormed(cfg.batching, cs);
    Sorting.SameMembers(cs, BatchingProofs.Flatten(bs));
    forall b, c | b in bs && c in b.candidates ensures CandidateTold(cfg, h, RawOf(ps), c, b.modelName) {
      BatchingProofs.FlattenHolds(bs, b);
      CandidateIsTold(cfg, h, latency, ps, c);
      assert BatchingProofs.WellFormed(cfg.batching, b);
      assert c.CompatibilityKey() == (b.modelName, b.eventType);
    }
    GatesTold(cfg, h, RawOf(ps), bs);
  }

  // ----- runs -----

  ghost predicate Told(cfg: Config, h: seq<Fact>, s: System)
    requires cfg.router.Valid()
  {
    && QueueTold(cfg, h, s) && StoreTold(cfg, h, s.core.store)
    && ProgTold(cfg, h, s.worker.raw, s.worker.prog)
  }

  lemma BeginTold(cfg: Config, h: seq<Fact>, s: System, taken: seq<Payload>)
    requires cfg.Valid() && Told(cfg, h, s) && forall p :: p in taken ==> AsSubmitted(cfg, h, p)
    requires forall p, q :: p in taken && q in taken && p.eventId == q.eventId ==> p == q
    ensures Told(cfg, h, Begin(cfg, s, taken))
  {
    ProgramTold(cfg, h, s.core.latency, taken);
  }

  /** What has been taken are distinct requests. */
  lemma TakenDiffer(store: Store, bag: multiset<Payload>, taken: seq<Payload>)
    requires Recorded(store, bag) && multiset(taken) <= bag
    ensures forall p, q :: p in taken && q in taken && p.eventId == q.eventId ==> p == q
  {
    forall p | p in taken ensures p in bag {
      assert p in multiset(taken);
      assert multiset(taken)[p] <= bag[p];
    }
  }

  lemma FoundTold(cfg: Config, h: seq<Fact>, s: System, lane: PriorityQueue.Lane)
    requires cfg.Valid() && Inv(cfg, s) && s.worker.prog == [] && Told(cfg, h, s) && s.queue.Of(lane) != []
    ensures var items := s.queue.Of(lane);
            var taken, popped := s.worker.taken + [items[0]], s.(queue := s.queue.With(lane, items[1..]));
            && Told(cfg, h, popped) && (forall p :: p in taken ==> AsSubmitted(cfg, h, p))
            && (forall p, q :: p in taken && q in taken && p.eventId == q.eventId ==> p == q)
  {
    var w, items, bag := s.worker, s.queue.Of(lane), QueueBag(s) + multiset(s.worker.taken);
    var taken, popped := w.taken + [items[0]], s.(queue := s.queue.With(lane, items[1..]));
    TakeHeadKeepsBag(s, lane);
    assert bag + Outstanding(w.raw, w.prog) == bag;
    assert multiset(taken) == multiset(w.taken) + multiset{items[0]};
    assert QueueBag(popped) + multiset(taken) == bag;
    TakenDiffer(s.core.store, bag, taken);
    assert items[0] in items && forall p :: p in items[1..] ==> p in items;
  }

  lemma ProbeTold(cfg: Config, h: seq<Fact>, s: System, t: Tick)
    requires cfg.Valid() && Inv(cfg, s) && s.worker.prog == [] && Told(cfg, h, s)
    ensures Told(cfg, h, Work(cfg, s, t))
  {
    var w, lane := s.worker, PriorityQueue.ProbeLane(s.worker.probe);
    var items := s.queue.Of(lane);
    if items != [] {
      var taken, popped := w.taken + [items[0]], s.(queue := s.queue.With(lane, items[1..]));
      FoundTold(cfg, h, s, lane);
      if |taken| >= cfg.batching.maxBatchSize {
        BeginTold(cfg, h, popped, taken);
      }
    } else if w.probe >= 5 && w.taken != [] {
      var bag := QueueBag(s) + multiset(w.taken);
      assert bag + Outstanding(w.raw, w.prog) == bag;
      TakenDiffer(s.core.store, bag, w.taken);
      BeginTold(cfg, h, s, w.taken);
    }
  }

  lemma EventTold(cfg: Config, h: seq<Fact>, s: System, e: Event)
    requires Runs(cfg, s) && Inv(cfg, s) && !Reconciliation.Heals(cfg.reconciliation) && Told(cfg, h, s)
    requires OpenUntilRelease(s.core.store, s.worker.raw, s.worker.prog)
    ensures Told(cfg, h + FactsOf(cfg, s, e), Next(cfg, s, e))
  {
    var facts := FactsOf(cfg, s, e);
    assert facts == [] ==> h + facts == h;
    match e {
      case SubmitEvent(id, now, req) =>
        ProgStays(cfg, h, facts, s.worker.raw, s.worker.prog);
        if facts != [] {
          SubmitTold(cfg, h, s, id, now, req);
        }
      case WorkEvent(t) =>
        if s.worker.prog == [] {
          ProbeTold(cfg, h, s, t);
        } else {
          WorkTold(cfg, h, s, t);
        }
      case ReconcileEvent(_) =>
    }
  }

  lemma WorkTold(cfg: Config, h: seq<Fact>, s: System, t: Tick)
    requires Runs(cfg, s) && Inv(cfg, s) && s.worker.prog != [] && Told(cfg, h, s)
    requires OpenUntilRelease(s.core.store, s.worker.raw, s.worker.prog)
    ensures IdsOf(s.worker.prog[0]) <= s.worker.raw.Keys
    ensures Told(cfg, h + StepFacts(cfg, s.core, s.worker.prog[0], t), Work(cfg, s, t))
  {
    var w := s.worker;
    QueueStays(cfg, h, StepFacts(cfg, s.core, w.prog[0], t), s);
    if Writes(w.prog[0]) {
      WriteIsForOpen(s.core.store, w.raw, w.prog);
    }
    StepTold(cfg, h, w.raw, s.core, w.prog, t);
  }

  lemma {:induction false} RunTold(cfg: Config, trace: seq<Event>)
    requires cfg.Valid() && !Reconciliation.Heals(cfg.reconciliation)
    ensures Told(cfg, History(cfg, trace), Run(cfg, trace))
  {
    if trace != [] {
      var init := trace[..|trace| - 1];
      RunTold(cfg, init);
      RunIsOpen(cfg, init);
      EventTold(cfg, History(cfg, init), Run(cfg, init), trace[|trace| - 1]);
    }
  }

  // ----- what it means -----

  /** Over every run, a request in flight carries, field by field, the submission that drew its id, with
      the submission's clock and the model the gateway decided on; and it is queued by its priority. */
  lemma {:induction false} PayloadsCarrySubmissions(cfg: Config, trace: seq<Event>)
    requires cfg.Valid() && !Reconciliation.Heals(cfg.reconciliation)
    ensures var s, h := Run(cfg, trace), History(cfg, trace);
            && (forall p :: p in QueueBag(s) + HandBag(s) ==>
                  exists req :: Submitted(p.eventId, p.timestamp, req) in h
                                && Carries(cfg, p, p.eventId, p.timestamp, req))
            && (forall p :: p in s.queue.high ==> p.priority <= 2)
            && (forall p :: p in s.queue.normal ==> 3 <= p.priority <= 7)
            && (forall p :: p in s.queue.low ==> 8 <= p.priority)
  {
    var s, h := Run(cfg, trace), History(cfg, trace);
    RunTold(cfg, trace);
    OutstandingTold(cfg, h, s.worker.raw, s.worker.prog);
    forall p | p in QueueBag(s) + HandBag(s) ensures AsSubmitted(cfg, h, p) {
      assert p in s.queue.high || p in s.queue.normal || p in s.queue.low || p in s.worker.taken
             || p in Outstanding(s.worker.raw, s.worker.prog);
    }
  }

  lemma {:induction false} BagTold(cfg: Config, h: seq<Fact>, raw: map<string, Payload>, cs: seq<Batching.Candidate>,
                                   model: string)
    requires cfg.router.Valid() && AllIn(raw, cs) && forall c :: c in cs ==> CandidateTold(cfg, h, raw, c, model)
    ensures forall p :: p in BagOf(raw, cs) ==> AsSubmitted(cfg, h, p)
  {
    if cs != [] {
      BagTold(cfg, h, raw, cs[1..], model);
      assert cs[0] in cs;
    }
  }

  lemma {:induction false} OutstandingTold(cfg: Config, h: seq<Fact>, raw: map<string, Payload>, prog: seq<Op>)
    requires cfg.router.Valid() && Known(raw, prog) && ProgTold(cfg, h, raw, prog)
    ensures forall p :: p in Outstanding(raw, prog) ==> AsSubmitted(cfg, h, p)
  {
    if prog != [] {
      Unfold(raw, prog);
      OutstandingTold(cfg, h, raw, prog[1..]);
      assert prog[0] in prog;
      if prog[0].Gate? {
        BagTold(cfg, h, raw, prog[0].batch.candidates, prog[0].batch.modelName);
      }
    }
  }

  /** Over every run, a record tells what happened to its request: PENDING or PROCESSING until it is
      answered or given up; COMPLETED exactly if it was answered with a text and no error, and then with
      that text; else FAILED without a result, with the adapter's error, or with the reason for which its
      batch did not get through the gate; always with its submission's clock and the gateway's model. */
  lemma {:induction false} RecordsTell(cfg: Config, trace: seq<Event>, id: string)
    requires cfg.Valid() && !Reconciliation.Heals(cfg.reconciliation) && id in Run(cfg, trace).core.store.records
    ensures RecordTold(cfg, History(cfg, trace), Run(cfg, trace).core.store.records[id], id)
  {
    RunTold(cfg, trace);
  }

  ghost predicate OneSubmissionEach(h: seq<Fact>) {
    forall f, g :: f in h && g in h && f.Submitted? && g.Submitted? && f.id == g.id ==> f == g
  }

  /** Its submission is the only one. */
  lemma {:induction false} SubmittedOnce(cfg: Config, trace: seq<Event>)
    requires cfg.Valid() && !Reconciliation.Heals(cfg.reconciliation)
    ensures OneSubmissionEach(History(cfg, trace))
  {
    if trace != [] {
      var init := trace[..|trace| - 1];
      SubmittedOnce(cfg, init);
      RunTold(cfg, init);
      FreshOnce(cfg, History(cfg, init), Run(cfg, init), trace[|trace| - 1]);
    }
  }

  lemma FreshOnce(cfg: Config, h: seq<Fact>, s: System, e: Event)
    requires Runs(cfg, s) && StoreTold(cfg, h, s.core.store) && OneSubmissionEach(h)
    ensures OneSubmissionEach(h + FactsOf(cfg, s, e))
  {
    var facts := FactsOf(cfg, s, e);
    NewFactIsFresh(cfg, s, e);
    forall f | f in h && f.Submitted? ensures f.id in s.core.store.records {
      assert IsAbout(f, f.id);
    }
    assert forall f :: f in h + facts <==> f in h || f in facts;
  }

  lemma NewFactIsFresh(cfg: Config, s: System, e: Event)
    requires Runs(cfg, s)
    ensures |FactsOf(cfg, s, e)| <= 1
    ensures forall f :: f in FactsOf(cfg, s, e) && f.Submitted? ==> f.id !in s.core.store.records
  {
  }

  // ----- a batch on its own -----

  /** What happens while a program is executed. */
  function ExecuteFacts(cfg: Config, raw: map<string, Payload>, core: Core, prog: seq<Op>, world: nat -> Tick, n: nat)
    : seq<Fact>
    requires Known(raw, prog)
    decreases Cost(prog)
  {
    if prog == [] then []
    else
      StepShrinks(cfg, raw, core, prog, world(n));
      var (next, pushed) := Step(cfg, raw, core, prog[0], world(n));
      StepFacts(cfg, core, prog[0], world(n)) + ExecuteFacts(cfg, raw, next, pushed + prog[1..], world, n + 1)
  }

  /** Executing a program leaves records that tell what happened in it. */
  lemma {:induction false} ExecutionTells(cfg: Config, h: seq<Fact>, raw: map<string, Payload>, core: Core,
                                          prog: seq<Op>, waiting: multiset<Payload>, world: nat -> Tick, n: nat)
    requires cfg.Valid() && WorkInv(core, raw, prog, waiting) && OpenUntilRelease(core.store, raw, prog)
    requires ProgTold(cfg, h, raw, prog) && StoreTold(cfg, h, core.store)
    ensures StoreTold(cfg, h + ExecuteFacts(cfg, raw, core, prog, world, n),
                      Execute(cfg, raw, core, prog, world, n).store)
    decreases Cost(prog)
  {
    if prog == [] {
      assert h + [] == h;
    } else {
      var t := world(n);
      var (next, pushed) := Step(cfg, raw, core, prog[0], t);
      var facts := StepFacts(cfg, core, prog[0], t);
      StepShrinks(cfg, raw, core, prog, t);
      StepPreserves(cfg, raw, core, prog, waiting, t);
      StepKeepsOpen(cfg, raw, core, prog, waiting, t);
      if Writes(prog[0]) {
        WriteIsForOpen(core.store, raw, prog);
      }
      StepTold(cfg, h, raw, core, prog, t);
      ExecutionTells(cfg, h + facts, raw, next, pushed + prog[1..], waiting, world, n + 1);
      Sorting.ConcatAssociative(h, facts, ExecuteFacts(cfg, raw, next, pushed + prog[1..], world, n + 1));
    }
  }

  /** So does processing a batch of messages, which is the execution of its program. */
  lemma {:induction false} BatchTells(cfg: Config, h: seq<Fact>, core: Core, raw: map<string, Payload>,
                                      ps: seq<Payload>, waiting: multiset<Payload>, world: nat -> Tick)
    requires cfg.Valid() && WorkInv(core, raw, [], waiting + multiset(ps)) && StoreTold(cfg, h, core.store)
    requires forall p :: p in ps ==> AsSubmitted(cfg, h, p)
    ensures Known(RawOf(ps), ProgramFor(cfg, core.latency, ps))
    ensures var prog := ProgramFor(cfg, core.latency, ps);
            StoreTold(cfg, h + ExecuteFacts(cfg, RawOf(ps), core, prog, world, 0),
                      Execute(cfg, RawOf(ps), core, prog, world, 0).store)
  {
    var live := waiting + multiset(ps);
    assert live + Outstanding(raw, []) == live;
    StartPreserves(cfg, core, raw, ps, waiting);
    StartIsOpen(cfg, core, ps, waiting);
    TakenDiffer(core.store, live, ps);
    ProgramTold(cfg, h, core.latency, ps);
    ExecutionTells(cfg, h, RawOf(ps), core, ProgramFor(cfg, core.latency, ps), waiting, world, 0);
  }
}
