/** Conservation in the in-process platform: where every request is, in every reachable state, and
    that it is settled once and for all. */
module DemoConservation {
  import opened Results
  import opened Demo
  import opened DemoProofs
  import PriorityQueue
  import Reconciliation
  import Sorting

  // ----- requests in hand are open until their release -----

  /** The next operation releases the request. */
  predicate IsReleased(prog: seq<Op>, id: string) {
    prog != [] && prog[0] == Release(id)
  }

  /** A request still to be released has a terminal record exactly if its release is the next
      operation. */
  ghost predicate OpenUntilRelease(store: Store, raw: map<string, Payload>, prog: seq<Op>)
    requires Known(raw, prog)
  {
    forall p :: p in Outstanding(raw, prog) ==>
      p.eventId in store.records && (Terminal(store.records[p.eventId].status) <==> IsReleased(prog, p.eventId))
  }

  lemma {:induction false} GateKeepsOpen(cfg: Config, raw: map<string, Payload>, core: Core, prog: seq<Op>, t: Tick)
    requires prog != [] && prog[0].Gate? && Known(raw, prog) && Shaped(raw, prog)
    requires OpenUntilRelease(core.store, raw, prog)
    ensures IdsOf(prog[0]) <= raw.Keys
    ensures var (core', pushed) := Step(cfg, raw, core, prog[0], t);
            Known(raw, pushed + prog[1..]) && OpenUntilRelease(core'.store, raw, pushed + prog[1..])
  {
    Unfold(raw, prog);
    GateStep(cfg, raw, core, prog, t.now);
  }

  lemma {:induction false} WriteKeepsOpen(cfg: Config, raw: map<string, Payload>, core: Core, prog: seq<Op>, t: Tick)
    requires prog != [] && Writes(prog[0]) && Known(raw, prog) && Shaped(raw, prog) && Keyed(raw)
    requires OpenUntilRelease(core.store, raw, prog)
    ensures IdsOf(prog[0]) <= raw.Keys && Known(raw, prog[1..])
    ensures OpenUntilRelease(Step(cfg, raw, core, prog[0], t).0.store, raw, prog[1..])
  {
    Unfold(raw, prog);
    WriteIsOutstanding(raw, prog);
    StepStores(cfg, raw, core, prog[0], t);
    var r := Written(raw, prog[0], t);
    assert Terminal(r.status) <==> IsReleased(prog[1..], r.requestId);
  }

  lemma {:induction false} ReleaseKeepsOpen(raw: map<string, Payload>, store: Store, prog: seq<Op>,
                                            waiting: multiset<Payload>)
    requires prog != [] && prog[0].Release? && Known(raw, prog) && Shaped(raw, prog) && Keyed(raw)
    requires Recorded(store, waiting + Outstanding(raw, prog)) && OpenUntilRelease(store, raw, prog)
    ensures Known(raw, prog[1..]) && OpenUntilRelease(store, raw, prog[1..])
  {
    Unfold(raw, prog);
    var done, out, rest := raw[prog[0].requestId], Outstanding(raw, prog), Outstanding(raw, prog[1..]);
    assert out == multiset{done} + rest;
    forall p | p in rest
      ensures p.eventId in store.records && !Terminal(store.records[p.eventId].status)
    {
      var live := waiting + out;
      assert p in out && p in live && done in live;
      assert live[done] == waiting[done] + 1 + rest[done];
      assert p != done && p.eventId != done.eventId;
    }
  }

  lemma StepKeepsOpen(cfg: Config, raw: map<string, Payload>, core: Core, prog: seq<Op>, waiting: multiset<Payload>,
                      t: Tick)
    requires WorkInv(core, raw, prog, waiting) && prog != [] && OpenUntilRelease(core.store, raw, prog)
    ensures IdsOf(prog[0]) <= raw.Keys
    ensures var (core', pushed) := Step(cfg, raw, core, prog[0], t);
            Known(raw, pushed + prog[1..]) && OpenUntilRelease(core'.store, raw, pushed + prog[1..])
  {
    Unfold(raw, prog);
    if prog[0].Gate? {
      GateKeepsOpen(cfg, raw, core, prog, t);
    } else {
      assert [] + prog[1..] == prog[1..];
      if prog[0].Release? {
        ReleaseKeepsOpen(raw, core.store, prog, waiting);
      } else {
        WriteKeepsOpen(cfg, raw, core, prog, t);
      }
    }
  }

  /** What the worker has taken is pending when it begins on it. */
  lemma {:induction false} StartIsOpen(cfg: Config, core: Core, ps: seq<Payload>, waiting: multiset<Payload>)
    requires cfg.Valid() && Recorded(core.store, waiting + multiset(ps))
    requires forall p :: p in waiting + multiset(ps) ==> core.store.records[p.eventId].status == Pending
    ensures var raw, prog := RawOf(ps), ProgramFor(cfg, core.latency, ps);
            Known(raw, prog) && OpenUntilRelease(core.store, raw, prog)
  {
    WaitingFacts(core.store, waiting + multiset(ps), ps);
    ProgramCoversMessages(cfg, core.latency, ps);
    NoReleaseInGates(ProgramFor(cfg, core.latency, ps));
    PendingIsOpen(core.store, RawOf(ps), ProgramFor(cfg, core.latency, ps));
  }

  lemma {:induction false} PendingIsOpen(store: Store, raw: map<string, Payload>, prog: seq<Op>)
    requires Known(raw, prog) && NoReleaseFirst(prog)
    requires forall p :: p in Outstanding(raw, prog) ==>
               p.eventId in store.records && store.records[p.eventId].status == Pending
    ensures OpenUntilRelease(store, raw, prog)
  {
  }

  lemma BeginIsOpen(cfg: Config, s: System, taken: seq<Payload>)
    requires cfg.Valid() && WorkInv(s.core, s.worker.raw, [], QueueBag(s) + multiset(taken))
    ensures var w := Begin(cfg, s, taken).worker;
            Known(w.raw, w.prog) && OpenUntilRelease(s.core.store, w.raw, w.prog)
  {
    var waiting := QueueBag(s) + multiset(taken);
    assert waiting + Outstanding(s.worker.raw, []) == waiting;
    StartIsOpen(cfg, s.core, taken, QueueBag(s));
  }

  lemma WaitingFacts(store: Store, waiting: multiset<Payload>, ps: seq<Payload>)
    requires multiset(ps) <= waiting && Recorded(store, waiting)
    requires forall p :: p in waiting ==> store.records[p.eventId].status == Pending
    ensures forall p, q :: p in ps && q in ps && p.eventId == q.eventId ==> p == q
    ensures forall p :: p in multiset(ps) ==> p.eventId in store.records && store.records[p.eventId].status == Pending
  {
    assert forall p :: p in ps <==> p in multiset(ps);
    forall p | p in ps ensures p in waiting {
      assert multiset(ps)[p] <= waiting[p];
    }
  }

  lemma {:induction false} ProbeKeepsOpen(cfg: Config, s: System, t: Tick)
    requires cfg.Valid() && Inv(cfg, s) && s.worker.prog == []
    ensures var s' := Work(cfg, s, t);
            Known(s'.worker.raw, s'.worker.prog)
            && OpenUntilRelease(s'.core.store, s'.worker.raw, s'.worker.prog)
  {
    var w, lane := s.worker, PriorityQueue.ProbeLane(s.worker.probe);
    var items := s.queue.Of(lane);
    if items != [] {
      TakeHeadKeepsBag(s, lane);
      var taken, popped := w.taken + [items[0]], s.(queue := s.queue.With(lane, items[1..]));
      assert multiset(taken) == multiset(w.taken) + multiset{items[0]};
      assert QueueBag(popped) + multiset(taken) == QueueBag(s) + multiset(w.taken);
      if |taken| >= cfg.batching.maxBatchSize {
        BeginIsOpen(cfg, popped, taken);
      }
    } else if w.probe >= 5 && w.taken != [] {
      BeginIsOpen(cfg, s, w.taken);
    }
  }

  lemma SubmitKeepsOpen(cfg: Config, s: System, id: string, now: real, req: GatewayRequest)
    requires cfg.Valid() && Inv(cfg, s) && id !in s.core.store.records
    requires OpenUntilRelease(s.core.store, s.worker.raw, s.worker.prog)
    ensures var s' := Submit(cfg, s, id, now, req).0;
            s'.worker == s.worker && OpenUntilRelease(s'.core.store, s.worker.raw, s.worker.prog)
  {
  }

  lemma {:induction false} RunIsOpen(cfg: Config, trace: seq<Event>)
    requires cfg.Valid() && !Reconciliation.Heals(cfg.reconciliation)
    ensures var s := Run(cfg, trace); OpenUntilRelease(s.core.store, s.worker.raw, s.worker.prog)
  {
    if trace != [] {
      RunIsOpen(cfg, trace[..|trace| - 1]);
      NextKeepsOpen(cfg, Run(cfg, trace[..|trace| - 1]), trace[|trace| - 1]);
    }
  }

  lemma NextKeepsOpen(cfg: Config, s: System, e: Event)
    requires Runs(cfg, s) && Inv(cfg, s) && !Reconciliation.Heals(cfg.reconciliation)
    requires OpenUntilRelease(s.core.store, s.worker.raw, s.worker.prog)
    ensures var s' := Next(cfg, s, e);
            Known(s'.worker.raw, s'.worker.prog)
            && OpenUntilRelease(s'.core.store, s'.worker.raw, s'.worker.prog)
  {
    match e
    case SubmitEvent(id, now, req) =>
      if id !in s.core.store.records {
        SubmitKeepsOpen(cfg, s, id, now, req);
      }
    case WorkEvent(t) =>
      if s.worker.prog != [] {
        StepKeepsOpen(cfg, s.worker.raw, s.core, s.worker.prog, QueueBag(s) + multiset(s.worker.taken), t);
      } else {
        ProbeKeepsOpen(cfg, s, t);
      }
    case ReconcileEvent(_) =>
  }

  // ----- where a request is -----

  /** Exactly one of queued, in hand, settled: a queued request is pending, one in hand is not
      terminal unless its release is the worker's next operation, any other is terminal. */
  ghost predicate InOnePlace(s: System, id: string)
    requires Known(s.worker.raw, s.worker.prog) && id in s.core.store.records
  {
    var status, queued, inHand := s.core.store.records[id].status, InFlight(QueueBag(s), id), InFlight(HandBag(s), id);
    && !(queued && inHand)
    && (queued ==> status == Pending)
    && (inHand ==> (Terminal(status) <==> IsReleased(s.worker.prog, id)))
    && (!queued && !inHand ==> Terminal(status))
  }

  /** Over every run: each accepted request is in exactly one place, queued, in hand or settled; each
      tenant holds exactly one slot per request in flight and stays within its cap; and admission
      control keeps the number of pending requests within its limit. */
  lemma {:induction false} Conservation(cfg: Config, trace: seq<Event>)
    requires cfg.Valid() && !Reconciliation.Heals(cfg.reconciliation)
    ensures var s := Run(cfg, trace); var inFlight := QueueBag(s) + HandBag(s);
            && s.core.store.records.Keys == AcceptedIds(cfg, trace)
            && (forall id :: id in AcceptedIds(cfg, trace) ==> InOnePlace(s, id))
            && (forall p :: p in inFlight ==> inFlight[p] == 1 && p.eventId in AcceptedIds(cfg, trace))
            && (forall p, q :: p in inFlight && q in inFlight && p.eventId == q.eventId ==> p == q)
            && (forall tenant :: s.core.tenants.StateOf(tenant).activeCount == TenantCount(inFlight, tenant)
                                 <= NonNegative(s.core.tenants.PolicyOf(tenant).maxConcurrent))
            && (cfg.admission.enabled
                ==> s.core.store.CountOf(Pending) <= NonNegative(cfg.admission.maxPendingRequests))
  {
    var s := Run(cfg, trace);
    RecordsAreAcceptedIds(cfg, trace);
    var taken, out := multiset(s.worker.taken), Outstanding(s.worker.raw, s.worker.prog);
    Sorting.SumAssociative(QueueBag(s), taken, out);
    RunIsOpen(cfg, trace);
    TakenIsPending(cfg, s);
    forall id | id in s.core.store.records ensures InOnePlace(s, id) {
      PlaceOf(s, id);
    }
  }

  lemma TakenIsPending(cfg: Config, s: System)
    requires Inv(cfg, s)
    ensures forall p :: p in s.worker.taken ==>
              p.eventId in s.core.store.records && s.core.store.records[p.eventId].status == Pending
    ensures forall p :: p in QueueBag(s) ==>
              p.eventId in s.core.store.records && s.core.store.records[p.eventId].status == Pending
    ensures s.worker.taken != [] ==> s.worker.prog == []
  {
    var waiting := QueueBag(s) + multiset(s.worker.taken);
    assert forall p :: p in s.worker.taken ==> p in waiting;
    assert forall p :: p in waiting ==> p in waiting + Outstanding(s.worker.raw, s.worker.prog);
  }

  lemma PlaceOf(s: System, id: string)
    requires Known(s.worker.raw, s.worker.prog) && id in s.core.store.records
    requires Recorded(s.core.store, QueueBag(s) + HandBag(s))
    requires forall p :: p in QueueBag(s) ==> s.core.store.records[p.eventId].status == Pending
    requires forall p :: p in s.worker.taken ==>
               p.eventId in s.core.store.records && s.core.store.records[p.eventId].status == Pending
    requires OpenUntilRelease(s.core.store, s.worker.raw, s.worker.prog)
    requires s.worker.taken != [] ==> s.worker.prog == []
    ensures InOnePlace(s, id)
  {
    var q, h := QueueBag(s), HandBag(s);
    SidesDiffer(s.core.store, q, h);
    if InFlight(q + h, id) {
      var p: Payload :| p in q + h && p.eventId == id;
      assert p in q || p in h;
    }
    HandIsOpen(s);
  }

  lemma HandIsOpen(s: System)
    requires Known(s.worker.raw, s.worker.prog) && OpenUntilRelease(s.core.store, s.worker.raw, s.worker.prog)
    requires forall p :: p in s.worker.taken ==>
               p.eventId in s.core.store.records && s.core.store.records[p.eventId].status == Pending
    requires s.worker.taken != [] ==> s.worker.prog == []
    ensures forall p :: p in HandBag(s) ==>
              p.eventId in s.core.store.records
              && (Terminal(s.core.store.records[p.eventId].status) <==> IsReleased(s.worker.prog, p.eventId))
  {
    forall p | p in HandBag(s) ensures p in s.worker.taken || p in Outstanding(s.worker.raw, s.worker.prog) {
    }
  }

  // ----- a request is settled once -----

  predicate Settled(store: Store, id: string) {
    id in store.records && Terminal(store.records[id].status)
  }

  /** The id for which an event writes a terminal record, if it does. */
  function Settles(w: Worker, e: Event): seq<string> {
    if e.WorkEvent? && w.prog != [] && (w.prog[0].Fail? || w.prog[0].Answer?) then [w.prog[0].candidate.requestId]
    else []
  }

  /** The ids for which a terminal record was written, in order. */
  ghost function Settlements(cfg: Config, trace: seq<Event>): seq<string>
    requires cfg.Valid() && !Reconciliation.Heals(cfg.reconciliation)
  {
    if trace == [] then []
    else
      var init := trace[..|trace| - 1];
      Settlements(cfg, init) + Settles(Run(cfg, init).worker, trace[|trace| - 1])
  }

  /** From one store to the next: no terminal record changes, and those settled are `ids`, which
      were open. */
  ghost predicate SettlesExactly(before: Store, after: Store, ids: seq<string>) {
    && (forall id :: Settled(before, id) ==> id in after.records && after.records[id] == before.records[id])
    && (forall id :: id in ids ==> !Settled(before, id))
    && (forall id :: Settled(after, id) <==> Settled(before, id) || id in ids)
  }

  /** A write is for a request whose record is not terminal. */
  lemma {:induction false} WriteIsForOpen(store: Store, raw: map<string, Payload>, prog: seq<Op>)
    requires Known(raw, prog) && Shaped(raw, prog) && Keyed(raw) && OpenUntilRelease(store, raw, prog)
    requires prog != [] && Writes(prog[0])
    ensures prog[0].candidate.requestId in store.records && !Settled(store, prog[0].candidate.requestId)
  {
    WriteIsOutstanding(raw, prog);
  }

  lemma PutSettles(store: Store, r: Record)
    requires !Settled(store, r.requestId)
    ensures SettlesExactly(store, store.Put(r), if Terminal(r.status) then [r.requestId] else [])
  {
  }

  lemma {:induction false} StepSettles(cfg: Config, core: Core, w: Worker, t: Tick)
    requires Known(w.raw, w.prog) && Shaped(w.raw, w.prog) && Keyed(w.raw) && w.prog != []
    requires OpenUntilRelease(core.store, w.raw, w.prog)
    ensures IdsOf(w.prog[0]) <= w.raw.Keys
    ensures SettlesExactly(core.store, Step(cfg, w.raw, core, w.prog[0], t).0.store, Settles(w, WorkEvent(t)))
  {
    Unfold(w.raw, w.prog);
    StepStores(cfg, w.raw, core, w.prog[0], t);
    if Writes(w.prog[0]) {
      WriteIsForOpen(core.store, w.raw, w.prog);
      PutSettles(core.store, Written(w.raw, w.prog[0], t));
    }
  }

  lemma WorkSettles(cfg: Config, s: System, t: Tick)
    requires cfg.Valid() && Inv(cfg, s) && OpenUntilRelease(s.core.store, s.worker.raw, s.worker.prog)
    ensures SettlesExactly(s.core.store, Work(cfg, s, t).core.store, Settles(s.worker, WorkEvent(t)))
  {
    if s.worker.prog != [] {
      StepSettles(cfg, s.core, s.worker, t);
    }
  }

  lemma {:induction false} SubmitSettles(cfg: Config, s: System, id: string, now: real, req: GatewayRequest)
    requires cfg.Valid() && s.core.store.Valid() && id !in s.core.store.records
    ensures SettlesExactly(s.core.store, Submit(cfg, s, id, now, req).0.core.store, [])
  {
    PutSettles(s.core.store, PendingRecord(PayloadFor(cfg, id, now, req)));
  }

  /** One event of a run. */
  lemma {:induction false} EventSettles(cfg: Config, trace: seq<Event>, e: Event)
    requires cfg.Valid() && !Reconciliation.Heals(cfg.reconciliation)
    ensures Run(cfg, trace + [e]) == Next(cfg, Run(cfg, trace), e)
    ensures Settlements(cfg, trace + [e]) == Settlements(cfg, trace) + Settles(Run(cfg, trace).worker, e)
    ensures SettlesExactly(Run(cfg, trace).core.store, Run(cfg, trace + [e]).core.store,
                           Settles(Run(cfg, trace).worker, e))
  {
    var s := Run(cfg, trace);
    assert (trace + [e])[..|trace|] == trace;
    RunIsOpen(cfg, trace);
    match e
    case SubmitEvent(id, now, req) =>
      if id !in s.core.store.records {
        SubmitSettles(cfg, s, id, now, req);
      }
    case WorkEvent(t) => WorkSettles(cfg, s, t);
    case ReconcileEvent(_) =>
  }

  lemma OneMoreSettled(store: Store, after: Store, ids: seq<string>, more: seq<string>)
    requires forall i, j :: 0 <= i < j < |ids| ==> ids[i] != ids[j]
    requires forall id :: id in ids <==> Settled(store, id)
    requires |more| <= 1 && SettlesExactly(store, after, more)
    ensures forall i, j :: 0 <= i < j < |ids + more| ==> (ids + more)[i] != (ids + more)[j]
    ensures forall id :: id in ids + more <==> Settled(after, id)
  {
    forall i, j | 0 <= i < j < |ids + more| ensures (ids + more)[i] != (ids + more)[j] {
      assert ids[i] in ids;
      assert j == |ids| ==> more[0] in more;
    }
  }

  /** In every run a terminal record is written at most once for a request, and a request is
      COMPLETED or FAILED exactly if one was. */
  lemma {:induction false} SettledOnce(cfg: Config, trace: seq<Event>)
    requires cfg.Valid() && !Reconciliation.Heals(cfg.reconciliation)
    ensures var ids := Settlements(cfg, trace);
            && (forall i, j :: 0 <= i < j < |ids| ==> ids[i] != ids[j])
            && (forall id :: id in ids <==> Settled(Run(cfg, trace).core.store, id))
  {
    if trace != [] {
      var init, e := trace[..|trace| - 1], trace[|trace| - 1];
      assert trace == init + [e];
      SettledOnce(cfg, init);
      EventSettles(cfg, init, e);
      OneMoreSettled(Run(cfg, init).core.store, Run(cfg, trace).core.store, Settlements(cfg, init),
                     Settles(Run(cfg, init).worker, e));
    }
  }

  /** Whatever follows, a terminal record never changes. */
  lemma {:induction false} TerminalIsFinal(cfg: Config, trace: seq<Event>, more: seq<Event>, id: string)
    requires cfg.Valid() && !Reconciliation.Heals(cfg.reconciliation)
    requires Settled(Run(cfg, trace).core.store, id)
    ensures Settled(Run(cfg, trace + more).core.store, id)
    ensures Run(cfg, trace + more).core.store.records[id] == Run(cfg, trace).core.store.records[id]
    decreases |more|
  {
    if more == [] {
      assert trace + more == trace;
    } else {
      var e, rest := more[0], more[1..];
      Sorting.ConcatAssociative(trace, [e], rest);
      Sorting.ShiftHead([], more);
      EventKeepsSettled(cfg, trace, e, id);
      TerminalIsFinal(cfg, trace + [e], rest, id);
    }
  }

  lemma {:induction false} EventKeepsSettled(cfg: Config, trace: seq<Event>, e: Event, id: string)
    requires cfg.Valid() && !Reconciliation.Heals(cfg.reconciliation)
    requires Settled(Run(cfg, trace).core.store, id)
    ensures Settled(Run(cfg, trace + [e]).core.store, id)
    ensures Run(cfg, trace + [e]).core.store.records[id] == Run(cfg, trace).core.store.records[id]
  {
    EventSettles(cfg, trace, e);
    StaysSettled(Run(cfg, trace).core.store, Run(cfg, trace + [e]).core.store, id,
                 Settles(Run(cfg, trace).worker, e));
  }

  lemma StaysSettled(store: Store, after: Store, id: string, ids: seq<string>)
    requires Settled(store, id) && SettlesExactly(store, after, ids)
    ensures Settled(after, id) && after.records[id] == store.records[id]
  {
  }
}
