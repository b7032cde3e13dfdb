/** Redelivery to a fleet of workers: what is safe over every run, and what is safe while no message
    is delivered to a second worker before the first is done with it. */
module FleetProofs {
  import opened Options
  import opened Results
  import opened Worker
  import opened Fleets
  import opened WorkerProofs
  import Latency
  import RagWorkers

  // ----- every run: a deletion follows the write that settles its request -----

  /** The request, if any, that an event settles: the worker writes COMPLETED, or FAILED by expiry. */
  function Settles(cfg: Config, s: System, e: Event): set<string> {
    if e.Work? && s.prog != [] && Writes(cfg, s.prog[0], e.tick) && Done(Written(cfg, s.prog[0], e.tick))
    then {Written(cfg, s.prog[0], e.tick).requestId} else {}
  }

  function SettledBy(cfg: Config, f: Fleet, e: FleetEvent): set<string> {
    if f.Has(e.worker) && e.Act? then Settles(cfg, f.SystemOf(e.worker), e.event) else {}
  }

  /** All requests settled in a run. */
  function Settled(cfg: Config, f: Fleet, es: seq<FleetEvent>): set<string>
    requires cfg.Valid()
  {
    if es == [] then {}
    else Settled(cfg, f, es[..|es| - 1]) + SettledBy(cfg, Run(cfg, f, es[..|es| - 1]), es[|es| - 1])
  }

  /** Requests in hand are known by a receipt of theirs. */
  ghost predicate Held(inbox: map<string, Message>, receipts: map<string, string>, slots: multiset<string>) {
    forall id :: id in slots ==> id in receipts && Carries(inbox, receipts[id], id)
  }

  /** Deleted messages belong to settled requests. */
  ghost predicate DeletedSettled(inbox: map<string, Message>, deleted: set<string>, settled: set<string>) {
    forall d :: d in deleted ==> d in inbox && inbox[d].body.Some? && inbox[d].body.value.eventId in settled
  }

  /** The worker's part of what holds in every run. */
  ghost predicate Backed(s: System, settled: set<string>) {
    && Shaped(s.prog) && Held(s.inbox, s.receipts, Slots(s.prog)) && Due(s.prog) <= settled
  }

  /** All of what holds in every run, as one worker sees it. */
  ghost predicate BackedView(s: System, settled: set<string>) {
    Backed(s, settled) && InboxOk(s.inbox, s.core.store) && DeletedSettled(s.inbox, s.core.deleted, settled)
  }

  ghost predicate FleetBacked(f: Fleet, settled: set<string>) {
    && InboxOk(f.inbox, f.store) && DeletedSettled(f.inbox, f.deleted, settled)
    && forall w: nat :: f.Has(w) ==> Backed(f.SystemOf(w), settled)
  }

  lemma {:induction false} DeliveredAreHeld(cfg: Config, latency: Latency.Tracker, inbox: map<string, Message>,
                                            ms: seq<Message>)
    requires cfg.router.Valid() && forall m :: m in ms ==> m.receipt in inbox && inbox[m.receipt] == m
    ensures Held(inbox, ReceiptsOf(ms), IdBag(CandidatesOf(cfg, latency, ms)))
  {
    if ms != [] {
      var init, m := ms[..|ms| - 1], ms[|ms| - 1];
      assert ms == init + [m];
      DeliveredAreHeld(cfg, latency, inbox, init);
      var before := CandidatesOf(cfg, latency, init);
      match m.body {
        case None => assert before + [] == before;
        case Some(task) =>
          IdBagSnoc(before, CandidateOf(cfg, latency, task));
          assert Carries(inbox, m.receipt, task.eventId);
      }
    }
  }

  /** What a step of a worker's program does: the shared part changes only for requests in hand. */
  lemma WorkTouches(cfg: Config, s: System, t: Tick)
    requires cfg.Valid() && s.prog != [] && Shaped(s.prog) && Held(s.inbox, s.receipts, Slots(s.prog))
    ensures var s' := Next(cfg, s, Work(t));
            && s'.inbox == s.inbox && s'.receipts == s.receipts
            && (s'.core.store == s.core.store
                || (Writes(cfg, s.prog[0], t) && s'.core.store == s.core.store.Put(Written(cfg, s.prog[0], t))))
            && (s'.core.deleted == s.core.deleted
                || (s.prog[0].Delete? && s'.core.deleted == s.core.deleted + {s.receipts[s.prog[0].requestId]}))
            && (Writes(cfg, s.prog[0], t) ==> Written(cfg, s.prog[0], t).requestId in Slots(s.prog))
            && (s.prog[0].Delete? ==> s.prog[0].requestId in Slots(s.prog))
  {
    AfterWork(cfg, s, t);
    if Writes(cfg, s.prog[0], t) {
      WriteIsInHand(cfg, s.prog, t);
      WriteEffect(cfg, s.receipts, s.core, s.prog[0], t);
    }
  }

  lemma FewerHeld(inbox: map<string, Message>, receipts: map<string, string>, slots: multiset<string>,
                  fewer: multiset<string>)
    requires Held(inbox, receipts, slots) && fewer <= slots
    ensures Held(inbox, receipts, fewer)
  {
    forall id | id in fewer ensures id in slots {
      assert fewer[id] <= slots[id];
    }
  }

  lemma WorkBacksHand(cfg: Config, s: System, t: Tick, settled: set<string>)
    requires cfg.Valid() && s.prog != [] && Backed(s, settled)
    ensures Backed(Next(cfg, s, Work(t)), settled + Settles(cfg, s, Work(t)))
  {
    AfterWork(cfg, s, t);
    ShapeAfterWork(cfg, s, t);
    FewerHeld(s.inbox, s.receipts, Slots(s.prog), Slots(Next(cfg, s, Work(t)).prog));
  }

  lemma PutKeepsInbox(inbox: map<string, Message>, store: Store, r: Record)
    requires InboxOk(inbox, store)
    ensures InboxOk(inbox, store.Put(r))
  {
    PutValid(store, r);
  }

  lemma DeleteIsSettled(inbox: map<string, Message>, deleted: set<string>, settled: set<string>, receipt: string,
                        id: string)
    requires DeletedSettled(inbox, deleted, settled) && Carries(inbox, receipt, id) && id in settled
    ensures DeletedSettled(inbox, deleted + {receipt}, settled)
  {
  }

  lemma WorkBacks(cfg: Config, s: System, t: Tick, settled: set<string>)
    requires cfg.Valid() && s.prog != [] && Backed(s, settled)
    requires InboxOk(s.inbox, s.core.store) && DeletedSettled(s.inbox, s.core.deleted, settled)
    ensures var s', more := Next(cfg, s, Work(t)), settled + Settles(cfg, s, Work(t));
            Backed(s', more) && InboxOk(s'.inbox, s'.core.store) && DeletedSettled(s'.inbox, s'.core.deleted, more)
  {
    WorkBacksHand(cfg, s, t, settled);
    WorkTouches(cfg, s, t);
    if Writes(cfg, s.prog[0], t) {
      PutKeepsInbox(s.inbox, s.core.store, Written(cfg, s.prog[0], t));
    }
    if s.prog[0].Delete? {
      var id := s.prog[0].requestId;
      DeleteIsSettled(s.inbox, s.core.deleted, settled, s.receipts[id], id);
    }
  }

  lemma PublishBacks(cfg: Config, s: System, m: Message, model: string, settled: set<string>)
    requires cfg.Valid() && CanPublish(s, m)
    requires InboxOk(s.inbox, s.core.store) && DeletedSettled(s.inbox, s.core.deleted, settled)
    ensures var s' := Next(cfg, s, Publish(m, model));
            && InboxOk(s'.inbox, s'.core.store) && DeletedSettled(s'.inbox, s'.core.deleted, settled)
            && (forall o :: Backed(o, settled) && o.inbox == s.inbox ==> Backed(Shared(o, s'), settled))
  {
    match m.body {
      case None => PoisonKeepsInbox(s.inbox, s.core.store, m);
      case Some(task) =>
        PublishKeepsInbox(s.inbox, s.core.store, m, task,
                          Record(task.eventId, Pending, Some(task.timestamp), None, Some(model), None, None));
    }
    var s' := Next(cfg, s, Publish(m, model));
    forall o: System, id | Backed(o, settled) && o.inbox == s.inbox && id in Slots(o.prog)
      ensures Carries(s'.inbox, o.receipts[id], id)
    {
      assert Carries(s.inbox, o.receipts[id], id);
    }
  }

  lemma ReceiveBacks(cfg: Config, s: System, ms: seq<Message>, settled: set<string>)
    requires cfg.Valid() && CanReceive(s, ms)
    ensures Backed(Next(cfg, s, Receive(ms)), settled) && Next(cfg, s, Receive(ms)).core == s.core
  {
    DeliveredAreHeld(cfg, s.core.latency, s.inbox, ms);
    ProgramHoldsDelivery(cfg, s.core.latency, ms);
  }

  lemma SettledGrows(s: System, settled: set<string>)
    requires BackedView(s, settled)
    ensures BackedView(s, settled + {}) && BackedView(s.(prog := []), settled + {})
  {
    assert settled + {} == settled;
  }

  lemma NextBacks(cfg: Config, s: System, e: Event, settled: set<string>)
    requires cfg.Valid() && BackedView(s, settled)
    ensures BackedView(Next(cfg, s, e), settled + Settles(cfg, s, e))
  {
    SettledGrows(s, settled);
    match e
    case Publish(m, model) =>
      if CanPublish(s, m) {
        PublishBacks(cfg, s, m, model, settled);
        assert Shared(s, Next(cfg, s, e)) == Next(cfg, s, e);
      }
    case Receive(ms) =>
      if CanReceive(s, ms) {
        ReceiveBacks(cfg, s, ms, settled + {});
      }
    case Work(t) =>
      if s.prog != [] {
        WorkBacks(cfg, s, t, settled);
      }
    case Crash =>
  }

  /** Another worker, seeing what this one did. */
  lemma OtherStaysBacked(cfg: Config, s: System, e: Event, settled: set<string>, o: System)
    requires cfg.Valid() && Backed(s, settled) && Backed(o, settled) && o.inbox == s.inbox
    requires InboxOk(s.inbox, s.core.store) && DeletedSettled(s.inbox, s.core.deleted, settled)
    ensures Backed(Shared(o, Next(cfg, s, e)), settled + Settles(cfg, s, e))
  {
    if e.Publish? && CanPublish(s, e.message) {
      PublishBacks(cfg, s, e.message, e.model, settled);
    } else {
      assert Next(cfg, s, e).inbox == s.inbox;
    }
  }

  lemma ActBacks(cfg: Config, f: Fleet, w: nat, e: Event, settled: set<string>)
    requires cfg.Valid() && FleetBacked(f, settled) && f.Has(w)
    ensures FleetBacked(f.Absorb(w, Next(cfg, f.SystemOf(w), e)), settled + Settles(cfg, f.SystemOf(w), e))
  {
    var s := f.SystemOf(w);
    var s' := Next(cfg, s, e);
    NextBacks(cfg, s, e, settled);
    forall v: nat | f.Has(v) ensures Backed(f.Absorb(w, s').SystemOf(v), settled + Settles(cfg, s, e)) {
      AbsorbViews(f, w, s', v);
      OtherStaysBacked(cfg, s, e, settled, f.SystemOf(v));
    }
  }

  /** A restart empties one worker's hands and leaves everything else alone. */
  lemma RestartViews(f: Fleet, w: nat)
    requires f.Has(w)
    ensures var node := FreshNode(f.nodes[w].latency.policy); var f' := f.(nodes := f.nodes[w := node]);
            && f'.SystemOf(w) == System(f.inbox, f.SystemOf(w).core.(breaker := node.breaker, latency := node.latency),
                                        map[], [])
            && (forall v: nat :: f.Has(v) && v != w ==> f'.SystemOf(v) == f.SystemOf(v))
  {
  }

  lemma RestartBacks(cfg: Config, f: Fleet, w: nat, settled: set<string>)
    requires cfg.Valid() && FleetBacked(f, settled) && f.Has(w)
    ensures FleetBacked(Advance(cfg, f, Restart(w)), settled)
  {
    RestartViews(f, w);
  }

  lemma {:induction false} RunBacks(cfg: Config, n: nat, latency: Latency.Policy, es: seq<FleetEvent>)
    requires cfg.Valid()
    ensures FleetBacked(Run(cfg, Initial(n, latency), es), Settled(cfg, Initial(n, latency), es))
  {
    if es != [] {
      var init, e := es[..|es| - 1], es[|es| - 1];
      RunBacks(cfg, n, latency, init);
      var f, settled := Run(cfg, Initial(n, latency), init), Settled(cfg, Initial(n, latency), init);
      assert settled + {} == settled;
      if f.Has(e.worker) {
        match e
        case Act(w, event) => ActBacks(cfg, f, w, event, settled);
        case Restart(w) => RestartBacks(cfg, f, w, settled);
      }
    } else {
      InitialBacked(n, latency);
    }
  }

  lemma InitialBacked(n: nat, latency: Latency.Policy)
    ensures FleetBacked(Initial(n, latency), {})
  {
  }

  /** In every run, whatever is redelivered to whom and wherever workers crash: a message is deleted
      only after COMPLETED, or FAILED by expiry, was written for its request. */
  lemma {:induction false} DeletionFollowsSettling(cfg: Config, n: nat, latency: Latency.Policy, es: seq<FleetEvent>,
                                                   d: string)
    requires cfg.Valid() && d in Run(cfg, Initial(n, latency), es).deleted
    ensures var f := Run(cfg, Initial(n, latency), es);
            && d in f.inbox && f.inbox[d].body.Some?
            && f.inbox[d].body.value.eventId in Settled(cfg, Initial(n, latency), es)
  {
    RunBacks(cfg, n, latency, es);
  }

  /** In every run, whatever can be delivered holds distinct messages for distinct requests, so that the
      worker's success means that all of them are deleted. */
  lemma {:induction false} DeliveriesAreDeliverable(cfg: Config, n: nat, latency: Latency.Policy, es: seq<FleetEvent>,
                                                    w: nat, ms: seq<Message>)
    requires cfg.Valid() && w < n
    ensures var f := Run(cfg, Initial(n, latency), es);
            f.Has(w) && (CanReceive(f.SystemOf(w), ms) ==> RagWorkers.Deliverable(ms))
  {
    var f := Run(cfg, Initial(n, latency), es);
    RunBacks(cfg, n, latency, es);
    RunKeepsNodes(cfg, Initial(n, latency), es);
    if CanReceive(f.SystemOf(w), ms) {
      forall i, j | 0 <= i < j < |ms| && ms[i].body.Some? && ms[j].body.Some?
        ensures ms[i].body.value.eventId != ms[j].body.value.eventId
      {
        assert ms[i] in ms && ms[j] in ms;
        assert Carries(f.inbox, ms[i].receipt, ms[i].body.value.eventId);
        assert Carries(f.inbox, ms[j].receipt, ms[j].body.value.eventId);
      }
    }
  }

  // ----- runs in which no message is with two workers at once -----

  /** Worker `v` has the message with this receipt in hand. */
  predicate Holds(f: Fleet, v: nat, receipt: string)
    requires f.Has(v)
  {
    var s := f.SystemOf(v);
    exists id :: id in Slots(s.prog) && id in s.receipts && s.receipts[id] == receipt
  }

  ghost predicate InSomeHand(f: Fleet, receipt: string) {
    exists v: nat :: f.Has(v) && Holds(f, v, receipt)
  }

  /** The event delivers no message that a worker still holds. */
  ghost predicate Exclusive(f: Fleet, e: FleetEvent) {
    e.Act? && e.event.Receive? && f.Has(e.worker) && CanReceive(f.SystemOf(e.worker), e.event.messages) ==>
      forall m :: m in e.event.messages ==> !InSomeHand(f, m.receipt)
  }

  /** The event stops a worker between the completion of a request and the deletion of its message. */
  predicate Interrupts(f: Fleet, e: FleetEvent) {
    f.Has(e.worker) && (e.Restart? || e.event.Crash?) && AboutToDeleteCompleted(f.SystemOf(e.worker))
  }

  /** Every delivery of the run is exclusive; in a clean run, no event interrupts a completion. */
  ghost predicate Disciplined(cfg: Config, f: Fleet, es: seq<FleetEvent>, clean: bool)
    requires cfg.Valid()
  {
    es == [] ||
    (var before, e := Run(cfg, f, es[..|es| - 1]), es[|es| - 1];
     Disciplined(cfg, f, es[..|es| - 1], clean) && Exclusive(before, e) && (clean ==> !Interrupts(before, e)))
  }

  lemma {:induction false} DisciplinedParts(cfg: Config, f: Fleet, es: seq<FleetEvent>, more: seq<FleetEvent>,
                                            clean: bool)
    requires cfg.Valid() && Disciplined(cfg, f, es + more, clean)
    ensures Disciplined(cfg, f, es, clean) && Disciplined(cfg, Run(cfg, f, es), more, clean)
  {
    if more == [] {
      assert es + more == es;
    } else {
      assert (es + more)[..|es + more| - 1] == es + more[..|more| - 1];
      DisciplinedParts(cfg, f, es, more[..|more| - 1], clean);
      RunConcat(cfg, f, es, more[..|more| - 1]);
    }
  }

  ghost predicate Disjoint(a: multiset<string>, b: multiset<string>) {
    forall id :: id in a ==> id !in b
  }

  /** Every worker is safe, and no request is in two workers' hands. */
  ghost predicate FleetSafe(f: Fleet) {
    && (forall w: nat :: f.Has(w) ==> Safe(f.SystemOf(w)))
    && (forall w: nat, v: nat :: f.Has(w) && f.Has(v) && w != v ==>
          Disjoint(Slots(f.SystemOf(w).prog), Slots(f.SystemOf(v).prog)))
  }

  /** Nothing that matters to `o` has changed from `s` to `s'`. */
  ghost predicate LeavesAlone(s: System, s': System, o: System) {
    && s'.inbox == s.inbox
    && (forall id :: id in s.core.store.records && id in Slots(o.prog) ==>
          id in s'.core.store.records && s'.core.store.records[id] == s.core.store.records[id])
    && (forall id :: id in Slots(o.prog) && id in o.receipts && o.receipts[id] in s'.core.deleted ==>
          o.receipts[id] in s.core.deleted)
  }

  lemma AloneStaysSafe(s: System, s': System, o: System)
    requires Safe(s') && Safe(o) && Shared(o, s) == o && LeavesAlone(s, s', o)
    ensures Safe(Shared(o, s'))
  {
    if o.prog != [] && o.prog[0].Delete? {
      assert o.prog[0].requestId in Slots(o.prog);
    }
  }

  lemma WorkLeavesAlone(cfg: Config, s: System, t: Tick, o: System)
    requires cfg.Valid() && Safe(s) && Safe(o) && Shared(o, s) == o && Disjoint(Slots(s.prog), Slots(o.prog))
             && s.prog != []
    ensures LeavesAlone(s, Next(cfg, s, Work(t)), o)
  {
    WorkTouches(cfg, s, t);
    assert Held(o.inbox, o.receipts, Slots(o.prog)) && s.inbox == o.inbox;
    if s.prog[0].Delete? {
      OtherReceipts(s.inbox, s.receipts, Slots(s.prog), o.receipts, Slots(o.prog), s.prog[0].requestId);
    }
    if Writes(cfg, s.prog[0], t) {
      OtherRecords(s.core.store, Written(cfg, s.prog[0], t), Slots(s.prog), Slots(o.prog));
    }
  }

  lemma OtherRecords(store: Store, r: Record, slots: multiset<string>, others: multiset<string>)
    requires r.requestId in slots && Disjoint(slots, others)
    ensures forall id :: id in store.records && id in others ==>
              id in store.Put(r).records && store.Put(r).records[id] == store.records[id]
  {
  }

  /** The message of a request in one hand is not that of any request in the other. */
  lemma OtherReceipts(inbox: map<string, Message>, mine: map<string, string>, slots: multiset<string>,
                      theirs: map<string, string>, others: multiset<string>, id: string)
    requires Held(inbox, mine, slots) && Held(inbox, theirs, others) && Disjoint(slots, others) && id in slots
    ensures forall x :: x in others ==> theirs[x] != mine[id]
  {
    assert Carries(inbox, mine[id], id);
    forall x | x in others ensures theirs[x] != mine[id] {
      assert Carries(inbox, theirs[x], x);
    }
  }

  /** Another worker stays safe, whatever this one does. */
  lemma OtherStaysSafe(cfg: Config, s: System, e: Event, o: System)
    requires cfg.Valid() && Safe(s) && Safe(o) && Shared(o, s) == o && Disjoint(Slots(s.prog), Slots(o.prog))
    ensures Safe(Shared(o, Next(cfg, s, e)))
  {
    match e
    case Publish(m, model) =>
      SamePublish(cfg, s, m, model, o);
      NextKeepsSafe(cfg, o, e);
    case Work(t) =>
      if s.prog != [] {
        NextKeepsSafe(cfg, s, e);
        WorkLeavesAlone(cfg, s, t, o);
        AloneStaysSafe(s, Next(cfg, s, e), o);
      }
    case _ =>
      assert Shared(o, Next(cfg, s, e)) == o;
  }

  /** A publication is the same for everybody. */
  lemma SamePublish(cfg: Config, s: System, m: Message, model: string, o: System)
    requires cfg.Valid() && Shared(o, s) == o
    ensures Shared(o, Next(cfg, s, Publish(m, model))) == Next(cfg, o, Publish(m, model))
  {
  }

  /** An exclusive delivery puts into one worker's hands only what no other holds. */
  lemma ReceiveStaysApart(cfg: Config, f: Fleet, w: nat, ms: seq<Message>, v: nat)
    requires cfg.Valid() && FleetSafe(f) && f.Has(w) && f.Has(v) && v != w
    requires CanReceive(f.SystemOf(w), ms) && Exclusive(f, Act(w, Receive(ms)))
    ensures Disjoint(Slots(Next(cfg, f.SystemOf(w), Receive(ms)).prog), Slots(f.SystemOf(v).prog))
  {
    var s, o := f.SystemOf(w), f.SystemOf(v);
    DeliveryFacts(cfg, s.core.latency, s.inbox, s.core.store, s.core.deleted, ms);
    ProgramHoldsDelivery(cfg, s.core.latency, ms);
    var bag := IdBag(CandidatesOf(cfg, s.core.latency, ms));
    forall id | id in bag ensures id !in Slots(o.prog) {
      var m :| m in ms && ReceiptsOf(ms)[id] == m.receipt;
      assert !Holds(f, v, m.receipt);
      NotHeldNotSlot(f.inbox, f.store, o, m.receipt, id);
    }
  }

  lemma NotHeldNotSlot(inbox: map<string, Message>, store: Store, o: System, receipt: string, id: string)
    requires InboxOk(inbox, store) && Held(inbox, o.receipts, Slots(o.prog)) && Carries(inbox, receipt, id)
    requires forall x :: x in Slots(o.prog) ==> o.receipts[x] != receipt
    ensures id !in Slots(o.prog)
  {
    forall x | x in Slots(o.prog) ensures x != id {
      assert Carries(inbox, o.receipts[x], x);
    }
  }

  lemma FewerDisjoint(a: multiset<string>, fewer: multiset<string>, b: multiset<string>)
    requires Disjoint(a, b) && fewer <= a
    ensures Disjoint(fewer, b) && Disjoint(b, fewer)
  {
    forall id | id in fewer ensures id in a {
      assert fewer[id] <= a[id];
    }
  }

  lemma NextStaysApart(cfg: Config, f: Fleet, w: nat, e: Event, v: nat)
    requires cfg.Valid() && FleetSafe(f) && f.Has(w) && f.Has(v) && v != w && Exclusive(f, Act(w, e))
    ensures var prog, other := Next(cfg, f.SystemOf(w), e).prog, f.SystemOf(v).prog;
            Disjoint(Slots(prog), Slots(other)) && Disjoint(Slots(other), Slots(prog))
  {
    var s, other := f.SystemOf(w), Slots(f.SystemOf(v).prog);
    match e
    case Receive(ms) =>
      if CanReceive(s, ms) {
        ReceiveStaysApart(cfg, f, w, ms, v);
      }
    case Work(t) =>
      if s.prog != [] {
        ShapeAfterWork(cfg, s, t);
        FewerDisjoint(Slots(s.prog), Slots(Next(cfg, s, e).prog), other);
      }
    case _ =>
  }

  lemma ActKeepsSafe(cfg: Config, f: Fleet, w: nat, e: Event)
    requires cfg.Valid() && FleetSafe(f) && f.Has(w) && Exclusive(f, Act(w, e))
    ensures FleetSafe(f.Absorb(w, Next(cfg, f.SystemOf(w), e)))
  {
    var s := f.SystemOf(w);
    var s' := Next(cfg, s, e);
    var f' := f.Absorb(w, s');
    NextKeepsSafe(cfg, s, e);
    forall v: nat | f.Has(v)
      ensures Safe(f'.SystemOf(v)) && (v != w ==> f'.SystemOf(v).prog == f.SystemOf(v).prog) && f'.SystemOf(w) == s'
    {
      AbsorbViews(f, w, s', v);
      AbsorbViews(f, w, s', w);
      if v != w {
        OtherStaysSafe(cfg, s, e, f.SystemOf(v));
      }
    }
    forall v: nat | f.Has(v) && v != w
      ensures Disjoint(Slots(s'.prog), Slots(f.SystemOf(v).prog)) && Disjoint(Slots(f.SystemOf(v).prog), Slots(s'.prog))
    {
      NextStaysApart(cfg, f, w, e, v);
    }
  }

  lemma RestartKeepsSafe(cfg: Config, f: Fleet, w: nat)
    requires cfg.Valid() && FleetSafe(f) && f.Has(w)
    ensures FleetSafe(Advance(cfg, f, Restart(w)))
  {
    RestartViews(f, w);
    var f' := Advance(cfg, f, Restart(w));
    assert Slots(f'.SystemOf(w).prog) == multiset{};
    assert Safe(f'.SystemOf(w));
  }

  lemma AdvanceKeepsSafe(cfg: Config, f: Fleet, e: FleetEvent)
    requires cfg.Valid() && FleetSafe(f) && Exclusive(f, e)
    ensures FleetSafe(Advance(cfg, f, e))
  {
    if f.Has(e.worker) {
      match e
      case Act(w, event) => ActKeepsSafe(cfg, f, w, event);
      case Restart(w) => RestartKeepsSafe(cfg, f, w);
    }
  }

  lemma {:induction false} RunIsSafe(cfg: Config, f: Fleet, es: seq<FleetEvent>, clean: bool)
    requires cfg.Valid() && FleetSafe(f) && Disciplined(cfg, f, es, clean)
    ensures FleetSafe(Run(cfg, f, es))
  {
    if es != [] {
      RunIsSafe(cfg, f, es[..|es| - 1], clean);
      AdvanceKeepsSafe(cfg, Run(cfg, f, es[..|es| - 1]), es[|es| - 1]);
    }
  }

  lemma InitialSafe(n: nat, latency: Latency.Policy)
    ensures FleetSafe(Initial(n, latency))
  {
  }

  // ----- deletion is safe -----

  /** The record of a message's request. */
  function RecordOf(f: Fleet, receipt: string): Option<Record> {
    if receipt in f.inbox && f.inbox[receipt].body.Some? && f.inbox[receipt].body.value.eventId in f.store.records
    then Some(f.store.records[f.inbox[receipt].body.value.eventId]) else None
  }

  /** A request whose message is deleted is in nobody's hands, so nobody writes for it. */
  lemma ActKeepsDeleted(cfg: Config, f: Fleet, w: nat, e: Event, d: string)
    requires cfg.Valid() && FleetSafe(f) && f.Has(w) && d in f.deleted
    ensures var f' := f.Absorb(w, Next(cfg, f.SystemOf(w), e));
            d in f'.deleted && RecordOf(f', d) == RecordOf(f, d)
  {
    DeletedNotInHand(f.SystemOf(w), d);
    NextKeepsRecord(cfg, f.SystemOf(w), e, d, f.inbox[d].body.value.eventId);
  }

  lemma NextKeepsRecord(cfg: Config, s: System, e: Event, d: string, id: string)
    requires cfg.Valid() && Safe(s) && d in s.core.deleted && id in s.core.store.records && id !in Slots(s.prog)
    requires d in s.inbox && s.inbox[d].body.Some? && s.inbox[d].body.value.eventId == id
    ensures var s' := Next(cfg, s, e);
            && d in s'.core.deleted && d in s'.inbox && s'.inbox[d] == s.inbox[d]
            && id in s'.core.store.records && s'.core.store.records[id] == s.core.store.records[id]
  {
    match e
    case Publish(m, model) =>
    case Receive(ms) =>
    case Work(t) =>
      if s.prog != [] {
        WorkTouches(cfg, s, t);
      }
    case Crash =>
  }

  lemma DeletedNotInHand(s: System, d: string)
    requires Safe(s) && d in s.core.deleted
    ensures d in s.inbox && s.inbox[d].body.Some? && s.inbox[d].body.value.eventId !in Slots(s.prog)
    ensures s.inbox[d].body.value.eventId in s.core.store.records
  {
    var mine := s.inbox[d].body.value.eventId;
    assert Carries(s.inbox, d, mine);
    forall id | id in Slots(s.prog) ensures id != mine {
      assert Carries(s.inbox, s.receipts[id], id);
    }
  }

  lemma {:induction false} RunKeepsDeleted(cfg: Config, f: Fleet, es: seq<FleetEvent>, clean: bool, d: string)
    requires cfg.Valid() && FleetSafe(f) && Disciplined(cfg, f, es, clean) && d in f.deleted
    ensures d in Run(cfg, f, es).deleted && RecordOf(Run(cfg, f, es), d) == RecordOf(f, d)
  {
    if es != [] {
      var init, e := es[..|es| - 1], es[|es| - 1];
      RunKeepsDeleted(cfg, f, init, clean, d);
      RunIsSafe(cfg, f, init, clean);
      var before := Run(cfg, f, init);
      if before.Has(e.worker) && e.Act? {
        ActKeepsDeleted(cfg, before, e.worker, e.event, d);
      }
    }
  }

  lemma {:induction false} NoWorkers(cfg: Config, f: Fleet, es: seq<FleetEvent>)
    requires cfg.Valid() && f.nodes == []
    ensures Run(cfg, f, es) == f
  {
    if es != [] {
      NoWorkers(cfg, f, es[..|es| - 1]);
    }
  }

  /** In every run of a fleet whose deliveries are exclusive, wherever workers crash or restart: a
      deleted message belongs to a request that is COMPLETED or failed by expiry, and its record
      never changes again. */
  lemma {:induction false} DeletionIsSafe(cfg: Config, n: nat, latency: Latency.Policy, es: seq<FleetEvent>,
                                          more: seq<FleetEvent>, d: string)
    requires cfg.Valid() && Disciplined(cfg, Initial(n, latency), es + more, false)
    requires d in Run(cfg, Initial(n, latency), es).deleted
    ensures var f, later := Run(cfg, Initial(n, latency), es), Run(cfg, Initial(n, latency), es + more);
            && RecordOf(f, d).Some? && Done(RecordOf(f, d).value)
            && d in later.deleted && RecordOf(later, d) == RecordOf(f, d)
  {
    var f0 := Initial(n, latency);
    InitialSafe(n, latency);
    DisciplinedParts(cfg, f0, es, more, false);
    RunIsSafe(cfg, f0, es, false);
    RunKeepsNodes(cfg, f0, es);
    RunConcat(cfg, f0, es, more);
    RunKeepsDeleted(cfg, Run(cfg, f0, es), more, false, d);
    if n == 0 {
      NoWorkers(cfg, f0, es);
    } else {
      assert Safe(Run(cfg, f0, es).SystemOf(0));
    }
  }

  // ----- completion is final -----

  /** The requests whose messages some worker other than `w` deletes next. */
  function OtherDues(f: Fleet, w: nat): set<string> {
    set v: nat, id | v < |f.nodes| && v != w && id in Due(f.SystemOf(v).prog) :: id
  }

  ghost predicate FleetFinal(f: Fleet) {
    forall w: nat :: f.Has(w) ==> FinalOk(f.SystemOf(w), OtherDues(f, w))
  }

  lemma DuesApart(f: Fleet, w: nat)
    requires FleetSafe(f) && f.Has(w)
    ensures Apart(OtherDues(f, w), Slots(f.SystemOf(w).prog))
  {
    forall v: nat, id | v < |f.nodes| && v != w && id in Due(f.SystemOf(v).prog)
      ensures id !in Slots(f.SystemOf(w).prog)
    {
      assert Disjoint(Slots(f.SystemOf(v).prog), Slots(f.SystemOf(w).prog));
      DueInHand(f.SystemOf(v).prog);
    }
  }

  lemma {:induction false} DueInHand(prog: seq<Op>)
    ensures forall id :: id in Due(prog) ==> id in Slots(prog)
  {
  }

  /** Whichever worker one starts from, the requests due are the same. */
  lemma SameDues(f: Fleet, w: nat, v: nat)
    requires f.Has(w) && f.Has(v)
    ensures Due(f.SystemOf(w).prog) + OtherDues(f, w) == Due(f.SystemOf(v).prog) + OtherDues(f, v)
  {
  }

  lemma ActKeepsFinal(cfg: Config, f: Fleet, w: nat, e: Event)
    requires cfg.Valid() && FleetSafe(f) && FleetFinal(f) && f.Has(w) && !Interrupts(f, Act(w, e))
    ensures var f' := f.Absorb(w, Next(cfg, f.SystemOf(w), e)); FleetFinal(f') && KeepsCompleted(f.store, f'.store)
  {
    var s := f.SystemOf(w);
    var f' := f.Absorb(w, Next(cfg, s, e));
    DuesApart(f, w);
    NextKeepsFinal(cfg, s, e, OtherDues(f, w));
    OthersStillDue(f, w, Next(cfg, s, e));
    forall v: nat | f'.Has(v) ensures FinalOk(f'.SystemOf(v), OtherDues(f', v)) {
      SameDues(f', w, v);
    }
  }

  lemma OthersStillDue(f: Fleet, w: nat, s: System)
    requires f.Has(w)
    ensures f.Absorb(w, s).SystemOf(w) == s && OtherDues(f.Absorb(w, s), w) == OtherDues(f, w)
  {
    var f' := f.Absorb(w, s);
    forall v: nat | v < |f.nodes| && v != w ensures f'.SystemOf(v).prog == f.SystemOf(v).prog {
      AbsorbViews(f, w, s, v);
    }
  }

  lemma RestartKeepsFinal(cfg: Config, f: Fleet, w: nat)
    requires cfg.Valid() && FleetSafe(f) && FleetFinal(f) && f.Has(w) && !Interrupts(f, Restart(w))
    ensures FleetFinal(Advance(cfg, f, Restart(w))) && Advance(cfg, f, Restart(w)).store == f.store
  {
    var s, f' := f.SystemOf(w), Advance(cfg, f, Restart(w));
    NextKeepsFinalOnStop(cfg, f, w);
    RestartViews(f, w);
    assert OtherDues(f', w) == OtherDues(f, w);
    forall v: nat | f'.Has(v) ensures FinalOk(f'.SystemOf(v), OtherDues(f', v)) {
      SameDues(f', w, v);
    }
  }

  lemma NextKeepsFinalOnStop(cfg: Config, f: Fleet, w: nat)
    requires cfg.Valid() && FleetSafe(f) && FleetFinal(f) && f.Has(w) && !AboutToDeleteCompleted(f.SystemOf(w))
    ensures FinalBooks(f.inbox, f.store, f.deleted, f.completions, OtherDues(f, w))
  {
    DuesApart(f, w);
    NextKeepsFinal(cfg, f.SystemOf(w), Crash, OtherDues(f, w));
    assert {} + OtherDues(f, w) == OtherDues(f, w);
  }

  lemma AdvanceKeepsFinal(cfg: Config, f: Fleet, e: FleetEvent)
    requires cfg.Valid() && FleetSafe(f) && FleetFinal(f) && !Interrupts(f, e)
    ensures FleetFinal(Advance(cfg, f, e)) && KeepsCompleted(f.store, Advance(cfg, f, e).store)
  {
    if f.Has(e.worker) {
      match e
      case Act(w, event) => ActKeepsFinal(cfg, f, w, event);
      case Restart(w) => RestartKeepsFinal(cfg, f, w);
    }
  }

  lemma {:induction false} CleanRunKeepsFinal(cfg: Config, f: Fleet, es: seq<FleetEvent>)
    requires cfg.Valid() && FleetSafe(f) && FleetFinal(f) && Disciplined(cfg, f, es, true)
    ensures FleetSafe(Run(cfg, f, es)) && FleetFinal(Run(cfg, f, es))
    ensures KeepsCompleted(f.store, Run(cfg, f, es).store)
  {
    if es != [] {
      var before := Run(cfg, f, es[..|es| - 1]);
      CleanRunKeepsFinal(cfg, f, es[..|es| - 1]);
      AdvanceKeepsSafe(cfg, before, es[|es| - 1]);
      AdvanceKeepsFinal(cfg, before, es[|es| - 1]);
    }
  }

  lemma InitialFinal(n: nat, latency: Latency.Policy)
    ensures FleetFinal(Initial(n, latency))
  {
  }

  /** In a clean run, however often and to whichever workers messages are redelivered: every request
      completes at most once, and a COMPLETED record is never overwritten. */
  lemma {:induction false} CompletionIsFinal(cfg: Config, n: nat, latency: Latency.Policy, es: seq<FleetEvent>,
                                             more: seq<FleetEvent>, id: string)
    requires cfg.Valid() && Disciplined(cfg, Initial(n, latency), es + more, true)
    ensures var f, later := Run(cfg, Initial(n, latency), es), Run(cfg, Initial(n, latency), es + more);
            && (CompletedIn(f.store, id) ==>
                  CompletedIn(later.store, id) && later.store.records[id] == f.store.records[id])
            && (forall i, j :: 0 <= i < j < |later.completions| ==> later.completions[i] != later.completions[j])
  {
    var f0 := Initial(n, latency);
    InitialSafe(n, latency);
    InitialFinal(n, latency);
    DisciplinedParts(cfg, f0, es, more, true);
    CleanRunKeepsFinal(cfg, f0, es);
    CleanRunKeepsFinal(cfg, Run(cfg, f0, es), more);
    RunConcat(cfg, f0, es, more);
    RunKeepsNodes(cfg, f0, es + more);
    if n == 0 {
      NoWorkers(cfg, f0, es + more);
    } else {
      assert FinalOk(Run(cfg, f0, es + more).SystemOf(0), OtherDues(Run(cfg, f0, es + more), 0));
    }
  }
}
