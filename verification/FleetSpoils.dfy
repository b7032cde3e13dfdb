/** Where the conditions of `CompletionIsFinal` matter: what a further delivery does to a COMPLETED
    record, after an interrupted completion and while another worker still holds the message. */
module FleetSpoils {
  import opened Worker
  import opened Fleets
  import opened WorkerProofs
  import opened FleetProofs
  import opened FleetOverwrites
  import Latency

  /** A delivery of one message puts a write ahead exactly if the scheduler places the request. */
  lemma DeliveryAhead(cfg: Config, latency: Latency.Tracker, m: Message, t: Tick)
    requires cfg.Valid() && m.body.Some?
    ensures WriteAhead(cfg, ProgramFor(cfg, latency, [m]), m.body.value.eventId, t)
       <==> PlacedAlone(cfg, latency, m.body.value)
  {
    var prog, c := ProgramFor(cfg, latency, [m]), CandidateOf(cfg, latency, m.body.value);
    ProgramOfOne(cfg, latency, m);
    OneAhead(cfg, prog[0], m.body.value.eventId, t);
    assert prog == [prog[0]] && c in prog[0].batch.candidates;
  }

  /** Any undeleted message of a completed request, delivered to an idle worker. */
  lemma RedeliveryOverwrites(cfg: Config, s: System, m: Message, t: Tick)
    requires cfg.Valid() && CanReceive(s, [m]) && m.body.Some? && HasCompleted(s, m.body.value.eventId)
    ensures Overwritten(cfg, Next(cfg, s, Receive([m])), t, m.body.value.eventId)
       <==> PlacedAlone(cfg, s.core.latency, m.body.value)
  {
    DeliveryAhead(cfg, s.core.latency, m, t);
    OverwrittenExactly(cfg, Next(cfg, s, Receive([m])), t, m.body.value.eventId);
  }

  // ----- interrupted completions -----

  /** The message of the request that worker `w` is about to delete. */
  function DueMessage(f: Fleet, w: nat): Message
    requires f.Has(w) && Safe(f.SystemOf(w)) && f.SystemOf(w).prog != [] && f.SystemOf(w).prog[0].Delete?
  {
    var s := f.SystemOf(w);
    HeadInHand(s);
    s.inbox[s.receipts[s.prog[0].requestId]]
  }

  lemma HeadInHand(s: System)
    requires Safe(s) && s.prog != [] && s.prog[0].Delete?
    ensures s.prog[0].requestId in s.receipts && s.receipts[s.prog[0].requestId] in s.inbox
    ensures var m := s.inbox[s.receipts[s.prog[0].requestId]];
            && m.body.Some? && m.body.value.eventId == s.prog[0].requestId
            && m.receipt == s.receipts[s.prog[0].requestId] && m.receipt !in s.core.deleted
  {
    assert s.prog[0].requestId in Slots(s.prog);
  }

  /** Whenever a crash or a restart separates a completion from its deletion, the message can be
      delivered to that worker, or to any idle one, without being in anyone's hands; and that
      delivery overwrites the COMPLETED record exactly if the scheduler places the request. */
  lemma InterruptionSpoils(cfg: Config, f: Fleet, e: FleetEvent, v: nat, t: Tick)
    requires cfg.Valid() && FleetSafe(f) && Interrupts(f, e)
    requires f.Has(v) && (v == e.worker || f.SystemOf(v).prog == [])
    ensures var f', m := Advance(cfg, f, e), DueMessage(f, e.worker);
            && f'.Has(v) && m.body.Some? && CanReceive(f'.SystemOf(v), [m]) && Exclusive(f', Act(v, Receive([m])))
            && (Overwritten(cfg, Next(cfg, f'.SystemOf(v), Receive([m])), t, m.body.value.eventId)
                <==> PlacedAlone(cfg, f'.SystemOf(v).core.latency, m.body.value))
  {
    var f', m := Advance(cfg, f, e), DueMessage(f, e.worker);
    HeadInHand(f.SystemOf(e.worker));
    StopViews(cfg, f, e, v);
    NobodyHolds(cfg, f, e);
    assert CanReceive(f'.SystemOf(v), [m]) && HasCompleted(f'.SystemOf(v), m.body.value.eventId);
    RedeliveryOverwrites(cfg, f'.SystemOf(v), m, t);
  }

  lemma NobodyHolds(cfg: Config, f: Fleet, e: FleetEvent)
    requires cfg.Valid() && FleetSafe(f) && Interrupts(f, e)
    ensures !InSomeHand(Advance(cfg, f, e), DueMessage(f, e.worker).receipt)
  {
    var f', m := Advance(cfg, f, e), DueMessage(f, e.worker);
    StopViews(cfg, f, e, e.worker);
    forall u: nat | f'.Has(u) ensures !Holds(f', u, m.receipt) {
      StopViews(cfg, f, e, u);
      NotHeldElsewhere(f, e.worker, u);
    }
  }

  /** A worker that stops holds nothing any more; the others go on. */
  lemma StopViews(cfg: Config, f: Fleet, e: FleetEvent, v: nat)
    requires cfg.Valid() && f.Has(e.worker) && f.Has(v) && (e.Restart? || e.event.Crash?)
    ensures var f' := Advance(cfg, f, e);
            && f'.Has(v) && f'.inbox == f.inbox && f'.store == f.store && f'.deleted == f.deleted
            && (v == e.worker ==> f'.SystemOf(v).prog == [])
            && (v != e.worker ==> f'.SystemOf(v) == f.SystemOf(v))
  {
    if e.Act? {
      AbsorbViews(f, e.worker, Next(cfg, f.SystemOf(e.worker), e.event), v);
    } else {
      RestartViews(f, e.worker);
    }
  }

  lemma NotHeldElsewhere(f: Fleet, w: nat, u: nat)
    requires FleetSafe(f) && f.Has(w) && f.Has(u) && f.SystemOf(w).prog != [] && f.SystemOf(w).prog[0].Delete?
    ensures u != w ==> !Holds(f, u, DueMessage(f, w).receipt)
  {
    var s, o, m := f.SystemOf(w), f.SystemOf(u), DueMessage(f, w);
    HeadInHand(s);
    assert s.prog[0].requestId in Slots(s.prog) && Carries(f.inbox, m.receipt, s.prog[0].requestId);
    if u != w {
      forall id | id in Slots(o.prog) ensures o.receipts[id] != m.receipt {
        assert Carries(f.inbox, o.receipts[id], id);
      }
    }
  }

  // ----- overlapping deliveries -----

  /** The message of a request in worker `w`'s hands. */
  function HeldMessage(f: Fleet, w: nat, id: string): Message
    requires f.Has(w) && Safe(f.SystemOf(w)) && id in Slots(f.SystemOf(w).prog)
  {
    var s := f.SystemOf(w);
    SlotInHand(s, id);
    s.inbox[s.receipts[id]]
  }

  lemma SlotInHand(s: System, id: string)
    requires Safe(s) && id in Slots(s.prog)
    ensures id in s.receipts && s.receipts[id] in s.inbox
    ensures var m := s.inbox[s.receipts[id]];
            && m.body.Some? && m.body.value.eventId == id && m.receipt == s.receipts[id]
            && m.receipt !in s.core.deleted
  {
    assert Carries(s.inbox, s.receipts[id], id);
  }

  predicate Untouched(es: seq<FleetEvent>, v: nat) {
    forall e :: e in es ==> e.worker != v
  }

  /** What the others do leaves a worker's program alone. */
  lemma {:induction false} UntouchedKeepsNode(cfg: Config, f: Fleet, es: seq<FleetEvent>, v: nat)
    requires cfg.Valid() && f.Has(v) && Untouched(es, v)
    ensures Run(cfg, f, es).Has(v) && Run(cfg, f, es).nodes[v] == f.nodes[v]
  {
    if es != [] {
      var init, e := es[..|es| - 1], es[|es| - 1];
      assert forall x :: x in init || x == e ==> x in es;
      UntouchedKeepsNode(cfg, f, init, v);
    }
  }

  /** The fleet after the message that `a` holds has been delivered to `b` as well. */
  function Overlapped(cfg: Config, f: Fleet, a: nat, b: nat, id: string): Fleet
    requires cfg.Valid() && FleetSafe(f) && f.Has(a) && id in Slots(f.SystemOf(a).prog)
  {
    Advance(cfg, f, Act(b, Receive([HeldMessage(f, a, id)])))
  }

  /** Nothing keeps a message in one worker's hands from being delivered to another that is idle. */
  lemma OverlapDelivers(cfg: Config, f: Fleet, a: nat, b: nat, id: string)
    requires cfg.Valid() && FleetSafe(f) && f.Has(a) && f.Has(b) && f.SystemOf(b).prog == []
    requires id in Slots(f.SystemOf(a).prog)
    ensures var m, f1 := HeldMessage(f, a, id), Overlapped(cfg, f, a, b, id);
            && CanReceive(f.SystemOf(b), [m]) && InSomeHand(f, m.receipt)
            && f1.Has(a) && f1.Has(b) && f1.SystemOf(a) == f.SystemOf(a)
            && f1.SystemOf(b) == Next(cfg, f.SystemOf(b), Receive([m]))
  {
    var m := HeldMessage(f, a, id);
    SlotInHand(f.SystemOf(a), id);
    assert Holds(f, a, m.receipt);
    AbsorbViews(f, b, Next(cfg, f.SystemOf(b), Receive([m])), a);
    AbsorbViews(f, b, Next(cfg, f.SystemOf(b), Receive([m])), b);
  }

  /** Whatever operation the holder `a` has come to when the message is delivered to `b` as well, and
      whatever happens then: once the request is COMPLETED, `b` overwrites the record exactly if its
      scheduler placed the request, provided that `b` has not moved yet; and `a` overwrites it exactly
      if it had a write for the request ahead, provided that `a` has not moved yet. */
  lemma {:induction false} OverlapSpoils(cfg: Config, f: Fleet, a: nat, b: nat, id: string, es: seq<FleetEvent>,
                                         t: Tick)
    requires cfg.Valid() && FleetSafe(f) && f.Has(a) && f.Has(b) && f.SystemOf(b).prog == []
    requires id in Slots(f.SystemOf(a).prog)
    requires CompletedIn(Run(cfg, Overlapped(cfg, f, a, b, id), es).store, id)
    ensures var m, f2 := HeldMessage(f, a, id), Run(cfg, Overlapped(cfg, f, a, b, id), es);
            && m.body.Some?
            && (Untouched(es, b) ==>
                  f2.Has(b) && (Overwritten(cfg, f2.SystemOf(b), t, id) <==>
                                  PlacedAlone(cfg, f.SystemOf(b).core.latency, m.body.value)))
            && (Untouched(es, a) ==>
                  f2.Has(a) && (Overwritten(cfg, f2.SystemOf(a), t, id) <==>
                                  WriteAhead(cfg, f.SystemOf(a).prog, id, t)))
  {
    var m, f1 := HeldMessage(f, a, id), Overlapped(cfg, f, a, b, id);
    var f2 := Run(cfg, f1, es);
    SlotInHand(f.SystemOf(a), id);
    OverlapDelivers(cfg, f, a, b, id);
    if Untouched(es, b) {
      UntouchedKeepsNode(cfg, f1, es, b);
      DeliveryAhead(cfg, f.SystemOf(b).core.latency, m, t);
      OverwrittenExactly(cfg, f2.SystemOf(b), t, id);
    }
    if Untouched(es, a) {
      UntouchedKeepsNode(cfg, f1, es, a);
      OverwrittenExactly(cfg, f2.SystemOf(a), t, id);
    }
  }

  /** A worker alone at work completes what it has ahead, and deletes the message. */
  lemma {:induction false} CompletesAlone(cfg: Config, f: Fleet, w: nat, id: string, t: Tick)
    requires cfg.Valid() && f.Has(w) && CompletionAhead(cfg, f.SystemOf(w), id, t) && id in f.SystemOf(w).receipts
    ensures exists k: nat :: var f' := Run(cfg, f, Acts(w, t, k));
                             CompletedIn(f'.store, id) && f.SystemOf(w).receipts[id] in f'.deleted
  {
    var s := f.SystemOf(w);
    AheadCompletes(cfg, s, t, id);
    var k: nat :| HasCompleted(Steps(cfg, s, t, k), id) && s.receipts[id] in Steps(cfg, s, t, k).core.deleted;
    ActsAreSteps(cfg, f, w, t, k);
  }

  /** And it comes about: if the holder has a completion ahead and `b`'s scheduler places the request,
      `a` can complete the request and delete its message before `b` moves, and `b` then overwrites the
      record. No crash is needed, and no message is left to make up for it. */
  lemma {:induction false} OverlapLosesCompletion(cfg: Config, f: Fleet, a: nat, b: nat, id: string, t: Tick, t': Tick)
    requires cfg.Valid() && FleetSafe(f) && f.Has(a) && f.Has(b) && f.SystemOf(b).prog == []
    requires id in Slots(f.SystemOf(a).prog) && CompletionAhead(cfg, f.SystemOf(a), id, t)
    requires PlacedAlone(cfg, f.SystemOf(b).core.latency, HeldMessage(f, a, id).body.value)
    ensures exists k: nat ::
              var f2 := Run(cfg, Overlapped(cfg, f, a, b, id), Acts(a, t, k));
              && CompletedIn(f2.store, id) && HeldMessage(f, a, id).receipt in f2.deleted
              && f2.Has(b) && Overwritten(cfg, f2.SystemOf(b), t', id)
  {
    var f1 := Overlapped(cfg, f, a, b, id);
    SlotInHand(f.SystemOf(a), id);
    OverlapDelivers(cfg, f, a, b, id);
    CompletesAlone(cfg, f1, a, id, t);
    var k: nat :| CompletedIn(Run(cfg, f1, Acts(a, t, k)).store, id)
      && f.SystemOf(a).receipts[id] in Run(cfg, f1, Acts(a, t, k)).deleted;
    ActsDeliverNothing(a, t, k);
    assert a != b;
    OverlapSpoils(cfg, f, a, b, id, Acts(a, t, k), t');
  }

  /** The other way round: `b` completes the request before `a` moves, and `a`, with a write for it still
      ahead, overwrites the record. */
  lemma {:induction false} OverlapLosesToHolder(cfg: Config, f: Fleet, a: nat, b: nat, id: string, t: Tick, t': Tick)
    requires cfg.Valid() && FleetSafe(f) && f.Has(a) && f.Has(b) && f.SystemOf(b).prog == []
    requires id in Slots(f.SystemOf(a).prog) && WriteAhead(cfg, f.SystemOf(a).prog, id, t')
    requires Overlapped(cfg, f, a, b, id).Has(b)
    requires CompletionAhead(cfg, Overlapped(cfg, f, a, b, id).SystemOf(b), id, t)
    ensures exists k: nat ::
              var f2 := Run(cfg, Overlapped(cfg, f, a, b, id), Acts(b, t, k));
              CompletedIn(f2.store, id) && f2.Has(a) && Overwritten(cfg, f2.SystemOf(a), t', id)
  {
    var f1, m := Overlapped(cfg, f, a, b, id), HeldMessage(f, a, id);
    SlotInHand(f.SystemOf(a), id);
    OverlapDelivers(cfg, f, a, b, id);
    assert [m][..0] == [] && id in ReceiptsOf([m]);
    CompletesAlone(cfg, f1, b, id, t);
    var k: nat :| CompletedIn(Run(cfg, f1, Acts(b, t, k)).store, id);
    ActsDeliverNothing(b, t, k);
    assert a != b;
    OverlapSpoils(cfg, f, a, b, id, Acts(b, t, k), t');
  }
}
