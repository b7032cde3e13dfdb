/** Conservation in the in-process platform, over every interleaving of submissions with the
    worker's steps: nothing is lost, tenant slots balance, limits hold, the breaker always recovers. */
module DemoProofs {
  import opened Options
  import opened Results
  import opened Demo
  import Admission
  import Batching
  import BatchingProofs
  import Breaker
  import Latency
  import PriorityQueue
  import Reconciliation
  import Sorting
  import Tenant

  // ----- counting a tenant's requests in a bag -----

  ghost function TenantCount(live: multiset<Payload>, tenant: string): nat
    decreases |live|
  {
    if live == multiset{} then 0
    else
      var p :| p in live;
      One(p.TenantId() == tenant) + TenantCount(live - multiset{p}, tenant)
  }

  lemma {:induction false} TenantCountAdd(live: multiset<Payload>, p: Payload, tenant: string)
    ensures TenantCount(live + multiset{p}, tenant) == TenantCount(live, tenant) + One(p.TenantId() == tenant)
    decreases |live|
  {
    var more := live + multiset{p};
    var x :| x in more
      && TenantCount(more, tenant) == One(x.TenantId() == tenant) + TenantCount(more - multiset{x}, tenant);
    if x == p {
      assert more - multiset{x} == live;
    } else {
      Sorting.TakeOther(live, p, x);
      TenantCountAdd(live - multiset{x}, p, tenant);
      TenantCountAdd(live - multiset{x}, x, tenant);
    }
  }

  // ----- the books -----

  ghost predicate InFlight(live: multiset<Payload>, id: string) {
    exists p :: p in live && p.eventId == id
  }

  /** The requests in flight have distinct ids and a record each; every other record is terminal. */
  ghost predicate Recorded(store: Store, live: multiset<Payload>) {
    && store.Valid()
    && (forall p :: p in live ==> live[p] == 1 && p.eventId in store.records)
    && (forall p, q :: p in live && q in live && p.eventId == q.eventId ==> p == q)
    && (forall id :: id in store.records && !Terminal(store.records[id].status) ==> InFlight(live, id))
  }

  /** Each tenant holds exactly one slot per request of its own in flight. */
  ghost predicate Balanced(tenants: Tenant.Engine, live: multiset<Payload>) {
    forall tenant :: tenants.StateOf(tenant).activeCount == TenantCount(live, tenant)
  }

  /** A write for a request in flight keeps the records in order, whatever it says. */
  lemma WriteKeepsRecorded(store: Store, live: multiset<Payload>, r: Record)
    requires Recorded(store, live) && InFlight(live, r.requestId)
    ensures Recorded(store.Put(r), live)
  {
    PutValid(store, r);
  }

  lemma SettleKeepsRecorded(store: Store, live: multiset<Payload>, p: Payload)
    requires Recorded(store, live) && p in live && Terminal(store.records[p.eventId].status)
    ensures Recorded(store, live - multiset{p})
  {
    var rest := live - multiset{p};
    forall id | id in store.records && !Terminal(store.records[id].status) ensures InFlight(rest, id) {
      var q :| q in live && q.eventId == id;
      assert q in rest;
    }
  }

  lemma AdmitKeepsRecorded(store: Store, live: multiset<Payload>, p: Payload, r: Record)
    requires Recorded(store, live) && p.eventId !in store.records && r.requestId == p.eventId
    ensures Recorded(store.Put(r), live + multiset{p})
  {
    PutValid(store, r);
    var more := live + multiset{p};
    assert p in more;
    forall id | id in store.Put(r).records && !Terminal(store.Put(r).records[id].status) ensures InFlight(more, id) {
      if id != p.eventId {
        var q :| q in live && q.eventId == id;
        assert q in more;
      }
    }
  }

  /** Releasing the slot of a request in flight; the clamp at zero does not bite. */
  lemma ReleaseKeepsBalance(tenants: Tenant.Engine, live: multiset<Payload>, p: Payload)
    requires Balanced(tenants, live) && p in live
    ensures Balanced(tenants.ReleaseIn(p.TenantId()), live - multiset{p})
    ensures tenants.StateOf(p.TenantId()).activeCount >= 1
  {
    var rest := live - multiset{p};
    assert live == rest + multiset{p};
    TenantCountAdd(rest, p, p.TenantId());
    forall tenant ensures tenants.ReleaseIn(p.TenantId()).StateOf(tenant).activeCount == TenantCount(rest, tenant) {
      TenantCountAdd(rest, p, tenant);
    }
  }

  lemma AdmitKeepsBalance(tenants: Tenant.Engine, live: multiset<Payload>, p: Payload, now: real, priority: int)
    requires Balanced(tenants, live)
    ensures var (next, r) := tenants.CheckIn(p.TenantId(), now, priority);
            Balanced(next, if r.Allowed? then live + multiset{p} else live)
  {
    var (next, r) := tenants.CheckIn(p.TenantId(), now, priority);
    forall tenant
      ensures next.StateOf(tenant).activeCount == TenantCount(if r.Allowed? then live + multiset{p} else live, tenant)
    {
      TenantCountAdd(live, p, tenant);
    }
  }

  // ----- the program -----

  /** The payloads behind a list of candidates. */
  ghost function BagOf(raw: map<string, Payload>, cs: seq<Batching.Candidate>): multiset<Payload>
    requires forall c :: c in cs ==> c.requestId in raw
  {
    if cs == [] then multiset{} else multiset{raw[cs[0].requestId]} + BagOf(raw, cs[1..])
  }

  /** The requests a program still has to release. */
  ghost function Outstanding(raw: map<string, Payload>, prog: seq<Op>): multiset<Payload>
    requires Known(raw, prog)
  {
    if prog == [] then multiset{}
    else
      assert prog[0] in prog;
      HeadBag(raw, prog[0]) + Outstanding(raw, prog[1..])
  }

  ghost function HeadBag(raw: map<string, Payload>, op: Op): multiset<Payload>
    requires IdsOf(op) <= raw.Keys
  {
    match op
    case Gate(b) =>
      assert forall c :: c in b.candidates ==> c.requestId in IdsOf(op);
      BagOf(raw, b.candidates)
    case Release(id) => multiset{raw[id]}
    case _ => multiset{}
  }

  predicate AllGates(prog: seq<Op>) {
    forall op :: op in prog ==> op.Gate? && op.batch.candidates != []
  }

  /** The shape of a program in progress: every write is for a request still to be released, a
      terminal write is directly followed by the release of its request, no release stands alone
      behind the head, and what follows a gate is gates of non-empty batches. */
  ghost predicate Shaped(raw: map<string, Payload>, prog: seq<Op>)
    requires Known(raw, prog)
  {
    prog == [] ||
    (var rest := prog[1..];
     && Shaped(raw, rest)
     && match prog[0]
        case Gate(b) => AllGates(prog)
        case Fail(c, _, _) => rest != [] && rest[0] == Release(c.requestId)
        case Answer(c, _) => rest != [] && rest[0] == Release(c.requestId)
        case Mark(c, _) => NoReleaseFirst(rest) && c.requestId in raw && raw[c.requestId] in Outstanding(raw, rest)
        case Release(id) => NoReleaseFirst(rest))
  }

  predicate NoReleaseFirst(prog: seq<Op>) {
    prog == [] || !prog[0].Release?
  }

  lemma KnownConcat(raw: map<string, Payload>, a: seq<Op>, b: seq<Op>)
    ensures Known(raw, a + b) <==> Known(raw, a) && Known(raw, b)
  {
    assert forall op :: op in a ==> op in a + b;
    assert forall op :: op in b ==> op in a + b;
  }

  /** What a gate expands to, in front of the remaining gates: shaped, with the same requests to
      release. */
  lemma {:induction false} FailAllShaped(raw: map<string, Payload>, cs: seq<Batching.Candidate>, model: string,
                                         cause: Failure, rest: seq<Op>)
    requires (forall c :: c in cs ==> c.requestId in raw) && Known(raw, rest) && Shaped(raw, rest) && AllGates(rest)
    ensures var prog := FailAll(cs, model, cause) + rest;
            && Known(raw, prog) && Shaped(raw, prog) && NoReleaseFirst(prog)
            && Outstanding(raw, prog) == BagOf(raw, cs) + Outstanding(raw, rest)
  {
    if cs == [] {
      assert FailAll(cs, model, cause) + rest == rest;
      GatesReleaseNothing(rest);
    } else {
      FailAllShaped(raw, cs[1..], model, cause, rest);
      PairInFront(raw, Fail(cs[0], model, cause), cs[0], FailAll(cs[1..], model, cause), rest);
      assert FailAll(cs, model, cause) == [Fail(cs[0], model, cause), Release(cs[0].requestId)]
             + FailAll(cs[1..], model, cause);
      Sorting.SumAssociative(multiset{raw[cs[0].requestId]}, BagOf(raw, cs[1..]), Outstanding(raw, rest));
    }
  }

  lemma {:induction false} AnswerAllShaped(raw: map<string, Payload>, cs: seq<Batching.Candidate>, model: string,
                                           rest: seq<Op>)
    requires (forall c :: c in cs ==> c.requestId in raw) && Known(raw, rest) && Shaped(raw, rest) && AllGates(rest)
    ensures var prog := AnswerAll(cs, model) + rest;
            && Known(raw, prog) && Shaped(raw, prog) && NoReleaseFirst(prog)
            && Outstanding(raw, prog) == BagOf(raw, cs) + Outstanding(raw, rest)
  {
    if cs == [] {
      assert AnswerAll(cs, model) + rest == rest;
      GatesReleaseNothing(rest);
    } else {
      AnswerAllShaped(raw, cs[1..], model, rest);
      PairInFront(raw, Answer(cs[0], model), cs[0], AnswerAll(cs[1..], model), rest);
      assert AnswerAll(cs, model) == [Answer(cs[0], model), Release(cs[0].requestId)] + AnswerAll(cs[1..], model);
      Sorting.SumAssociative(multiset{raw[cs[0].requestId]}, BagOf(raw, cs[1..]), Outstanding(raw, rest));
    }
  }

  lemma GatesReleaseNothing(prog: seq<Op>)
    requires AllGates(prog)
    ensures NoReleaseFirst(prog)
  {
    assert prog == [] || prog[0] in prog;
  }

  /** A terminal write and its release in front of a shaped program. */
  lemma {:induction false} PairInFront(raw: map<string, Payload>, op: Op, c: Batching.Candidate, more: seq<Op>,
                                       rest: seq<Op>)
    requires (op.Fail? || op.Answer?) && op.candidate == c && c.requestId in raw
    requires Known(raw, more + rest) && Shaped(raw, more + rest) && NoReleaseFirst(more + rest)
    ensures var prog := ([op, Release(c.requestId)] + more) + rest;
            && Known(raw, prog) && Shaped(raw, prog) && NoReleaseFirst(prog)
            && Outstanding(raw, prog) == multiset{raw[c.requestId]} + Outstanding(raw, more + rest)
  {
    var tail := more + rest;
    var prog, released := ([op, Release(c.requestId)] + more) + rest, [Release(c.requestId)] + tail;
    ReleaseInFront(raw, c.requestId, tail);
    assert prog == [op] + released;
    assert prog[1..] == released;
    KnownConcat(raw, [op], released);
    assert HeadBag(raw, prog[0]) == multiset{};
  }

  lemma {:induction false} ReleaseInFront(raw: map<string, Payload>, id: string, tail: seq<Op>)
    requires id in raw && Known(raw, tail) && Shaped(raw, tail) && NoReleaseFirst(tail)
    ensures var released := [Release(id)] + tail;
            && Known(raw, released) && Shaped(raw, released)
            && Outstanding(raw, released) == multiset{raw[id]} + Outstanding(raw, tail)
  {
    var released := [Release(id)] + tail;
    assert released[1..] == tail;
    KnownConcat(raw, [Release(id)], tail);
  }

  lemma {:induction false} MarkAllShaped(raw: map<string, Payload>, cs: seq<Batching.Candidate>, model: string,
                                         rest: seq<Op>)
    requires (forall c :: c in cs ==> c.requestId in raw) && Known(raw, rest) && Shaped(raw, rest)
             && NoReleaseFirst(rest)
    requires forall c :: c in cs ==> raw[c.requestId] in Outstanding(raw, rest)
    ensures var prog := MarkAll(cs, model) + rest;
            && Known(raw, prog) && Shaped(raw, prog) && NoReleaseFirst(prog)
            && Outstanding(raw, prog) == Outstanding(raw, rest)
  {
    if cs == [] {
      assert MarkAll(cs, model) + rest == rest;
    } else {
      MarkAllShaped(raw, cs[1..], model, rest);
      var more := MarkAll(cs[1..], model);
      assert cs[0] in cs;
      MarkInFront(raw, cs[0], model, more + rest);
      Sorting.ConcatAssociative([Mark(cs[0], model)], more, rest);
    }
  }

  lemma {:induction false} MarkInFront(raw: map<string, Payload>, c: Batching.Candidate, model: string, tail: seq<Op>)
    requires c.requestId in raw && Known(raw, tail) && Shaped(raw, tail) && NoReleaseFirst(tail)
    requires raw[c.requestId] in Outstanding(raw, tail)
    ensures var prog := [Mark(c, model)] + tail;
            && Known(raw, prog) && Shaped(raw, prog) && NoReleaseFirst(prog)
            && Outstanding(raw, prog) == Outstanding(raw, tail)
  {
    var prog := [Mark(c, model)] + tail;
    assert prog[1..] == tail;
    KnownConcat(raw, [Mark(c, model)], tail);
    assert HeadBag(raw, prog[0]) == multiset{};
  }

  lemma {:induction false} BagHolds(raw: map<string, Payload>, cs: seq<Batching.Candidate>)
    requires forall c :: c in cs ==> c.requestId in raw
    ensures forall c :: c in cs ==> raw[c.requestId] in BagOf(raw, cs)
  {
    if cs != [] {
      BagHolds(raw, cs[1..]);
    }
  }

  predicate HasAnswer(prog: seq<Op>) {
    exists op :: op in prog && op.Answer?
  }

  /** What a gate that lets its batch through expands to. */
  lemma {:induction false} GrantedShaped(raw: map<string, Payload>, cs: seq<Batching.Candidate>, model: string,
                                         rest: seq<Op>)
    requires (forall c :: c in cs ==> c.requestId in raw) && Known(raw, rest) && Shaped(raw, rest) && AllGates(rest)
    ensures var prog := (MarkAll(cs, model) + AnswerAll(cs, model)) + rest;
            && Known(raw, prog) && Shaped(raw, prog) && NoReleaseFirst(prog)
            && Outstanding(raw, prog) == BagOf(raw, cs) + Outstanding(raw, rest)
            && (cs != [] ==> HasAnswer(prog))
  {
    var marks, answers := MarkAll(cs, model), AnswerAll(cs, model);
    AnswerAllShaped(raw, cs, model, rest);
    BagHolds(raw, cs);
    MarkAllShaped(raw, cs, model, answers + rest);
    Sorting.ConcatAssociative(marks, answers, rest);
    if cs != [] {
      assert answers[0] in (marks + answers) + rest;
    }
  }

  lemma {:induction false} GateKnown(raw: map<string, Payload>, prog: seq<Op>)
    requires prog != [] && prog[0].Gate? && Known(raw, prog) && Shaped(raw, prog)
    ensures IdsOf(prog[0]) <= raw.Keys && prog[0].batch.candidates != []
    ensures forall c :: c in prog[0].batch.candidates ==> c.requestId in raw
    ensures Known(raw, prog[1..]) && Shaped(raw, prog[1..]) && AllGates(prog[1..])
    ensures Outstanding(raw, prog) == BagOf(raw, prog[0].batch.candidates) + Outstanding(raw, prog[1..])
  {
    assert prog[0] in prog;
    forall c | c in prog[0].batch.candidates ensures c.requestId in raw {
      assert c.requestId in IdsOf(prog[0]);
    }
  }

  /** A half-open breaker that has granted a probe is owed an output by the current batch. */
  ghost predicate ProbeAnswered(b: Breaker.State, prog: seq<Op>) {
    b.halfOpenProbes >= 0 && (b.phase == Breaker.HalfOpen && b.halfOpenProbes > 0 ==> HasAnswer(prog))
  }

  /** A breaker with no probe outstanding has none after it refuses. */
  lemma RefusalTakesNoProbe(p: Breaker.Policy, b: Breaker.State, now: real)
    requires b.halfOpenProbes >= 0 && (b.phase == Breaker.HalfOpen ==> b.halfOpenProbes == 0)
    ensures var (b', granted) := Breaker.Allow(p, b, now);
            b'.halfOpenProbes >= 0 && (!granted && b'.phase == Breaker.HalfOpen ==> b'.halfOpenProbes == 0)
  {
  }

  /** A program that carries on with the requests in `bag` still to be released. */
  ghost predicate Continues(raw: map<string, Payload>, prog: seq<Op>, bag: multiset<Payload>) {
    Known(raw, prog) && Shaped(raw, prog) && NoReleaseFirst(prog) && Outstanding(raw, prog) == bag
  }

  lemma {:induction false} GateExpansions(raw: map<string, Payload>, prog: seq<Op>, cause: Failure)
    requires prog != [] && prog[0].Gate? && Known(raw, prog) && Shaped(raw, prog)
    ensures var b, rest := prog[0].batch, prog[1..];
            && Continues(raw, FailAll(b.candidates, b.modelName, cause) + rest, Outstanding(raw, prog))
            && Continues(raw, (MarkAll(b.candidates, b.modelName) + AnswerAll(b.candidates, b.modelName)) + rest,
                         Outstanding(raw, prog))
            && HasAnswer((MarkAll(b.candidates, b.modelName) + AnswerAll(b.candidates, b.modelName)) + rest)
  {
    GateKnown(raw, prog);
    var b := prog[0].batch;
    FailAllShaped(raw, b.candidates, b.modelName, cause, prog[1..]);
    GrantedShaped(raw, b.candidates, b.modelName, prog[1..]);
  }

  /** A gate's step goes on with the same requests to release. */
  lemma {:induction false} GateStep(cfg: Config, raw: map<string, Payload>, core: Core, prog: seq<Op>, now: real)
    requires prog != [] && prog[0].Gate? && Known(raw, prog) && Shaped(raw, prog)
    ensures var (core', pushed) := PassGate(cfg, core, prog[0].batch, now);
            && Continues(raw, pushed + prog[1..], Outstanding(raw, prog))
            && core' == core.(breaker := core'.breaker)
  {
    GateExpansions(raw, prog, SchedulingDeferred);
    GateExpansions(raw, prog, BreakerOpen);
  }

  /** A probe granted at a gate will be answered. */
  lemma {:induction false} GateProbe(cfg: Config, raw: map<string, Payload>, core: Core, prog: seq<Op>, now: real)
    requires prog != [] && prog[0].Gate? && Known(raw, prog) && Shaped(raw, prog)
    requires ProbeAnswered(core.breaker, prog)
    ensures var (core', pushed) := PassGate(cfg, core, prog[0].batch, now);
            ProbeAnswered(core'.breaker, pushed + prog[1..])
  {
    assert !HasAnswer(prog) by {
      assert AllGates(prog);
    }
    GateExpansions(raw, prog, BreakerOpen);
    RefusalTakesNoProbe(cfg.breaker, core.breaker, now);
  }

  // ----- the invariant of the worker -----

  ghost predicate Keyed(raw: map<string, Payload>) {
    forall id :: id in raw ==> raw[id].eventId == id
  }

  /** `waiting` are the requests queued or taken but not yet part of the program. */
  ghost predicate WorkInv(core: Core, raw: map<string, Payload>, prog: seq<Op>, waiting: multiset<Payload>) {
    && Keyed(raw) && Known(raw, prog) && Shaped(raw, prog)
    && Recorded(core.store, waiting + Outstanding(raw, prog))
    && Balanced(core.tenants, waiting + Outstanding(raw, prog))
    && (forall p :: p in waiting ==> core.store.records[p.eventId].status == Pending)
    && (prog != [] && prog[0].Release? ==>
          prog[0].requestId in core.store.records && Terminal(core.store.records[prog[0].requestId].status))
    && ProbeAnswered(core.breaker, prog)
  }

  lemma {:induction false} Unfold(raw: map<string, Payload>, prog: seq<Op>)
    requires prog != [] && Known(raw, prog)
    ensures IdsOf(prog[0]) <= raw.Keys && Known(raw, prog[1..])
    ensures Outstanding(raw, prog) == HeadBag(raw, prog[0]) + Outstanding(raw, prog[1..])
  {
    assert prog[0] in prog;
  }

  /** The candidate of a write is still to be released. */
  lemma {:induction false} WriteIsOutstanding(raw: map<string, Payload>, prog: seq<Op>)
    requires prog != [] && Writes(prog[0]) && Known(raw, prog) && Shaped(raw, prog)
    ensures prog[0].candidate.requestId in raw
    ensures raw[prog[0].candidate.requestId] in Outstanding(raw, prog)
    ensures Outstanding(raw, prog) == Outstanding(raw, prog[1..])
  {
    Unfold(raw, prog);
    if !prog[0].Mark? {
      Unfold(raw, prog[1..]);
    }
  }

  /** A write for an outstanding request keeps the records, and leaves the waiting requests alone. */
  lemma WriteKeepsWaiting(store: Store, waiting: multiset<Payload>, out: multiset<Payload>, p: Payload, r: Record)
    requires Recorded(store, waiting + out) && p in out && r.requestId == p.eventId
    requires forall q :: q in waiting ==> store.records[q.eventId].status == Pending
    ensures Recorded(store.Put(r), waiting + out)
    ensures forall q :: q in waiting ==> store.Put(r).records[q.eventId].status == Pending
  {
    var live := waiting + out;
    assert p in live;
    WriteKeepsRecorded(store, live, r);
    assert p !in waiting by {
      assert live[p] == waiting[p] + out[p];
    }
    forall q | q in waiting ensures store.Put(r).records[q.eventId].status == Pending {
      assert q in live;
    }
  }

  lemma WriteAnswersProbe(cfg: Config, raw: map<string, Payload>, core: Core, prog: seq<Op>, t: Tick)
    requires prog != [] && Writes(prog[0]) && IdsOf(prog[0]) <= raw.Keys && ProbeAnswered(core.breaker, prog)
    ensures ProbeAnswered(Step(cfg, raw, core, prog[0], t).0.breaker, prog[1..])
  {
    if !prog[0].Answer? {
      AnswersAhead(prog);
    }
  }

  lemma WritePreserves(cfg: Config, raw: map<string, Payload>, core: Core, prog: seq<Op>, waiting: multiset<Payload>,
                       t: Tick)
    requires WorkInv(core, raw, prog, waiting) && prog != [] && Writes(prog[0])
    ensures IdsOf(prog[0]) <= raw.Keys
    ensures WorkInv(Step(cfg, raw, core, prog[0], t).0, raw, prog[1..], waiting)
  {
    Unfold(raw, prog);
    WriteIsOutstanding(raw, prog);
    var r := Written(raw, prog[0], t);
    var core' := Step(cfg, raw, core, prog[0], t).0;
    assert core'.store == core.store.Put(r) && core'.tenants == core.tenants;
    WriteKeepsWaiting(core.store, waiting, Outstanding(raw, prog), raw[prog[0].candidate.requestId], r);
    WriteAnswersProbe(cfg, raw, core, prog, t);
    assert prog[1..] != [] && prog[1..][0].Release? ==>
             prog[1..][0].requestId in core'.store.records
             && Terminal(core'.store.records[prog[1..][0].requestId].status);
  }

  lemma AnswersAhead(prog: seq<Op>)
    requires prog != [] && !prog[0].Answer?
    ensures HasAnswer(prog) <==> HasAnswer(prog[1..])
  {
    assert prog == [prog[0]] + prog[1..];
  }

  lemma ReleasePreserves(cfg: Config, raw: map<string, Payload>, core: Core, prog: seq<Op>, waiting: multiset<Payload>,
                         t: Tick)
    requires WorkInv(core, raw, prog, waiting) && prog != [] && prog[0].Release?
    ensures IdsOf(prog[0]) <= raw.Keys
    ensures WorkInv(Step(cfg, raw, core, prog[0], t).0, raw, prog[1..], waiting)
    ensures core.tenants.StateOf(raw[prog[0].requestId].TenantId()).activeCount >= 1
  {
    Unfold(raw, prog);
    var p := raw[prog[0].requestId];
    var live := waiting + Outstanding(raw, prog);
    assert p in live;
    assert live - multiset{p} == waiting + Outstanding(raw, prog[1..]);
    SettleKeepsRecorded(core.store, live, p);
    ReleaseKeepsBalance(core.tenants, live, p);
    AnswersAhead(prog);
  }

  /** Every step of the worker keeps its invariant. */
  lemma StepPreserves(cfg: Config, raw: map<string, Payload>, core: Core, prog: seq<Op>, waiting: multiset<Payload>,
                      t: Tick)
    requires WorkInv(core, raw, prog, waiting) && prog != []
    ensures IdsOf(prog[0]) <= raw.Keys
    ensures var (core', pushed) := Step(cfg, raw, core, prog[0], t);
            WorkInv(core', raw, pushed + prog[1..], waiting)
  {
    Unfold(raw, prog);
    if prog[0].Gate? {
      GateStep(cfg, raw, core, prog, t.now);
      GateProbe(cfg, raw, core, prog, t.now);
    } else {
      assert [] + prog[1..] == prog[1..];
      if prog[0].Release? {
        ReleasePreserves(cfg, raw, core, prog, waiting, t);
      } else {
        WritePreserves(cfg, raw, core, prog, waiting, t);
      }
    }
  }

  /** Run to its end, a program settles exactly the requests it had to release. */
  lemma {:induction false} ExecuteSettles(cfg: Config, raw: map<string, Payload>, core: Core, prog: seq<Op>,
                                          waiting: multiset<Payload>, world: nat -> Tick, n: nat)
    requires WorkInv(core, raw, prog, waiting)
    ensures WorkInv(Execute(cfg, raw, core, prog, world, n), raw, [], waiting)
    decreases Cost(prog)
  {
    if prog != [] {
      StepShrinks(cfg, raw, core, prog, world(n));
      StepPreserves(cfg, raw, core, prog, waiting, world(n));
      var (next, pushed) := Step(cfg, raw, core, prog[0], world(n));
      ExecuteSettles(cfg, raw, next, pushed + prog[1..], waiting, world, n + 1);
    }
  }

  // ----- starting on a batch of messages -----

  lemma {:induction false} RawFacts(ps: seq<Payload>)
    ensures Keyed(RawOf(ps))
    ensures forall p :: p in ps ==> p.eventId in RawOf(ps)
    ensures (forall p, q :: p in ps && q in ps && p.eventId == q.eventId ==> p == q) ==>
              forall p :: p in ps ==> RawOf(ps)[p.eventId] == p
  {
    if ps != [] {
      var init, last := ps[..|ps| - 1], ps[|ps| - 1];
      assert ps == init + [last];
      RawFacts(init);
      assert forall p :: p in init ==> p in ps;
    }
  }

  ghost predicate AllIn(raw: map<string, Payload>, cs: seq<Batching.Candidate>) {
    forall c :: c in cs ==> c.requestId in raw
  }

  lemma {:induction false} BagCons(raw: map<string, Payload>, c: Batching.Candidate, cs: seq<Batching.Candidate>)
    requires c.requestId in raw && AllIn(raw, cs)
    ensures AllIn(raw, [c] + cs) && BagOf(raw, [c] + cs) == multiset{raw[c.requestId]} + BagOf(raw, cs)
  {
    assert ([c] + cs)[1..] == cs;
  }

  lemma {:induction false} BagConcat(raw: map<string, Payload>, a: seq<Batching.Candidate>, b: seq<Batching.Candidate>)
    requires AllIn(raw, a) && AllIn(raw, b)
    ensures AllIn(raw, a + b) && BagOf(raw, a + b) == BagOf(raw, a) + BagOf(raw, b)
  {
    if a == [] {
      assert a + b == b;
    } else {
      BagConcat(raw, a[1..], b);
      BagCons(raw, a[0], a[1..] + b);
      Sorting.ShiftHead([], a);
      Sorting.ConcatAssociative([a[0]], a[1..], b);
      Sorting.SumAssociative(multiset{raw[a[0].requestId]}, BagOf(raw, a[1..]), BagOf(raw, b));
    }
  }

  lemma {:induction false} BagIgnoresOrder(raw: map<string, Payload>, a: seq<Batching.Candidate>,
                                           b: seq<Batching.Candidate>)
    requires multiset(a) == multiset(b) && AllIn(raw, a)
    ensures AllIn(raw, b) && BagOf(raw, a) == BagOf(raw, b)
  {
    Sorting.SameMembers(a, b);
    if a != [] {
      assert a[0] in b;
      var j :| 0 <= j < |b| && b[j] == a[0];
      var before, after := b[..j], b[j + 1..];
      Sorting.SplitAt(b, j);
      Sorting.DropMatching(a, b, j);
      BagIgnoresOrder(raw, a[1..], before + after);
      BagCons(raw, b[j], after);
      BagConcat(raw, before, [b[j]] + after);
      BagConcat(raw, before, after);
      Sorting.SumAssociative(BagOf(raw, before), multiset{raw[b[j].requestId]}, BagOf(raw, after));
    }
  }

  lemma {:induction false} CandidatesBag(cfg: Config, raw: map<string, Payload>, latency: Latency.Tracker,
                                         ps: seq<Payload>)
    requires cfg.router.Valid() && forall p :: p in ps ==> p.eventId in raw && raw[p.eventId] == p
    ensures AllIn(raw, CandidatesOf(cfg, latency, ps)) && BagOf(raw, CandidatesOf(cfg, latency, ps)) == multiset(ps)
  {
    if ps != [] {
      var init, last := ps[..|ps| - 1], ps[|ps| - 1];
      assert ps == init + [last];
      CandidatesBag(cfg, raw, latency, init);
      var c := CandidateOf(cfg, latency, last);
      BagConcat(raw, CandidatesOf(cfg, latency, init), [c]);
      BagCons(raw, c, []);
      assert [c] + [] == [c];
    }
  }

  lemma {:induction false} GatesShaped(raw: map<string, Payload>, bs: seq<Batching.Batch>)
    requires (forall b :: b in bs ==> b.candidates != []) && AllIn(raw, BatchingProofs.Flatten(bs))
    ensures Known(raw, Gates(bs)) && Shaped(raw, Gates(bs)) && AllGates(Gates(bs))
    ensures Outstanding(raw, Gates(bs)) == BagOf(raw, BatchingProofs.Flatten(bs))
  {
    if bs != [] {
      var b, more := bs[0], bs[1..];
      assert bs == [b] + more;
      BatchingProofs.FlattenConcat([b], more);
      BatchingProofs.FlattenOne(b);
      assert AllIn(raw, b.candidates) && AllIn(raw, BatchingProofs.Flatten(more));
      GatesShaped(raw, more);
      BagConcat(raw, b.candidates, BatchingProofs.Flatten(more));
      GateInFront(raw, b, Gates(more));
    }
  }

  lemma {:induction false} GateInFront(raw: map<string, Payload>, b: Batching.Batch, tail: seq<Op>)
    requires b.candidates != [] && AllIn(raw, b.candidates)
    requires Known(raw, tail) && Shaped(raw, tail) && AllGates(tail)
    ensures var prog := [Gate(b)] + tail;
            && Known(raw, prog) && Shaped(raw, prog) && AllGates(prog)
            && Outstanding(raw, prog) == BagOf(raw, b.candidates) + Outstanding(raw, tail)
  {
    var prog := [Gate(b)] + tail;
    assert prog[1..] == tail;
    assert Known(raw, [Gate(b)]);
    KnownConcat(raw, [Gate(b)], tail);
  }

  /** The program built for a batch of messages releases exactly those messages. */
  lemma {:induction false} ProgramCoversMessages(cfg: Config, latency: Latency.Tracker, ps: seq<Payload>)
    requires cfg.Valid() && forall p, q :: p in ps && q in ps && p.eventId == q.eventId ==> p == q
    ensures var raw, prog := RawOf(ps), ProgramFor(cfg, latency, ps);
            && Keyed(raw) && Known(raw, prog) && Shaped(raw, prog) && AllGates(prog)
            && Outstanding(raw, prog) == multiset(ps)
  {
    var raw, cs := RawOf(ps), CandidatesOf(cfg, latency, ps);
    RawFacts(ps);
    CandidatesBag(cfg, raw, latency, ps);
    var bs := Batching.Plan(cfg.batching, cs);
    BatchingProofs.BatchesPartitionInput(cfg.batching, cs);
    BatchingProofs.BatchesWellFormed(cfg.batching, cs);
    BagIgnoresOrder(raw, cs, BatchingProofs.Flatten(bs));
    forall b | b in bs ensures b.candidates != [] {
      assert BatchingProofs.WellFormed(cfg.batching, b);
    }
    GatesShaped(raw, bs);
  }

  // ----- the whole system -----

  ghost function QueueBag(s: System): multiset<Payload> {
    multiset(s.queue.high) + multiset(s.queue.normal) + multiset(s.queue.low)
  }

  function NonNegative(n: int): nat {
    if n < 0 then 0 else n
  }

  /** The limits: pending records under admission control, slots under each tenant's policy. */
  ghost predicate WithinLimits(cfg: Config, core: Core) {
    && core.store.Valid()
    && (cfg.admission.enabled ==> core.store.CountOf(Pending) <= NonNegative(cfg.admission.maxPendingRequests))
    && core.tenants.defaultPolicy == cfg.tenantDefault && core.tenants.policies == cfg.tenantPolicies
    && forall tenant :: core.tenants.StateOf(tenant).activeCount
                     <= NonNegative(core.tenants.PolicyOf(tenant).maxConcurrent)
  }

  ghost predicate Inv(cfg: Config, s: System) {
    var w := s.worker;
    && WorkInv(s.core, w.raw, w.prog, QueueBag(s) + multiset(w.taken))
    && w.probe < 6 && (w.prog != [] ==> w.taken == [])
    && WithinLimits(cfg, s.core)
  }

  lemma WriteKeepsLimits(cfg: Config, core: Core, core': Core, r: Record)
    requires WithinLimits(cfg, core) && r.status != Pending
    requires core'.store == core.store.Put(r) && core'.tenants == core.tenants
    ensures WithinLimits(cfg, core')
  {
    PutMovesOneRecord(core.store, r, Pending);
  }

  lemma StepKeepsLimits(cfg: Config, raw: map<string, Payload>, core: Core, op: Op, t: Tick)
    requires WithinLimits(cfg, core) && IdsOf(op) <= raw.Keys
    ensures WithinLimits(cfg, Step(cfg, raw, core, op, t).0)
  {
    var core' := Step(cfg, raw, core, op, t).0;
    if Writes(op) {
      WriteKeepsLimits(cfg, core, core', Written(raw, op, t));
    } else if op.Gate? {
      assert core'.store == core.store && core'.tenants == core.tenants;
    } else {
      var tenant := raw[op.requestId].TenantId();
      forall other ensures core'.tenants.StateOf(other).activeCount <= core.tenants.StateOf(other).activeCount {
        Tenant.EngineStepIsLocal(core.tenants, Tenant.EngineCall(tenant, Tenant.ReleaseCall), other);
      }
      assert forall other :: core'.tenants.PolicyOf(other) == core.tenants.PolicyOf(other);
    }
  }

  /** Starting on messages moves them from the waiting side to the program. */
  lemma {:induction false} StartPreserves(cfg: Config, core: Core, raw: map<string, Payload>, ps: seq<Payload>,
                                          waiting: multiset<Payload>)
    requires cfg.Valid() && WorkInv(core, raw, [], waiting + multiset(ps))
    ensures WorkInv(core, RawOf(ps), ProgramFor(cfg, core.latency, ps), waiting)
  {
    var live := waiting + multiset(ps);
    assert forall p :: p in ps <==> p in multiset(ps);
    assert forall p :: p in ps ==> p in live;
    assert live + Outstanding(raw, []) == live;
    ProgramCoversMessages(cfg, core.latency, ps);
    NoReleaseInGates(ProgramFor(cfg, core.latency, ps));
  }

  lemma BeginPreserves(cfg: Config, s: System, taken: seq<Payload>)
    requires cfg.Valid() && WithinLimits(cfg, s.core) && s.worker.prog == []
    requires WorkInv(s.core, s.worker.raw, [], QueueBag(s) + multiset(taken))
    ensures Inv(cfg, Begin(cfg, s, taken))
  {
    StartPreserves(cfg, s.core, s.worker.raw, taken, QueueBag(s));
    var s' := Begin(cfg, s, taken);
    assert QueueBag(s') + multiset(s'.worker.taken) == QueueBag(s);
  }

  /** Processing a batch of messages to its end settles exactly those messages. */
  lemma {:induction false} BatchSettlesItsMessages(cfg: Config, core: Core, raw: map<string, Payload>, ps: seq<Payload>,
                                                  waiting: multiset<Payload>, world: nat -> Tick)
    requires cfg.Valid() && WorkInv(core, raw, [], waiting + multiset(ps))
    ensures Known(RawOf(ps), ProgramFor(cfg, core.latency, ps))
    ensures WorkInv(Execute(cfg, RawOf(ps), core, ProgramFor(cfg, core.latency, ps), world, 0), RawOf(ps), [], waiting)
  {
    StartPreserves(cfg, core, raw, ps, waiting);
    ExecuteSettles(cfg, RawOf(ps), core, ProgramFor(cfg, core.latency, ps), waiting, world, 0);
  }

  lemma NoReleaseInGates(prog: seq<Op>)
    requires AllGates(prog)
    ensures NoReleaseFirst(prog)
  {
    assert prog != [] ==> prog[0] in prog;
  }

  lemma TakeHeadKeepsBag(s: System, lane: PriorityQueue.Lane)
    requires s.queue.Of(lane) != []
    ensures var items := s.queue.Of(lane);
            QueueBag(s.(queue := s.queue.With(lane, items[1..]))) + multiset{items[0]} == QueueBag(s)
  {
    var items := s.queue.Of(lane);
    assert items == [items[0]] + items[1..];
  }

  /** A worker step keeps the invariant: an operation, a probe, or the start of a batch. */
  lemma WorkPreserves(cfg: Config, s: System, t: Tick)
    requires cfg.Valid() && Inv(cfg, s)
    ensures Inv(cfg, Work(cfg, s, t))
  {
    var w := s.worker;
    if w.prog != [] {
      StepPreserves(cfg, w.raw, s.core, w.prog, QueueBag(s) + multiset(w.taken), t);
      StepKeepsLimits(cfg, w.raw, s.core, w.prog[0], t);
      assert QueueBag(Work(cfg, s, t)) == QueueBag(s);
    } else {
      ProbePreserves(cfg, s, t);
    }
  }

  lemma ProbePreserves(cfg: Config, s: System, t: Tick)
    requires cfg.Valid() && Inv(cfg, s) && s.worker.prog == []
    ensures Inv(cfg, Work(cfg, s, t))
  {
    var w, lane := s.worker, PriorityQueue.ProbeLane(s.worker.probe);
    var items := s.queue.Of(lane);
    if items != [] {
      TakeHeadKeepsBag(s, lane);
      var taken, popped := w.taken + [items[0]], s.(queue := s.queue.With(lane, items[1..]));
      assert multiset(taken) == multiset(w.taken) + multiset{items[0]};
      assert QueueBag(popped) + multiset(taken) == QueueBag(s) + multiset(w.taken);
      if |taken| >= cfg.batching.maxBatchSize {
        BeginPreserves(cfg, popped, taken);
      }
    } else if w.probe >= 5 && w.taken != [] {
      BeginPreserves(cfg, s, w.taken);
    } else {
      assert QueueBag(Work(cfg, s, t)) == QueueBag(s);
    }
  }

  /** A new request joins the waiting side: the store and the slots follow. */
  lemma AdmitPreserves(core: Core, raw: map<string, Payload>, prog: seq<Op>, waiting: multiset<Payload>,
                       p: Payload, now: real, priority: int)
    requires WorkInv(core, raw, prog, waiting) && p.eventId !in core.store.records
    ensures var (tenants, check) := core.tenants.CheckIn(p.TenantId(), now, priority);
            && (!check.Allowed? ==> WorkInv(core.(tenants := tenants), raw, prog, waiting))
            && (check.Allowed? ==>
                  WorkInv(core.(store := core.store.Put(PendingRecord(p)), tenants := tenants), raw, prog,
                          waiting + multiset{p}))
  {
    var out := Outstanding(raw, prog);
    AdmitKeepsBalance(core.tenants, waiting + out, p, now, priority);
    AdmitKeepsRecorded(core.store, waiting + out, p, PendingRecord(p));
    Sorting.SumAssociative(waiting, out, multiset{p});
    Sorting.SumAssociative(waiting, multiset{p}, out);
    assert (waiting + out) + multiset{p} == (waiting + multiset{p}) + out;
    forall q | q in waiting + multiset{p}
      ensures core.store.Put(PendingRecord(p)).records[q.eventId].status == Pending
    {
      assert q == p || (q in waiting && q in waiting + out);
    }
  }

  lemma PutKeepsBag(s: System, lane: PriorityQueue.Lane, p: Payload)
    ensures QueueBag(s.(queue := s.queue.Put(lane, p))) == QueueBag(s) + multiset{p}
  {
  }

  lemma AdmitKeepsLimits(cfg: Config, core: Core, p: Payload, now: real, priority: int)
    requires WithinLimits(cfg, core) && p.eventId !in core.store.records
    requires cfg.admission.enabled ==> core.store.CountOf(Pending) < cfg.admission.maxPendingRequests
    ensures var (tenants, check) := core.tenants.CheckIn(p.TenantId(), now, priority);
            && (!check.Allowed? ==> WithinLimits(cfg, core.(tenants := tenants)))
            && (check.Allowed? ==> WithinLimits(cfg, core.(store := core.store.Put(PendingRecord(p)),
                                                           tenants := tenants)))
  {
    PutMovesOneRecord(core.store, PendingRecord(p), Pending);
    var (tenants, check) := core.tenants.CheckIn(p.TenantId(), now, priority);
    forall tenant ensures tenants.StateOf(tenant).activeCount <= NonNegative(tenants.PolicyOf(tenant).maxConcurrent) {
      assert tenants.PolicyOf(tenant) == core.tenants.PolicyOf(tenant);
      Tenant.EngineStepIsLocal(core.tenants, Tenant.EngineCall(p.TenantId(), Tenant.CheckCall(now, priority)), tenant);
    }
  }

  /** A request that passed admission: turned away by its tenant's policy, or queued and recorded. */
  lemma JoinPreserves(cfg: Config, s: System, p: Payload, lane: PriorityQueue.Lane, now: real, priority: int)
    requires cfg.Valid() && Inv(cfg, s) && p.eventId !in s.core.store.records
    requires cfg.admission.enabled ==> s.core.store.CountOf(Pending) < cfg.admission.maxPendingRequests
    ensures var (tenants, check) := s.core.tenants.CheckIn(p.TenantId(), now, priority);
            && (!check.Allowed? ==> Inv(cfg, s.(core := s.core.(tenants := tenants))))
            && (check.Allowed? ==>
                  Inv(cfg, System(s.queue.Put(lane, p), s.core.(store := s.core.store.Put(PendingRecord(p)),
                                                                tenants := tenants),
                                  s.worker)))
  {
    AdmitPreserves(s.core, s.worker.raw, s.worker.prog, QueueBag(s) + multiset(s.worker.taken), p, now, priority);
    AdmitKeepsLimits(cfg, s.core, p, now, priority);
    PutKeepsWaiting(s, lane, p);
  }

  lemma PutKeepsWaiting(s: System, lane: PriorityQueue.Lane, p: Payload)
    ensures var taken := multiset(s.worker.taken);
            QueueBag(s.(queue := s.queue.Put(lane, p))) + taken == (QueueBag(s) + taken) + multiset{p}
  {
    PutKeepsBag(s, lane, p);
    var bag, taken := QueueBag(s), multiset(s.worker.taken);
    assert (bag + multiset{p}) + taken == (bag + taken) + multiset{p};
  }

  /** A submission with a fresh id keeps the invariant, admitted or not. */
  lemma SubmitPreserves(cfg: Config, s: System, id: string, now: real, req: GatewayRequest)
    requires cfg.Valid() && Inv(cfg, s) && id !in s.core.store.records
    ensures Inv(cfg, Submit(cfg, s, id, now, req).0)
  {
    if !Submit(cfg, s, id, now, req).1.RejectedByAdmission? {
      JoinPreserves(cfg, s, PayloadFor(cfg, id, now, req), PriorityQueue.PriorityToLane(req.priority), now,
                    req.priority);
    }
  }

  ghost function Run(cfg: Config, trace: seq<Event>): (s: System)
    requires cfg.Valid() && !Reconciliation.Heals(cfg.reconciliation)
    ensures Runs(cfg, s) && Inv(cfg, s)
  {
    if trace == [] then
      InitialInv(cfg);
      Initial(cfg)
    else
      var s := Run(cfg, trace[..|trace| - 1]);
      NextPreserves(cfg, s, trace[|trace| - 1]);
      Next(cfg, s, trace[|trace| - 1])
  }

  lemma InitialInv(cfg: Config)
    requires cfg.Valid()
    ensures Runs(cfg, Initial(cfg)) && Inv(cfg, Initial(cfg))
  {
    assert QueueBag(Initial(cfg)) + multiset(Initial(cfg).worker.taken) == multiset{};
  }

  lemma NextPreserves(cfg: Config, s: System, e: Event)
    requires Runs(cfg, s) && Inv(cfg, s) && !Reconciliation.Heals(cfg.reconciliation)
    ensures Runs(cfg, Next(cfg, s, e)) && Inv(cfg, Next(cfg, s, e))
  {
    match e
    case SubmitEvent(id, now, req) =>
      if id !in s.core.store.records {
        SubmitPreserves(cfg, s, id, now, req);
      }
    case WorkEvent(tick) => WorkPreserves(cfg, s, tick);
    case ReconcileEvent(now) =>
  }

  // ----- what it means -----

  /** The requests in the worker's hands: taken from the queue and not yet released. */
  ghost function HandBag(s: System): multiset<Payload>
    requires Known(s.worker.raw, s.worker.prog)
  {
    multiset(s.worker.taken) + Outstanding(s.worker.raw, s.worker.prog)
  }

  /** The ids of the submissions that were accepted. */
  ghost function AcceptedIds(cfg: Config, trace: seq<Event>): set<string>
    requires cfg.Valid() && !Reconciliation.Heals(cfg.reconciliation)
  {
    if trace == [] then {}
    else
      var init, e := trace[..|trace| - 1], trace[|trace| - 1];
      var s := Run(cfg, init);
      AcceptedIds(cfg, init)
        + if e.SubmitEvent? && e.id !in s.core.store.records && Submit(cfg, s, e.id, e.now, e.req).1 == Accepted
          then {e.id} else {}
  }

  lemma StepKeepsIds(cfg: Config, core: Core, raw: map<string, Payload>, prog: seq<Op>, waiting: multiset<Payload>,
                     t: Tick)
    requires WorkInv(core, raw, prog, waiting) && prog != []
    ensures prog[0] in prog && IdsOf(prog[0]) <= raw.Keys
    ensures Step(cfg, raw, core, prog[0], t).0.store.records.Keys == core.store.records.Keys
  {
    assert prog[0] in prog;
    StepStores(cfg, raw, core, prog[0], t);
    if Writes(prog[0]) {
      WriteIsOutstanding(raw, prog);
      OutstandingIsRecorded(core.store, raw, prog, waiting, prog[0].candidate.requestId);
    }
  }

  /** What a step does to the store. */
  lemma StepStores(cfg: Config, raw: map<string, Payload>, core: Core, op: Op, t: Tick)
    requires IdsOf(op) <= raw.Keys
    ensures !Writes(op) ==> Step(cfg, raw, core, op, t).0.store == core.store
    ensures Writes(op) ==> op.candidate.requestId in raw
    ensures Writes(op) ==> Step(cfg, raw, core, op, t).0.store == core.store.Put(Written(raw, op, t))
  {
  }

  lemma {:induction false} OutstandingIsRecorded(store: Store, raw: map<string, Payload>, prog: seq<Op>,
                                                 waiting: multiset<Payload>, id: string)
    requires Known(raw, prog) && Recorded(store, waiting + Outstanding(raw, prog))
    requires Keyed(raw) && id in raw && raw[id] in Outstanding(raw, prog)
    ensures id in store.records
  {
    assert raw[id] in waiting + Outstanding(raw, prog);
  }

  lemma WorkKeepsIds(cfg: Config, s: System, t: Tick)
    requires cfg.Valid() && Inv(cfg, s)
    ensures Work(cfg, s, t).core.store.records.Keys == s.core.store.records.Keys
  {
    if s.worker.prog != [] {
      StepKeepsIds(cfg, s.core, s.worker.raw, s.worker.prog, QueueBag(s) + multiset(s.worker.taken), t);
    }
  }

  lemma SubmitAddsItsId(cfg: Config, s: System, id: string, now: real, req: GatewayRequest)
    requires cfg.Valid() && s.core.store.Valid()
    ensures var (s', result) := Submit(cfg, s, id, now, req);
            s'.core.store.records.Keys == s.core.store.records.Keys + if result == Accepted then {id} else {}
  {
  }

  lemma NextKeepsIds(cfg: Config, s: System, e: Event)
    requires Runs(cfg, s) && Inv(cfg, s) && !Reconciliation.Heals(cfg.reconciliation) && !e.SubmitEvent?
    ensures Next(cfg, s, e).core.store.records.Keys == s.core.store.records.Keys
  {
    if e.WorkEvent? {
      WorkKeepsIds(cfg, s, e.tick);
    }
  }

  lemma {:induction false} RecordsAreAcceptedIds(cfg: Config, trace: seq<Event>)
    requires cfg.Valid() && !Reconciliation.Heals(cfg.reconciliation)
    ensures Run(cfg, trace).core.store.records.Keys == AcceptedIds(cfg, trace)
  {
    if trace != [] {
      var init, e := trace[..|trace| - 1], trace[|trace| - 1];
      var s := Run(cfg, init);
      RecordsAreAcceptedIds(cfg, init);
      assert Run(cfg, trace) == Next(cfg, s, e);
      if e.SubmitEvent? {
        SubmitAddsItsId(cfg, s, e.id, e.now, e.req);
      } else {
        NextKeepsIds(cfg, s, e);
      }
    }
  }

  /** No id is on both sides of the books. */
  lemma SidesDiffer(store: Store, a: multiset<Payload>, b: multiset<Payload>)
    requires Recorded(store, a + b)
    ensures forall p: Payload, q: Payload :: p in a && q in b ==> p.eventId != q.eventId
    ensures forall p :: p in b ==> p.eventId in store.records && !InFlight(a, p.eventId)
  {
    forall p: Payload, q: Payload | p in a && q in b ensures p.eventId != q.eventId {
      assert p in a + b && q in a + b;
      assert (a + b)[p] == a[p] + b[p];
    }
    forall p: Payload | p in b ensures p.eventId in store.records {
      assert p in a + b;
    }
  }

  /** Slots are only released while held: the clamp of `release` at zero never bites. */
  lemma {:induction false} ReleasesNeverClamp(cfg: Config, trace: seq<Event>)
    requires cfg.Valid() && !Reconciliation.Heals(cfg.reconciliation)
    ensures var s := Run(cfg, trace);
            s.worker.prog != [] && s.worker.prog[0].Release? ==>
              && s.worker.prog[0].requestId in s.worker.raw
              && s.core.tenants.StateOf(s.worker.raw[s.worker.prog[0].requestId].TenantId()).activeCount >= 1
              && Terminal(s.core.store.records[s.worker.prog[0].requestId].status)
  {
    var s := Run(cfg, trace);
    if s.worker.prog != [] && s.worker.prog[0].Release? {
      Unfold(s.worker.raw, s.worker.prog);
      ReleasePreserves(cfg, s.worker.raw, s.core, s.worker.prog, QueueBag(s) + multiset(s.worker.taken),
                       Tick(0.0, None, None, 0.0));
    }
  }

  /** Every probe the worker is granted is answered within its batch, so a breaker that has any
      probes to grant is never stuck half-open: a batch that reaches it is refused exactly while the
      recovery timeout runs. A breaker without probes never recovers. */
  lemma {:induction false} BreakerNeverSticks(cfg: Config, trace: seq<Event>, now: real)
    requires cfg.Valid() && !Reconciliation.Heals(cfg.reconciliation)
    ensures var s := Run(cfg, trace); var b := s.core.breaker;
            s.worker.prog == [] || s.worker.prog[0].Gate? ==>
              && (Breaker.Exhausted(cfg.breaker, b) <==>
                    b.phase == Breaker.HalfOpen && cfg.breaker.halfOpenMaxProbes < 1)
              && (Breaker.Allow(cfg.breaker, b, now).1 <==>
                    b.phase == Breaker.Closed
                    || (cfg.breaker.halfOpenMaxProbes >= 1
                        && !(b.phase == Breaker.Open && now - b.lastFailureTime < cfg.breaker.recoveryTimeout)))
  {
    var s := Run(cfg, trace);
    if s.worker.prog == [] || s.worker.prog[0].Gate? {
      assert !HasAnswer(s.worker.prog) by {
        assert AllGates(s.worker.prog);
      }
      FreeProbes(cfg.breaker, s.core.breaker, now);
    }
  }

  lemma FreeProbes(p: Breaker.Policy, b: Breaker.State, now: real)
    requires b.phase == Breaker.HalfOpen ==> b.halfOpenProbes == 0
    ensures Breaker.Exhausted(p, b) <==> b.phase == Breaker.HalfOpen && p.halfOpenMaxProbes < 1
    ensures Breaker.Allow(p, b, now).1 <==>
              b.phase == Breaker.Closed
              || (p.halfOpenMaxProbes >= 1
                  && !(b.phase == Breaker.Open && now - b.lastFailureTime < p.recoveryTimeout))
  {
  }

  /** The gateway never reports a queue depth, so the depth limit decides nothing: it rejects all
      submissions when it is not positive, and none otherwise. */
  lemma QueueDepthLimitIsInert(cfg: Config, s: System, id: string, now: real, req: GatewayRequest)
    requires cfg.Valid() && s.core.store.Valid()
    ensures Submit(cfg, s, id, now, req).1 == RejectedByAdmission(Admission.RejectQueueDepth)
       <==> cfg.admission.enabled && cfg.admission.maxQueueDepth <= 0
  {
  }

  // ----- the worker finishes what it has taken -----

  /** The run until the worker's program is finished. */
  ghost function UntilIdle(cfg: Config, s: System, es: seq<Event>): (r: System)
    requires Runs(cfg, s) && Inv(cfg, s) && !Reconciliation.Heals(cfg.reconciliation)
    ensures Runs(cfg, r) && Inv(cfg, r)
    decreases |es|
  {
    if s.worker.prog == [] || es == [] then s
    else
      NextPreserves(cfg, s, es[0]);
      UntilIdle(cfg, Next(cfg, s, es[0]), es[1..])
  }

  function WorkSteps(es: seq<Event>): nat {
    if es == [] then 0 else One(es[0].WorkEvent?) + WorkSteps(es[1..])
  }

  lemma NextCosts(cfg: Config, s: System, e: Event)
    requires Runs(cfg, s) && s.worker.prog != []
    ensures Cost(Next(cfg, s, e).worker.prog) + One(e.WorkEvent?) <= Cost(s.worker.prog)
  {
    if e.WorkEvent? {
      StepShrinks(cfg, s.worker.raw, s.core, s.worker.prog, e.tick);
    }
  }

  lemma {:induction false} ProgramEnds(cfg: Config, s: System, es: seq<Event>)
    requires Runs(cfg, s) && Inv(cfg, s) && !Reconciliation.Heals(cfg.reconciliation)
    requires WorkSteps(es) >= Cost(s.worker.prog)
    ensures UntilIdle(cfg, s, es).worker.prog == []
    decreases |es|
  {
    if s.worker.prog != [] {
      NextPreserves(cfg, s, es[0]);
      NextCosts(cfg, s, es[0]);
      ProgramEnds(cfg, Next(cfg, s, es[0]), es[1..]);
    }
  }

  /** A recorded request that is not waiting. */
  ghost predicate NotWaiting(s: System, id: string) {
    id in s.core.store.records && !InFlight(QueueBag(s) + multiset(s.worker.taken), id)
  }

  lemma SubmitKeepsOthersOut(cfg: Config, s: System, newId: string, now: real, req: GatewayRequest, id: string)
    requires Runs(cfg, s) && newId !in s.core.store.records && NotWaiting(s, id)
    ensures NotWaiting(Submit(cfg, s, newId, now, req).0, id)
  {
    var p, s' := PayloadFor(cfg, newId, now, req), Submit(cfg, s, newId, now, req).0;
    SubmitAddsItsId(cfg, s, newId, now, req);
    PutKeepsBag(s, PriorityQueue.PriorityToLane(req.priority), p);
    StillNotWaiting(s, s', p, id);
  }

  lemma StillNotWaiting(s: System, s': System, p: Payload, id: string)
    requires NotWaiting(s, id) && p.eventId != id && id in s'.core.store.records && s'.worker == s.worker
    requires QueueBag(s') == QueueBag(s) || QueueBag(s') == QueueBag(s) + multiset{p}
    ensures NotWaiting(s', id)
  {
    forall q | q in QueueBag(s') + multiset(s'.worker.taken) ensures q.eventId != id {
      assert q == p || q in QueueBag(s) + multiset(s.worker.taken);
    }
  }

  lemma NextKeepsOut(cfg: Config, s: System, e: Event, id: string)
    requires Runs(cfg, s) && Inv(cfg, s) && !Reconciliation.Heals(cfg.reconciliation)
    requires s.worker.prog != [] && NotWaiting(s, id)
    ensures NotWaiting(Next(cfg, s, e), id)
  {
    if e.SubmitEvent? {
      if e.id !in s.core.store.records {
        SubmitKeepsOthersOut(cfg, s, e.id, e.now, e.req, id);
      }
    } else {
      NextKeepsIds(cfg, s, e);
      assert QueueBag(Next(cfg, s, e)) == QueueBag(s);
    }
  }

  lemma {:induction false} NotWaitingAgain(cfg: Config, s: System, es: seq<Event>, id: string)
    requires Runs(cfg, s) && Inv(cfg, s) && !Reconciliation.Heals(cfg.reconciliation) && NotWaiting(s, id)
    ensures NotWaiting(UntilIdle(cfg, s, es), id)
    decreases |es|
  {
    if s.worker.prog != [] && es != [] {
      NextPreserves(cfg, s, es[0]);
      NextKeepsOut(cfg, s, es[0], id);
      NotWaitingAgain(cfg, Next(cfg, s, es[0]), es[1..], id);
    }
  }

  /** Whatever the gateway does meanwhile, after as many worker steps as the program can cost every
      request the program held is settled: terminal, released, and nowhere in flight. */
  lemma {:induction false} HeldRequestsSettle(cfg: Config, trace: seq<Event>, es: seq<Event>, p: Payload)
    requires cfg.Valid() && !Reconciliation.Heals(cfg.reconciliation)
    ensures var s := Run(cfg, trace); var r := UntilIdle(cfg, s, es);
            p in Outstanding(s.worker.raw, s.worker.prog) && WorkSteps(es) >= Cost(s.worker.prog) ==>
              && r.worker.prog == [] && p.eventId in r.core.store.records
              && Terminal(r.core.store.records[p.eventId].status)
              && !InFlight(QueueBag(r) + HandBag(r), p.eventId)
  {
    var s := Run(cfg, trace);
    if p in Outstanding(s.worker.raw, s.worker.prog) && WorkSteps(es) >= Cost(s.worker.prog) {
      ProgramEnds(cfg, s, es);
      SidesDiffer(s.core.store, QueueBag(s) + multiset(s.worker.taken), Outstanding(s.worker.raw, s.worker.prog));
      NotWaitingAgain(cfg, s, es, p.eventId);
      IdleMeansSettled(UntilIdle(cfg, s, es), p.eventId);
    }
  }

  lemma IdleMeansSettled(r: System, id: string)
    requires WorkInv(r.core, r.worker.raw, r.worker.prog, QueueBag(r) + multiset(r.worker.taken))
    requires r.worker.prog == [] && NotWaiting(r, id)
    ensures Terminal(r.core.store.records[id].status) && !InFlight(QueueBag(r) + HandBag(r), id)
  {
    var waiting := QueueBag(r) + multiset(r.worker.taken);
    assert QueueBag(r) + HandBag(r) == waiting && waiting + Outstanding(r.worker.raw, r.worker.prog) == waiting;
  }

  /** The configuration of the demo satisfies what the results above ask for. */
  lemma DemoConfigurationIsCovered()
    ensures DEMO.Valid() && !Reconciliation.Heals(DEMO.reconciliation)
  {
    assert DEMO.router.profiles[0] in DEMO.router.profiles;
  }
}
