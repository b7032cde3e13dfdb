/** When a COMPLETED record is overwritten: exactly if a write for its request still lies ahead in
    some worker's program. */
module FleetOverwrites {
  import opened Options
  import opened Results
  import opened Worker
  import opened Fleets
  import opened WorkerProofs
  import Batching
  import Breaker

  // ----- writes that lie ahead -----

  predicate HasId(cs: seq<Batching.Candidate>, id: string) {
    exists c :: c in cs && c.requestId == id
  }

  /** The operation comes to write a record for `id` that is not COMPLETED, all ticks being `t`. */
  predicate Overwrites(cfg: Config, op: Op, id: string, t: Tick) {
    match op
    case Gate(b) => Placed(cfg, b) && HasId(b.candidates, id)
    case Refuse(c, _) => c.requestId == id
    case Sweep(unchecked, live, _) => HasId(unchecked, id) || HasId(live, id)
    case Mark(c, _) => c.requestId == id
    case Answer(c, _) => c.requestId == id && !t.Success()
    case Delete(_) => false
  }

  predicate WriteAhead(cfg: Config, prog: seq<Op>, id: string, t: Tick) {
    exists op :: op in prog && Overwrites(cfg, op, id, t)
  }

  lemma AheadConcat(cfg: Config, a: seq<Op>, b: seq<Op>, id: string, t: Tick)
    ensures WriteAhead(cfg, a + b, id, t) <==> WriteAhead(cfg, a, id, t) || WriteAhead(cfg, b, id, t)
  {
    assert forall op :: op in a + b <==> op in a || op in b;
  }

  lemma {:induction false} HasIdCons(cs: seq<Batching.Candidate>, id: string)
    requires cs != []
    ensures HasId(cs, id) <==> cs[0].requestId == id || HasId(cs[1..], id)
  {
    assert cs == [cs[0]] + cs[1..];
  }

  lemma HasIdSnoc(cs: seq<Batching.Candidate>, c: Batching.Candidate, id: string)
    ensures HasId(cs + [c], id) <==> HasId(cs, id) || c.requestId == id
  {
    assert c in cs + [c];
  }

  lemma {:induction false} ExpansionsAhead(cfg: Config, cs: seq<Batching.Candidate>, model: string, id: string, t: Tick)
    ensures WriteAhead(cfg, RefuseAll(cs, model), id, t) <==> HasId(cs, id)
    ensures WriteAhead(cfg, MarkAll(cs, model), id, t) <==> HasId(cs, id)
    ensures WriteAhead(cfg, AnswerAll(cs, model), id, t) ==> HasId(cs, id)
  {
    if cs != [] {
      ExpansionsAhead(cfg, cs[1..], model, id, t);
      HasIdCons(cs, id);
      AheadConcat(cfg, [Refuse(cs[0], model)], RefuseAll(cs[1..], model), id, t);
      AheadConcat(cfg, [Mark(cs[0], model)], MarkAll(cs[1..], model), id, t);
      AheadConcat(cfg, [Answer(cs[0], model)], AnswerAll(cs[1..], model), id, t);
      OneAhead(cfg, Refuse(cs[0], model), id, t);
      OneAhead(cfg, Mark(cs[0], model), id, t);
      OneAhead(cfg, Answer(cs[0], model), id, t);
    }
  }

  lemma {:induction false} HasIdIsInBag(cs: seq<Batching.Candidate>, id: string)
    ensures HasId(cs, id) <==> id in IdBag(cs)
  {
    if cs != [] {
      HasIdCons(cs, id);
      HasIdIsInBag(cs[1..], id);
    }
  }

  lemma {:induction false} AnswersAhead(cfg: Config, live: seq<Batching.Candidate>, model: string, id: string, t: Tick)
    ensures WriteAhead(cfg, MarkAll(live, model) + AnswerAll(AnswerOrder(live), model), id, t) <==> HasId(live, id)
  {
    var order := AnswerOrder(live);
    ExpansionsAhead(cfg, live, model, id, t);
    ExpansionsAhead(cfg, order, model, id, t);
    AheadConcat(cfg, MarkAll(live, model), AnswerAll(order, model), id, t);
    AnswerOrderIds(live);
    HasIdIsInBag(live, id);
    HasIdIsInBag(order, id);
  }

  lemma OneAhead(cfg: Config, op: Op, id: string, t: Tick)
    ensures WriteAhead(cfg, [op], id, t) <==> Overwrites(cfg, op, id, t)
  {
    assert op in [op];
  }

  /** An operation that is to overwrite does so now or passes the write on to what it expands to. */
  lemma {:induction false} ExpandAhead(cfg: Config, breaker: Breaker.State, op: Op, id: string, t: Tick)
    ensures var now := Writes(cfg, op, t) && Written(cfg, op, t).requestId == id
                       && Written(cfg, op, t).status != Completed;
            && (Overwrites(cfg, op, id, t) ==> now || WriteAhead(cfg, Expand(cfg, breaker, op, t), id, t))
            && (!Overwrites(cfg, op, id, t) ==> !now && !WriteAhead(cfg, Expand(cfg, breaker, op, t), id, t))
  {
    match op {
      case Gate(b) =>
        ExpansionsAhead(cfg, b.candidates, b.modelName, id, t);
        OneAhead(cfg, Sweep(b.candidates, [], b.modelName), id, t);
      case Sweep(unchecked, live, model) =>
        if unchecked == [] {
          ExpansionsAhead(cfg, live, model, id, t);
          AnswersAhead(cfg, live, model, id, t);
        } else {
          SweepAhead(cfg, unchecked, live, model, id, t);
        }
      case Answer(c, _) => OneAhead(cfg, Delete(c.requestId), id, t);
      case _ =>
    }
  }

  lemma SweepAhead(cfg: Config, unchecked: seq<Batching.Candidate>, live: seq<Batching.Candidate>, model: string,
                   id: string, t: Tick)
    requires unchecked != []
    ensures var c, rest := unchecked[0], unchecked[1..];
            && (WriteAhead(cfg, [Sweep(rest, live + [c], model)], id, t) <==>
                  Overwrites(cfg, Sweep(unchecked, live, model), id, t))
            && (Overwrites(cfg, Sweep(unchecked, live, model), id, t) <==>
                  c.requestId == id || WriteAhead(cfg, [Delete(c.requestId), Sweep(rest, live, model)], id, t))
  {
    var c, rest := unchecked[0], unchecked[1..];
    HasIdCons(unchecked, id);
    HasIdSnoc(live, c, id);
    OneAhead(cfg, Sweep(rest, live + [c], model), id, t);
    OneAhead(cfg, Delete(c.requestId), id, t);
    OneAhead(cfg, Sweep(rest, live, model), id, t);
    AheadConcat(cfg, [Delete(c.requestId)], [Sweep(rest, live, model)], id, t);
    assert [Delete(c.requestId)] + [Sweep(rest, live, model)] == [Delete(c.requestId), Sweep(rest, live, model)];
  }

  // ----- a worker on its own -----

  /** `k` operations of the worker, all meeting the same tick. */
  function Steps(cfg: Config, s: System, t: Tick, k: nat): System
    requires cfg.Valid()
    decreases k
  {
    if k == 0 then s else Steps(cfg, Next(cfg, s, Work(t)), t, k - 1)
  }

  /** Before the worker is done with its program, the record of `id` stops being COMPLETED. */
  ghost predicate Overwritten(cfg: Config, s: System, t: Tick, id: string)
    requires cfg.Valid()
  {
    exists n: nat ::
      n <= Cost(s.prog) && id in Steps(cfg, s, t, n).core.store.records && !HasCompleted(Steps(cfg, s, t, n), id)
  }

  lemma OverwrittenNow(cfg: Config, s: System, t: Tick, id: string)
    requires cfg.Valid() && id in s.core.store.records && !HasCompleted(s, id)
    ensures Overwritten(cfg, s, t, id)
  {
    assert Steps(cfg, s, t, 0) == s;
  }

  lemma OverwrittenLater(cfg: Config, s: System, t: Tick, id: string)
    requires cfg.Valid() && s.prog != [] && Overwritten(cfg, Next(cfg, s, Work(t)), t, id)
    ensures Overwritten(cfg, s, t, id)
  {
    var s1 := Next(cfg, s, Work(t));
    StepShrinks(cfg, s.core.breaker, s.prog, t);
    var n: nat :|
      n <= Cost(s1.prog) && id in Steps(cfg, s1, t, n).core.store.records && !HasCompleted(Steps(cfg, s1, t, n), id);
    assert Steps(cfg, s, t, n + 1) == Steps(cfg, s1, t, n);
  }

  /** One operation, with a write ahead or without. */
  lemma StepAhead(cfg: Config, s: System, t: Tick, id: string)
    requires cfg.Valid() && s.prog != [] && id in s.core.store.records
    ensures var s' := Next(cfg, s, Work(t));
            && id in s'.core.store.records
            && (WriteAhead(cfg, s.prog, id, t) ==> !HasCompleted(s', id) || WriteAhead(cfg, s'.prog, id, t))
            && (!WriteAhead(cfg, s.prog, id, t) ==>
                  !WriteAhead(cfg, s'.prog, id, t) && (HasCompleted(s, id) ==> HasCompleted(s', id)))
  {
    var op := s.prog[0];
    assert s.prog == [op] + s.prog[1..];
    AheadConcat(cfg, [op], s.prog[1..], id, t);
    OneAhead(cfg, op, id, t);
    AfterWork(cfg, s, t);
    ExpandAhead(cfg, s.core.breaker, op, id, t);
    AheadConcat(cfg, Expand(cfg, s.core.breaker, op, t), s.prog[1..], id, t);
    if Writes(cfg, op, t) {
      WriteEffect(cfg, s.receipts, s.core, op, t);
    }
  }

  lemma {:induction false} AheadOverwrites(cfg: Config, s: System, t: Tick, id: string)
    requires cfg.Valid() && id in s.core.store.records && WriteAhead(cfg, s.prog, id, t)
    ensures Overwritten(cfg, s, t, id)
    decreases Cost(s.prog)
  {
    var s' := Next(cfg, s, Work(t));
    StepAhead(cfg, s, t, id);
    StepShrinks(cfg, s.core.breaker, s.prog, t);
    if HasCompleted(s', id) {
      AheadOverwrites(cfg, s', t, id);
    } else {
      OverwrittenNow(cfg, s', t, id);
    }
    OverwrittenLater(cfg, s, t, id);
  }

  lemma {:induction false} NothingAheadKeeps(cfg: Config, s: System, t: Tick, id: string, k: nat)
    requires cfg.Valid() && HasCompleted(s, id) && !WriteAhead(cfg, s.prog, id, t)
    ensures HasCompleted(Steps(cfg, s, t, k), id)
    decreases k
  {
    if k > 0 {
      if s.prog != [] {
        StepAhead(cfg, s, t, id);
      }
      NothingAheadKeeps(cfg, Next(cfg, s, Work(t)), t, id, k - 1);
    }
  }

  /** At any point of a program, for any tick: a worker's own operations overwrite a COMPLETED record
      exactly if a write for its request lies ahead. */
  lemma OverwrittenExactly(cfg: Config, s: System, t: Tick, id: string)
    requires cfg.Valid() && HasCompleted(s, id)
    ensures Overwritten(cfg, s, t, id) <==> WriteAhead(cfg, s.prog, id, t)
  {
    if WriteAhead(cfg, s.prog, id, t) {
      AheadOverwrites(cfg, s, t, id);
    } else {
      forall n: nat ensures HasCompleted(Steps(cfg, s, t, n), id) {
        NothingAheadKeeps(cfg, s, t, id, n);
      }
    }
  }

  // ----- the fleet -----

  /** The adapter fails. */
  const FAILING := Tick(0.0, None, None, 0.0)

  /** `k` operations of worker `w`, all meeting the same tick. */
  function Acts(w: nat, t: Tick, k: nat): seq<FleetEvent> {
    if k == 0 then [] else [Act(w, Work(t))] + Acts(w, t, k - 1)
  }

  lemma {:induction false} ActsFirst(cfg: Config, f: Fleet, w: nat, t: Tick, k: nat)
    requires cfg.Valid() && k > 0
    ensures Run(cfg, f, Acts(w, t, k)) == Run(cfg, Advance(cfg, f, Act(w, Work(t))), Acts(w, t, k - 1))
  {
    var e := Act(w, Work(t));
    RunOne(cfg, f, e);
    RunConcat(cfg, f, [e], Acts(w, t, k - 1));
  }

  /** A worker alone at work, as a run of the fleet. */
  lemma {:induction false} ActsAreSteps(cfg: Config, f: Fleet, w: nat, t: Tick, k: nat)
    requires cfg.Valid() && f.Has(w)
    ensures Run(cfg, f, Acts(w, t, k)).Has(w)
    ensures Run(cfg, f, Acts(w, t, k)).SystemOf(w) == Steps(cfg, f.SystemOf(w), t, k)
    decreases k
  {
    if k == 0 {
      NoActs(cfg, f, w, t);
    } else {
      ActIsStep(cfg, f, w, Work(t));
      ActsAreSteps(cfg, Advance(cfg, f, Act(w, Work(t))), w, t, k - 1);
      OneMoreAct(cfg, f, w, t, k);
    }
  }

  lemma {:induction false} NoActs(cfg: Config, f: Fleet, w: nat, t: Tick)
    requires cfg.Valid() && f.Has(w)
    ensures Run(cfg, f, Acts(w, t, 0)) == f && Steps(cfg, f.SystemOf(w), t, 0) == f.SystemOf(w)
  {
  }

  lemma {:induction false} OneMoreAct(cfg: Config, f: Fleet, w: nat, t: Tick, k: nat)
    requires cfg.Valid() && f.Has(w) && k > 0
    requires var f' := Advance(cfg, f, Act(w, Work(t))); var end := Run(cfg, f', Acts(w, t, k - 1));
             f'.Has(w) && end.Has(w) && end.SystemOf(w) == Steps(cfg, f'.SystemOf(w), t, k - 1)
    ensures Run(cfg, f, Acts(w, t, k)).Has(w)
    ensures Run(cfg, f, Acts(w, t, k)).SystemOf(w) == Steps(cfg, f.SystemOf(w), t, k)
  {
    ActsFirst(cfg, f, w, t, k);
    ActIsStep(cfg, f, w, Work(t));
  }

  lemma ActIsStep(cfg: Config, f: Fleet, w: nat, e: Event)
    requires cfg.Valid() && f.Has(w)
    ensures Advance(cfg, f, Act(w, e)).Has(w) && Advance(cfg, f, Act(w, e)).SystemOf(w) == Next(cfg, f.SystemOf(w), e)
  {
    AbsorbViews(f, w, Next(cfg, f.SystemOf(w), e), w);
  }

  predicate NoDelivery(es: seq<FleetEvent>) {
    forall e :: e in es && e.Act? ==> !e.event.Receive?
  }

  /** Nobody has a write for the request ahead. */
  ghost predicate Quiet(cfg: Config, f: Fleet, id: string) {
    forall v: nat :: f.Has(v) ==> !WriteAhead(cfg, f.SystemOf(v).prog, id, FAILING)
  }

  lemma FailingIsWorst(cfg: Config, prog: seq<Op>, id: string, t: Tick)
    ensures WriteAhead(cfg, prog, id, t) ==> WriteAhead(cfg, prog, id, FAILING)
  {
    if WriteAhead(cfg, prog, id, t) {
      var op :| op in prog && Overwrites(cfg, op, id, t);
      assert Overwrites(cfg, op, id, FAILING);
    }
  }

  /** The tick that an operation meets is no threat to those behind it. */
  lemma {:induction false} QuietStep(cfg: Config, s: System, t: Tick, id: string)
    requires cfg.Valid() && HasCompleted(s, id) && !WriteAhead(cfg, s.prog, id, FAILING)
    ensures var s' := Next(cfg, s, Work(t)); HasCompleted(s', id) && !WriteAhead(cfg, s'.prog, id, FAILING)
  {
    FailingIsWorst(cfg, s.prog, id, t);
    if s.prog != [] {
      StepAhead(cfg, s, t, id);
      QuietExpand(cfg, s.core.breaker, s.prog, t, id);
    }
  }

  lemma {:induction false} QuietExpand(cfg: Config, breaker: Breaker.State, prog: seq<Op>, t: Tick, id: string)
    requires prog != [] && !WriteAhead(cfg, prog, id, FAILING)
    ensures !WriteAhead(cfg, Expand(cfg, breaker, prog[0], t) + prog[1..], id, FAILING)
  {
    var op, pushed := prog[0], Expand(cfg, breaker, prog[0], t);
    assert prog == [op] + prog[1..];
    AheadConcat(cfg, [op], prog[1..], id, FAILING);
    OneAhead(cfg, op, id, FAILING);
    AheadConcat(cfg, pushed, prog[1..], id, FAILING);
    ExpandsQuietly(cfg, breaker, op, t, id);
  }

  /** What an operation expands to does not overwrite, unless the operation itself was to. */
  lemma {:induction false} ExpandsQuietly(cfg: Config, breaker: Breaker.State, op: Op, t: Tick, id: string)
    requires !Overwrites(cfg, op, id, FAILING)
    ensures !WriteAhead(cfg, Expand(cfg, breaker, op, t), id, FAILING)
  {
    match op {
      case Gate(b) =>
        ExpansionsAhead(cfg, b.candidates, b.modelName, id, FAILING);
        OneAhead(cfg, Sweep(b.candidates, [], b.modelName), id, FAILING);
      case Sweep(unchecked, live, model) =>
        if unchecked == [] {
          AnswersAhead(cfg, live, model, id, FAILING);
        } else {
          SweepAhead(cfg, unchecked, live, model, id, FAILING);
        }
      case Answer(c, _) => OneAhead(cfg, Delete(c.requestId), id, FAILING);
      case _ =>
    }
  }

  lemma QuietEvent(cfg: Config, f: Fleet, id: string, e: FleetEvent)
    requires cfg.Valid() && CompletedIn(f.store, id) && Quiet(cfg, f, id) && NoDelivery([e])
    ensures CompletedIn(Advance(cfg, f, e).store, id) && Quiet(cfg, Advance(cfg, f, e), id)
  {
    assert e in [e];
    if f.Has(e.worker) {
      var f' := Advance(cfg, f, e);
      match e
      case Act(w, event) =>
        if event.Work? {
          QuietStep(cfg, f.SystemOf(w), event.tick, id);
        }
        forall v: nat | f'.Has(v) ensures !WriteAhead(cfg, f'.SystemOf(v).prog, id, FAILING) {
          AbsorbViews(f, w, Next(cfg, f.SystemOf(w), event), v);
        }
      case Restart(w) =>
        forall v: nat | f'.Has(v) ensures !WriteAhead(cfg, f'.SystemOf(v).prog, id, FAILING) {
          assert f.Has(v);
        }
    }
  }

  lemma {:induction false} QuietRun(cfg: Config, f: Fleet, id: string, es: seq<FleetEvent>)
    requires cfg.Valid() && CompletedIn(f.store, id) && Quiet(cfg, f, id) && NoDelivery(es)
    ensures CompletedIn(Run(cfg, f, es).store, id) && Quiet(cfg, Run(cfg, f, es), id)
  {
    if es != [] {
      var init, e := es[..|es| - 1], es[|es| - 1];
      assert forall x :: x in init || x in [e] ==> x in es;
      QuietRun(cfg, f, id, init);
      QuietEvent(cfg, Run(cfg, f, init), id, e);
    }
  }

  /** In any state of any fleet: a COMPLETED record stands, whatever happens short of another delivery,
      exactly if no worker has a write for its request ahead. */
  lemma {:induction false} CompletionStandsExactly(cfg: Config, f: Fleet, id: string)
    requires cfg.Valid() && CompletedIn(f.store, id)
    ensures (forall es :: NoDelivery(es) ==> CompletedIn(Run(cfg, f, es).store, id)) <==> Quiet(cfg, f, id)
  {
    if Quiet(cfg, f, id) {
      forall es | NoDelivery(es) ensures CompletedIn(Run(cfg, f, es).store, id) {
        QuietRun(cfg, f, id, es);
      }
    } else {
      var v: nat :| f.Has(v) && WriteAhead(cfg, f.SystemOf(v).prog, id, FAILING);
      var s := f.SystemOf(v);
      AheadOverwrites(cfg, s, FAILING, id);
      var n: nat :| n <= Cost(s.prog) && !HasCompleted(Steps(cfg, s, FAILING, n), id);
      ActsAreSteps(cfg, f, v, FAILING, n);
      ActsDeliverNothing(v, FAILING, n);
      assert !CompletedIn(Run(cfg, f, Acts(v, FAILING, n)).store, id);
    }
  }

  lemma {:induction false} ActsDeliverNothing(w: nat, t: Tick, k: nat)
    ensures NoDelivery(Acts(w, t, k))
    ensures forall e :: e in Acts(w, t, k) ==> e.worker == w
  {
    if k > 0 {
      ActsDeliverNothing(w, t, k - 1);
    }
  }

  // ----- completions that lie ahead -----

  /** The operation comes to complete `id`, all ticks being `t`. */
  predicate Completes(cfg: Config, op: Op, id: string, t: Tick, closed: bool) {
    match op
    case Gate(b) => closed && Placed(cfg, b) && HasLive(cfg, b.candidates, id, t)
    case Sweep(unchecked, live, _) => HasLive(cfg, unchecked, id, t) || HasId(live, id)
    case Answer(c, _) => c.requestId == id
    case _ => false
  }

  predicate HasLive(cfg: Config, cs: seq<Batching.Candidate>, id: string, t: Tick) {
    exists c :: c in cs && c.requestId == id && !IsExpired(cfg, c, t.now)
  }

  /** The worker is on its way to complete `id`: past the gate, or before it with the circuit closed. */
  predicate CompletionAhead(cfg: Config, s: System, id: string, t: Tick) {
    t.Success() && exists op :: op in s.prog && Completes(cfg, op, id, t, s.core.breaker.phase == Breaker.Closed)
  }

  /** Done, or nothing ahead that completes `id`: what one operation passes on. */
  lemma {:induction false} ExpandCompletes(cfg: Config, breaker: Breaker.State, op: Op, id: string, t: Tick)
    requires t.Success() && Completes(cfg, op, id, t, breaker.phase == Breaker.Closed) && !op.Answer?
    ensures exists next ::
              next in Expand(cfg, breaker, op, t) && Completes(cfg, next, id, t, breaker.phase == Breaker.Closed)
  {
    match op {
      case Gate(b) =>
        var next := Sweep(b.candidates, [], b.modelName);
        assert next in Expand(cfg, breaker, op, t) && Completes(cfg, next, id, t, true);
      case Sweep(unchecked, live, model) =>
        if unchecked == [] {
          AnswerOrderIds(live);
          HasIdIsInBag(live, id);
          HasIdIsInBag(AnswerOrder(live), id);
          AnswersComplete(AnswerOrder(live), model, id);
          var next :| next in AnswerAll(AnswerOrder(live), model) && next.Answer? && next.candidate.requestId == id;
          assert next in Expand(cfg, breaker, op, t);
          assert Completes(cfg, next, id, t, breaker.phase == Breaker.Closed);
        } else {
          SweepCompletes(cfg, breaker, op, id, t);
        }
    }
  }

  lemma {:induction false} AnswersComplete(live: seq<Batching.Candidate>, model: string, id: string)
    requires HasId(live, id)
    ensures exists op :: op in AnswerAll(live, model) && op.Answer? && op.candidate.requestId == id
  {
    HasIdCons(live, id);
    if live[0].requestId == id {
      assert AnswerAll(live, model)[0] == Answer(live[0], model);
    } else {
      AnswersComplete(live[1..], model, id);
      var op :| op in AnswerAll(live[1..], model) && op.Answer? && op.candidate.requestId == id;
      assert op in AnswerAll(live, model);
    }
  }

  lemma {:induction false} SweepCompletes(cfg: Config, breaker: Breaker.State, op: Op, id: string, t: Tick)
    requires op.Sweep? && op.unchecked != []
    requires HasLive(cfg, op.unchecked, id, t) || HasId(op.live, id)
    ensures exists next :: next in Expand(cfg, breaker, op, t) && next.Sweep?
                           && (HasLive(cfg, next.unchecked, id, t) || HasId(next.live, id))
  {
    var Sweep(unchecked, live, model) := op;
    var c, rest := unchecked[0], unchecked[1..];
    assert unchecked == [c] + rest;
    HasIdSnoc(live, c, id);
    var next := Sweep(rest, if IsExpired(cfg, c, t.now) then live else live + [c], model);
    assert next in Expand(cfg, breaker, op, t);
  }

  /** A closed circuit stays closed while the adapter succeeds. */
  lemma StaysClosed(cfg: Config, s: System, t: Tick)
    requires cfg.Valid() && t.Success() && s.core.breaker.phase == Breaker.Closed
    ensures Next(cfg, s, Work(t)).core.breaker.phase == Breaker.Closed
  {
  }

  lemma {:induction false} StepCompletes(cfg: Config, s: System, t: Tick, id: string)
    requires cfg.Valid() && CompletionAhead(cfg, s, id, t)
    ensures s.prog != []
    ensures var s' := Next(cfg, s, Work(t));
            || CompletionAhead(cfg, s', id, t)
            || (HasCompleted(s', id) && s'.prog != [] && s'.prog[0] == Delete(id))
  {
    var closed := s.core.breaker.phase == Breaker.Closed;
    var op :| op in s.prog && Completes(cfg, op, id, t, closed);
    var s' := Next(cfg, s, Work(t));
    AfterWork(cfg, s, t);
    if closed {
      StaysClosed(cfg, s, t);
    }
    var closed' := s'.core.breaker.phase == Breaker.Closed;
    if op in s.prog[1..] {
      assert op in s'.prog && Completes(cfg, op, id, t, closed');
    } else {
      assert op == s.prog[0];
      if !op.Answer? {
        ExpandCompletes(cfg, s.core.breaker, op, id, t);
        var next :| next in Expand(cfg, s.core.breaker, op, t) && Completes(cfg, next, id, t, closed);
        assert next in s'.prog && Completes(cfg, next, id, t, closed');
      }
    }
  }

  /** What is ahead comes about: the worker's own operations complete `id` and delete its message. */
  lemma {:induction false} AheadCompletes(cfg: Config, s: System, t: Tick, id: string)
    requires cfg.Valid() && CompletionAhead(cfg, s, id, t) && id in s.receipts
    ensures exists n: nat :: HasCompleted(Steps(cfg, s, t, n), id) && s.receipts[id] in Steps(cfg, s, t, n).core.deleted
    decreases Cost(s.prog)
  {
    var s' := Next(cfg, s, Work(t));
    StepCompletes(cfg, s, t, id);
    AfterWork(cfg, s, t);
    StepShrinks(cfg, s.core.breaker, s.prog, t);
    if CompletionAhead(cfg, s', id, t) {
      AheadCompletes(cfg, s', t, id);
      var n: nat :| HasCompleted(Steps(cfg, s', t, n), id) && s.receipts[id] in Steps(cfg, s', t, n).core.deleted;
      assert Steps(cfg, s, t, n + 1) == Steps(cfg, s', t, n);
    } else {
      AfterWork(cfg, s', t);
      var s2 := Next(cfg, s', Work(t));
      assert Steps(cfg, s2, t, 0) == s2 && Steps(cfg, s', t, 1) == s2 && Steps(cfg, s, t, 2) == s2;
    }
  }
}
