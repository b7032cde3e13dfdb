/** When the circuit breaker of a queue worker recovers, and when it cannot. A probe that a half-open
    breaker grants must be answered; two things drop it: a batch that turns out to be expired
    altogether, and a crash. */
module FleetProbes {
  import opened Worker
  import opened Fleets
  import opened WorkerProofs
  import opened Executions
  import Batching
  import Breaker
  import Latency
  import Sorting

  // ----- the breaker can get stuck -----

  /** Nothing in the program has passed the gate. */
  predicate Gated(prog: seq<Op>) {
    forall op :: op in prog ==> op.Gate? || op.Refuse?
  }

  /** The breaker is half-open with no probe left, and no batch is under way. */
  predicate Stuck(cfg: Config, s: System) {
    Breaker.Exhausted(cfg.breaker, s.core.breaker) && Gated(s.prog)
  }

  lemma {:induction false} RefusalsAreGated(cs: seq<Batching.Candidate>, model: string)
    ensures Gated(RefuseAll(cs, model))
  {
    if cs != [] {
      RefusalsAreGated(cs[1..], model);
    }
  }

  lemma {:induction false} GatesAreGated(bs: seq<Batching.Batch>)
    ensures Gated(Gates(bs))
  {
    if bs != [] {
      GatesAreGated(bs[1..]);
    }
  }

  lemma StuckStays(cfg: Config, s: System, e: Event)
    requires cfg.Valid() && Stuck(cfg, s)
    ensures var s' := Next(cfg, s, e);
            Stuck(cfg, s') && s'.core.breaker == s.core.breaker && s'.core.completions == s.core.completions
            && s'.core.deleted == s.core.deleted
  {
    assert s.core.completions + [] == s.core.completions;
    match e
    case Receive(ms) => GatesAreGated(Batching.Plan(cfg.batching, CandidatesOf(cfg, s.core.latency, ms)));
    case Work(t) =>
      if s.prog != [] {
        assert s.prog[0] in s.prog;
        AfterWork(cfg, s, t);
        if s.prog[0].Gate? {
          RefusalsAreGated(s.prog[0].batch.candidates, s.prog[0].batch.modelName);
        }
      }
    case _ =>
  }

  // ----- one batch -----

  /** Every candidate has expired when its turn of the TTL check comes; each takes two steps. */
  predicate AllExpired(cfg: Config, cs: seq<Batching.Candidate>, world: nat -> Tick, n: nat) {
    cs == [] || (IsExpired(cfg, cs[0], world(n).now) && AllExpired(cfg, cs[1..], world, n + 2))
  }

  lemma StepHasNoGate(cfg: Config, breaker: Breaker.State, prog: seq<Op>, t: Tick)
    requires prog != [] && NoGate(prog)
    ensures NoGate(Expand(cfg, breaker, prog[0], t) + prog[1..])
  {
    assert prog[0] in prog;
    match prog[0]
    case Sweep(_, live, model) =>
      ExpansionsHaveNoGate(live, model);
      ExpansionsHaveNoGate(AnswerOrder(live), model);
    case _ =>
  }

  /** Only a gate asks the breaker, so without one it does not turn half-open. */
  lemma {:induction false} NeverHalfOpens(cfg: Config, receipts: map<string, string>, core: Core, prog: seq<Op>,
                                          world: nat -> Tick, n: nat)
    requires NoGate(prog) && core.breaker.phase != Breaker.HalfOpen
    ensures Execute(cfg, receipts, core, prog, world, n).breaker.phase != Breaker.HalfOpen
    decreases Cost(prog)
  {
    if prog != [] {
      assert prog[0] in prog;
      StepShrinks(cfg, core.breaker, prog, world(n));
      StepHasNoGate(cfg, core.breaker, prog, world(n));
      NeverHalfOpens(cfg, receipts, Effect(cfg, receipts, core, prog[0], world(n)),
                     Expand(cfg, core.breaker, prog[0], world(n)) + prog[1..], world, n + 1);
    }
  }

  /** The first answer ends a half-open episode, for good. */
  lemma {:induction false} AnswersEnd(cfg: Config, receipts: map<string, string>, core: Core,
                                      cs: seq<Batching.Candidate>, model: string, world: nat -> Tick, n: nat)
    requires cs != []
    ensures Execute(cfg, receipts, core, AnswerAll(cs, model), world, n).breaker.phase != Breaker.HalfOpen
  {
    var prog := AnswerAll(cs, model);
    ExpansionsHaveNoGate(cs, model);
    StepHasNoGate(cfg, core.breaker, prog, world(n));
    NeverHalfOpens(cfg, receipts, Effect(cfg, receipts, core, prog[0], world(n)),
                   Expand(cfg, core.breaker, prog[0], world(n)) + prog[1..], world, n + 1);
  }

  /** Marking requests leaves the breaker alone. */
  lemma {:induction false} MarksThenAnswersEnd(cfg: Config, receipts: map<string, string>, core: Core,
                                               cs: seq<Batching.Candidate>,
                                               live: seq<Batching.Candidate>, model: string, world: nat -> Tick, n: nat)
    requires live != []
    ensures var prog := MarkAll(cs, model) + AnswerAll(live, model);
            Execute(cfg, receipts, core, prog, world, n).breaker.phase != Breaker.HalfOpen
    decreases |cs|
  {
    if cs == [] {
      assert MarkAll(cs, model) + AnswerAll(live, model) == AnswerAll(live, model);
      AnswersEnd(cfg, receipts, core, live, model, world, n);
    } else {
      var tail := MarkAll(cs[1..], model) + AnswerAll(live, model);
      Sorting.ConcatAssociative([Mark(cs[0], model)], MarkAll(cs[1..], model), AnswerAll(live, model));
      ExecuteOne(cfg, receipts, core, Mark(cs[0], model), tail, world, n);
      assert [] + tail == tail;
      MarksThenAnswersEnd(cfg, receipts, Effect(cfg, receipts, core, Mark(cs[0], model), world(n)), cs[1..], live,
                          model, world, n + 1);
    }
  }

  /** After the TTL check and what follows it, a breaker out of probes is still out of probes exactly
      if nothing was live. */
  lemma {:induction false} SweepExhausts(cfg: Config, receipts: map<string, string>, core: Core,
                                         cs: seq<Batching.Candidate>,
                                         live: seq<Batching.Candidate>, model: string, world: nat -> Tick, n: nat)
    requires forall c :: c in cs ==> c.requestId in receipts
    ensures Breaker.Exhausted(cfg.breaker, Execute(cfg, receipts, core, [Sweep(cs, live, model)], world, n).breaker)
       <==> Breaker.Exhausted(cfg.breaker, core.breaker) && live == [] && AllExpired(cfg, cs, world, n)
    decreases |cs|
  {
    assert [Sweep(cs, live, model)] + [] == [Sweep(cs, live, model)];
    if cs == [] {
      ExecuteOne(cfg, receipts, core, Sweep(cs, live, model), [], world, n);
      var prog := MarkAll(live, model) + AnswerAll(AnswerOrder(live), model);
      assert prog + [] == prog;
      if live != [] {
        MarksThenAnswersEnd(cfg, receipts, core, live, AnswerOrder(live), model, world, n + 1);
      }
    } else {
      SweepOnStep(cfg, receipts, core, cs, live, model, [], world, n);
      if IsExpired(cfg, cs[0], world(n).now) {
        SweepExhausts(cfg, receipts, AfterExpiry(receipts, core, cs[0], model, world(n)), cs[1..], live,
                      model, world, n + 2);
        assert [Sweep(cs[1..], live, model)] + [] == [Sweep(cs[1..], live, model)];
      } else {
        SweepExhausts(cfg, receipts, core, cs[1..], live + [cs[0]], model, world, n + 1);
        assert [Sweep(cs[1..], live + [cs[0]], model)] + [] == [Sweep(cs[1..], live + [cs[0]], model)];
      }
    }
  }

  lemma {:induction false} RefusalsKeepBreaker(cfg: Config, receipts: map<string, string>, core: Core,
                                               cs: seq<Batching.Candidate>, model: string, world: nat -> Tick, n: nat)
    ensures Execute(cfg, receipts, core, RefuseAll(cs, model), world, n).breaker == core.breaker
    decreases |cs|
  {
    if cs != [] {
      var op, tail := Refuse(cs[0], model), RefuseAll(cs[1..], model);
      ExecuteOne(cfg, receipts, core, op, tail, world, n);
      assert [] + tail == tail;
      RefusalsKeepBreaker(cfg, receipts, Effect(cfg, receipts, core, op, world(n)), cs[1..], model, world, n + 1);
    }
  }

  /** What a batch leaves behind, for every batch, breaker and course of the clock: a breaker out of
      probes exactly if the gate left it so and either refused the batch or let it through only for
      the TTL check to find every request expired. */
  lemma {:induction false} BatchExhausts(cfg: Config, receipts: map<string, string>, core: Core, b: Batching.Batch,
                                         world: nat -> Tick, n: nat)
    requires forall c :: c in b.candidates ==> c.requestId in receipts
    ensures var end := Execute(cfg, receipts, core, [Gate(b)], world, n);
            var (asked, granted) := Breaker.Allow(cfg.breaker, core.breaker, world(n).now);
            Breaker.Exhausted(cfg.breaker, end.breaker) <==>
              if !Placed(cfg, b) then Breaker.Exhausted(cfg.breaker, core.breaker)
              else Breaker.Exhausted(cfg.breaker, asked) && (granted ==> AllExpired(cfg, b.candidates, world, n + 1))
  {
    var cs, model := b.candidates, b.modelName;
    assert [Gate(b)] + [] == [Gate(b)];
    ExecuteOne(cfg, receipts, core, Gate(b), [], world, n);
    var core' := Effect(cfg, receipts, core, Gate(b), world(n));
    if Placed(cfg, b) {
      if Breaker.Allow(cfg.breaker, core.breaker, world(n).now).1 {
        SweepExhausts(cfg, receipts, core', cs, [], model, world, n + 1);
        assert [Sweep(cs, [], model)] + [] == [Sweep(cs, [], model)];
      } else {
        RefusalsKeepBreaker(cfg, receipts, core', cs, model, world, n + 1);
        assert RefuseAll(cs, model) + [] == RefuseAll(cs, model);
      }
    }
  }

  // ----- whole runs -----

  /** The batch under way still has an outcome to record, or a TTL check to make. */
  predicate ProbeOut(prog: seq<Op>) {
    prog != [] && (prog[0].Sweep? || prog[0].Answer? || ((prog[0].Mark? || prog[0].Delete?) && ProbeOut(prog[1..])))
  }

  predicate AllGates(prog: seq<Op>) {
    forall op :: op in prog ==> op.Gate?
  }

  /** Behind a gate or a TTL check there are only gates; behind a mark there is an answer. */
  predicate Orderly(prog: seq<Op>) {
    prog == [] ||
    (&& Orderly(prog[1..])
     && (prog[0].Gate? || prog[0].Sweep? ==> AllGates(prog[1..]))
     && (prog[0].Mark? ==> ProbeOut(prog[1..])))
  }

  /** The event drops worker `w`'s last probe: its whole batch has expired, or it crashes with the
      outcome still to come. */
  predicate DropsProbe(cfg: Config, f: Fleet, w: nat, e: FleetEvent) {
    && f.Has(w) && e.worker == w && e.Act?
    && Breaker.Exhausted(cfg.breaker, f.nodes[w].breaker) && ProbeOut(f.nodes[w].prog)
    && (e.event.Crash? || (e.event.Work? && f.nodes[w].prog[0].Sweep?
                           && f.nodes[w].prog[0].unchecked == [] && f.nodes[w].prog[0].live == []))
  }

  /** Worker `w` has dropped its last probe since it last started. */
  predicate Dropped(cfg: Config, f: Fleet, es: seq<FleetEvent>, w: nat)
    requires cfg.Valid()
  {
    es != [] &&
    var before, e := Run(cfg, f, es[..|es| - 1]), es[|es| - 1];
    e != Restart(w) && (DropsProbe(cfg, before, w, e) || Dropped(cfg, f, es[..|es| - 1], w))
  }

  /** `dropped` keeps account of the last probe: gone for good, or still out. */
  ghost predicate Ledger(cfg: Config, breaker: Breaker.State, prog: seq<Op>, dropped: bool) {
    && Orderly(prog)
    && (dropped ==> Breaker.Exhausted(cfg.breaker, breaker) && Gated(prog))
    && (Breaker.Exhausted(cfg.breaker, breaker) && !dropped ==> ProbeOut(prog))
  }

  lemma {:induction false} GatesAreOrderly(prog: seq<Op>)
    requires AllGates(prog)
    ensures Orderly(prog) && Gated(prog) && !ProbeOut(prog)
  {
    if prog != [] {
      assert prog[0] in prog;
      GatesAreOrderly(prog[1..]);
    }
  }

  lemma {:induction false} GatesAreGates(bs: seq<Batching.Batch>)
    ensures AllGates(Gates(bs))
  {
    if bs != [] {
      GatesAreGates(bs[1..]);
    }
  }

  lemma {:induction false} OrderlyCons(op: Op, rest: seq<Op>)
    requires Orderly(rest) && (op.Gate? || op.Sweep? ==> AllGates(rest)) && (op.Mark? ==> ProbeOut(rest))
    ensures Orderly([op] + rest)
    ensures op.Sweep? || op.Answer? || ((op.Mark? || op.Delete?) && ProbeOut(rest)) ==> ProbeOut([op] + rest)
  {
    assert ([op] + rest)[1..] == rest;
  }

  lemma {:induction false} RefusalsOrderly(cs: seq<Batching.Candidate>, model: string, rest: seq<Op>)
    requires AllGates(rest)
    ensures Orderly(RefuseAll(cs, model) + rest) && Gated(RefuseAll(cs, model) + rest)
  {
    if cs == [] {
      assert RefuseAll(cs, model) + rest == rest;
      GatesAreOrderly(rest);
    } else {
      RefusalsOrderly(cs[1..], model, rest);
      OrderlyCons(Refuse(cs[0], model), RefuseAll(cs[1..], model) + rest);
      Sorting.ConcatAssociative([Refuse(cs[0], model)], RefuseAll(cs[1..], model), rest);
    }
  }

  lemma {:induction false} AnswersOrderly(cs: seq<Batching.Candidate>, model: string, rest: seq<Op>)
    requires Orderly(rest)
    ensures Orderly(AnswerAll(cs, model) + rest) && (cs != [] ==> ProbeOut(AnswerAll(cs, model) + rest))
  {
    if cs == [] {
      assert AnswerAll(cs, model) + rest == rest;
    } else {
      AnswersOrderly(cs[1..], model, rest);
      OrderlyCons(Answer(cs[0], model), AnswerAll(cs[1..], model) + rest);
      Sorting.ConcatAssociative([Answer(cs[0], model)], AnswerAll(cs[1..], model), rest);
    }
  }

  lemma {:induction false} MarksOrderly(cs: seq<Batching.Candidate>, model: string, rest: seq<Op>)
    requires Orderly(rest) && ProbeOut(rest)
    ensures Orderly(MarkAll(cs, model) + rest) && ProbeOut(MarkAll(cs, model) + rest)
  {
    if cs == [] {
      assert MarkAll(cs, model) + rest == rest;
    } else {
      MarksOrderly(cs[1..], model, rest);
      OrderlyCons(Mark(cs[0], model), MarkAll(cs[1..], model) + rest);
      Sorting.ConcatAssociative([Mark(cs[0], model)], MarkAll(cs[1..], model), rest);
    }
  }

  /** What the TTL check expands to stays orderly, with the outcome still to come unless nothing
      was live. */
  lemma {:induction false} SweepLedger(cfg: Config, breaker: Breaker.State, prog: seq<Op>, t: Tick)
    requires prog != [] && prog[0].Sweep? && Orderly(prog)
    ensures var next := Expand(cfg, breaker, prog[0], t) + prog[1..];
            && Orderly(next)
            && (if prog[0].unchecked == [] && prog[0].live == [] then Gated(next) else ProbeOut(next))
  {
    var Sweep(unchecked, live, model) := prog[0];
    var rest := prog[1..];
    GatesAreOrderly(rest);
    if unchecked == [] {
      if live == [] {
        assert (MarkAll(live, model) + AnswerAll(AnswerOrder(live), model)) + rest == rest;
      } else {
        var answers := AnswerAll(AnswerOrder(live), model);
        AnswersOrderly(AnswerOrder(live), model, rest);
        MarksOrderly(live, model, answers + rest);
        Sorting.ConcatAssociative(MarkAll(live, model), answers, rest);
      }
    } else if IsExpired(cfg, unchecked[0], t.now) {
      var sweep, delete := Sweep(unchecked[1..], live, model), Delete(unchecked[0].requestId);
      OrderlyCons(sweep, rest);
      OrderlyCons(delete, [sweep] + rest);
      TwoThenRest(delete, sweep, rest);
    } else {
      OrderlyCons(Sweep(unchecked[1..], live + [unchecked[0]], model), rest);
    }
  }

  /** What is under way after a gate: nothing, refusals, or a TTL check. */
  lemma {:induction false} GateLedger(cfg: Config, breaker: Breaker.State, prog: seq<Op>, t: Tick)
    requires prog != [] && prog[0].Gate? && Orderly(prog)
    ensures var next := Expand(cfg, breaker, prog[0], t) + prog[1..];
            && Orderly(next)
            && (if Placed(cfg, prog[0].batch) && Breaker.Allow(cfg.breaker, breaker, t.now).1
                then ProbeOut(next) else Gated(next))
  {
    var b, rest := prog[0].batch, prog[1..];
    GatesAreOrderly(rest);
    if !Placed(cfg, b) {
      assert [] + rest == rest;
    } else if Breaker.Allow(cfg.breaker, breaker, t.now).1 {
      OrderlyCons(Sweep(b.candidates, [], b.modelName), rest);
    } else {
      RefusalsOrderly(b.candidates, b.modelName, rest);
    }
  }

  /** An operation that neither asks the breaker nor checks for expiry. */
  lemma {:induction false} PlainLedger(cfg: Config, breaker: Breaker.State, prog: seq<Op>, t: Tick)
    requires prog != [] && !prog[0].Gate? && !prog[0].Sweep? && Orderly(prog)
    ensures var next := Expand(cfg, breaker, prog[0], t) + prog[1..];
            && Orderly(next)
            && (!prog[0].Answer? ==> next == prog[1..])
            && (!prog[0].Answer? && ProbeOut(prog) ==> ProbeOut(next))
  {
    if prog[0].Answer? && t.Success() {
      OrderlyCons(Delete(prog[0].candidate.requestId), prog[1..]);
    } else {
      assert [] + prog[1..] == prog[1..];
    }
  }

  /** Asking a breaker with a probe to give. */
  lemma AskedLedger(p: Breaker.Policy, breaker: Breaker.State, now: real)
    requires p.halfOpenMaxProbes >= 1
    ensures Breaker.Exhausted(p, breaker) ==> Breaker.Allow(p, breaker, now) == (breaker, false)
    ensures !Breaker.Exhausted(p, breaker) && Breaker.Exhausted(p, Breaker.Allow(p, breaker, now).0)
            ==> Breaker.Allow(p, breaker, now).1
  {
  }

  lemma WorkLedger(cfg: Config, s: System, t: Tick, dropped: bool)
    requires cfg.Valid() && cfg.breaker.halfOpenMaxProbes >= 1 && s.prog != []
             && Ledger(cfg, s.core.breaker, s.prog, dropped)
    ensures var s' := Next(cfg, s, Work(t));
            var drops := Breaker.Exhausted(cfg.breaker, s.core.breaker) && ProbeOut(s.prog) && s.prog[0].Sweep?
                         && s.prog[0].unchecked == [] && s.prog[0].live == [];
            Ledger(cfg, s'.core.breaker, s'.prog, drops || dropped)
  {
    AfterWork(cfg, s, t);
    assert s.prog[0] in s.prog;
    match s.prog[0]
    case Gate(b) =>
      GateLedger(cfg, s.core.breaker, s.prog, t);
      AskedLedger(cfg.breaker, s.core.breaker, t.now);
    case Sweep(_, _, _) =>
      SweepLedger(cfg, s.core.breaker, s.prog, t);
    case _ =>
      PlainLedger(cfg, s.core.breaker, s.prog, t);
  }

  lemma NextLedger(cfg: Config, f: Fleet, w: nat, e: Event, dropped: bool)
    requires cfg.Valid() && cfg.breaker.halfOpenMaxProbes >= 1 && f.Has(w)
    requires Ledger(cfg, f.nodes[w].breaker, f.nodes[w].prog, dropped)
    ensures var s' := Next(cfg, f.SystemOf(w), e);
            Ledger(cfg, s'.core.breaker, s'.prog, DropsProbe(cfg, f, w, Act(w, e)) || dropped)
  {
    var s := f.SystemOf(w);
    match e
    case Publish(_, _) =>
    case Receive(ms) =>
      if CanReceive(s, ms) {
        GatesAreGates(Batching.Plan(cfg.batching, CandidatesOf(cfg, s.core.latency, ms)));
        GatesAreOrderly(ProgramFor(cfg, s.core.latency, ms));
      }
    case Work(t) =>
      if s.prog != [] {
        WorkLedger(cfg, s, t, dropped);
      }
    case Crash =>
  }

  lemma {:induction false} RunLedger(cfg: Config, n: nat, latency: Latency.Policy, es: seq<FleetEvent>, w: nat)
    requires cfg.Valid() && cfg.breaker.halfOpenMaxProbes >= 1 && w < n
    ensures var f := Run(cfg, Initial(n, latency), es);
            f.Has(w) && Ledger(cfg, f.nodes[w].breaker, f.nodes[w].prog, Dropped(cfg, Initial(n, latency), es, w))
  {
    if es != [] {
      var f, e := Run(cfg, Initial(n, latency), es[..|es| - 1]), es[|es| - 1];
      RunLedger(cfg, n, latency, es[..|es| - 1], w);
      if e.worker == w && e.Act? {
        NextLedger(cfg, f, w, e.event, Dropped(cfg, Initial(n, latency), es[..|es| - 1], w));
      }
    }
  }

  lemma {:induction false} ProbesCounted(cfg: Config, n: nat, latency: Latency.Policy, es: seq<FleetEvent>, w: nat)
    requires cfg.Valid() && w < n
    ensures var f := Run(cfg, Initial(n, latency), es);
            f.Has(w) && f.nodes[w].breaker.halfOpenProbes >= 0
  {
    if es != [] {
      ProbesCounted(cfg, n, latency, es[..|es| - 1], w);
    }
  }

  /** When the breaker of a queue worker is stuck, in every run of every fleet: between batches it is
      out of probes exactly if, since its last start, its last probe was dropped by a batch expired
      altogether or by a crash. */
  lemma {:induction false} StuckExactly(cfg: Config, n: nat, latency: Latency.Policy, es: seq<FleetEvent>, w: nat)
    requires cfg.Valid() && w < n
    ensures var f := Run(cfg, Initial(n, latency), es);
            && f.Has(w)
            && (f.nodes[w].prog == [] || f.nodes[w].prog[0].Gate? ==>
                  (Breaker.Exhausted(cfg.breaker, f.nodes[w].breaker) <==>
                     if cfg.breaker.halfOpenMaxProbes >= 1 then Dropped(cfg, Initial(n, latency), es, w)
                     else f.nodes[w].breaker.phase == Breaker.HalfOpen))
  {
    ProbesCounted(cfg, n, latency, es, w);
    if cfg.breaker.halfOpenMaxProbes >= 1 {
      RunLedger(cfg, n, latency, es, w);
    }
  }

  // ----- and then for ever -----

  /** A dropped probe leaves the worker stuck, whatever it is doing. */
  lemma {:induction false} DroppedSticks(cfg: Config, n: nat, latency: Latency.Policy, es: seq<FleetEvent>, w: nat)
    requires cfg.Valid() && cfg.breaker.halfOpenMaxProbes >= 1 && w < n && Dropped(cfg, Initial(n, latency), es, w)
    ensures Run(cfg, Initial(n, latency), es).Has(w) && Stuck(cfg, Run(cfg, Initial(n, latency), es).SystemOf(w))
  {
    RunLedger(cfg, n, latency, es, w);
  }

  lemma StuckAdvances(cfg: Config, f: Fleet, w: nat, e: FleetEvent)
    requires cfg.Valid() && f.Has(w) && Stuck(cfg, f.SystemOf(w)) && e != Restart(w)
    ensures var f' := Advance(cfg, f, e);
            && f'.Has(w) && Stuck(cfg, f'.SystemOf(w))
            && (e.worker == w ==> f'.completions == f.completions && f'.deleted == f.deleted)
  {
    if f.Has(e.worker) && e.Act? {
      AbsorbViews(f, e.worker, Next(cfg, f.SystemOf(e.worker), e.event), w);
      if e.worker == w {
        StuckStays(cfg, f.SystemOf(w), e.event);
      }
    }
  }

  /** No event of the run by which worker `w` completes a request or deletes a message. */
  predicate DoesNothing(cfg: Config, f: Fleet, es: seq<FleetEvent>, w: nat)
    requires cfg.Valid()
  {
    es == [] ||
    var before, e := Run(cfg, f, es[..|es| - 1]), es[|es| - 1];
    && DoesNothing(cfg, f, es[..|es| - 1], w)
    && (e.worker == w ==>
          Advance(cfg, before, e).completions == before.completions
          && Advance(cfg, before, e).deleted == before.deleted)
  }

  /** Once stuck, always stuck until it restarts: whatever arrives, whatever is redelivered, however
      much time passes, the worker never completes a request or deletes a message again. */
  lemma {:induction false} StuckForever(cfg: Config, f: Fleet, es: seq<FleetEvent>, w: nat)
    requires cfg.Valid() && f.Has(w) && Stuck(cfg, f.SystemOf(w)) && Restart(w) !in es
    ensures Run(cfg, f, es).Has(w) && Stuck(cfg, Run(cfg, f, es).SystemOf(w)) && DoesNothing(cfg, f, es, w)
  {
    if es != [] {
      StuckForever(cfg, f, es[..|es| - 1], w);
      StuckAdvances(cfg, Run(cfg, f, es[..|es| - 1]), w, es[|es| - 1]);
    }
  }
}
