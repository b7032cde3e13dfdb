/** The execution of a queue worker's program: operation by operation, and what its success means. */
module Executions {
  import opened Results
  import opened Worker
  import opened WorkerProofs
  import Batching
  import Breaker

  // ----- unfolding an execution -----

  lemma {:induction false} ExecuteOne(cfg: Config, receipts: map<string, string>, core: Core, op: Op, tail: seq<Op>,
                                      world: nat -> Tick, n: nat)
    ensures var core' := Effect(cfg, receipts, core, op, world(n));
            var next := Expand(cfg, core.breaker, op, world(n)) + tail;
            && Execute(cfg, receipts, core, [op] + tail, world, n) == Execute(cfg, receipts, core', next, world, n + 1)
            && (Succeeds(cfg, receipts, core, [op] + tail, world, n) <==>
                  GoesWell(cfg, core, op, world(n)) && Succeeds(cfg, receipts, core', next, world, n + 1))
  {
    assert ([op] + tail)[1..] == tail;
  }

  lemma {:induction false} ExecuteDelete(cfg: Config, receipts: map<string, string>, core: Core, id: string,
                                         tail: seq<Op>, world: nat -> Tick, n: nat)
    requires id in receipts
    ensures var core' := core.(deleted := core.deleted + {receipts[id]});
            && Execute(cfg, receipts, core, [Delete(id)] + tail, world, n)
                 == Execute(cfg, receipts, core', tail, world, n + 1)
            && (Succeeds(cfg, receipts, core, [Delete(id)] + tail, world, n) <==>
                  Succeeds(cfg, receipts, core', tail, world, n + 1))
  {
    ExecuteOne(cfg, receipts, core, Delete(id), tail, world, n);
    assert [] + tail == tail;
  }

  /** The state after an answer and, behind a success, the deletion of its message. */
  function AfterAnswer(cfg: Config, receipts: map<string, string>, core: Core, c: Batching.Candidate, model: string,
                       t: Tick): Core
    requires c.requestId in receipts
  {
    var answered := Effect(cfg, receipts, core, Answer(c, model), t);
    if t.Success() then answered.(deleted := answered.deleted + {receipts[c.requestId]}) else answered
  }

  lemma {:induction false} ExecuteAnswer(cfg: Config, receipts: map<string, string>, core: Core, c: Batching.Candidate,
                                         model: string, tail: seq<Op>, world: nat -> Tick, n: nat)
    requires c.requestId in receipts
    ensures var core' := AfterAnswer(cfg, receipts, core, c, model, world(n));
            var m := n + if world(n).Success() then 2 else 1;
            && Execute(cfg, receipts, core, [Answer(c, model)] + tail, world, n)
                 == Execute(cfg, receipts, core', tail, world, m)
            && (Succeeds(cfg, receipts, core, [Answer(c, model)] + tail, world, n) <==>
                  world(n).Success() && Succeeds(cfg, receipts, core', tail, world, m))
  {
    ExecuteOne(cfg, receipts, core, Answer(c, model), tail, world, n);
    if world(n).Success() {
      ExecuteDelete(cfg, receipts, Effect(cfg, receipts, core, Answer(c, model), world(n)), c.requestId, tail, world,
                    n + 1);
    } else {
      assert [] + tail == tail;
    }
  }

  /** The state after an expired request has failed and its message is deleted. */
  function AfterExpiry(receipts: map<string, string>, core: Core, c: Batching.Candidate, model: string, t: Tick): Core
    requires c.requestId in receipts
  {
    var failed := Write(core, FailedRecord(c, model, Expired, t.now));
    failed.(deleted := failed.deleted + {receipts[c.requestId]})
  }

  /** One turn of the TTL check. */
  lemma {:induction false} SweepOnStep(cfg: Config, receipts: map<string, string>, core: Core,
                                       unchecked: seq<Batching.Candidate>, live: seq<Batching.Candidate>, model: string,
                                       rest: seq<Op>, world: nat -> Tick, n: nat)
    requires unchecked != [] && unchecked[0].requestId in receipts
    ensures var c, prog := unchecked[0], [Sweep(unchecked, live, model)] + rest;
            var away, on := [Sweep(unchecked[1..], live, model)] + rest,
                            [Sweep(unchecked[1..], live + [c], model)] + rest;
            if IsExpired(cfg, c, world(n).now)
            then
              var core' := AfterExpiry(receipts, core, c, model, world(n));
              && Execute(cfg, receipts, core, prog, world, n) == Execute(cfg, receipts, core', away, world, n + 2)
              && Succeeds(cfg, receipts, core, prog, world, n) == Succeeds(cfg, receipts, core', away, world, n + 2)
            else
              && Execute(cfg, receipts, core, prog, world, n) == Execute(cfg, receipts, core, on, world, n + 1)
              && Succeeds(cfg, receipts, core, prog, world, n) == Succeeds(cfg, receipts, core, on, world, n + 1)
  {
    var c := unchecked[0];
    ExecuteOne(cfg, receipts, core, Sweep(unchecked, live, model), rest, world, n);
    if IsExpired(cfg, c, world(n).now) {
      var sweep := Sweep(unchecked[1..], live, model);
      ExecuteDelete(cfg, receipts, Write(core, FailedRecord(c, model, Expired, world(n).now)), c.requestId,
                    [sweep] + rest, world, n + 1);
      TwoThenRest(Delete(c.requestId), sweep, rest);
    }
  }

  lemma TwoThenRest<T>(a: T, b: T, rest: seq<T>)
    ensures [a, b] + rest == [a] + ([b] + rest)
  {
  }

  /** From one point of an execution to a later one; `ok` says whether all went well in between. */
  ghost predicate Leads(cfg: Config, receipts: map<string, string>, world: nat -> Tick,
                        from: Core, prog: seq<Op>, n: nat, to: Core, rest: seq<Op>, m: nat, ok: bool)
  {
    && Execute(cfg, receipts, from, prog, world, n) == Execute(cfg, receipts, to, rest, world, m)
    && (Succeeds(cfg, receipts, from, prog, world, n) <==> ok && Succeeds(cfg, receipts, to, rest, world, m))
  }

  /** Behind the TTL check: the marks and the answers of those alive. */
  lemma {:induction false} SweepEnds(cfg: Config, receipts: map<string, string>, core: Core,
                                     live: seq<Batching.Candidate>, model: string, rest: seq<Op>, world: nat -> Tick,
                                     n: nat)
    ensures Leads(cfg, receipts, world, core, [Sweep([], live, model)] + rest, n,
                  core, (MarkAll(live, model) + AnswerAll(AnswerOrder(live), model)) + rest, n + 1, true)
  {
    ExecuteOne(cfg, receipts, core, Sweep([], live, model), rest, world, n);
  }

  // ----- what success means -----

  /** The requests are distinct and each has an undeleted message of its own. */
  ghost predicate Neat(receipts: map<string, string>, slots: multiset<string>, deleted: set<string>) {
    && (forall id :: id in slots ==> slots[id] == 1 && id in receipts && receipts[id] !in deleted)
    && (forall x, y :: x in slots && y in slots && receipts[x] == receipts[y] ==> x == y)
  }

  predicate NoEmptyGate(prog: seq<Op>) {
    forall op :: op in prog && op.Gate? ==> op.batch.candidates != []
  }

  /** Every message of these requests has been deleted. */
  ghost predicate AllDeleted(receipts: map<string, string>, slots: multiset<string>, deleted: set<string>) {
    forall id :: id in slots && id in receipts ==> receipts[id] in deleted
  }

  /** From one set of deleted messages to the other, only messages of these requests were deleted. */
  ghost predicate OnlyTheirs(receipts: map<string, string>, slots: multiset<string>, before: set<string>,
                             after: set<string>) {
    before <= after && forall r :: r in after ==> r in before || IsReceipt(receipts, slots, r)
  }

  ghost predicate IsReceipt(receipts: map<string, string>, slots: multiset<string>, r: string) {
    exists id :: id in slots && id in receipts && receipts[id] == r
  }

  /** What is left of a program's requests after an operation. */
  lemma {:induction false} StepSlots(cfg: Config, core: Core, prog: seq<Op>, t: Tick)
    requires prog != [] && Shaped(prog)
    ensures var next := Expand(cfg, core.breaker, prog[0], t) + prog[1..];
            && Shaped(next) && Slots(next) <= Slots(prog)
            && Slots(prog) == OpSlots(prog[0]) + Slots(prog[1..])
            && (match prog[0]
                case Gate(b) => Slots(next) == if Placed(cfg, b) then Slots(prog) else Slots(prog[1..])
                case Sweep(_, _, _) => Slots(next) == Slots(prog)
                case Answer(_, _) => Slots(next) == if t.Success() then Slots(prog) else Slots(prog[1..])
                case _ => Slots(next) == Slots(prog[1..]))
  {
    StepShape(cfg, core.breaker, prog, t);
    RestContinues(prog);
    match prog[0]
    case Gate(_) => GateShape(cfg, core.breaker, prog, t);
    case Sweep(_, _, _) => SweepShape(cfg, core.breaker, prog, t);
    case Answer(_, _) => AnswerShape(cfg, core.breaker, prog, t);
    case _ =>
  }

  /** A request that is neither passed on nor deleted by an operation is never deleted. */
  lemma DroppedIsKept(receipts: map<string, string>, slots: multiset<string>, left: multiset<string>,
                      before: set<string>, after: set<string>, id: string)
    requires Neat(receipts, slots, before) && left <= slots && id in slots && id !in left
    requires OnlyTheirs(receipts, left, before, after)
    ensures receipts[id] !in after && !AllDeleted(receipts, slots, after)
  {
    forall x | x in left && x in receipts ensures receipts[x] != receipts[id] {
      assert left[x] <= slots[x];
    }
  }

  lemma TheirsGrow(receipts: map<string, string>, slots: multiset<string>, left: multiset<string>,
                   before: set<string>, after: set<string>)
    requires left <= slots && OnlyTheirs(receipts, left, before, after)
    ensures OnlyTheirs(receipts, slots, before, after)
  {
    forall r | IsReceipt(receipts, left, r) ensures IsReceipt(receipts, slots, r) {
      var id :| id in left && id in receipts && receipts[id] == r;
      assert left[id] <= slots[id];
    }
  }

  lemma StaysNeat(receipts: map<string, string>, slots: multiset<string>, left: multiset<string>, deleted: set<string>)
    requires Neat(receipts, slots, deleted) && left <= slots
    ensures Neat(receipts, left, deleted)
  {
    forall id | id in left ensures left[id] == 1 && id in slots {
      assert left[id] <= slots[id];
    }
  }

  predicate NoGate(prog: seq<Op>) {
    forall op :: op in prog ==> !op.Gate?
  }

  lemma {:induction false} ExpansionsHaveNoGate(cs: seq<Batching.Candidate>, model: string)
    ensures NoGate(RefuseAll(cs, model)) && NoGate(MarkAll(cs, model)) && NoGate(AnswerAll(cs, model))
  {
    if cs != [] {
      ExpansionsHaveNoGate(cs[1..], model);
    }
  }

  lemma ExpandsToNoGate(cfg: Config, breaker: Breaker.State, prog: seq<Op>, t: Tick)
    requires prog != [] && NoEmptyGate(prog)
    ensures NoEmptyGate(Expand(cfg, breaker, prog[0], t) + prog[1..])
  {
    match prog[0]
    case Gate(b) => ExpansionsHaveNoGate(b.candidates, b.modelName);
    case Sweep(_, live, model) =>
      ExpansionsHaveNoGate(live, model);
      ExpansionsHaveNoGate(AnswerOrder(live), model);
    case _ =>
  }

  /** An operation that goes well and deletes nothing passes every request on. */
  lemma {:induction false} WellPassesOn(cfg: Config, core: Core, prog: seq<Op>, t: Tick)
    requires prog != [] && Shaped(prog) && GoesWell(cfg, core, prog[0], t) && !prog[0].Delete?
    ensures Slots(Expand(cfg, core.breaker, prog[0], t) + prog[1..]) == Slots(prog)
  {
    StepSlots(cfg, core, prog, t);
    assert prog[0].Mark? ==> OpSlots(prog[0]) == multiset{};
  }

  /** An operation that goes badly drops a request, or leaves a refusal to do so. */
  lemma {:induction false} BadlyDrops(cfg: Config, core: Core, prog: seq<Op>, t: Tick, receipts: map<string, string>)
    requires prog != [] && Shaped(prog) && NoEmptyGate(prog) && !GoesWell(cfg, core, prog[0], t)
    requires Neat(receipts, Slots(prog), core.deleted)
    ensures var next := Expand(cfg, core.breaker, prog[0], t) + prog[1..];
            || (exists id :: id in Slots(prog) && id !in Slots(next))
            || (Slots(next) == Slots(prog) && next != [] && next[0].Refuse?)
  {
    var op, next := prog[0], Expand(cfg, core.breaker, prog[0], t) + prog[1..];
    StepSlots(cfg, core, prog, t);
    if op.Gate? && Placed(cfg, op.batch) {
      assert op in prog;
      assert RefuseAll(op.batch.candidates, op.batch.modelName)[0].Refuse?;
    } else {
      assert op in prog;
      var id := HeadSlot(op);
      OnlyInHead(OpSlots(op), Slots(prog[1..]), Slots(prog), id);
      assert id in Slots(prog) && id !in Slots(next);
    }
  }

  /** A request of the operation. */
  function HeadSlot(op: Op): (id: string)
    requires op.Refuse? || op.Answer? || (op.Gate? && op.batch.candidates != [])
    ensures id in OpSlots(op)
  {
    if op.Gate? then op.batch.candidates[0].requestId else op.candidate.requestId
  }

  lemma OnlyInHead(head: multiset<string>, rest: multiset<string>, all: multiset<string>, id: string)
    requires all == head + rest && id in head && all[id] == 1
    ensures id in all && id !in rest
  {
    assert all[id] == head[id] + rest[id];
  }

  lemma {:induction false} DeletedOne(receipts: map<string, string>, prog: seq<Op>, deleted: set<string>)
    requires prog != [] && prog[0].Delete? && Shaped(prog) && Neat(receipts, Slots(prog), deleted)
    ensures var id := prog[0].requestId;
            && id in receipts && Slots(prog) == multiset{id} + Slots(prog[1..])
            && Neat(receipts, Slots(prog[1..]), deleted + {receipts[id]})
            && forall end :: OnlyTheirs(receipts, Slots(prog[1..]), deleted + {receipts[id]}, end) ==>
                 && OnlyTheirs(receipts, Slots(prog), deleted, end)
                 && (AllDeleted(receipts, Slots(prog[1..]), end) <==> AllDeleted(receipts, Slots(prog), end))
  {
    var id, left := prog[0].requestId, Slots(prog[1..]);
    var slots := Slots(prog);
    assert slots == multiset{id} + left && id in slots;
    assert slots[id] == 1 + left[id];
    forall x | x in left ensures left[x] == 1 && receipts[x] != receipts[id] {
      assert slots[x] == multiset{id}[x] + left[x];
    }
    forall end | OnlyTheirs(receipts, left, deleted + {receipts[id]}, end)
      ensures OnlyTheirs(receipts, slots, deleted, end)
      ensures AllDeleted(receipts, left, end) <==> AllDeleted(receipts, slots, end)
    {
      assert forall x :: x in slots <==> x == id || x in left;
      forall r | r in end ensures r in deleted || IsReceipt(receipts, slots, r) {
        if IsReceipt(receipts, left, r) {
          TheirsGrow(receipts, slots, left, deleted + {receipts[id]}, end);
        } else {
          assert r in deleted || receipts[id] == r;
        }
      }
    }
  }

  /** From one set of deleted messages to the other, only messages of these requests were deleted; and
      `ok` says whether all of them. */
  ghost predicate Exact(receipts: map<string, string>, slots: multiset<string>, before: set<string>,
                        after: set<string>, ok: bool) {
    OnlyTheirs(receipts, slots, before, after) && (ok <==> AllDeleted(receipts, slots, after))
  }

  /** One operation, seen from what comes of the rest. */
  lemma {:induction false} StepIsExact(cfg: Config, receipts: map<string, string>, core: Core, prog: seq<Op>, t: Tick,
                                       end: set<string>, ok: bool)
    requires prog != [] && !prog[0].Delete? && Shaped(prog) && NoEmptyGate(prog)
    requires Neat(receipts, Slots(prog), core.deleted)
    requires var next := Expand(cfg, core.breaker, prog[0], t) + prog[1..];
             Exact(receipts, Slots(next), core.deleted, end, ok) && (next != [] && next[0].Refuse? ==> !ok)
    ensures Exact(receipts, Slots(prog), core.deleted, end, GoesWell(cfg, core, prog[0], t) && ok)
  {
    var next := Expand(cfg, core.breaker, prog[0], t) + prog[1..];
    StepSlots(cfg, core, prog, t);
    TheirsGrow(receipts, Slots(prog), Slots(next), core.deleted, end);
    if GoesWell(cfg, core, prog[0], t) {
      WellPassesOn(cfg, core, prog, t);
    } else {
      BadlyDrops(cfg, core, prog, t, receipts);
      if id :| id in Slots(prog) && id !in Slots(next) {
        DroppedIsKept(receipts, Slots(prog), Slots(next), core.deleted, end, id);
      }
    }
  }

  lemma {:induction false} ExecuteHead(cfg: Config, receipts: map<string, string>, core: Core, prog: seq<Op>,
                                       world: nat -> Tick, n: nat)
    requires prog != []
    ensures var core' := Effect(cfg, receipts, core, prog[0], world(n));
            var next := Expand(cfg, core.breaker, prog[0], world(n)) + prog[1..];
            && Execute(cfg, receipts, core, prog, world, n) == Execute(cfg, receipts, core', next, world, n + 1)
            && (Succeeds(cfg, receipts, core, prog, world, n) <==>
                  GoesWell(cfg, core, prog[0], world(n)) && Succeeds(cfg, receipts, core', next, world, n + 1))
            && (prog[0].Refuse? ==> !Succeeds(cfg, receipts, core, prog, world, n))
            && (!prog[0].Delete? ==> core'.deleted == core.deleted)
            && (prog[0].Delete? && prog[0].requestId in receipts ==>
                  core'.deleted == core.deleted + {receipts[prog[0].requestId]} && next == prog[1..])
  {
  }

  /** What success of a program means, for distinct requests with messages of their own: exactly that
      every message has been deleted; and no other message is. */
  lemma {:induction false} SucceedsExactly(cfg: Config, receipts: map<string, string>, core: Core, prog: seq<Op>,
                                           world: nat -> Tick, n: nat)
    requires Shaped(prog) && NoEmptyGate(prog) && Neat(receipts, Slots(prog), core.deleted)
    ensures Exact(receipts, Slots(prog), core.deleted, Execute(cfg, receipts, core, prog, world, n).deleted,
                  Succeeds(cfg, receipts, core, prog, world, n))
    decreases Cost(prog)
  {
    if prog != [] {
      var t := world(n);
      var core', next := Effect(cfg, receipts, core, prog[0], t), Expand(cfg, core.breaker, prog[0], t) + prog[1..];
      ExecuteHead(cfg, receipts, core, prog, world, n);
      StepShrinks(cfg, core.breaker, prog, t);
      StepSlots(cfg, core, prog, t);
      ExpandsToNoGate(cfg, core.breaker, prog, t);
      if prog[0].Delete? {
        DeletedOne(receipts, prog, core.deleted);
        SucceedsExactly(cfg, receipts, core', next, world, n + 1);
      } else {
        StaysNeat(receipts, Slots(prog), Slots(next), core.deleted);
        SucceedsExactly(cfg, receipts, core', next, world, n + 1);
        if next != [] {
          ExecuteHead(cfg, receipts, core', next, world, n + 1);
        }
        StepIsExact(cfg, receipts, core, prog, t, Execute(cfg, receipts, core', next, world, n + 1).deleted,
                    Succeeds(cfg, receipts, core', next, world, n + 1));
      }
    }
  }

  /** Whatever the requests, only messages in the table are deleted. */
  lemma {:induction false} DeletesFromTable(cfg: Config, receipts: map<string, string>, core: Core, prog: seq<Op>,
                                            world: nat -> Tick, n: nat)
    ensures core.deleted <= Execute(cfg, receipts, core, prog, world, n).deleted <= core.deleted + receipts.Values
    decreases Cost(prog)
  {
    if prog != [] {
      var core' := Effect(cfg, receipts, core, prog[0], world(n));
      var next := Expand(cfg, core.breaker, prog[0], world(n)) + prog[1..];
      StepShrinks(cfg, core.breaker, prog, world(n));
      EffectDeletes(cfg, receipts, core, prog[0], world(n));
      DeletesFromTable(cfg, receipts, core', next, world, n + 1);
    }
  }

  lemma EffectDeletes(cfg: Config, receipts: map<string, string>, core: Core, op: Op, t: Tick)
    ensures core.deleted <= Effect(cfg, receipts, core, op, t).deleted <= core.deleted + receipts.Values
  {
    if op.Delete? && op.requestId in receipts {
      assert receipts[op.requestId] in receipts.Values;
    }
  }
}
