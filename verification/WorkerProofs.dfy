/** What one queue worker's events keep, as that worker sees the platform: safety always, and the
    finality of completion unless a crash separates it from its deletion. */
module WorkerProofs {
  import opened Options
  import opened Results
  import opened Worker
  import Batching
  import BatchingProofs
  import Breaker
  import Latency
  import Scheduler
  import Sorting

  // ----- what routing promises to batching -----

  /** Routed candidates have at least one token, so the worker's groups are split optimally. */
  lemma {:induction false} RoutedTokensArePositive(cfg: Config, latency: Latency.Tracker, ms: seq<Message>)
    requires cfg.router.Valid()
    ensures forall c :: c in CandidatesOf(cfg, latency, ms) ==> c.estimatedTokens >= 1
  {
    if ms != [] {
      RoutedTokensArePositive(cfg, latency, ms[..|ms| - 1]);
    }
  }

  lemma {:induction false} WorkerSplitsOptimally(cfg: Config, latency: Latency.Tracker, ms: seq<Message>,
                                                 k: (string, string))
    requires cfg.Valid()
    ensures var cs := CandidatesOf(cfg, latency, ms);
            var group := Batching.GroupOf(Batching.Groupable(cfg.batching, Sorting.Sort(Batching.Before, cs)), k);
            forall pieces :: BatchingProofs.Cutting(cfg.batching, group, pieces)
                             ==> |Batching.SplitGroup(cfg.batching, group)| <= |pieces|
  {
    RoutedTokensArePositive(cfg, latency, ms);
    BatchingProofs.PlannedGroupsAreOptimal(cfg.batching, CandidatesOf(cfg, latency, ms), k);
  }

  // ----- the requests a program still has in hand -----

  function IdBag(cs: seq<Batching.Candidate>): multiset<string> {
    if cs == [] then multiset{} else multiset{cs[0].requestId} + IdBag(cs[1..])
  }

  function OpSlots(op: Op): multiset<string> {
    match op
    case Gate(b) => IdBag(b.candidates)
    case Refuse(c, _) => multiset{c.requestId}
    case Sweep(unchecked, live, _) => IdBag(unchecked) + IdBag(live)
    case Mark(_, _) => multiset{}
    case Answer(c, _) => multiset{c.requestId}
    case Delete(id) => multiset{id}
  }

  function Slots(prog: seq<Op>): multiset<string> {
    if prog == [] then multiset{} else OpSlots(prog[0]) + Slots(prog[1..])
  }

  predicate NoDelete(prog: seq<Op>) {
    forall op :: op in prog ==> !op.Delete?
  }

  /** A deletion stands only at the head; a request marked as processing is answered later. */
  predicate Shaped(prog: seq<Op>) {
    prog == [] ||
    (&& NoDelete(prog[1..]) && Shaped(prog[1..])
     && (prog[0].Mark? ==> prog[0].candidate.requestId in Slots(prog[1..])))
  }

  lemma {:induction false} IdBagSnoc(cs: seq<Batching.Candidate>, c: Batching.Candidate)
    ensures IdBag(cs + [c]) == IdBag(cs) + multiset{c.requestId}
  {
    if cs == [] {
      assert cs + [c] == [c] && [c][1..] == [];
    } else {
      assert (cs + [c])[1..] == cs[1..] + [c];
      IdBagSnoc(cs[1..], c);
    }
  }

  lemma {:induction false} IdBagMembers(cs: seq<Batching.Candidate>)
    ensures forall c :: c in cs ==> c.requestId in IdBag(cs)
  {
    if cs != [] {
      IdBagMembers(cs[1..]);
    }
  }

  lemma {:induction false} InFront(op: Op, prog: seq<Op>)
    requires Shaped(prog) && NoDelete(prog) && (op.Mark? ==> op.candidate.requestId in Slots(prog))
    ensures Shaped([op] + prog) && Slots([op] + prog) == OpSlots(op) + Slots(prog)
    ensures !op.Delete? ==> NoDelete([op] + prog)
  {
    assert ([op] + prog)[1..] == prog;
  }

  lemma {:induction false} RefuseAllShaped(cs: seq<Batching.Candidate>, model: string, rest: seq<Op>)
    requires Shaped(rest) && NoDelete(rest)
    ensures var prog := RefuseAll(cs, model) + rest;
            Shaped(prog) && NoDelete(prog) && Slots(prog) == IdBag(cs) + Slots(rest)
  {
    if cs == [] {
      assert RefuseAll(cs, model) + rest == rest;
    } else {
      RefuseAllShaped(cs[1..], model, rest);
      InFront(Refuse(cs[0], model), RefuseAll(cs[1..], model) + rest);
      Sorting.ConcatAssociative([Refuse(cs[0], model)], RefuseAll(cs[1..], model), rest);
      Sorting.SumAssociative(multiset{cs[0].requestId}, IdBag(cs[1..]), Slots(rest));
    }
  }

  lemma {:induction false} AnswerAllShaped(cs: seq<Batching.Candidate>, model: string, rest: seq<Op>)
    requires Shaped(rest) && NoDelete(rest)
    ensures var prog := AnswerAll(cs, model) + rest;
            Shaped(prog) && NoDelete(prog) && Slots(prog) == IdBag(cs) + Slots(rest)
  {
    if cs == [] {
      assert AnswerAll(cs, model) + rest == rest;
    } else {
      AnswerAllShaped(cs[1..], model, rest);
      InFront(Answer(cs[0], model), AnswerAll(cs[1..], model) + rest);
      Sorting.ConcatAssociative([Answer(cs[0], model)], AnswerAll(cs[1..], model), rest);
      Sorting.SumAssociative(multiset{cs[0].requestId}, IdBag(cs[1..]), Slots(rest));
    }
  }

  lemma {:induction false} MarkAllShaped(cs: seq<Batching.Candidate>, model: string, rest: seq<Op>)
    requires Shaped(rest) && NoDelete(rest) && forall c :: c in cs ==> c.requestId in Slots(rest)
    ensures var prog := MarkAll(cs, model) + rest;
            Shaped(prog) && NoDelete(prog) && Slots(prog) == Slots(rest)
  {
    if cs == [] {
      assert MarkAll(cs, model) + rest == rest;
    } else {
      MarkAllShaped(cs[1..], model, rest);
      assert cs[0] in cs;
      InFront(Mark(cs[0], model), MarkAll(cs[1..], model) + rest);
      Sorting.ConcatAssociative([Mark(cs[0], model)], MarkAll(cs[1..], model), rest);
    }
  }

  lemma {:induction false} LaunchShaped(live: seq<Batching.Candidate>, model: string, rest: seq<Op>)
    requires Shaped(rest) && NoDelete(rest)
    ensures var prog := (MarkAll(live, model) + AnswerAll(AnswerOrder(live), model)) + rest;
            Shaped(prog) && NoDelete(prog) && Slots(prog) == IdBag(live) + Slots(rest)
  {
    var answers := AnswerAll(AnswerOrder(live), model);
    AnswerAllShaped(AnswerOrder(live), model, rest);
    AnswerOrderIds(live);
    IdBagMembers(live);
    MarkAllShaped(live, model, answers + rest);
    Sorting.ConcatAssociative(MarkAll(live, model), answers, rest);
  }

  lemma {:induction false} FirstsLikeIds(cs: seq<Batching.Candidate>, xs: seq<Batching.Candidate>)
    ensures IdBag(FirstsLike(cs, xs)) == IdBag(xs)
  {
    if xs != [] {
      FirstsLikeIds(cs, xs[1..]);
      assert FirstsLike(cs, xs)[1..] == FirstsLike(cs, xs[1..]);
    }
  }

  /** The order of the answers is an order of the same ids. */
  lemma {:induction false} AnswerOrderIds(cs: seq<Batching.Candidate>)
    ensures IdBag(AnswerOrder(cs)) == IdBag(cs)
  {
    Sorting.SortPermutes(ByLast(cs), cs);
    IdBagIgnoresOrder(cs, Sorting.Sort(ByLast(cs), cs));
    FirstsLikeIds(cs, Sorting.Sort(ByLast(cs), cs));
  }

  /** The expansions of an operation, in front of the rest: shaped, with no new request. */
  ghost predicate Continues(prog: seq<Op>, slots: multiset<string>) {
    Shaped(prog) && Slots(prog) <= slots
  }

  /** The same, with every request passed on. */
  ghost predicate PassesOn(prog: seq<Op>, slots: multiset<string>) {
    Shaped(prog) && Slots(prog) == slots
  }

  lemma {:induction false} SweepOn(unchecked: seq<Batching.Candidate>, live: seq<Batching.Candidate>, model: string,
                                   rest: seq<Op>)
    requires Shaped(rest) && NoDelete(rest) && unchecked != []
    ensures PassesOn([Sweep(unchecked[1..], live + [unchecked[0]], model)] + rest,
                      IdBag(unchecked) + IdBag(live) + Slots(rest))
  {
    var c := unchecked[0];
    InFront(Sweep(unchecked[1..], live + [c], model), rest);
    IdBagSnoc(live, c);
    Sorting.SumRotate(multiset{c.requestId}, IdBag(unchecked[1..]), IdBag(live));
  }

  lemma {:induction false} SweepAway(unchecked: seq<Batching.Candidate>, live: seq<Batching.Candidate>, model: string,
                                     rest: seq<Op>)
    requires Shaped(rest) && NoDelete(rest) && unchecked != []
    ensures PassesOn([Delete(unchecked[0].requestId), Sweep(unchecked[1..], live, model)] + rest,
                      IdBag(unchecked) + IdBag(live) + Slots(rest))
  {
    var c, sweep := unchecked[0], Sweep(unchecked[1..], live, model);
    InFront(sweep, rest);
    InFront(Delete(c.requestId), [sweep] + rest);
    assert [Delete(c.requestId), sweep] + rest == [Delete(c.requestId)] + ([sweep] + rest);
    Sorting.SumAssociative(multiset{c.requestId}, IdBag(unchecked[1..]), IdBag(live));
    Sorting.SumAssociative(multiset{c.requestId}, IdBag(unchecked[1..]) + IdBag(live), Slots(rest));
  }

  lemma {:induction false} GateOn(b: Batching.Batch, rest: seq<Op>)
    requires Shaped(rest) && NoDelete(rest)
    ensures PassesOn([Sweep(b.candidates, [], b.modelName)] + rest, IdBag(b.candidates) + Slots(rest))
    ensures PassesOn(RefuseAll(b.candidates, b.modelName) + rest, IdBag(b.candidates) + Slots(rest))
  {
    RefuseAllShaped(b.candidates, b.modelName, rest);
    InFront(Sweep(b.candidates, [], b.modelName), rest);
    assert OpSlots(Sweep(b.candidates, [], b.modelName)) == IdBag(b.candidates);
  }

  lemma {:induction false} SweepShape(cfg: Config, breaker: Breaker.State, prog: seq<Op>, t: Tick)
    requires prog != [] && prog[0].Sweep? && Shaped(prog)
    ensures PassesOn(Expand(cfg, breaker, prog[0], t) + prog[1..], Slots(prog))
  {
    var Sweep(unchecked, live, model) := prog[0];
    if unchecked == [] {
      LaunchShaped(live, model, prog[1..]);
    } else if IsExpired(cfg, unchecked[0], t.now) {
      SweepAway(unchecked, live, model, prog[1..]);
    } else {
      SweepOn(unchecked, live, model, prog[1..]);
    }
  }

  lemma {:induction false} RestContinues(prog: seq<Op>)
    requires prog != [] && Shaped(prog)
    ensures [] + prog[1..] == prog[1..] && Continues(prog[1..], Slots(prog))
  {
  }

  lemma {:induction false} GateShape(cfg: Config, breaker: Breaker.State, prog: seq<Op>, t: Tick)
    requires prog != [] && prog[0].Gate? && Shaped(prog)
    ensures Continues(Expand(cfg, breaker, prog[0], t) + prog[1..], Slots(prog))
    ensures Placed(cfg, prog[0].batch) ==> PassesOn(Expand(cfg, breaker, prog[0], t) + prog[1..], Slots(prog))
  {
    var b := prog[0].batch;
    RestContinues(prog);
    GateOn(b, prog[1..]);
    assert Slots(prog) == IdBag(b.candidates) + Slots(prog[1..]);
  }

  lemma {:induction false} AnswerShape(cfg: Config, breaker: Breaker.State, prog: seq<Op>, t: Tick)
    requires prog != [] && prog[0].Answer? && Shaped(prog)
    ensures Continues(Expand(cfg, breaker, prog[0], t) + prog[1..], Slots(prog))
    ensures t.Success() ==> PassesOn(Expand(cfg, breaker, prog[0], t) + prog[1..], Slots(prog))
  {
    if t.Success() {
      var delete := Delete(prog[0].candidate.requestId);
      InFront(delete, prog[1..]);
      assert OpSlots(delete) == OpSlots(prog[0]);
    } else {
      RestContinues(prog);
    }
  }

  /** A step leaves a shaped program and takes on no new request. */
  lemma {:induction false} StepShape(cfg: Config, breaker: Breaker.State, prog: seq<Op>, t: Tick)
    requires prog != [] && Shaped(prog)
    ensures Continues(Expand(cfg, breaker, prog[0], t) + prog[1..], Slots(prog))
  {
    match prog[0]
    case Gate(_) => GateShape(cfg, breaker, prog, t);
    case Sweep(_, _, _) => SweepShape(cfg, breaker, prog, t);
    case Answer(_, _) => AnswerShape(cfg, breaker, prog, t);
    case _ =>
      assert Expand(cfg, breaker, prog[0], t) == [];
      RestContinues(prog);
  }

  // ----- what holds in every run, crashes included -----

  /** COMPLETED, or FAILED because it expired. */
  predicate Done(r: Record) {
    r.status == Completed || (r.status == Failed && r.error == Some(Expired))
  }

  /** `r` is the receipt of a sent message for request `id`. */
  predicate Carries(inbox: map<string, Message>, r: string, id: string) {
    r in inbox && inbox[r].body.Some? && inbox[r].body.value.eventId == id
  }

  /** Receipts identify messages, well-formed messages have distinct ids, each with a record. */
  ghost predicate InboxOk(inbox: map<string, Message>, store: Store) {
    && store.Valid()
    && (forall r :: r in inbox ==> inbox[r].receipt == r)
    && (forall r, id :: Carries(inbox, r, id) ==> id in store.records)
    && (forall r, r', id :: Carries(inbox, r, id) && Carries(inbox, r', id) ==> r == r')
  }

  /** Every request in hand has an undeleted message, whose receipt is known. */
  ghost predicate HandOk(inbox: map<string, Message>, deleted: set<string>, receipts: map<string, string>,
                         slots: multiset<string>) {
    forall id :: id in slots ==>
      slots[id] == 1 && id in receipts && Carries(inbox, receipts[id], id) && receipts[id] !in deleted
  }

  /** Deleted messages belong to requests that are done. */
  ghost predicate DeletedOk(inbox: map<string, Message>, store: Store, deleted: set<string>) {
    forall r :: r in deleted ==>
      r in inbox && inbox[r].body.Some?
      && inbox[r].body.value.eventId in store.records && Done(store.records[inbox[r].body.value.eventId])
  }

  ghost predicate Books(inbox: map<string, Message>, store: Store, deleted: set<string>, receipts: map<string, string>,
                        slots: multiset<string>) {
    InboxOk(inbox, store) && HandOk(inbox, deleted, receipts, slots) && DeletedOk(inbox, store, deleted)
  }

  ghost predicate Safe(s: System) {
    && Shaped(s.prog)
    && Books(s.inbox, s.core.store, s.core.deleted, s.receipts, Slots(s.prog))
    && (s.prog != [] && s.prog[0].Delete? ==>
          s.prog[0].requestId in s.core.store.records && Done(s.core.store.records[s.prog[0].requestId]))
  }

  lemma BooksShrink(inbox: map<string, Message>, store: Store, deleted: set<string>, receipts: map<string, string>,
                    slots: multiset<string>, fewer: multiset<string>)
    requires Books(inbox, store, deleted, receipts, slots) && fewer <= slots
    ensures Books(inbox, store, deleted, receipts, fewer)
  {
    forall id | id in fewer ensures fewer[id] == 1 && id in slots {
      assert fewer[id] <= slots[id];
    }
  }

  /** A write is for a request in hand. */
  lemma {:induction false} WriteIsInHand(cfg: Config, prog: seq<Op>, t: Tick)
    requires prog != [] && Shaped(prog) && Writes(cfg, prog[0], t)
    ensures Written(cfg, prog[0], t).requestId in Slots(prog)
    ensures Written(cfg, prog[0], t).status != Pending
  {
    if prog[0].Mark? {
      assert prog[0].candidate.requestId in Slots(prog[1..]);
    }
  }

  /** A deletion is put in front only behind the write of a record that is done, and always behind
      a completion. */
  lemma {:induction false} DeleteFollowsDone(cfg: Config, breaker: Breaker.State, prog: seq<Op>, t: Tick)
    requires prog != [] && Shaped(prog)
    ensures var next := Expand(cfg, breaker, prog[0], t) + prog[1..];
            && (next != [] && next[0].Delete? ==>
                  Writes(cfg, prog[0], t)
                  && next[0].requestId == Written(cfg, prog[0], t).requestId && Done(Written(cfg, prog[0], t)))
            && (Writes(cfg, prog[0], t) && Written(cfg, prog[0], t).status == Completed ==>
                  next != [] && next[0] == Delete(Written(cfg, prog[0], t).requestId))
  {
    var pushed, rest := Expand(cfg, breaker, prog[0], t), prog[1..];
    assert rest != [] ==> rest[0] in rest;
    match prog[0] {
      case Gate(b) => NotDeletes(b.candidates, b.modelName);
      case Sweep(_, live, model) => NotDeletes(live, model);
      case _ =>
    }
    assert pushed == [] ==> pushed + rest == rest;
  }

  lemma {:induction false} NotDeletes(cs: seq<Batching.Candidate>, model: string)
    ensures RefuseAll(cs, model) != [] ==> !RefuseAll(cs, model)[0].Delete?
    ensures var prog := MarkAll(cs, model) + AnswerAll(AnswerOrder(cs), model); prog != [] ==> !prog[0].Delete?
  {
  }

  // ----- one step -----

  /** A write for a request in hand. */
  lemma PutKeepsBooks(inbox: map<string, Message>, store: Store, deleted: set<string>, receipts: map<string, string>,
                      slots: multiset<string>, r: Record)
    requires Books(inbox, store, deleted, receipts, slots) && r.requestId in slots
    ensures r.requestId in store.records && Books(inbox, store.Put(r), deleted, receipts, slots)
  {
    PutValid(store, r);
    assert Carries(inbox, receipts[r.requestId], r.requestId);
    forall d | d in deleted ensures inbox[d].body.value.eventId != r.requestId {
      assert Carries(inbox, d, inbox[d].body.value.eventId);
    }
  }

  /** The deletion of the message of a request that is done. */
  lemma DeleteKeepsBooks(inbox: map<string, Message>, store: Store, deleted: set<string>, receipts: map<string, string>,
                         id: string, rest: multiset<string>)
    requires Books(inbox, store, deleted, receipts, multiset{id} + rest)
    requires id in store.records && Done(store.records[id])
    ensures id in receipts && Books(inbox, store, deleted + {receipts[id]}, receipts, rest)
  {
    var slots := multiset{id} + rest;
    assert id in slots && slots[id] == 1 + rest[id];
    assert Carries(inbox, receipts[id], id);
    forall other | other in rest
      ensures rest[other] == 1 && other in receipts && Carries(inbox, receipts[other], other)
              && receipts[other] !in deleted && receipts[other] != receipts[id]
    {
      assert other in slots && rest[other] <= slots[other];
    }
  }

  /** The state after one operation. */
  lemma AfterWork(cfg: Config, s: System, t: Tick)
    requires cfg.Valid() && s.prog != []
    ensures var s' := Next(cfg, s, Work(t));
            && s'.inbox == s.inbox && s'.receipts == s.receipts
            && s'.core == Effect(cfg, s.receipts, s.core, s.prog[0], t)
            && s'.prog == Expand(cfg, s.core.breaker, s.prog[0], t) + s.prog[1..]
  {
  }

  lemma WriteEffect(cfg: Config, receipts: map<string, string>, core: Core, op: Op, t: Tick)
    requires Writes(cfg, op, t)
    ensures var core', r := Effect(cfg, receipts, core, op, t), Written(cfg, op, t);
            && core'.store == core.store.Put(r) && core'.deleted == core.deleted
            && core'.completions == core.completions + if r.status == Completed then [r.requestId] else []
  {
  }

  lemma WriteKeepsSafe(cfg: Config, s: System, t: Tick)
    requires cfg.Valid() && Safe(s) && s.prog != [] && Writes(cfg, s.prog[0], t)
    ensures Safe(Next(cfg, s, Work(t)))
  {
    var r, s' := Written(cfg, s.prog[0], t), Next(cfg, s, Work(t));
    AfterWork(cfg, s, t);
    WriteEffect(cfg, s.receipts, s.core, s.prog[0], t);
    WriteIsInHand(cfg, s.prog, t);
    PutKeepsBooks(s.inbox, s.core.store, s.core.deleted, s.receipts, Slots(s.prog), r);
    ShapeAfterWork(cfg, s, t);
    BooksShrink(s.inbox, s'.core.store, s.core.deleted, s.receipts, Slots(s.prog), Slots(s'.prog));
  }

  lemma ShapeAfterWork(cfg: Config, s: System, t: Tick)
    requires cfg.Valid() && s.prog != [] && Shaped(s.prog)
    ensures var prog := Next(cfg, s, Work(t)).prog;
            && Continues(prog, Slots(s.prog))
            && (prog != [] && prog[0].Delete? ==>
                  Writes(cfg, s.prog[0], t)
                  && prog[0].requestId == Written(cfg, s.prog[0], t).requestId && Done(Written(cfg, s.prog[0], t)))
            && (Writes(cfg, s.prog[0], t) && Written(cfg, s.prog[0], t).status == Completed ==>
                  prog != [] && prog[0] == Delete(Written(cfg, s.prog[0], t).requestId))
  {
    AfterWork(cfg, s, t);
    StepShape(cfg, s.core.breaker, s.prog, t);
    DeleteFollowsDone(cfg, s.core.breaker, s.prog, t);
  }

  lemma DeleteKeepsSafe(cfg: Config, s: System, t: Tick)
    requires cfg.Valid() && Safe(s) && s.prog != [] && s.prog[0].Delete?
    ensures Safe(Next(cfg, s, Work(t)))
    ensures s.prog[0].requestId in s.receipts && Next(cfg, s, Work(t)).prog == s.prog[1..]
    ensures Next(cfg, s, Work(t)).core == s.core.(deleted := s.core.deleted + {s.receipts[s.prog[0].requestId]})
  {
    AfterWork(cfg, s, t);
    RestContinues(s.prog);
    DeleteKeepsBooks(s.inbox, s.core.store, s.core.deleted, s.receipts, s.prog[0].requestId, Slots(s.prog[1..]));
    assert s.prog[1..] != [] ==> s.prog[1..][0] in s.prog[1..];
  }

  lemma OtherKeepsSafe(cfg: Config, s: System, t: Tick)
    requires cfg.Valid() && Safe(s) && s.prog != [] && !s.prog[0].Delete? && !Writes(cfg, s.prog[0], t)
    ensures Safe(Next(cfg, s, Work(t)))
  {
    AfterWork(cfg, s, t);
    ShapeAfterWork(cfg, s, t);
    BooksShrink(s.inbox, s.core.store, s.core.deleted, s.receipts, Slots(s.prog), Slots(Next(cfg, s, Work(t)).prog));
  }

  lemma WorkKeepsSafe(cfg: Config, s: System, t: Tick)
    requires cfg.Valid() && Safe(s)
    ensures Safe(Next(cfg, s, Work(t)))
  {
    if s.prog != [] {
      if s.prog[0].Delete? {
        DeleteKeepsSafe(cfg, s, t);
      } else if Writes(cfg, s.prog[0], t) {
        WriteKeepsSafe(cfg, s, t);
      } else {
        OtherKeepsSafe(cfg, s, t);
      }
    }
  }

  // ----- a delivery -----

  lemma {:induction false} IdBagConcat(a: seq<Batching.Candidate>, b: seq<Batching.Candidate>)
    ensures IdBag(a + b) == IdBag(a) + IdBag(b)
  {
    if a == [] {
      assert a + b == b;
    } else {
      IdBagConcat(a[1..], b);
      IdBagCons(a[0], a[1..] + b);
      Sorting.ShiftHead([], a);
      Sorting.ConcatAssociative([a[0]], a[1..], b);
      Sorting.SumAssociative(multiset{a[0].requestId}, IdBag(a[1..]), IdBag(b));
    }
  }

  lemma {:induction false} IdBagCons(c: Batching.Candidate, cs: seq<Batching.Candidate>)
    ensures IdBag([c] + cs) == multiset{c.requestId} + IdBag(cs)
  {
    assert ([c] + cs)[1..] == cs;
  }

  lemma {:induction false} IdBagIgnoresOrder(a: seq<Batching.Candidate>, b: seq<Batching.Candidate>)
    requires multiset(a) == multiset(b)
    ensures IdBag(a) == IdBag(b)
  {
    Sorting.SameMembers(a, b);
    if a != [] {
      assert a[0] in b;
      var j :| 0 <= j < |b| && b[j] == a[0];
      var before, after := b[..j], b[j + 1..];
      Sorting.SplitAt(b, j);
      Sorting.DropMatching(a, b, j);
      IdBagIgnoresOrder(a[1..], before + after);
      IdBagCons(b[j], after);
      IdBagConcat(before, [b[j]] + after);
      IdBagConcat(before, after);
      Sorting.SumAssociative(IdBag(before), multiset{b[j].requestId}, IdBag(after));
    }
  }

  lemma {:induction false} GatesShaped(bs: seq<Batching.Batch>)
    ensures Shaped(Gates(bs)) && NoDelete(Gates(bs)) && Slots(Gates(bs)) == IdBag(BatchingProofs.Flatten(bs))
  {
    if bs != [] {
      var b, more := bs[0], bs[1..];
      GatesShaped(more);
      InFront(Gate(b), Gates(more));
      Sorting.ShiftHead([], bs);
      BatchingProofs.FlattenConcat([b], more);
      BatchingProofs.FlattenOne(b);
      IdBagConcat(b.candidates, BatchingProofs.Flatten(more));
    }
  }

  /** The requests in `bag` belong to the messages `ms`, by their receipts. */
  ghost predicate FromMessages(receipts: map<string, string>, bag: multiset<string>, ms: seq<Message>) {
    forall id :: id in bag ==> id in receipts && exists m :: m in ms && receipts[id] == m.receipt
  }

  lemma DeliverOne(inbox: map<string, Message>, store: Store, deleted: set<string>, receipts: map<string, string>,
                   bag: multiset<string>, init: seq<Message>, m: Message, id: string)
    requires InboxOk(inbox, store) && HandOk(inbox, deleted, receipts, bag) && FromMessages(receipts, bag, init)
    requires Carries(inbox, m.receipt, id) && m.receipt !in deleted && forall k :: k in init ==> k.receipt != m.receipt
    ensures HandOk(inbox, deleted, receipts[id := m.receipt], bag + multiset{id})
    ensures FromMessages(receipts[id := m.receipt], bag + multiset{id}, init + [m])
  {
    NotYetDelivered(inbox, store, deleted, receipts, bag, init, m, id);
    assert m in init + [m];
    forall x | x in bag ensures exists k :: k in init + [m] && receipts[x] == k.receipt {
      var k :| k in init && receipts[x] == k.receipt;
      assert k in init + [m];
    }
  }

  /** Every candidate's id is mapped to the receipt of its own message. */
  lemma {:induction false} DeliveryFacts(cfg: Config, latency: Latency.Tracker, inbox: map<string, Message>,
                                         store: Store, deleted: set<string>, ms: seq<Message>)
    requires cfg.router.Valid() && InboxOk(inbox, store)
    requires forall m :: m in ms ==> m.receipt in inbox && inbox[m.receipt] == m && m.receipt !in deleted
    requires forall i, j :: 0 <= i < j < |ms| ==> ms[i].receipt != ms[j].receipt
    ensures var bag := IdBag(CandidatesOf(cfg, latency, ms));
            HandOk(inbox, deleted, ReceiptsOf(ms), bag) && FromMessages(ReceiptsOf(ms), bag, ms)
  {
    if ms != [] {
      var init, m := ms[..|ms| - 1], ms[|ms| - 1];
      assert ms == init + [m];
      assert m in ms && forall k :: k in init ==> k in ms && k.receipt != m.receipt;
      DeliveryFacts(cfg, latency, inbox, store, deleted, init);
      var before := CandidatesOf(cfg, latency, init);
      match m.body {
        case None =>
          assert before + [] == before;
          assert forall k :: k in init ==> k in ms;
        case Some(task) =>
          IdBagSnoc(before, CandidateOf(cfg, latency, task));
          DeliverOne(inbox, store, deleted, ReceiptsOf(init), IdBag(before), init, m, task.eventId);
      }
    }
  }

  lemma NotYetDelivered(inbox: map<string, Message>, store: Store, deleted: set<string>, receipts: map<string, string>,
                        bag: multiset<string>, init: seq<Message>, m: Message, id: string)
    requires InboxOk(inbox, store) && HandOk(inbox, deleted, receipts, bag)
    requires FromMessages(receipts, bag, init)
    requires Carries(inbox, m.receipt, id) && forall k :: k in init ==> k.receipt != m.receipt
    ensures id !in bag
  {
    forall x | x in bag ensures x != id {
      assert Carries(inbox, receipts[x], x);
    }
  }

  lemma ReceiveKeepsSafe(cfg: Config, s: System, ms: seq<Message>)
    requires cfg.Valid() && Safe(s) && CanReceive(s, ms)
    ensures Safe(Next(cfg, s, Receive(ms)))
  {
    DeliveryFacts(cfg, s.core.latency, s.inbox, s.core.store, s.core.deleted, ms);
    ProgramHoldsDelivery(cfg, s.core.latency, ms);
  }

  lemma {:induction false} ProgramHoldsDelivery(cfg: Config, latency: Latency.Tracker, ms: seq<Message>)
    requires cfg.Valid()
    ensures var prog := ProgramFor(cfg, latency, ms);
            Shaped(prog) && NoDelete(prog) && Slots(prog) == IdBag(CandidatesOf(cfg, latency, ms))
            && (prog != [] ==> !prog[0].Delete?)
  {
    var cs := CandidatesOf(cfg, latency, ms);
    var bs := Batching.Plan(cfg.batching, cs);
    BatchingProofs.BatchesPartitionInput(cfg.batching, cs);
    IdBagIgnoresOrder(cs, BatchingProofs.Flatten(bs));
    GatesShaped(bs);
    assert Gates(bs) != [] ==> Gates(bs)[0] in Gates(bs);
  }

  lemma PublishKeepsInbox(inbox: map<string, Message>, store: Store, m: Message, task: Task, r: Record)
    requires InboxOk(inbox, store) && m.receipt !in inbox && m.body == Some(task)
    requires task.eventId !in store.records && r.requestId == task.eventId
    ensures InboxOk(inbox[m.receipt := m], store.Put(r))
  {
    var inbox' := inbox[m.receipt := m];
    PutValid(store, r);
    forall x, id | Carries(inbox', x, id)
      ensures id in store.Put(r).records && (x == m.receipt <==> id == task.eventId)
    {
      assert x != m.receipt ==> Carries(inbox, x, id);
    }
    forall x, x', id | Carries(inbox', x, id) && Carries(inbox', x', id) ensures x == x' {
      assert x != m.receipt ==> Carries(inbox, x, id);
      assert x' != m.receipt ==> Carries(inbox, x', id);
    }
  }

  lemma PoisonKeepsInbox(inbox: map<string, Message>, store: Store, m: Message)
    requires InboxOk(inbox, store) && m.receipt !in inbox && m.body == None
    ensures InboxOk(inbox[m.receipt := m], store)
  {
    var inbox' := inbox[m.receipt := m];
    forall x, id | Carries(inbox', x, id) ensures id in store.records {
      assert Carries(inbox, x, id);
    }
    forall x, x', id | Carries(inbox', x, id) && Carries(inbox', x', id) ensures x == x' {
      assert Carries(inbox, x, id) && Carries(inbox, x', id);
    }
  }

  /** One more message, and a record for it, disturb neither the requests in hand nor the deleted. */
  lemma ExtensionKeepsBooks(inbox: map<string, Message>, store: Store, deleted: set<string>,
                            receipts: map<string, string>,
                            slots: multiset<string>, m: Message, store': Store)
    requires Books(inbox, store, deleted, receipts, slots) && m.receipt !in inbox
    requires InboxOk(inbox[m.receipt := m], store')
    requires forall id :: id in store.records ==> id in store'.records && store'.records[id] == store.records[id]
    ensures Books(inbox[m.receipt := m], store', deleted, receipts, slots)
  {
    forall id | id in slots ensures Carries(inbox[m.receipt := m], receipts[id], id) {
      assert Carries(inbox, receipts[id], id);
    }
  }

  lemma PublishKeepsSafe(cfg: Config, s: System, m: Message, model: string)
    requires cfg.Valid() && Safe(s) && CanPublish(s, m)
    ensures Safe(Next(cfg, s, Publish(m, model)))
  {
    match m.body {
      case None => PoisonKeepsInbox(s.inbox, s.core.store, m);
      case Some(task) =>
        PublishKeepsInbox(s.inbox, s.core.store, m, task,
                          Record(task.eventId, Pending, Some(task.timestamp), None, Some(model), None, None));
    }
    ExtensionKeepsBooks(s.inbox, s.core.store, s.core.deleted, s.receipts, Slots(s.prog), m,
                        Next(cfg, s, Publish(m, model)).core.store);
  }

  /** Every event keeps safety, a crash at any point included. */
  lemma NextKeepsSafe(cfg: Config, s: System, e: Event)
    requires cfg.Valid() && Safe(s)
    ensures Safe(Next(cfg, s, e))
  {
    match e
    case Publish(m, model) =>
      if CanPublish(s, m) {
        PublishKeepsSafe(cfg, s, m, model);
      }
    case Receive(ms) =>
      if CanReceive(s, ms) {
        ReceiveKeepsSafe(cfg, s, ms);
      }
    case Work(t) => WorkKeepsSafe(cfg, s, t);
    case Crash =>
  }

  // ----- completion is final, unless a crash separates it from its deletion -----

  predicate CompletedIn(store: Store, id: string) {
    id in store.records && store.records[id].status == Completed
  }

  predicate HasCompleted(s: System, id: string) {
    CompletedIn(s.core.store, id)
  }

  /** Every completed record is still there, as it was. */
  ghost predicate KeepsCompleted(before: Store, after: Store) {
    forall id :: CompletedIn(before, id) ==> CompletedIn(after, id) && after.records[id] == before.records[id]
  }

  /** The request whose message the next operation deletes, if it does. */
  function Due(prog: seq<Op>): set<string> {
    if prog != [] && prog[0].Delete? then {prog[0].requestId} else {}
  }

  /** A completed request whose message is still there is about to be deleted, by some worker; the
      completions so far are of distinct requests, and all stand. */
  ghost predicate FinalBooks(inbox: map<string, Message>, store: Store, deleted: set<string>, completions: seq<string>,
                             due: set<string>)
  {
    && (forall r, id :: Carries(inbox, r, id) && r !in deleted && CompletedIn(store, id) ==> id in due)
    && (forall i, j :: 0 <= i < j < |completions| ==> completions[i] != completions[j])
    && (forall id :: id in completions ==> CompletedIn(store, id))
  }

  /** `others` are the requests about to be deleted by other workers. */
  ghost predicate FinalOk(s: System, others: set<string>) {
    FinalBooks(s.inbox, s.core.store, s.core.deleted, s.core.completions, Due(s.prog) + others)
  }

  ghost predicate Apart(others: set<string>, slots: multiset<string>) {
    forall id :: id in others ==> id !in slots
  }

  /** The next operation would delete the message of a completed request. */
  predicate AboutToDeleteCompleted(s: System) {
    s.prog != [] && s.prog[0].Delete? && HasCompleted(s, s.prog[0].requestId)
  }

  function Listing(r: Record): seq<string> {
    if r.status == Completed then [r.requestId] else []
  }

  /** While the worker itself has no deletion to do, no request in its hand is completed, so a write
      overwrites none. */
  lemma PutKeepsFinalBooks(inbox: map<string, Message>, store: Store, deleted: set<string>,
                           receipts: map<string, string>,
                           slots: multiset<string>, completions: seq<string>, r: Record, others: set<string>)
    requires HandOk(inbox, deleted, receipts, slots) && r.requestId in slots && Apart(others, slots)
    requires FinalBooks(inbox, store, deleted, completions, {} + others)
    ensures KeepsCompleted(store, store.Put(r))
    ensures FinalBooks(inbox, store.Put(r), deleted, completions + Listing(r),
                       (if r.status == Completed then {r.requestId} else {}) + others)
  {
    assert Carries(inbox, receipts[r.requestId], r.requestId);
    assert r.requestId !in completions;
  }

  lemma WriteKeepsFinal(cfg: Config, s: System, t: Tick, others: set<string>)
    requires cfg.Valid() && Safe(s) && FinalOk(s, others) && Apart(others, Slots(s.prog)) && s.prog != []
             && Writes(cfg, s.prog[0], t)
    ensures FinalOk(Next(cfg, s, Work(t)), others) && KeepsCompleted(s.core.store, Next(cfg, s, Work(t)).core.store)
  {
    var r := Written(cfg, s.prog[0], t);
    AfterWork(cfg, s, t);
    WriteEffect(cfg, s.receipts, s.core, s.prog[0], t);
    WriteIsInHand(cfg, s.prog, t);
    PutKeepsFinalBooks(s.inbox, s.core.store, s.core.deleted, s.receipts, Slots(s.prog), s.core.completions, r, others);
    DueAfterWrite(cfg, s, t);
  }

  lemma DueAfterWrite(cfg: Config, s: System, t: Tick)
    requires cfg.Valid() && Safe(s) && s.prog != [] && Writes(cfg, s.prog[0], t)
    ensures var r, due := Written(cfg, s.prog[0], t), Due(Next(cfg, s, Work(t)).prog);
            due == if r.status == Completed then {r.requestId} else due * {r.requestId}
  {
    ShapeAfterWork(cfg, s, t);
  }

  lemma DeleteKeepsFinal(cfg: Config, s: System, t: Tick, others: set<string>)
    requires cfg.Valid() && Safe(s) && FinalOk(s, others) && Apart(others, Slots(s.prog)) && s.prog != []
             && s.prog[0].Delete?
    ensures FinalOk(Next(cfg, s, Work(t)), others) && KeepsCompleted(s.core.store, Next(cfg, s, Work(t)).core.store)
  {
    var id := s.prog[0].requestId;
    AfterWork(cfg, s, t);
    DeleteEffect(cfg, s.receipts, s.core, id, t);
    NothingDueNext(s.prog);
    DeleteKeepsFinalBooks(s.inbox, s.core.store, s.core.deleted, s.receipts, Slots(s.prog), s.core.completions, id,
                          others);
  }

  lemma DeleteEffect(cfg: Config, receipts: map<string, string>, core: Core, id: string, t: Tick)
    requires id in receipts
    ensures Effect(cfg, receipts, core, Delete(id), t) == core.(deleted := core.deleted + {receipts[id]})
    ensures Expand(cfg, core.breaker, Delete(id), t) == []
  {
  }

  lemma {:induction false} NothingDueNext(prog: seq<Op>)
    requires Shaped(prog) && prog != []
    ensures Due([] + prog[1..]) == {}
  {
    assert prog[1..] != [] ==> prog[1..][0] in prog[1..];
  }

  /** The due deletion removes the message of the one completed request that still has one. */
  lemma DeleteKeepsFinalBooks(inbox: map<string, Message>, store: Store, deleted: set<string>,
                              receipts: map<string, string>,
                              slots: multiset<string>, completions: seq<string>, id: string, others: set<string>)
    requires HandOk(inbox, deleted, receipts, slots) && id in slots && InboxOk(inbox, store)
    requires FinalBooks(inbox, store, deleted, completions, {id} + others)
    ensures FinalBooks(inbox, store, deleted + {receipts[id]}, completions, {} + others)
  {
    assert Carries(inbox, receipts[id], id);
  }

  lemma OtherKeepsFinal(cfg: Config, s: System, t: Tick, others: set<string>)
    requires cfg.Valid() && Safe(s) && FinalOk(s, others) && Apart(others, Slots(s.prog)) && s.prog != []
             && !s.prog[0].Delete? && !Writes(cfg, s.prog[0], t)
    ensures FinalOk(Next(cfg, s, Work(t)), others) && KeepsCompleted(s.core.store, Next(cfg, s, Work(t)).core.store)
  {
    AfterWork(cfg, s, t);
    ShapeAfterWork(cfg, s, t);
  }

  lemma WorkKeepsFinal(cfg: Config, s: System, t: Tick, others: set<string>)
    requires cfg.Valid() && Safe(s) && FinalOk(s, others) && Apart(others, Slots(s.prog))
    ensures FinalOk(Next(cfg, s, Work(t)), others) && KeepsCompleted(s.core.store, Next(cfg, s, Work(t)).core.store)
  {
    if s.prog != [] {
      if s.prog[0].Delete? {
        DeleteKeepsFinal(cfg, s, t, others);
      } else if Writes(cfg, s.prog[0], t) {
        WriteKeepsFinal(cfg, s, t, others);
      } else {
        OtherKeepsFinal(cfg, s, t, others);
      }
    }
  }

  lemma PublishKeepsFinal(cfg: Config, s: System, m: Message, model: string, others: set<string>)
    requires cfg.Valid() && Safe(s) && FinalOk(s, others) && Apart(others, Slots(s.prog)) && CanPublish(s, m)
    ensures FinalOk(Next(cfg, s, Publish(m, model)), others)
    ensures KeepsCompleted(s.core.store, Next(cfg, s, Publish(m, model)).core.store)
  {
    var s' := Next(cfg, s, Publish(m, model));
    assert s'.core.completions == s.core.completions by {
      assert s.core.completions + [] == s.core.completions;
    }
    forall r, id | Carries(s'.inbox, r, id) && r !in s'.core.deleted && CompletedIn(s'.core.store, id)
      ensures id in Due(s.prog) + others
    {
      assert Carries(s.inbox, r, id) && CompletedIn(s.core.store, id);
    }
  }

  lemma NextKeepsFinal(cfg: Config, s: System, e: Event, others: set<string>)
    requires cfg.Valid() && Safe(s) && FinalOk(s, others) && Apart(others, Slots(s.prog))
             && !(e.Crash? && AboutToDeleteCompleted(s))
    ensures FinalOk(Next(cfg, s, e), others) && KeepsCompleted(s.core.store, Next(cfg, s, e).core.store)
  {
    match e
    case Publish(m, model) =>
      if CanPublish(s, m) {
        PublishKeepsFinal(cfg, s, m, model, others);
      }
    case Receive(ms) =>
    case Work(t) => WorkKeepsFinal(cfg, s, t, others);
    case Crash =>
  }

  // ----- a delivery of one message -----

  /** A single candidate makes a single batch. */
  lemma PlanOfOne(p: Batching.Policy, c: Batching.Candidate)
    requires p.Valid() && p.allowSingleItemBatches
    ensures |Batching.Plan(p, [c])| == 1
    ensures Batching.Plan(p, [c])[0].candidates == [c] && Batching.Plan(p, [c])[0].modelName == c.modelName
  {
    var bs := Batching.Plan(p, [c]);
    BatchingProofs.BatchesPartitionInput(p, [c]);
    BatchingProofs.BatchesWellFormed(p, [c]);
    Sorting.SameMembers([c], BatchingProofs.Flatten(bs));
    OnlyBatch(p, bs, c);
  }

  lemma {:induction false} OnlyBatch(p: Batching.Policy, bs: seq<Batching.Batch>, c: Batching.Candidate)
    requires forall b :: b in bs ==> BatchingProofs.WellFormed(p, b)
    requires |BatchingProofs.Flatten(bs)| == 1 && c in BatchingProofs.Flatten(bs)
    ensures |bs| == 1 && bs[0].candidates == [c] && bs[0].modelName == c.modelName
  {
    FlattenLength(p, bs);
    assert |bs| == 1;
    var b := bs[0];
    assert b in bs && bs == [b];
    BatchingProofs.FlattenOne(b);
    assert b.candidates[0] == c && c in b.candidates;
  }

  lemma {:induction false} FlattenLength(p: Batching.Policy, bs: seq<Batching.Batch>)
    requires forall b :: b in bs ==> BatchingProofs.WellFormed(p, b)
    ensures |BatchingProofs.Flatten(bs)| >= |bs|
  {
    if bs != [] {
      assert bs[|bs| - 1] in bs;
      FlattenLength(p, bs[..|bs| - 1]);
    }
  }

  /** The scheduler places a batch that holds this task alone. */
  predicate PlacedAlone(cfg: Config, latency: Latency.Tracker, task: Task)
    requires cfg.router.Valid()
  {
    var model := CandidateOf(cfg, latency, task).modelName;
    !cfg.gpuSchedulingEnabled
    || Scheduler.Schedule(cfg.profiles, cfg.scheduling, model, cfg.devices, 1).status == Scheduler.Scheduled
  }

  /** The program for one delivered message is one gate for its one candidate. */
  lemma ProgramOfOne(cfg: Config, latency: Latency.Tracker, m: Message)
    requires cfg.Valid() && m.body.Some?
    ensures var prog := ProgramFor(cfg, latency, [m]);
            && |prog| == 1 && prog[0].Gate?
            && prog[0].batch.candidates == [CandidateOf(cfg, latency, m.body.value)]
            && (Placed(cfg, prog[0].batch) <==> PlacedAlone(cfg, latency, m.body.value))
  {
    var c := CandidateOf(cfg, latency, m.body.value);
    assert [m][..0] == [];
    assert CandidatesOf(cfg, latency, [m]) == [c];
    PlanOfOne(cfg.batching, c);
    var bs := Batching.Plan(cfg.batching, [c]);
    assert Gates(bs) == [Gate(bs[0])] + Gates(bs[1..]);
  }
}
