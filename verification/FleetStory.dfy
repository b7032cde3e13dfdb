/** In which order things happen in a queue worker, and what it reports to its breaker and its latency
    tracker. */
module FleetStories {
  import opened Results
  import opened Worker
  import opened Fleets
  import opened FleetRecords
  import RagWorkers
  import Batching
  import Breaker
  import Latency
  import Scheduler
  import Sorting

  // ----- the order of events -----

  /** What happens while a program is executed. */
  function ExecuteFacts(cfg: Config, receipts: map<string, string>, core: Core, prog: seq<Op>, world: nat -> Tick,
                        n: nat)
    : seq<Fact>
    decreases Cost(prog)
  {
    if prog == [] then []
    else
      StepShrinks(cfg, core.breaker, prog, world(n));
      StepFacts(cfg, core.breaker, prog[0], world(n))
        + ExecuteFacts(cfg, receipts, Effect(cfg, receipts, core, prog[0], world(n)),
                       Expand(cfg, core.breaker, prog[0], world(n)) + prog[1..], world, n + 1)
  }

  /** Every request is refused, or checked, or started, or answered, in order. */
  ghost predicate Refusals(cs: seq<Batching.Candidate>, model: string, facts: seq<Fact>) {
    && |facts| == |cs|
    && forall i :: 0 <= i < |cs| ==> facts[i].Refused? && facts[i].candidate == cs[i] && facts[i].model == model
  }

  ghost predicate Checks(cs: seq<Batching.Candidate>, model: string, facts: seq<Fact>) {
    && |facts| == |cs|
    && forall i :: 0 <= i < |cs| ==> facts[i].Checked? && facts[i].candidate == cs[i] && facts[i].model == model
  }

  ghost predicate Starts(cs: seq<Batching.Candidate>, model: string, facts: seq<Fact>) {
    |facts| == |cs| && forall i :: 0 <= i < |cs| ==> facts[i] == Started(cs[i], model)
  }

  ghost predicate Answering(cs: seq<Batching.Candidate>, model: string, facts: seq<Fact>) {
    && |facts| == |cs|
    && forall i :: 0 <= i < |cs| ==> facts[i].Answered? && facts[i].candidate == cs[i] && facts[i].model == model
  }

  /** Those that were young enough when they were checked. */
  function Survivors(cfg: Config, checks: seq<Fact>): seq<Batching.Candidate>
    requires forall f :: f in checks ==> f.Checked?
  {
    if checks == [] then []
    else
      var first := checks[0];
      (if first.now - first.candidate.timestamp <= cfg.ttlSeconds then [first.candidate] else [])
        + Survivors(cfg, checks[1..])
  }

  ghost predicate DistinctIds(cs: seq<Batching.Candidate>) {
    forall i, j :: 0 <= i < j < |cs| ==> cs[i].requestId != cs[j].requestId
  }

  /** The k-th is the last with its id. */
  ghost predicate LastWithId(cs: seq<Batching.Candidate>, k: nat, id: string) {
    k < |cs| && cs[k].requestId == id && forall j :: k < j < |cs| ==> cs[j].requestId != id
  }

  ghost predicate FirstWithId(cs: seq<Batching.Candidate>, k: nat, c: Batching.Candidate) {
    k < |cs| && cs[k] == c && forall j :: 0 <= j < k ==> cs[j].requestId != c.requestId
  }

  ghost predicate IsFirst(cs: seq<Batching.Candidate>, c: Batching.Candidate) {
    exists k :: FirstWithId(cs, k, c)
  }

  /** The last place of `id` is not before that of `other`. */
  ghost predicate LastsLater(cs: seq<Batching.Candidate>, id: string, other: string) {
    exists k, l :: k <= l && LastWithId(cs, k, other) && LastWithId(cs, l, id)
  }

  function IdsIn(cs: seq<Batching.Candidate>): seq<string> {
    seq(|cs|, i requires 0 <= i < |cs| => cs[i].requestId)
  }

  /** The candidates by the last places of their ids; of those with one id the first stands for all. With
      distinct ids they are in order. */
  ghost predicate ByLastPlace(live: seq<Batching.Candidate>, order: seq<Batching.Candidate>) {
    && multiset(IdsIn(order)) == multiset(IdsIn(live))
    && (forall c :: c in order ==> IsFirst(live, c))
    && (forall i, j :: 0 <= i < j < |order| ==> LastsLater(live, order[j].requestId, order[i].requestId))
    && (DistinctIds(live) ==> order == live)
  }

  /** What happens to a batch that gets through the gate: every request is checked; those that survive
      are started, and then answered by the last places of their ids. */
  ghost predicate PassedStory(cfg: Config, b: Batching.Batch, facts: seq<Fact>, live: seq<Batching.Candidate>,
                              order: seq<Batching.Candidate>)
  {
    var n, m := |b.candidates|, |live|;
    && |facts| == n + m + m
    && Checks(b.candidates, b.modelName, facts[..n]) && live == Survivors(cfg, facts[..n])
    && Starts(live, b.modelName, facts[n..n + m])
    && Answering(order, b.modelName, facts[n + m..]) && ByLastPlace(live, order)
  }

  /** What happens to a batch: it meets the gate. Without a device it is left alone; if the breaker refuses
      it, every request is refused. */
  ghost predicate BatchStory(cfg: Config, b: Batching.Batch, facts: seq<Fact>) {
    && facts != [] && facts[0].Gated? && facts[0].batch == b
    && if !facts[0].placed then |facts| == 1
       else if !facts[0].granted then Refusals(b.candidates, b.modelName, facts[1..])
       else exists live, order :: PassedStory(cfg, b, facts[1..], live, order)
  }

  /** One batch after the other. */
  ghost predicate Story(cfg: Config, bs: seq<Batching.Batch>, facts: seq<Fact>)
    decreases |bs|, 1
  {
    if bs == [] then facts == []
    else exists k :: Chapter(cfg, bs, facts, k)
  }

  ghost predicate Chapter(cfg: Config, bs: seq<Batching.Batch>, facts: seq<Fact>, k: nat)
    requires bs != []
    decreases |bs|, 0
  {
    k <= |facts| && BatchStory(cfg, bs[0], facts[..k]) && Story(cfg, bs[1..], facts[k..])
  }

  // ----- the order of the answers -----

  lemma {:induction false} LastAtIsLast(cs: seq<Batching.Candidate>, id: string)
    requires RagWorkers.Occurs(cs, id)
    ensures LastWithId(cs, LastAt(cs, id), id)
  {
    if cs[|cs| - 1].requestId != id {
      assert cs == cs[..|cs| - 1] + [cs[|cs| - 1]];
      LastAtIsLast(cs[..|cs| - 1], id);
    }
  }

  lemma {:induction false} FirstLikeIsFirst(cs: seq<Batching.Candidate>, c: Batching.Candidate) returns (k: nat)
    requires RagWorkers.Occurs(cs, c.requestId)
    ensures FirstWithId(cs, k, FirstLike(cs, c))
  {
    if cs[0].requestId == c.requestId {
      k := 0;
    } else {
      assert cs == [cs[0]] + cs[1..];
      var j := FirstLikeIsFirst(cs[1..], c);
      k := j + 1;
    }
  }

  lemma {:induction false} IdsOfSame(a: seq<Batching.Candidate>, b: seq<Batching.Candidate>)
    requires multiset(a) == multiset(b)
    ensures multiset(IdsIn(a)) == multiset(IdsIn(b))
  {
    if a != [] {
      assert a[0] in multiset(b);
      var j :| 0 <= j < |b| && b[j] == a[0];
      var rest := b[..j] + b[j + 1..];
      Sorting.DropMatching(a, b, j);
      IdsOfSame(a[1..], rest);
      assert IdsIn(a) == [a[0].requestId] + IdsIn(a[1..]);
      assert IdsIn(b) == IdsIn(b[..j]) + ([b[j].requestId] + IdsIn(b[j + 1..]));
      assert IdsIn(rest) == IdsIn(b[..j]) + IdsIn(b[j + 1..]);
    } else {
      assert |multiset(b)| == |b|;
    }
  }

  lemma {:induction false} DistinctInOrder(live: seq<Batching.Candidate>)
    requires DistinctIds(live)
    ensures AnswerOrder(live) == live
  {
    var le := ByLast(live);
    forall i | 0 <= i < |live| ensures LastAt(live, live[i].requestId) == i {
      assert live[i] in live;
      LastAtIsLast(live, live[i].requestId);
    }
    Sorting.SortPermutes(le, live);
    Sorting.SortSorts(le, live);
    forall x, y | x in live && y in live && le(x, y) && le(y, x) ensures x == y {
      var i :| 0 <= i < |live| && live[i] == x;
      var j :| 0 <= j < |live| && live[j] == y;
      assert i == j;
    }
    Sorting.SortedUnique(le, live, Sorting.Sort(le, live));
    forall i | 0 <= i < |live| ensures FirstLike(live, live[i]) == live[i] {
      assert live[i] in live;
      var k := FirstLikeIsFirst(live, live[i]);
    }
  }

  lemma {:induction false} AnswerPlace(live: seq<Batching.Candidate>, i: nat)
    requires i < |live|
    ensures var c := AnswerOrder(live)[i];
            LastWithId(live, LastAt(live, c.requestId), c.requestId) && IsFirst(live, c)
  {
    var c := AnswerOrder(live)[i];
    RagWorkers.AnswerOrderOccurs(live, i);
    LastAtIsLast(live, c.requestId);
    var k := FirstLikeIsFirst(live, c);
  }

  lemma {:induction false} AnswerPlaces(live: seq<Batching.Candidate>, i: nat, j: nat)
    requires i < j < |live|
    ensures var order := AnswerOrder(live);
            LastsLater(live, order[j].requestId, order[i].requestId)
  {
    var sorted, order := Sorting.Sort(ByLast(live), live), AnswerOrder(live);
    Sorting.SortPermutes(ByLast(live), live);
    Sorting.SortSorts(ByLast(live), live);
    AnswerPlace(live, i);
    AnswerPlace(live, j);
    assert ByLast(live)(sorted[i], sorted[j]);
    assert LastAt(live, order[i].requestId) <= LastAt(live, order[j].requestId);
  }

  lemma {:induction false} AnswersByLastPlace(live: seq<Batching.Candidate>)
    ensures ByLastPlace(live, AnswerOrder(live))
  {
    var sorted, order := Sorting.Sort(ByLast(live), live), AnswerOrder(live);
    Sorting.SortPermutes(ByLast(live), live);
    IdsOfSame(sorted, live);
    assert IdsIn(order) == IdsIn(sorted);
    forall c | c in order ensures IsFirst(live, c) {
      var i :| 0 <= i < |order| && order[i] == c;
      AnswerPlace(live, i);
    }
    forall i, j | 0 <= i < j < |order|
      ensures LastsLater(live, order[j].requestId, order[i].requestId)
    {
      AnswerPlaces(live, i, j);
    }
    if DistinctIds(live) {
      DistinctInOrder(live);
    }
  }

  // ----- the execution of a program -----

  lemma RefusalsCons(cs: seq<Batching.Candidate>, model: string, f: Fact, facts: seq<Fact>)
    requires cs != [] && f.Refused? && f.candidate == cs[0] && f.model == model && Refusals(cs[1..], model, facts)
    ensures Refusals(cs, model, [f] + facts)
  {
  }

  lemma StartsCons(cs: seq<Batching.Candidate>, model: string, facts: seq<Fact>)
    requires cs != [] && Starts(cs[1..], model, facts)
    ensures Starts(cs, model, [Started(cs[0], model)] + facts)
  {
  }

  lemma AnsweringCons(cs: seq<Batching.Candidate>, model: string, f: Fact, facts: seq<Fact>)
    requires cs != [] && f.Answered? && f.candidate == cs[0] && f.model == model && Answering(cs[1..], model, facts)
    ensures Answering(cs, model, [f] + facts)
  {
  }

  lemma {:induction false} Unfolding(cfg: Config, receipts: map<string, string>, core: Core, op: Op, rest: seq<Op>,
                                     world: nat -> Tick, n: nat) returns (after: Core)
    ensures ExecuteFacts(cfg, receipts, core, [op] + rest, world, n)
         == StepFacts(cfg, core.breaker, op, world(n))
            + ExecuteFacts(cfg, receipts, after, Expand(cfg, core.breaker, op, world(n)) + rest, world, n + 1)
  {
    var prog := [op] + rest;
    assert prog[0] == op && prog[1..] == rest;
    after := Effect(cfg, receipts, core, op, world(n));
  }

  /** Operations that expand to nothing but deletions. */
  lemma {:induction false} Simple(cfg: Config, receipts: map<string, string>, core: Core, op: Op, rest: seq<Op>,
                                  world: nat -> Tick, n: nat) returns (after: Core, n': nat)
    requires op.Refuse? || op.Mark? || op.Answer? || op.Delete?
    ensures ExecuteFacts(cfg, receipts, core, [op] + rest, world, n)
         == StepFacts(cfg, core.breaker, op, world(n)) + ExecuteFacts(cfg, receipts, after, rest, world, n')
  {
    after := Unfolding(cfg, receipts, core, op, rest, world, n);
    n' := n + 1;
    var pushed := Expand(cfg, core.breaker, op, world(n));
    if pushed == [] {
      assert pushed + rest == rest;
    } else {
      after := Unfolding(cfg, receipts, after, pushed[0], rest, world, n + 1);
      n' := n + 2;
      var facts := ExecuteFacts(cfg, receipts, after, rest, world, n');
      assert [] + rest == rest && [] + facts == facts;
    }
  }

  lemma {:induction false} RefusalStory(cfg: Config, receipts: map<string, string>, core: Core,
                                        cs: seq<Batching.Candidate>, model: string, rest: seq<Op>,
                                        world: nat -> Tick, n: nat)
    returns (facts: seq<Fact>, after: Core, n': nat)
    ensures ExecuteFacts(cfg, receipts, core, RefuseAll(cs, model) + rest, world, n)
         == facts + ExecuteFacts(cfg, receipts, after, rest, world, n')
    ensures Refusals(cs, model, facts)
    decreases |cs|
  {
    if cs == [] {
      facts, after, n' := [], core, n;
      assert RefuseAll(cs, model) + rest == rest;
    } else {
      var op, later := Refuse(cs[0], model), RefuseAll(cs[1..], model) + rest;
      Sorting.ConcatAssociative([op], RefuseAll(cs[1..], model), rest);
      var refused, m := Simple(cfg, receipts, core, op, later, world, n);
      var facts';
      facts', after, n' := RefusalStory(cfg, receipts, refused, cs[1..], model, rest, world, m);
      var first := StepFacts(cfg, core.breaker, op, world(n));
      facts := first + facts';
      RefusalsCons(cs, model, first[0], facts');
      Sorting.ConcatAssociative(first, facts', ExecuteFacts(cfg, receipts, after, rest, world, n'));
    }
  }

  lemma {:induction false} StartStory(cfg: Config, receipts: map<string, string>, core: Core,
                                      cs: seq<Batching.Candidate>, model: string, rest: seq<Op>, world: nat -> Tick,
                                      n: nat)
    returns (facts: seq<Fact>, after: Core, n': nat)
    ensures ExecuteFacts(cfg, receipts, core, MarkAll(cs, model) + rest, world, n)
         == facts + ExecuteFacts(cfg, receipts, after, rest, world, n')
    ensures Starts(cs, model, facts)
    decreases |cs|
  {
    if cs == [] {
      facts, after, n' := [], core, n;
      assert MarkAll(cs, model) + rest == rest;
    } else {
      var op, later := Mark(cs[0], model), MarkAll(cs[1..], model) + rest;
      Sorting.ConcatAssociative([op], MarkAll(cs[1..], model), rest);
      var marked, m := Simple(cfg, receipts, core, op, later, world, n);
      var facts';
      facts', after, n' := StartStory(cfg, receipts, marked, cs[1..], model, rest, world, m);
      var first := StepFacts(cfg, core.breaker, op, world(n));
      facts := first + facts';
      StartsCons(cs, model, facts');
      Sorting.ConcatAssociative(first, facts', ExecuteFacts(cfg, receipts, after, rest, world, n'));
    }
  }

  lemma {:induction false} AnswerStory(cfg: Config, receipts: map<string, string>, core: Core,
                                       cs: seq<Batching.Candidate>, model: string, rest: seq<Op>, world: nat -> Tick,
                                       n: nat)
    returns (facts: seq<Fact>, after: Core, n': nat)
    ensures ExecuteFacts(cfg, receipts, core, AnswerAll(cs, model) + rest, world, n)
         == facts + ExecuteFacts(cfg, receipts, after, rest, world, n')
    ensures Answering(cs, model, facts)
    decreases |cs|
  {
    if cs == [] {
      facts, after, n' := [], core, n;
      assert AnswerAll(cs, model) + rest == rest;
    } else {
      var op, later := Answer(cs[0], model), AnswerAll(cs[1..], model) + rest;
      Sorting.ConcatAssociative([op], AnswerAll(cs[1..], model), rest);
      var answered, m := Simple(cfg, receipts, core, op, later, world, n);
      var facts';
      facts', after, n' := AnswerStory(cfg, receipts, answered, cs[1..], model, rest, world, m);
      var first := StepFacts(cfg, core.breaker, op, world(n));
      facts := first + facts';
      AnsweringCons(cs, model, first[0], facts');
      Sorting.ConcatAssociative(first, facts', ExecuteFacts(cfg, receipts, after, rest, world, n'));
    }
  }

  /** The TTL check of the requests still to be checked, with those found alive so far. */
  lemma {:induction false} CheckStory(cfg: Config, receipts: map<string, string>, core: Core,
                                      unchecked: seq<Batching.Candidate>, live: seq<Batching.Candidate>,
                                      model: string, rest: seq<Op>, world: nat -> Tick, n: nat)
    returns (facts: seq<Fact>, after: Core, n': nat)
    ensures Checks(unchecked, model, facts) && forall f :: f in facts ==> f.Checked?
    ensures ExecuteFacts(cfg, receipts, core, [Sweep(unchecked, live, model)] + rest, world, n)
         == facts + ExecuteFacts(cfg, receipts, after,
                                 [Sweep([], live + Survivors(cfg, facts), model)] + rest, world, n')
    decreases |unchecked|
  {
    if unchecked == [] {
      facts, after, n' := [], core, n;
      assert live + [] == live;
    } else {
      var op, c := Sweep(unchecked, live, model), unchecked[0];
      var first := StepFacts(cfg, core.breaker, op, world(n));
      var alive := if IsExpired(cfg, c, world(n).now) then [] else [c];
      var checked, m := CheckOne(cfg, receipts, core, unchecked, live, model, rest, world, n);
      var facts';
      facts', after, n' := CheckStory(cfg, receipts, checked, unchecked[1..], live + alive, model, rest, world, m);
      facts := first + facts';
      ChecksCons(cfg, unchecked, model, facts', world(n).now);
      Sorting.ConcatAssociative(live, alive, Survivors(cfg, facts'));
      var last := Sweep([], live + Survivors(cfg, facts), model);
      Sorting.ConcatAssociative(first, facts', ExecuteFacts(cfg, receipts, after, [last] + rest, world, n'));
    }
  }

  lemma {:induction false} ChecksCons(cfg: Config, cs: seq<Batching.Candidate>, model: string, facts: seq<Fact>,
                                      now: real)
    requires cs != [] && Checks(cs[1..], model, facts) && forall f :: f in facts ==> f.Checked?
    ensures var all := [Checked(cs[0], model, now)] + facts;
            && Checks(cs, model, all) && (forall f :: f in all ==> f.Checked?)
            && Survivors(cfg, all) == (if IsExpired(cfg, cs[0], now) then [] else [cs[0]]) + Survivors(cfg, facts)
  {
    var all := [Checked(cs[0], model, now)] + facts;
    assert all[1..] == facts;
  }

  lemma {:induction false} CheckOne(cfg: Config, receipts: map<string, string>, core: Core,
                                    unchecked: seq<Batching.Candidate>, live: seq<Batching.Candidate>,
                                    model: string, rest: seq<Op>, world: nat -> Tick, n: nat)
    returns (after: Core, m: nat)
    requires unchecked != []
    ensures var alive := if IsExpired(cfg, unchecked[0], world(n).now) then [] else [unchecked[0]];
            ExecuteFacts(cfg, receipts, core, [Sweep(unchecked, live, model)] + rest, world, n)
            == [Checked(unchecked[0], model, world(n).now)]
               + ExecuteFacts(cfg, receipts, after, [Sweep(unchecked[1..], live + alive, model)] + rest, world, m)
  {
    var c, later := unchecked[0], Sweep(unchecked[1..], live, model);
    after := Unfolding(cfg, receipts, core, Sweep(unchecked, live, model), rest, world, n);
    m := n + 1;
    if IsExpired(cfg, c, world(n).now) {
      assert live + [] == live;
      assert [Delete(c.requestId), later] + rest == [Delete(c.requestId)] + ([later] + rest);
      after, m := Simple(cfg, receipts, after, Delete(c.requestId), [later] + rest, world, n + 1);
      var facts := ExecuteFacts(cfg, receipts, after, [later] + rest, world, m);
      assert [] + facts == facts;
    }
  }

  /** The survivors of a batch. */
  lemma {:induction false} LiveStory(cfg: Config, receipts: map<string, string>, core: Core,
                                     live: seq<Batching.Candidate>, model: string, rest: seq<Op>, world: nat -> Tick,
                                     n: nat)
    returns (starts: seq<Fact>, outcome: seq<Fact>, after: Core, n': nat)
    ensures ExecuteFacts(cfg, receipts, core, [Sweep([], live, model)] + rest, world, n)
         == starts + (outcome + ExecuteFacts(cfg, receipts, after, rest, world, n'))
    ensures Starts(live, model, starts) && Answering(AnswerOrder(live), model, outcome)
  {
    var marks, answers := MarkAll(live, model), AnswerAll(AnswerOrder(live), model);
    var begun := Unfolding(cfg, receipts, core, Sweep([], live, model), rest, world, n);
    Sorting.ConcatAssociative(marks, answers, rest);
    var started, k;
    starts, started, k := StartStory(cfg, receipts, begun, live, model, answers + rest, world, n + 1);
    outcome, after, n' := AnswerStory(cfg, receipts, started, AnswerOrder(live), model, rest, world, k);
    var facts := ExecuteFacts(cfg, receipts, begun, marks + (answers + rest), world, n + 1);
    assert [] + facts == facts;
  }

  /** A batch that got through the gate. */
  lemma {:induction false} SweepStory(cfg: Config, receipts: map<string, string>, core: Core, b: Batching.Batch,
                                      rest: seq<Op>, world: nat -> Tick, n: nat)
    returns (facts: seq<Fact>, live: seq<Batching.Candidate>, after: Core, n': nat)
    ensures ExecuteFacts(cfg, receipts, core, [Sweep(b.candidates, [], b.modelName)] + rest, world, n)
         == facts + ExecuteFacts(cfg, receipts, after, rest, world, n')
    ensures PassedStory(cfg, b, facts, live, AnswerOrder(live))
  {
    var checks, checked, m := CheckStory(cfg, receipts, core, b.candidates, [], b.modelName, rest, world, n);
    live := Survivors(cfg, checks);
    assert [] + live == live;
    var starts, outcome;
    starts, outcome, after, n' := LiveStory(cfg, receipts, checked, live, b.modelName, rest, world, m);
    facts := checks + (starts + outcome);
    Regroup(checks, starts, outcome, ExecuteFacts(cfg, receipts, after, rest, world, n'));
    AnswersByLastPlace(live);
    PartsMakeStory(cfg, b, checks, starts, outcome, AnswerOrder(live));
  }

  lemma Regroup<T>(a: seq<T>, b: seq<T>, c: seq<T>, d: seq<T>)
    ensures a + (b + (c + d)) == (a + (b + c)) + d
  {
  }

  lemma {:induction false} PartsMakeStory(cfg: Config, b: Batching.Batch, checks: seq<Fact>, starts: seq<Fact>,
                                          outcome: seq<Fact>, order: seq<Batching.Candidate>)
    requires Checks(b.candidates, b.modelName, checks) && forall f :: f in checks ==> f.Checked?
    requires var live := Survivors(cfg, checks);
             && Starts(live, b.modelName, starts) && Answering(order, b.modelName, outcome)
             && |order| == |live| && ByLastPlace(live, order)
    ensures PassedStory(cfg, b, checks + (starts + outcome), Survivors(cfg, checks), order)
  {
    var facts, n, m := checks + (starts + outcome), |checks|, |starts|;
    assert facts[..n] == checks && facts[n..n + m] == starts && facts[n + m..] == outcome;
  }

  lemma {:induction false} GateStory(cfg: Config, receipts: map<string, string>, core: Core, b: Batching.Batch,
                                     rest: seq<Op>, world: nat -> Tick, n: nat)
    returns (facts: seq<Fact>, after: Core, n': nat)
    ensures BatchStory(cfg, b, facts)
    ensures ExecuteFacts(cfg, receipts, core, [Gate(b)] + rest, world, n)
         == facts + ExecuteFacts(cfg, receipts, after, rest, world, n')
  {
    var gate := StepFacts(cfg, core.breaker, Gate(b), world(n));
    var parts: seq<Fact> := [];
    var next := Unfolding(cfg, receipts, core, Gate(b), rest, world, n);
    after, n' := next, n + 1;
    if !gate[0].placed {
      assert [] + rest == rest;
    } else if !gate[0].granted {
      parts, after, n' := RefusalStory(cfg, receipts, next, b.candidates, b.modelName, rest, world, n + 1);
    } else {
      var live;
      parts, live, after, n' := SweepStory(cfg, receipts, next, b, rest, world, n + 1);
    }
    facts := gate + parts;
    assert facts[1..] == parts;
    Sorting.ConcatAssociative(gate, parts, ExecuteFacts(cfg, receipts, after, rest, world, n'));
  }

  lemma {:induction false} GatesStory(cfg: Config, receipts: map<string, string>, core: Core, bs: seq<Batching.Batch>,
                                      world: nat -> Tick, n: nat)
    ensures Story(cfg, bs, ExecuteFacts(cfg, receipts, core, Gates(bs), world, n))
    decreases |bs|
  {
    if bs != [] {
      assert Gates(bs) == [Gate(bs[0])] + Gates(bs[1..]);
      var facts, after, m := GateStory(cfg, receipts, core, bs[0], Gates(bs[1..]), world, n);
      GatesStory(cfg, receipts, after, bs[1..], world, m);
      var later := ExecuteFacts(cfg, receipts, after, Gates(bs[1..]), world, m);
      assert (facts + later)[..|facts|] == facts && (facts + later)[|facts|..] == later;
      assert Chapter(cfg, bs, facts + later, |facts|);
    }
  }

  /** Processing a delivery: the planned batches meet the gate one after the other, and each is carried to
      its end before the next. */
  lemma {:induction false} BatchesInTurn(cfg: Config, core: Core, ms: seq<Message>, world: nat -> Tick)
    requires cfg.Valid()
    ensures Story(cfg, Batching.Plan(cfg.batching, CandidatesOf(cfg, core.latency, ms)),
                  ExecuteFacts(cfg, ReceiptsOf(ms), core, ProgramFor(cfg, core.latency, ms), world, 0))
  {
    GatesStory(cfg, ReceiptsOf(ms), core, Batching.Plan(cfg.batching, CandidatesOf(cfg, core.latency, ms)), world, 0);
  }

  // ----- what is reported -----

  /** A batch that has a device, or needs none, asks the breaker; an answer reports success if it is a text
      without an error, and failure otherwise. */
  function CallsOf(cfg: Config, op: Op, t: Tick): seq<Breaker.Call> {
    match op
    case Gate(b) =>
      if !cfg.gpuSchedulingEnabled
         || Scheduler.Schedule(cfg.profiles, cfg.scheduling, b.modelName, cfg.devices, |b.candidates|).status
            == Scheduler.Scheduled
      then [Breaker.AllowCall(t.now)] else []
    case Answer(_, _) =>
      if t.text.Some? && t.error.None? then [Breaker.SuccessCall] else [Breaker.FailureCall(t.now)]
    case _ => []
  }

  /** The durations of successes are reported, under the model. */
  function SamplesOf(op: Op, t: Tick): seq<Latency.Sample> {
    if op.Answer? && t.text.Some? && t.error.None? then [Latency.Sample(op.model, t.durationMs)] else []
  }

  datatype Reports = Reports(calls: seq<Breaker.Call>, samples: seq<Latency.Sample>)

  /** What worker `w` reported since it last started. */
  function Reported(cfg: Config, f: Fleet, es: seq<FleetEvent>, w: nat): Reports
    requires cfg.Valid()
  {
    if es == [] then Reports([], [])
    else
      var init, e := es[..|es| - 1], es[|es| - 1];
      var before, now := Reported(cfg, f, init, w), Run(cfg, f, init);
      if e.worker != w || !now.Has(w) then before
      else
        match e
        case Restart(_) => Reports([], [])
        case Act(_, Work(t)) =>
          if now.nodes[w].prog == [] then before
          else
            var op := now.nodes[w].prog[0];
            Reports(before.calls + CallsOf(cfg, op, t), before.samples + SamplesOf(op, t))
        case _ => before
  }

  /** Breaker and tracker are in the state in which these reports, and nothing else, leave them. */
  ghost predicate Reflects(cfg: Config, latency: Latency.Policy, breaker: Breaker.State, tracker: Latency.Tracker,
                           r: Reports)
  {
    && breaker == Breaker.Run(cfg.breaker, Breaker.FRESH, r.calls)
    && tracker == Latency.RecordAll(Latency.Tracker(latency, map[]), r.samples)
  }

  lemma {:induction false} EffectReports(cfg: Config, latency: Latency.Policy, receipts: map<string, string>,
                                         core: Core, op: Op, t: Tick, r: Reports)
    requires Reflects(cfg, latency, core.breaker, core.latency, r)
    ensures var next := Effect(cfg, receipts, core, op, t);
            Reflects(cfg, latency, next.breaker, next.latency,
                     Reports(r.calls + CallsOf(cfg, op, t), r.samples + SamplesOf(op, t)))
  {
    var more, further := CallsOf(cfg, op, t), SamplesOf(op, t);
    assert more == [] ==> r.calls + more == r.calls;
    assert further == [] ==> r.samples + further == r.samples;
    assert more != [] ==> (r.calls + more)[..|r.calls|] == r.calls && (r.calls + more)[|r.calls|] == more[0];
    assert further != [] ==> (r.samples + further)[..|r.samples|] == r.samples;
  }

  lemma {:induction false} RunKeepsPolicy(cfg: Config, n: nat, latency: Latency.Policy, es: seq<FleetEvent>, w: nat)
    requires cfg.Valid() && w < n
    ensures var f := Run(cfg, Initial(n, latency), es);
            f.Has(w) && f.nodes[w].latency.policy == latency
  {
    if es != [] {
      RunKeepsPolicy(cfg, n, latency, es[..|es| - 1], w);
    }
  }

  /** In every run of every fleet, the breaker and the tracker of every worker know what that worker
      reported since it last started. */
  lemma {:induction false} ReportsExactly(cfg: Config, n: nat, latency: Latency.Policy, es: seq<FleetEvent>, w: nat)
    requires cfg.Valid() && w < n
    ensures var f := Run(cfg, Initial(n, latency), es);
            && f.Has(w)
            && Reflects(cfg, latency, f.nodes[w].breaker, f.nodes[w].latency, Reported(cfg, Initial(n, latency), es, w))
  {
    RunKeepsPolicy(cfg, n, latency, es, w);
    if es != [] {
      var init, e := es[..|es| - 1], es[|es| - 1];
      ReportsExactly(cfg, n, latency, init, w);
      var start := Initial(n, latency);
      AdvanceReports(cfg, latency, Run(cfg, start, init), e, w, Reported(cfg, start, init, w));
    }
  }

  lemma {:induction false} AdvanceReports(cfg: Config, latency: Latency.Policy, f: Fleet, e: FleetEvent, w: nat,
                                          r: Reports)
    requires cfg.Valid() && f.Has(w) && f.nodes[w].latency.policy == latency
    requires Reflects(cfg, latency, f.nodes[w].breaker, f.nodes[w].latency, r)
    ensures var next := Advance(cfg, f, e);
            && next.Has(w)
            && Reflects(cfg, latency, next.nodes[w].breaker, next.nodes[w].latency,
                        if e.worker != w then r
                        else
                          match e
                          case Restart(_) => Reports([], [])
                          case Act(_, Work(t)) =>
                            if f.nodes[w].prog == [] then r
                            else Reports(r.calls + CallsOf(cfg, f.nodes[w].prog[0], t),
                                         r.samples + SamplesOf(f.nodes[w].prog[0], t))
                          case _ => r)
  {
    if e.worker == w && e.Act? && e.event.Work? && f.nodes[w].prog != [] {
      var s := f.SystemOf(w);
      EffectReports(cfg, latency, s.receipts, s.core, s.prog[0], e.event.tick, r);
    }
  }
}
