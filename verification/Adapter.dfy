/** The inference adapter: concurrent calls whose results come back in input order. */
module Adapter {
  import opened Options
  import opened Sorting
  import Batching

  datatype Input = Input(requestId: string, prompt: string, context: string)

  datatype Output = Output(requestId: string, text: Option<string>, error: Option<string>, durationMs: real) {
    predicate Success() {
      text.Some? && error.None?
    }
  }

  function InputsFor(cs: seq<Batching.Candidate>): (inputs: seq<Input>)
    ensures |inputs| == |cs|
  {
    seq(|cs|, i requires 0 <= i < |cs| => Input(cs[i].requestId, cs[i].prompt, cs[i].context))
  }

  /** The position of each request id among the inputs; a repeated id keeps its last position. */
  function OrderOf(inputs: seq<Input>): map<string, nat> {
    if inputs == [] then map[]
    else OrderOf(inputs[..|inputs| - 1])[inputs[|inputs| - 1].requestId := |inputs| - 1]
  }

  function Rank(order: map<string, nat>, o: Output): nat {
    if o.requestId in order then order[o.requestId] else 0
  }

  function ByRank(order: map<string, nat>): (Output, Output) -> bool {
    (a, b) => Rank(order, a) <= Rank(order, b)
  }

  /** One outcome per input, for that input's request. */
  ghost predicate Answers(inputs: seq<Input>, outcomes: seq<Output>) {
    |outcomes| == |inputs| && forall i :: 0 <= i < |inputs| ==> outcomes[i].requestId == inputs[i].requestId
  }

  ghost predicate DistinctIds(inputs: seq<Input>) {
    forall i, j :: 0 <= i < j < |inputs| ==> inputs[i].requestId != inputs[j].requestId
  }

  /** `completed` is the outcomes in the order in which the calls finished. */
  method InferBatch(inputs: seq<Input>, completed: seq<Output>, ghost outcomes: seq<Output>)
    returns (results: seq<Output>)
    requires |completed| == |inputs|
    ensures results == Sort(ByRank(OrderOf(inputs)), completed)
    ensures Answers(inputs, outcomes) && multiset(completed) == multiset(outcomes) ==>
              multiset(results) == multiset(outcomes) && (DistinctIds(inputs) ==> results == outcomes)
  {
    if inputs == [] {
      assert |multiset(completed)| == |completed| && |multiset(outcomes)| == |outcomes|;
      return [];
    }
    results := [];
    for i := 0 to |completed|
      invariant results == completed[..i]
    {
      results := results + [completed[i]];
    }
    assert results == completed;
    var order: map<string, nat> := map[];
    for index := 0 to |inputs|
      invariant order == OrderOf(inputs[..index])
    {
      assert inputs[..index + 1][..index] == inputs[..index];
      order := order[inputs[index].requestId := index];
    }
    assert inputs[..|inputs|] == inputs;
    SortPermutes(ByRank(order), results);
    results := Sort(ByRank(order), results);
    if DistinctIds(inputs) && Answers(inputs, outcomes) && multiset(completed) == multiset(outcomes) {
      RestoresInputOrder(inputs, completed, outcomes);
    }
  }

  lemma {:induction false} OrderFacts(inputs: seq<Input>)
    requires DistinctIds(inputs)
    ensures forall i :: 0 <= i < |inputs| ==>
                          inputs[i].requestId in OrderOf(inputs) && OrderOf(inputs)[inputs[i].requestId] == i
  {
    if inputs != [] {
      OrderFacts(inputs[..|inputs| - 1]);
    }
  }

  /** Whatever order the calls finish in, distinct ids put the results back in input order. */
  lemma {:induction false} RestoresInputOrder(inputs: seq<Input>, completed: seq<Output>, outcomes: seq<Output>)
    requires Answers(inputs, outcomes) && multiset(completed) == multiset(outcomes) && DistinctIds(inputs)
    ensures Sort(ByRank(OrderOf(inputs)), completed) == outcomes
  {
    var le := ByRank(OrderOf(inputs));
    OrderFacts(inputs);
    forall i | 0 <= i < |outcomes| ensures Rank(OrderOf(inputs), outcomes[i]) == i {
      assert outcomes[i].requestId == inputs[i].requestId;
    }
    assert Sorted(le, outcomes);
    SortPermutes(le, completed);
    SortSorts(le, completed);
    var sorted := Sort(le, completed);
    forall x, y | x in outcomes && y in outcomes && le(x, y) && le(y, x) ensures x == y {
      var i :| 0 <= i < |outcomes| && outcomes[i] == x;
      var j :| 0 <= j < |outcomes| && outcomes[j] == y;
      assert i == j;
    }
    SortedUnique(le, outcomes, sorted);
  }

  /** The outputs for one request, in order. */
  function OfId(id: string, outputs: seq<Output>): seq<Output> {
    if outputs == [] then []
    else (if outputs[0].requestId == id then [outputs[0]] else []) + OfId(id, outputs[1..])
  }

  /** Repeated ids included: a list of outputs that is in rank order is restored from any order in which
      the calls finish, as long as outputs for one id keep their turns. */
  lemma {:induction false} RestoresRankOrder(order: map<string, nat>, completed: seq<Output>, recorded: seq<Output>)
    requires Sorted(ByRank(order), recorded) && multiset(completed) == multiset(recorded)
    requires forall o :: o in recorded ==> o.requestId in order
    requires forall x, y :: x in order && y in order && order[x] == order[y] ==> x == y
    requires forall id :: OfId(id, completed) == OfId(id, recorded)
    ensures Sort(ByRank(order), completed) == recorded
  {
    var le := ByRank(order);
    SortPermutes(le, completed);
    SortSorts(le, completed);
    SameMembers(completed, recorded);
    forall y ensures Peers(le, y, Sort(le, completed)) == Peers(le, y, recorded) {
      SortStable(le, y, completed);
      PeersHaveRank(order, y, completed);
      PeersHaveRank(order, y, recorded);
      SameRankClass(order, Rank(order, y), completed, recorded);
    }
    SortedByPeers(le, Sort(le, completed), recorded);
  }

  /** The outputs with one rank, in order. */
  function OfRank(order: map<string, nat>, rank: nat, outputs: seq<Output>): seq<Output> {
    if outputs == [] then []
    else (if Rank(order, outputs[0]) == rank then [outputs[0]] else []) + OfRank(order, rank, outputs[1..])
  }

  lemma {:induction false} PeersHaveRank(order: map<string, nat>, y: Output, outputs: seq<Output>)
    ensures Peers(ByRank(order), y, outputs) == OfRank(order, Rank(order, y), outputs)
  {
    if outputs != [] {
      PeersHaveRank(order, y, outputs[1..]);
    }
  }

  lemma {:induction false} RankClass(order: map<string, nat>, rank: nat, id: string, outputs: seq<Output>)
    requires forall o :: o in outputs ==> o.requestId in order && (order[o.requestId] == rank <==> o.requestId == id)
    ensures OfRank(order, rank, outputs) == OfId(id, outputs)
  {
    if outputs != [] {
      RankClass(order, rank, id, outputs[1..]);
      assert outputs[0] in outputs;
    }
  }

  lemma {:induction false} EmptyRankClass(order: map<string, nat>, rank: nat, outputs: seq<Output>)
    requires forall o :: o in outputs ==> Rank(order, o) != rank
    ensures OfRank(order, rank, outputs) == []
  {
    if outputs != [] {
      EmptyRankClass(order, rank, outputs[1..]);
    }
  }

  lemma {:induction false} SameRankClass(order: map<string, nat>, rank: nat, a: seq<Output>, b: seq<Output>)
    requires forall o :: o in a <==> o in b
    requires forall o :: o in b ==> o.requestId in order
    requires forall x, y :: x in order && y in order && order[x] == order[y] ==> x == y
    requires forall id :: OfId(id, a) == OfId(id, b)
    ensures OfRank(order, rank, a) == OfRank(order, rank, b)
  {
    if o :| o in b && order[o.requestId] == rank {
      RankClass(order, rank, o.requestId, a);
      RankClass(order, rank, o.requestId, b);
    } else {
      EmptyRankClass(order, rank, a);
      EmptyRankClass(order, rank, b);
    }
  }
}
