/** Dynamic batching: group compatible candidates, split each group greedily. */
module Batching {
  import opened Sorting

  datatype Candidate = Candidate(
    requestId: string,
    prompt: string,
    context: string,
    modelName: string,
    eventType: string,
    priority: int,
    estimatedTokens: int,
    batchable: bool,
    timestamp: real)  // the `timestamp` entry of raw_payload
  {
    /** The fields that must match before requests share a batch. */
    function CompatibilityKey(): (string, string) {
      (modelName, eventType)
    }
  }

  datatype Reason =
    | NotBatchable
    | HighPrioritySingleton
    | TokenBudgetExceededSingleton
    | CompatibleDynamicBatch
    | SingleBatchableRequest

  /** The batch id (a fresh uuid) and the creation time are not modelled. */
  datatype Batch = Batch(modelName: string, eventType: string, candidates: seq<Candidate>, reason: Reason)

  datatype Policy = Policy(
    maxBatchSize: int,
    maxBatchTokens: int,
    highPriorityThreshold: int,
    allowSingleItemBatches: bool)
  {
    /** What the constructor of the policy enforces. */
    predicate Valid() {
      maxBatchSize >= 1 && maxBatchTokens >= 1 && highPriorityThreshold >= 1
    }
  }

  function Tokens(cs: seq<Candidate>): int {
    if cs == [] then 0 else Tokens(cs[..|cs| - 1]) + cs[|cs| - 1].estimatedTokens
  }

  function MakeBatch(cs: seq<Candidate>, reason: Reason): Batch
    requires cs != []
  {
    Batch(cs[0].modelName, cs[0].eventType, cs, reason)
  }

  /** The sort key (priority, request id). */
  predicate Before(a: Candidate, b: Candidate) {
    a.priority < b.priority || (a.priority == b.priority && StrLe(a.requestId, b.requestId))
  }

  /** Why a candidate must be alone in its batch, if it must. */
  predicate Alone(p: Policy, c: Candidate) {
    !c.batchable || c.priority <= p.highPriorityThreshold || c.estimatedTokens > p.maxBatchTokens
  }

  function AloneReason(p: Policy, c: Candidate): Reason
    requires Alone(p, c)
  {
    if !c.batchable then NotBatchable
    else if c.priority <= p.highPriorityThreshold then HighPrioritySingleton
    else TokenBudgetExceededSingleton
  }

  function Singles(p: Policy, cs: seq<Candidate>): seq<Batch> {
    if cs == [] then []
    else
      var c := cs[|cs| - 1];
      Singles(p, cs[..|cs| - 1]) + if Alone(p, c) then [MakeBatch([c], AloneReason(p, c))] else []
  }

  function Groupable(p: Policy, cs: seq<Candidate>): seq<Candidate> {
    if cs == [] then []
    else
      var c := cs[|cs| - 1];
      Groupable(p, cs[..|cs| - 1]) + if Alone(p, c) then [] else [c]
  }

  /** Compatibility keys in order of first appearance (the order of the Python dict). */
  function Keys(cs: seq<Candidate>): seq<(string, string)> {
    if cs == [] then []
    else
      var ks := Keys(cs[..|cs| - 1]);
      var k := cs[|cs| - 1].CompatibilityKey();
      if k in ks then ks else ks + [k]
  }

  function GroupOf(cs: seq<Candidate>, k: (string, string)): seq<Candidate> {
    if cs == [] then []
    else
      var c := cs[|cs| - 1];
      GroupOf(cs[..|cs| - 1], k) + if c.CompatibilityKey() == k then [c] else []
  }

  /** Must the open batch be closed before `c` is appended? */
  predicate MustClose(p: Policy, current: seq<Candidate>, c: Candidate) {
    || |current| >= p.maxBatchSize
    || (current != [] && Tokens(current) + c.estimatedTokens > p.maxBatchTokens)
  }

  /** The greedy split of `rest`, with the open batch `current`. */
  function SplitFrom(p: Policy, current: seq<Candidate>, rest: seq<Candidate>): seq<Batch>
    requires p.Valid()
    decreases |rest|
  {
    if rest == [] then
      if current != [] && (p.allowSingleItemBatches || |current| > 1)
      then [MakeBatch(current, if |current| > 1 then CompatibleDynamicBatch else SingleBatchableRequest)]
      else []
    else if MustClose(p, current, rest[0]) then
      [MakeBatch(current, CompatibleDynamicBatch)] + SplitFrom(p, [rest[0]], rest[1..])
    else
      SplitFrom(p, current + [rest[0]], rest[1..])
  }

  function SplitGroup(p: Policy, group: seq<Candidate>): seq<Batch>
    requires p.Valid()
  {
    SplitFrom(p, [], group)
  }

  function SplitAll(p: Policy, cs: seq<Candidate>, ks: seq<(string, string)>): seq<Batch>
    requires p.Valid()
  {
    if ks == [] then []
    else SplitAll(p, cs, ks[..|ks| - 1]) + SplitGroup(p, GroupOf(cs, ks[|ks| - 1]))
  }

  /** The batches built for a collection of candidates. */
  function Plan(p: Policy, cs: seq<Candidate>): seq<Batch>
    requires p.Valid()
  {
    var s := Sort(Before, cs);
    var g := Groupable(p, s);
    Singles(p, s) + SplitAll(p, g, Keys(g))
  }

  /** What one more candidate at the end does to the immediate batches and to the rest. */
  lemma {:induction false} SiftSnoc(p: Policy, cs: seq<Candidate>, c: Candidate)
    ensures Groupable(p, cs + [c]) == Groupable(p, cs) + if Alone(p, c) then [] else [c]
    ensures Singles(p, cs + [c])
         == Singles(p, cs) + if Alone(p, c) then [MakeBatch([c], AloneReason(p, c))] else []
  {
    assert (cs + [c])[..|cs|] == cs;
  }

  lemma {:induction false} GroupSnoc(g: seq<Candidate>, c: Candidate, k: (string, string))
    ensures GroupOf(g + [c], k) == if c.CompatibilityKey() == k then GroupOf(g, k) + [c] else GroupOf(g, k)
    ensures Keys(g + [c]) == if c.CompatibilityKey() in Keys(g) then Keys(g) else Keys(g) + [c.CompatibilityKey()]
  {
    assert (g + [c])[..|g|] == g;
  }

  /** The dict of groups, with its key order, holds exactly the groups of `g`. */
  ghost predicate Groups(g: seq<Candidate>, order: seq<(string, string)>,
                         grouped: map<(string, string), seq<Candidate>>)
  {
    && order == Keys(g)
    && (forall k :: k in order <==> k in grouped)
    && (forall k :: k in grouped ==> grouped[k] == GroupOf(g, k))
  }

  lemma {:induction false} AbsentGroup(g: seq<Candidate>, k: (string, string))
    ensures k in Keys(g) <==> GroupOf(g, k) != []
  {
    if g != [] {
      AbsentGroup(g[..|g| - 1], k);
    }
  }

  class DynamicBatcher {
    const policy: Policy

    constructor (policy: Policy)
      requires policy.Valid()
      ensures this.policy == policy
    {
      this.policy := policy;
    }

    method BuildBatches(candidates: seq<Candidate>) returns (batches: seq<Batch>)
      requires policy.Valid()
      ensures batches == Plan(policy, candidates)
    {
      if candidates == [] {
        return [];
      }
      var sorted := Sort(Before, candidates);
      var immediate, order, grouped := Sift(sorted);
      ghost var g := Groupable(policy, sorted);
      batches := immediate;
      for j := 0 to |order|
        invariant batches == immediate + SplitAll(policy, g, order[..j])
      {
        SplitAllSnoc(policy, g, order, j, immediate);
        assert order[j] in order;
        var part := Split(grouped[order[j]]);
        batches := batches + part;
      }
      assert order[..|order|] == order;
    }

    /** One more group. */
    static lemma {:induction false} SplitAllSnoc(policy: Policy, g: seq<Candidate>, order: seq<(string, string)>,
                                                 j: nat, immediate: seq<Batch>)
      requires policy.Valid() && j < |order|
      ensures immediate + SplitAll(policy, g, order[..j + 1])
           == (immediate + SplitAll(policy, g, order[..j])) + SplitGroup(policy, GroupOf(g, order[j]))
    {
      assert order[..j + 1][..j] == order[..j];
      ConcatAssociative(immediate, SplitAll(policy, g, order[..j]), SplitGroup(policy, GroupOf(g, order[j])));
    }

    /** The first loop: candidates that must be alone, and the groups of the others. */
    method Sift(sorted: seq<Candidate>)
      returns (immediate: seq<Batch>, order: seq<(string, string)>,
               grouped: map<(string, string), seq<Candidate>>)
      requires policy.Valid()
      ensures immediate == Singles(policy, sorted)
      ensures Groups(Groupable(policy, sorted), order, grouped)
    {
      immediate, order, grouped := [], [], map[];
      for i := 0 to |sorted|
        invariant immediate == Singles(policy, sorted[..i])
        invariant Groups(Groupable(policy, sorted[..i]), order, grouped)
      {
        var candidate := sorted[i];
        ghost var g := Groupable(policy, sorted[..i]);
        assert sorted[..i + 1] == sorted[..i] + [candidate];
        SiftSnoc(policy, sorted[..i], candidate);
        if Alone(policy, candidate) {
          immediate := immediate + [MakeBatch([candidate], AloneReason(policy, candidate))];
          assert g + [] == g;
        } else {
          order, grouped := Append(g, order, grouped, candidate);
        }
      }
      assert sorted[..|sorted|] == sorted;
    }

    /** Adds a candidate to the end of its group, opening the group if it is the first of its key. */
    static method Append(ghost g: seq<Candidate>, order: seq<(string, string)>,
                         grouped: map<(string, string), seq<Candidate>>, candidate: Candidate)
      returns (order': seq<(string, string)>, grouped': map<(string, string), seq<Candidate>>)
      requires Groups(g, order, grouped)
      ensures Groups(g + [candidate], order', grouped')
    {
      var key := candidate.CompatibilityKey();
      order', grouped' := order, grouped;
      AbsentGroup(g, key);
      if key !in grouped {
        order', grouped' := order + [key], grouped[key := []];
      }
      grouped' := grouped'[key := grouped'[key] + [candidate]];
      forall k | k in grouped' ensures grouped'[k] == GroupOf(g + [candidate], k) {
        GroupSnoc(g, candidate, k);
      }
      GroupSnoc(g, candidate, key);
    }

    /** One more candidate of a group. */
    static lemma {:induction false} SplitStep(policy: Policy, current: seq<Candidate>, group: seq<Candidate>, i: nat)
      requires policy.Valid() && i < |group|
      ensures SplitFrom(policy, current, group[i..])
           == if MustClose(policy, current, group[i])
              then [MakeBatch(current, CompatibleDynamicBatch)] + SplitFrom(policy, [group[i]], group[i + 1..])
              else SplitFrom(policy, current + [group[i]], group[i + 1..])
      ensures Tokens(current + [group[i]]) == Tokens(current) + group[i].estimatedTokens
    {
      assert group[i..][0] == group[i] && group[i..][1..] == group[i + 1..];
      assert (current + [group[i]])[..|current|] == current;
    }

    method Split(group: seq<Candidate>) returns (batches: seq<Batch>)
      requires policy.Valid()
      ensures batches == SplitGroup(policy, group)
    {
      batches := [];
      var current: seq<Candidate> := [];
      var currentTokens := 0;
      for i := 0 to |group|
        invariant currentTokens == Tokens(current)
        invariant batches + SplitFrom(policy, current, group[i..]) == SplitGroup(policy, group)
      {
        var candidate := group[i];
        SplitStep(policy, current, group, i);
        assert [] + [candidate] == [candidate];
        var wouldExceedSize := |current| >= policy.maxBatchSize;
        var wouldExceedTokens := current != [] && currentTokens + candidate.estimatedTokens > policy.maxBatchTokens;
        if wouldExceedSize || wouldExceedTokens {
          batches := batches + [MakeBatch(current, CompatibleDynamicBatch)];
          current := [];
          currentTokens := 0;
        }
        current := current + [candidate];
        currentTokens := currentTokens + candidate.estimatedTokens;
      }
      if current != [] && (policy.allowSingleItemBatches || |current| > 1) {
        var reason := if |current| > 1 then CompatibleDynamicBatch else SingleBatchableRequest;
        batches := batches + [MakeBatch(current, reason)];
      }
    }
  }
}
