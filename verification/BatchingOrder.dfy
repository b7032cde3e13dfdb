/** What a plan looks like: which batches come first, in what order, and why each was made. */
module BatchingOrder {
  import opened Sorting
  import opened Batching
  import opened BatchingProofs

  // ----- the vocabulary of what is promised -----

  /** Why a candidate must be alone. */
  predicate AloneFor(p: Policy, c: Candidate, reason: Reason) {
    match reason
    case NotBatchable => !c.batchable
    case HighPrioritySingleton => c.batchable && c.priority <= p.highPriorityThreshold
    case TokenBudgetExceededSingleton =>
      c.batchable && p.highPriorityThreshold < c.priority && p.maxBatchTokens < c.estimatedTokens
    case _ => false
  }

  /** It need not be alone. */
  predicate Shareable(p: Policy, c: Candidate) {
    c.batchable && p.highPriorityThreshold < c.priority && c.estimatedTokens <= p.maxBatchTokens
  }

  /** By priority number, then by id. */
  predicate Ahead(a: Candidate, b: Candidate) {
    a.priority <= b.priority && (a.priority == b.priority ==> StrLe(a.requestId, b.requestId))
  }

  function KindOf(b: Batch): (string, string) {
    (b.modelName, b.eventType)
  }

  /** One batch for each candidate that must be alone, in order. */
  ghost predicate OneByOne(p: Policy, bs: seq<Batch>) {
    && (forall b :: b in bs ==>
          && |b.candidates| == 1 && AloneFor(p, b.candidates[0], b.reason)
          && KindOf(b) == (b.candidates[0].modelName, b.candidates[0].eventType))
    && (forall i, j :: 0 <= i < j < |bs| ==> Ahead(bs[i].candidates[0], bs[j].candidates[0]))
  }

  /** No later batch is of the same kind. */
  ghost predicate LastOfKind(bs: seq<Batch>, i: nat)
    requires i < |bs|
  {
    forall j :: i < j < |bs| ==> KindOf(bs[j]) != KindOf(bs[i])
  }

  ghost predicate Reasoned(p: Policy, bs: seq<Batch>, i: nat)
    requires i < |bs|
  {
    if p.allowSingleItemBatches && |bs[i].candidates| == 1 && LastOfKind(bs, i)
    then bs[i].reason == SingleBatchableRequest
    else bs[i].reason == CompatibleDynamicBatch
  }

  /** A batch was closed only when the first candidate of the next of its kind had no room. */
  ghost predicate ClosedFull(p: Policy, b: Batch, next: Batch) {
    KindOf(b) == KindOf(next) && next.candidates != [] ==>
      || |b.candidates| == p.maxBatchSize
      || Tokens(b.candidates) + next.candidates[0].estimatedTokens > p.maxBatchTokens
  }

  /** The first of one kind, among those that need not be alone, is ahead of all of the other. */
  ghost predicate KindFirst(p: Policy, cs: seq<Candidate>, a: Batch, b: Batch) {
    exists c ::
      && c in cs && Shareable(p, c) && (c.modelName, c.eventType) == KindOf(a)
      && forall d :: d in cs && Shareable(p, d) && (d.modelName, d.eventType) == KindOf(b) ==> Ahead(c, d)
  }

  /** The groups one after the other, in the order in which they first appear. */
  ghost predicate GroupByGroup(p: Policy, cs: seq<Candidate>, bs: seq<Batch>) {
    && (forall b :: b in bs ==> b.candidates != [] && forall c :: c in b.candidates ==> Shareable(p, c))
    && (forall i :: 0 <= i < |bs| ==> Reasoned(p, bs, i))
    && (forall i :: 0 <= i < |bs| - 1 ==> ClosedFull(p, bs[i], bs[i + 1]))
    && (forall i, j :: 0 <= i < j < |bs| && KindOf(bs[i]) != KindOf(bs[j]) ==>
          KindFirst(p, cs, bs[i], bs[j]) && forall k :: j <= k < |bs| ==> KindOf(bs[k]) != KindOf(bs[i]))
  }

  // ----- the batches of candidates that must be alone -----

  lemma {:induction false} SinglesInOrder(p: Policy, s: seq<Candidate>)
    requires Sorted(Before, s)
    ensures OneByOne(p, Singles(p, s))
    ensures forall b :: b in Singles(p, s) ==> b.candidates[0] in s
  {
    if s != [] {
      var init, c := s[..|s| - 1], s[|s| - 1];
      SinglesInOrder(p, init);
      assert s == init + [c];
      assert forall d :: d in init ==> Before(d, c);
      var before := Singles(p, init);
      assert forall i :: 0 <= i < |before| ==> before[i] in before;
    }
  }

  lemma {:induction false} GroupableMembers(p: Policy, cs: seq<Candidate>)
    ensures forall c :: c in Groupable(p, cs) <==> c in cs && Shareable(p, c)
  {
    if cs != [] {
      GroupableMembers(p, cs[..|cs| - 1]);
      assert cs == cs[..|cs| - 1] + [cs[|cs| - 1]];
    }
  }

  // ----- the batches of one group -----

  /** The batches of one group: only the last can be single for want of others. */
  ghost predicate OneGroup(p: Policy, group: seq<Candidate>, k: (string, string), bs: seq<Batch>) {
    && (forall b :: b in bs ==> b.candidates != [] && KindOf(b) == k && forall c :: c in b.candidates ==> c in group)
    && (forall i :: 0 <= i < |bs| ==>
          bs[i].reason == if p.allowSingleItemBatches && |bs[i].candidates| == 1 && i == |bs| - 1
                          then SingleBatchableRequest else CompatibleDynamicBatch)
    && (forall i :: 0 <= i < |bs| - 1 ==> ClosedFull(p, bs[i], bs[i + 1]))
  }

  lemma {:induction false} SplitInOrder(p: Policy, current: seq<Candidate>, rest: seq<Candidate>, k: (string, string))
    requires p.Valid() && |current| <= p.maxBatchSize
    requires forall c :: c in current + rest ==> c.CompatibilityKey() == k
    ensures var bs := SplitFrom(p, current, rest);
            && OneGroup(p, current + rest, k, bs)
            && (bs != [] ==> current + rest != [] && bs[0].candidates[0] == (current + rest)[0])
            && (p.allowSingleItemBatches && current + rest != [] ==> bs != [])
    decreases |rest|
  {
    assert forall c :: c in current ==> c in current + rest;
    assert current != [] ==> current[0] in current;
    if rest == [] {
      assert current + rest == current;
    } else if MustClose(p, current, rest[0]) {
      assert rest == [rest[0]] + rest[1..] && forall c :: c in rest ==> c in current + rest;
      SplitInOrder(p, [rest[0]], rest[1..], k);
      var closed, later := MakeBatch(current, CompatibleDynamicBatch), SplitFrom(p, [rest[0]], rest[1..]);
      PrependBatch(p, current, rest, k, closed, later);
    } else {
      assert current + rest == (current + [rest[0]]) + rest[1..];
      SplitInOrder(p, current + [rest[0]], rest[1..], k);
    }
  }

  lemma {:induction false} PrependBatch(p: Policy, current: seq<Candidate>, rest: seq<Candidate>, k: (string, string),
                                        closed: Batch, later: seq<Batch>)
    requires OneGroup(p, rest, k, later) && rest != [] && current != []
    requires closed == Batch(k.0, k.1, current, CompatibleDynamicBatch)
    requires |current| == p.maxBatchSize || Tokens(current) + rest[0].estimatedTokens > p.maxBatchTokens
    requires later != [] ==> later[0].candidates[0] == rest[0]
    requires p.allowSingleItemBatches ==> later != []
    ensures OneGroup(p, current + rest, k, [closed] + later)
  {
    var bs := [closed] + later;
    forall i | 0 <= i < |bs| - 1 ensures ClosedFull(p, bs[i], bs[i + 1]) {
      assert i > 0 ==> bs[i] == later[i - 1] && bs[i + 1] == later[i];
    }
  }

  // ----- the groups together -----

  /** The batches follow the order of the keys. */
  ghost predicate ByKeys(p: Policy, g: seq<Candidate>, ks: seq<(string, string)>, bs: seq<Batch>) {
    && (forall b :: b in bs ==> b.candidates != [] && KindOf(b) in ks && forall c :: c in b.candidates ==> c in g)
    && (forall i :: 0 <= i < |bs| ==> Reasoned(p, bs, i))
    && (forall i :: 0 <= i < |bs| - 1 ==> ClosedFull(p, bs[i], bs[i + 1]))
    && (forall i, j :: 0 <= i < j < |bs| ==>
          KindOf(bs[i]) == KindOf(bs[j]) || ComesBefore(ks, KindOf(bs[i]), KindOf(bs[j])))
  }

  lemma {:induction false} GroupsInOrder(p: Policy, g: seq<Candidate>, ks: seq<(string, string)>)
    requires p.Valid() && Distinct(ks)
    ensures ByKeys(p, g, ks, SplitAll(p, g, ks))
  {
    if ks != [] {
      var init, k := ks[..|ks| - 1], ks[|ks| - 1];
      GroupsInOrder(p, g, init);
      GroupIsUniform(g, k);
      var group := GroupOf(g, k);
      assert [] + group == group;
      SplitInOrder(p, [], group, k);
      AppendGroup(p, g, init, k, SplitAll(p, g, init), SplitGroup(p, group));
      assert ks == init + [k];
    }
  }

  lemma {:induction false} AppendGroup(p: Policy, g: seq<Candidate>, ks: seq<(string, string)>, k: (string, string),
                                       bs: seq<Batch>, more: seq<Batch>)
    requires ByKeys(p, g, ks, bs) && k !in ks && OneGroup(p, GroupOf(g, k), k, more)
    ensures ByKeys(p, g, ks + [k], bs + more)
  {
    var all := bs + more;
    GroupIsUniform(g, k);
    assert forall i :: 0 <= i < |bs| ==> all[i] == bs[i] && bs[i] in bs;
    assert forall i :: |bs| <= i < |all| ==> all[i] == more[i - |bs|] && more[i - |bs|] in more;
    forall i | 0 <= i < |all| ensures Reasoned(p, all, i) {
      AppendReasoned(p, ks, k, bs, more, i);
    }
    forall i | 0 <= i < |all| - 1 ensures ClosedFull(p, all[i], all[i + 1]) {
      assert i >= |bs| ==> all[i + 1] == more[i - |bs| + 1];
    }
    forall i, j | 0 <= i < j < |all|
      ensures KindOf(all[i]) == KindOf(all[j]) || ComesBefore(ks + [k], KindOf(all[i]), KindOf(all[j]))
    {
      if j < |bs| && KindOf(bs[i]) != KindOf(bs[j]) {
        ComesBeforeSnoc(ks, k, KindOf(bs[i]), KindOf(bs[j]));
      } else if i < |bs| <= j {
        ComesBeforeSnoc(ks, k, KindOf(bs[i]), k);
      }
    }
  }

  lemma ComesBeforeSnoc<T>(xs: seq<T>, last: T, x: T, y: T)
    requires ComesBefore(xs, x, y) || (x in xs && y == last)
    ensures ComesBefore(xs + [last], x, y)
  {
    var all := xs + [last];
    if ComesBefore(xs, x, y) {
      var i, j :| 0 <= i < j < |xs| && xs[i] == x && xs[j] == y;
      assert all[i] == x && all[j] == y;
    } else {
      var i :| 0 <= i < |xs| && xs[i] == x;
      assert all[i] == x && all[|xs|] == y;
    }
  }

  lemma {:induction false} AppendReasoned(p: Policy, ks: seq<(string, string)>, k: (string, string), bs: seq<Batch>,
                                          more: seq<Batch>, i: nat)
    requires k !in ks && (forall b :: b in bs ==> KindOf(b) in ks) && forall b :: b in more ==> KindOf(b) == k
    requires forall j :: 0 <= j < |bs| ==> Reasoned(p, bs, j)
    requires forall j :: 0 <= j < |more| ==>
                           more[j].reason == if p.allowSingleItemBatches && |more[j].candidates| == 1 && j == |more| - 1
                                             then SingleBatchableRequest else CompatibleDynamicBatch
    requires i < |bs + more|
    ensures Reasoned(p, bs + more, i)
  {
    var all := bs + more;
    if i < |bs| {
      assert all[i] == bs[i] && bs[i] in bs && Reasoned(p, bs, i);
      assert LastOfKind(all, i) <==> LastOfKind(bs, i) by {
        forall j | |bs| <= j < |all| ensures KindOf(all[j]) != KindOf(all[i]) {
          assert all[j] == more[j - |bs|] && all[j] in more;
        }
        assert forall j :: 0 <= j < |bs| ==> all[j] == bs[j];
      }
    } else {
      var m := i - |bs|;
      assert all[i] == more[m] && more[m] in more;
      if m < |more| - 1 {
        assert all[i + 1] == more[m + 1] && more[m + 1] in more;
      }
    }
  }

  /** Keys in the order of their first appearance in a sorted list. */
  lemma {:induction false} KeysByFirst(g: seq<Candidate>, a: nat, b: nat)
    requires Sorted(Before, g) && a < b < |Keys(g)|
    ensures exists c :: c in g && c.CompatibilityKey() == Keys(g)[a]
                        && forall d :: d in g && d.CompatibilityKey() == Keys(g)[b] ==> Ahead(c, d)
  {
    var init, last := g[..|g| - 1], g[|g| - 1];
    var seen := Keys(init);
    assert g == init + [last];
    assert forall d :: d in init ==> Ahead(d, last);
    KeysCover(init);
    assert a < |seen| && Keys(g)[a] == seen[a] && seen[a] in seen;
    if b < |seen| {
      KeysByFirst(init, a, b);
    }
    AbsentGroup(init, seen[a]);
    GroupIsUniform(init, seen[a]);
    var first := GroupOf(init, seen[a])[0];
    assert first in GroupOf(init, seen[a]);
    var c :| c in init && c.CompatibilityKey() == seen[a]
             && forall d :: d in init && d.CompatibilityKey() == Keys(g)[b] ==> Ahead(c, d);
    assert c in g;
  }

  lemma {:induction false} KindsInOrder(p: Policy, cs: seq<Candidate>, g: seq<Candidate>, bs: seq<Batch>, i: nat,
                                        j: nat)
    requires Sorted(Before, g) && ByKeys(p, g, Keys(g), bs) && i < j < |bs| && KindOf(bs[i]) != KindOf(bs[j])
    requires forall c :: c in g <==> c in cs && Shareable(p, c)
    ensures KindFirst(p, cs, bs[i], bs[j])
    ensures forall k :: j <= k < |bs| ==> KindOf(bs[k]) != KindOf(bs[i])
  {
    var ks := Keys(g);
    KeysCover(g);
    var a, b :| 0 <= a < b < |ks| && ks[a] == KindOf(bs[i]) && ks[b] == KindOf(bs[j]);
    KeysByFirst(g, a, b);
    var c :| c in g && c.CompatibilityKey() == ks[a]
             && forall d :: d in g && d.CompatibilityKey() == ks[b] ==> Ahead(c, d);
    forall d | d in cs && Shareable(p, d) && (d.modelName, d.eventType) == KindOf(bs[j]) ensures Ahead(c, d) {
      assert d in g && d.CompatibilityKey() == ks[b];
    }
    NotBothWays(ks, KindOf(bs[i]), KindOf(bs[j]));
    forall k | j <= k < |bs| ensures KindOf(bs[k]) != KindOf(bs[i]) {
      assert j < k ==> KindOf(bs[j]) == KindOf(bs[k]) || ComesBefore(ks, KindOf(bs[j]), KindOf(bs[k]));
    }
  }

  lemma NotBothWays<T>(xs: seq<T>, x: T, y: T)
    requires Distinct(xs) && ComesBefore(xs, x, y)
    ensures !ComesBefore(xs, y, x)
  {
  }

  /** The plan for any candidates: first those that must be alone, one batch each, in order and for the
      right reason; then the others group by group, by first appearance, each batch closed only when the
      next candidate had no room. Only the last batch of a group is for a single request. */
  lemma {:induction false} PlanInOrder(p: Policy, cs: seq<Candidate>)
    requires p.Valid()
    ensures exists alone, shared ::
              Plan(p, cs) == alone + shared && OneByOne(p, alone) && GroupByGroup(p, cs, shared)
  {
    var s := Sort(Before, cs);
    var g := Groupable(p, s);
    var alone, shared := Singles(p, s), SplitAll(p, g, Keys(g));
    BeforeIsTotal();
    SortSorts(Before, cs);
    SortPermutes(Before, cs);
    SameMembers(cs, s);
    SinglesInOrder(p, s);
    SievesKeepOrder(p, s, ("", ""));
    GroupableMembers(p, s);
    KeysCover(g);
    GroupsInOrder(p, g, Keys(g));
    forall i, j | 0 <= i < j < |shared| && KindOf(shared[i]) != KindOf(shared[j])
      ensures KindFirst(p, cs, shared[i], shared[j])
              && forall k :: j <= k < |shared| ==> KindOf(shared[k]) != KindOf(shared[i])
    {
      KindsInOrder(p, cs, g, shared, i, j);
    }
    assert GroupByGroup(p, cs, shared);
  }
}
