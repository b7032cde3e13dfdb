/** What the batcher promises: it partitions its input, respects the limits, forgets arrival
    order, and splits each group into as few batches as possible. */
module BatchingProofs {
  import opened Sorting
  import opened Batching

  // ----- the batches put back together -----

  function Flatten(bs: seq<Batch>): seq<Candidate> {
    if bs == [] then [] else Flatten(bs[..|bs| - 1]) + bs[|bs| - 1].candidates
  }

  lemma {:induction false} FlattenSnoc(bs: seq<Batch>, b: Batch)
    ensures Flatten(bs + [b]) == Flatten(bs) + b.candidates
  {
    assert (bs + [b])[..|bs|] == bs;
  }

  lemma {:induction false} FlattenConcat(a: seq<Batch>, b: seq<Batch>)
    ensures Flatten(a + b) == Flatten(a) + Flatten(b)
  {
    if b == [] {
      assert a + b == a;
    } else {
      var init, last := b[..|b| - 1], b[|b| - 1];
      FlattenConcat(a, init);
      FlattenSnoc(a + init, last);
      ConcatAssociative(a, init, [last]);
      assert b == init + [last];
      ConcatAssociative(Flatten(a), Flatten(init), last.candidates);
    }
  }

  lemma FlattenOne(b: Batch)
    ensures Flatten([b]) == b.candidates
  {
    FlattenSnoc([], b);
    assert [] + [b] == [b];
  }

  lemma {:induction false} FlattenHolds(bs: seq<Batch>, b: Batch)
    requires b in bs
    ensures forall c :: c in b.candidates ==> c in Flatten(bs)
  {
    if b != bs[|bs| - 1] {
      assert bs == bs[..|bs| - 1] + [bs[|bs| - 1]];
      FlattenHolds(bs[..|bs| - 1], b);
    }
  }

  /** Were single-item batches allowed, the last batch of the group would hold one candidate. */
  predicate EndsAlone(p: Policy, group: seq<Candidate>)
    requires p.Valid()
  {
    var bs := SplitGroup(p.(allowSingleItemBatches := true), group);
    bs != [] && |bs[|bs| - 1].candidates| == 1
  }

  /** Whether or not a policy allows single-item batches makes no difference to a group but for the
      last batch, which is missing if it would hold one candidate. */
  lemma {:induction false} OnlyLastBatchDiffers(p: Policy, current: seq<Candidate>, rest: seq<Candidate>)
    requires p.Valid() && !p.allowSingleItemBatches && (current != [] || rest != [])
    ensures var all, bs := SplitFrom(p.(allowSingleItemBatches := true), current, rest), SplitFrom(p, current, rest);
            && all != [] && all[|all| - 1].candidates != []
            && bs == if |all[|all| - 1].candidates| == 1 then all[..|all| - 1] else all
    decreases |rest|
  {
    if rest != [] {
      var q := p.(allowSingleItemBatches := true);
      if MustClose(p, current, rest[0]) {
        OnlyLastBatchDiffers(p, [rest[0]], rest[1..]);
        var closed, later := MakeBatch(current, CompatibleDynamicBatch), SplitFrom(q, [rest[0]], rest[1..]);
        assert ([closed] + later)[..|later|] == [closed] + later[..|later| - 1];
      } else {
        OnlyLastBatchDiffers(p, current + [rest[0]], rest[1..]);
      }
    }
  }

  /** When a policy without single-item batches loses a candidate of a group. */
  lemma LostExactly(p: Policy, group: seq<Candidate>)
    requires p.Valid()
    ensures Lost(p, group) == if !p.allowSingleItemBatches && EndsAlone(p, group) then [group[|group| - 1]] else []
    ensures EndsAlone(p, group) ==> group != []
  {
    var q := p.(allowSingleItemBatches := true);
    SplitKeepsRest(p, group);
    if group != [] && !p.allowSingleItemBatches {
      var all := SplitGroup(q, group);
      OnlyLastBatchDiffers(p, [], group);
      SplitKeepsRest(q, group);
      FlattenLast(all);
      Sorting.SameMembers(Flatten(all), group);
    }
  }

  lemma {:induction false} FlattenLast(bs: seq<Batch>)
    requires bs != []
    ensures |Flatten(bs)| == |Flatten(bs[..|bs| - 1])| + |bs[|bs| - 1].candidates|
  {
  }

  /** A group comes back whole and in order; only a policy without single-item batches may lose
      its last candidate. */
  lemma {:induction false} SplitFlattens(p: Policy, current: seq<Candidate>, rest: seq<Candidate>)
    requires p.Valid()
    ensures var all := current + rest; var out := Flatten(SplitFrom(p, current, rest));
            out == all || (!p.allowSingleItemBatches && all != [] && out == all[..|all| - 1])
    decreases |rest|
  {
    if rest == [] {
      if SplitFrom(p, current, rest) != [] {
        FlattenOne(SplitFrom(p, current, rest)[0]);
      }
    } else if MustClose(p, current, rest[0]) {
      var closed, later := MakeBatch(current, CompatibleDynamicBatch), SplitFrom(p, [rest[0]], rest[1..]);
      SplitFlattens(p, [rest[0]], rest[1..]);
      ShiftHead([], rest);
      FlattenConcat([closed], later);
      FlattenOne(closed);
      ConcatInit(current, rest);
    } else {
      SplitFlattens(p, current + [rest[0]], rest[1..]);
      ShiftHead(current, rest);
    }
  }

  /** What a policy without single-item batches drops from a group: at most its last candidate. */
  function Lost(p: Policy, group: seq<Candidate>): seq<Candidate>
    requires p.Valid()
  {
    if |Flatten(SplitGroup(p, group))| < |group| then [group[|group| - 1]] else []
  }

  lemma SplitKeepsRest(p: Policy, group: seq<Candidate>)
    requires p.Valid()
    ensures multiset(Flatten(SplitGroup(p, group))) + multiset(Lost(p, group)) == multiset(group)
    ensures p.allowSingleItemBatches ==> Lost(p, group) == []
  {
    SplitFlattens(p, [], group);
    assert [] + group == group;
    WholeOrInit(Flatten(SplitGroup(p, group)), group);
  }

  function Dropped(p: Policy, cs: seq<Candidate>, ks: seq<(string, string)>): seq<Candidate>
    requires p.Valid()
  {
    if ks == [] then [] else Dropped(p, cs, ks[..|ks| - 1]) + Lost(p, GroupOf(cs, ks[|ks| - 1]))
  }

  function Gather(cs: seq<Candidate>, ks: seq<(string, string)>): seq<Candidate> {
    if ks == [] then [] else Gather(cs, ks[..|ks| - 1]) + GroupOf(cs, ks[|ks| - 1])
  }

  lemma {:induction false} SplitAllFlattens(p: Policy, cs: seq<Candidate>, ks: seq<(string, string)>)
    requires p.Valid()
    ensures multiset(Flatten(SplitAll(p, cs, ks))) + multiset(Dropped(p, cs, ks)) == multiset(Gather(cs, ks))
    ensures p.allowSingleItemBatches ==> Dropped(p, cs, ks) == []
  {
    if ks != [] {
      var init, group := ks[..|ks| - 1], GroupOf(cs, ks[|ks| - 1]);
      SplitAllFlattens(p, cs, init);
      FlattenConcat(SplitAll(p, cs, init), SplitGroup(p, group));
      SplitKeepsRest(p, group);
      BagSum(Flatten(SplitAll(p, cs, init)), Flatten(SplitGroup(p, group)),
             Dropped(p, cs, init), Lost(p, group), Gather(cs, init), group);
    }
  }

  // ----- the groups partition the groupable candidates -----

  ghost predicate Distinct<T>(xs: seq<T>) {
    forall i, j :: 0 <= i < j < |xs| ==> xs[i] != xs[j]
  }

  lemma {:induction false} KeysCover(cs: seq<Candidate>)
    ensures Distinct(Keys(cs))
    ensures forall c :: c in cs ==> c.CompatibilityKey() in Keys(cs)
  {
    if cs != [] {
      KeysCover(cs[..|cs| - 1]);
      assert cs == cs[..|cs| - 1] + [cs[|cs| - 1]];
    }
  }

  function OneIf(b: bool, c: Candidate): seq<Candidate> {
    if b then [c] else []
  }

  lemma OneIfOr(a: bool, b: bool, c: Candidate)
    requires !(a && b)
    ensures OneIf(a, c) + OneIf(b, c) == OneIf(a || b, c)
  {
  }

  lemma {:induction false} GroupGrows(cs: seq<Candidate>, c: Candidate, k: (string, string))
    ensures multiset(GroupOf(cs, k)) + multiset(OneIf(c.CompatibilityKey() == k, c)) == multiset(GroupOf(cs + [c], k))
  {
    GroupSnoc(cs, c, k);
  }

  lemma {:induction false} GatherSnoc(cs: seq<Candidate>, c: Candidate, ks: seq<(string, string)>)
    requires Distinct(ks)
    ensures multiset(Gather(cs, ks)) + multiset(OneIf(c.CompatibilityKey() in ks, c)) == multiset(Gather(cs + [c], ks))
  {
    if ks != [] {
      var init, k, key := ks[..|ks| - 1], ks[|ks| - 1], c.CompatibilityKey();
      assert ks == init + [k] && k !in init;
      GatherSnoc(cs, c, init);
      GroupGrows(cs, c, k);
      BagSum(Gather(cs, init), GroupOf(cs, k), OneIf(key in init, c), OneIf(key == k, c),
             Gather(cs + [c], init), GroupOf(cs + [c], k));
      OneIfOr(key in init, key == k, c);
    }
  }

  lemma {:induction false} GatherAll(cs: seq<Candidate>, ks: seq<(string, string)>)
    requires Distinct(ks) && forall c :: c in cs ==> c.CompatibilityKey() in ks
    ensures multiset(Gather(cs, ks)) == multiset(cs)
  {
    if cs == [] {
      GatherNothing(ks);
    } else {
      var init, c := cs[..|cs| - 1], cs[|cs| - 1];
      assert cs == init + [c];
      GatherAll(init, ks);
      GatherSnoc(init, c, ks);
    }
  }

  lemma {:induction false} GatherNothing(ks: seq<(string, string)>)
    ensures Gather([], ks) == []
  {
    if ks != [] {
      GatherNothing(ks[..|ks| - 1]);
    }
  }

  lemma {:induction false} SinglesSnoc(p: Policy, cs: seq<Candidate>, c: Candidate)
    ensures Flatten(Singles(p, cs + [c])) == Flatten(Singles(p, cs)) + OneIf(Alone(p, c), c)
    ensures Groupable(p, cs + [c]) == Groupable(p, cs) + OneIf(!Alone(p, c), c)
  {
    SiftSnoc(p, cs, c);
    if Alone(p, c) {
      var b := MakeBatch([c], AloneReason(p, c));
      FlattenConcat(Singles(p, cs), [b]);
      FlattenOne(b);
    } else {
      assert Singles(p, cs) + [] == Singles(p, cs);
    }
  }

  lemma {:induction false} SiftPartitions(p: Policy, cs: seq<Candidate>)
    ensures multiset(Flatten(Singles(p, cs))) + multiset(Groupable(p, cs)) == multiset(cs)
  {
    if cs != [] {
      var init, c := cs[..|cs| - 1], cs[|cs| - 1];
      assert cs == init + [c];
      SiftPartitions(p, init);
      SinglesSnoc(p, init, c);
      BagSum(Flatten(Singles(p, init)), OneIf(Alone(p, c), c), Groupable(p, init), OneIf(!Alone(p, c), c), init, [c]);
    }
  }

  lemma {:induction false} GroupableAreNotAlone(p: Policy, cs: seq<Candidate>)
    ensures forall c :: c in Groupable(p, cs) ==> !Alone(p, c)
  {
    if cs != [] {
      GroupableAreNotAlone(p, cs[..|cs| - 1]);
    }
  }

  /** Every candidate lands in exactly one batch, except the dropped ones. */
  lemma {:induction false} BatchesPartitionInput(p: Policy, cs: seq<Candidate>)
    requires p.Valid()
    ensures var g := Groupable(p, Sort(Before, cs));
            && multiset(Flatten(Plan(p, cs))) + multiset(Dropped(p, g, Keys(g))) == multiset(cs)
            && (p.allowSingleItemBatches ==> multiset(Flatten(Plan(p, cs))) == multiset(cs))
  {
    var s := Sort(Before, cs);
    var g := Groupable(p, s);
    SortPermutes(Before, cs);
    SiftPartitions(p, s);
    KeysCover(g);
    GatherAll(g, Keys(g));
    SplitAllFlattens(p, g, Keys(g));
    FlattenConcat(Singles(p, s), SplitAll(p, g, Keys(g)));
  }

  /** The candidate is the last of a group that ends alone. */
  ghost predicate EndsItsGroup(p: Policy, cs: seq<Candidate>, c: Candidate)
    requires p.Valid()
  {
    var g := GroupOf(cs, c.CompatibilityKey());
    g != [] && c == g[|g| - 1] && EndsAlone(p, g)
  }

  lemma {:induction false} LostFrom(p: Policy, cs: seq<Candidate>, k: (string, string))
    requires p.Valid()
    ensures |Lost(p, GroupOf(cs, k))| <= 1
    ensures forall c :: c in Lost(p, GroupOf(cs, k)) <==>
              !p.allowSingleItemBatches && c.CompatibilityKey() == k && EndsItsGroup(p, cs, c)
  {
    var g := GroupOf(cs, k);
    GroupIsUniform(cs, k);
    LostExactly(p, g);
    assert g != [] ==> g[|g| - 1] in g;
  }

  /** What is dropped, exactly: nothing if single-item batches are allowed, or else the last candidate
      of every group that ends alone. */
  lemma {:induction false} DroppedExactly(p: Policy, cs: seq<Candidate>, ks: seq<(string, string)>)
    requires p.Valid() && Distinct(ks)
    ensures forall c :: c in Dropped(p, cs, ks) <==>
              !p.allowSingleItemBatches && c.CompatibilityKey() in ks && EndsItsGroup(p, cs, c)
    ensures forall i, j :: 0 <= i < j < |Dropped(p, cs, ks)| ==>
              Dropped(p, cs, ks)[i].CompatibilityKey() != Dropped(p, cs, ks)[j].CompatibilityKey()
  {
    if ks != [] {
      var init, k := ks[..|ks| - 1], ks[|ks| - 1];
      DroppedExactly(p, cs, init);
      LostFrom(p, cs, k);
      assert ks == init + [k];
      assert forall c :: c in Dropped(p, cs, init) ==> c.CompatibilityKey() != k;
    }
  }

  /** Every candidate gets into a batch exactly if single-item batches are allowed or no group ends
      alone. */
  lemma {:induction false} NothingDroppedExactly(p: Policy, cs: seq<Candidate>)
    requires p.Valid()
    ensures var g := Groupable(p, Sort(Before, cs));
            multiset(Flatten(Plan(p, cs))) == multiset(cs)
            <==> p.allowSingleItemBatches || forall k :: k in Keys(g) ==> !EndsAlone(p, GroupOf(g, k))
  {
    var g := Groupable(p, Sort(Before, cs));
    var out, dropped := multiset(Flatten(Plan(p, cs))), Dropped(p, g, Keys(g));
    BatchesPartitionInput(p, cs);
    KeysCover(g);
    DroppedExactly(p, g, Keys(g));
    assert out == multiset(cs) <==> dropped == [] by {
      assert |out + multiset(dropped)| == |out| + |dropped|;
      assert dropped == [] ==> out + multiset(dropped) == out;
    }
    if dropped != [] {
      assert dropped[0] in dropped;
    }
    forall k | k in Keys(g) && EndsAlone(p, GroupOf(g, k)) && !p.allowSingleItemBatches ensures dropped != [] {
      LastEndsGroup(p, g, k);
    }
  }

  lemma {:induction false} LastEndsGroup(p: Policy, g: seq<Candidate>, k: (string, string))
    requires p.Valid() && EndsAlone(p, GroupOf(g, k))
    ensures GroupOf(g, k) != []
    ensures var c := GroupOf(g, k)[|GroupOf(g, k)| - 1]; c.CompatibilityKey() == k && EndsItsGroup(p, g, c)
  {
    LostExactly(p, GroupOf(g, k));
    GroupIsUniform(g, k);
  }

  /** A request on its own is dropped by a policy without single-item batches, unless it must be
      alone anyway. */
  lemma LoneRequestIsDropped(p: Policy, c: Candidate)
    requires p.Valid()
    ensures Plan(p, [c]) == [] <==> !p.allowSingleItemBatches && !Alone(p, c)
  {
    var k := c.CompatibilityKey();
    assert Sort(Before, [c]) == [c] && [] + [c] == [c];
    SiftSnoc(p, [], c);
    if !Alone(p, c) {
      GroupSnoc([], c, k);
      assert Keys([c]) == [k] && [k][..0] == [] && GroupOf([c], k) == [c];
      assert SplitGroup(p, [c]) == SplitFrom(p, [c], []);
      assert SplitAll(p, [c], [k]) == SplitAll(p, [c], []) + SplitGroup(p, [c]);
    }
  }

  // ----- limits -----

  lemma {:induction false} GroupIsUniform(cs: seq<Candidate>, k: (string, string))
    ensures forall c :: c in GroupOf(cs, k) ==> c in cs && c.CompatibilityKey() == k
  {
    if cs != [] {
      GroupIsUniform(cs[..|cs| - 1], k);
      assert cs == cs[..|cs| - 1] + [cs[|cs| - 1]];
    }
  }

  /** Non-empty, one compatibility key, within the size limit; a batch of two or more is within
      the token budget and holds no candidate that must be alone. */
  ghost predicate WellFormed(p: Policy, b: Batch) {
    && 1 <= |b.candidates| <= p.maxBatchSize
    && (forall c :: c in b.candidates ==> c.CompatibilityKey() == (b.modelName, b.eventType))
    && (|b.candidates| >= 2 ==>
          Tokens(b.candidates) <= p.maxBatchTokens && forall c :: c in b.candidates ==> !Alone(p, c))
  }

  lemma {:induction false} MadeWellFormed(p: Policy, cs: seq<Candidate>, k: (string, string), reason: Reason)
    requires 1 <= |cs| <= p.maxBatchSize && (|cs| >= 2 ==> Tokens(cs) <= p.maxBatchTokens)
    requires forall c :: c in cs ==> c.CompatibilityKey() == k && !Alone(p, c)
    ensures WellFormed(p, MakeBatch(cs, reason))
  {
    assert cs[0] in cs;
  }

  lemma {:induction false} SplitWellFormed(p: Policy, current: seq<Candidate>, rest: seq<Candidate>,
                                           k: (string, string))
    requires p.Valid() && |current| <= p.maxBatchSize
    requires |current| >= 2 ==> Tokens(current) <= p.maxBatchTokens
    requires forall c :: c in current || c in rest ==> c.CompatibilityKey() == k && !Alone(p, c)
    ensures forall b :: b in SplitFrom(p, current, rest) ==> WellFormed(p, b)
    decreases |rest|
  {
    if current != [] {
      MadeWellFormed(p, current, k, CompatibleDynamicBatch);
      MadeWellFormed(p, current, k, SingleBatchableRequest);
    }
    if rest != [] {
      if MustClose(p, current, rest[0]) {
        assert [rest[0]][..0] == [];
        SplitWellFormed(p, [rest[0]], rest[1..], k);
      } else {
        assert (current + [rest[0]])[..|current|] == current;
        SplitWellFormed(p, current + [rest[0]], rest[1..], k);
      }
    }
  }

  lemma {:induction false} SinglesWellFormed(p: Policy, cs: seq<Candidate>)
    requires p.Valid()
    ensures forall b :: b in Singles(p, cs) ==> WellFormed(p, b)
  {
    if cs != [] {
      SinglesWellFormed(p, cs[..|cs| - 1]);
    }
  }

  lemma {:induction false} SplitAllWellFormed(p: Policy, cs: seq<Candidate>, ks: seq<(string, string)>)
    requires p.Valid() && forall c :: c in cs ==> !Alone(p, c)
    ensures forall b :: b in SplitAll(p, cs, ks) ==> WellFormed(p, b)
  {
    if ks != [] {
      SplitAllWellFormed(p, cs, ks[..|ks| - 1]);
      GroupIsUniform(cs, ks[|ks| - 1]);
      SplitWellFormed(p, [], GroupOf(cs, ks[|ks| - 1]), ks[|ks| - 1]);
    }
  }

  lemma BatchesWellFormed(p: Policy, cs: seq<Candidate>)
    requires p.Valid()
    ensures forall b :: b in Plan(p, cs) ==> WellFormed(p, b)
  {
    var s := Sort(Before, cs);
    SinglesWellFormed(p, s);
    GroupableAreNotAlone(p, s);
    SplitAllWellFormed(p, Groupable(p, s), Keys(Groupable(p, s)));
  }

  // ----- order independence -----

  lemma BeforeIsTotal()
    ensures TotalPreorder(Before)
  {
    forall x, y ensures Before(x, y) || Before(y, x) {
      StrLeTotal(x.requestId, y.requestId);
    }
    forall x, y, z | Before(x, y) && Before(y, z) ensures Before(x, z) {
      if x.priority == z.priority {
        StrLeTransitive(x.requestId, y.requestId, z.requestId);
      }
    }
  }

  ghost predicate DistinctIds(cs: seq<Candidate>) {
    forall c, d :: c in cs && d in cs && c.requestId == d.requestId ==> c == d
  }

  /** Any permutation of the input gives the same batches. */
  lemma BatchingIgnoresArrivalOrder(p: Policy, cs: seq<Candidate>, ds: seq<Candidate>)
    requires p.Valid() && DistinctIds(cs) && multiset(cs) == multiset(ds)
    ensures Plan(p, cs) == Plan(p, ds)
  {
    BeforeIsTotal();
    forall x, y | x in cs && y in cs && Before(x, y) && Before(y, x) ensures x == y {
      StrLeAntisymmetric(x.requestId, y.requestId);
    }
    SortIgnoresOrder(Before, cs, ds);
  }

  lemma {:induction false} SievesKeepOrder(p: Policy, cs: seq<Candidate>, k: (string, string))
    requires Sorted(Before, cs)
    ensures Sorted(Before, Groupable(p, cs)) && Sorted(Before, GroupOf(cs, k))
    ensures forall c :: c in Groupable(p, cs) || c in GroupOf(cs, k) ==> c in cs
  {
    if cs != [] {
      var init, c := cs[..|cs| - 1], cs[|cs| - 1];
      assert cs == init + [c];
      SievesKeepOrder(p, init, k);
      assert forall d :: d in init ==> Before(d, c);
    }
  }

  /** Within one compatibility key the batches, put together, are sorted by (priority, id). */
  lemma {:induction false} GroupsComeOutSorted(p: Policy, cs: seq<Candidate>, k: (string, string))
    requires p.Valid()
    ensures Sorted(Before, Flatten(SplitGroup(p, GroupOf(Groupable(p, Sort(Before, cs)), k))))
  {
    BeforeIsTotal();
    SortSorts(Before, cs);
    SievesKeepOrder(p, Sort(Before, cs), k);
    SievesKeepOrder(p, Groupable(p, Sort(Before, cs)), k);
    var group := GroupOf(Groupable(p, Sort(Before, cs)), k);
    SplitFlattens(p, [], group);
    assert [] + group == group;
  }

  // ----- greedy splitting is optimal -----

  /** A way of cutting `cs`, in its order, into pieces within both limits. */
  ghost predicate Cutting(p: Policy, cs: seq<Candidate>, pieces: seq<seq<Candidate>>) {
    if pieces == [] then cs == []
    else
      && pieces[0] != [] && pieces[0] <= cs
      && |pieces[0]| <= p.maxBatchSize && Tokens(pieces[0]) <= p.maxBatchTokens
      && Cutting(p, cs[|pieces[0]|..], pieces[1..])
  }

  ghost predicate NonNegative(cs: seq<Candidate>) {
    forall c :: c in cs ==> c.estimatedTokens >= 0
  }

  /** Greedy never closes a batch too early: no counts are negative, or batches are pairs at most. */
  ghost predicate Tame(p: Policy, cs: seq<Candidate>) {
    p.maxBatchSize <= 2 || NonNegative(cs)
  }

  lemma {:induction false} TokensConcat(a: seq<Candidate>, b: seq<Candidate>)
    ensures Tokens(a + b) == Tokens(a) + Tokens(b)
    ensures NonNegative(b) ==> Tokens(b) >= 0
  {
    if b == [] {
      assert a + b == a;
    } else {
      TokensConcat(a, b[..|b| - 1]);
      assert (a + b)[..|a + b| - 1] == a + b[..|b| - 1] && (a + b)[|a + b| - 1] == b[|b| - 1];
      assert NonNegative(b) ==> b[|b| - 1].estimatedTokens >= 0 && NonNegative(b[..|b| - 1]);
    }
  }

  /** Where a piece within the limits has room for `c`, so has any suffix of what it holds. */
  lemma {:induction false} RoomForOneMore(p: Policy, current: seq<Candidate>, c: Candidate, taken: seq<Candidate>,
                                          piece: seq<Candidate>)
    requires |current| <= |taken| && current == taken[|taken| - |current|..]
    requires taken + [c] <= piece && Tame(p, piece)
    requires |piece| <= p.maxBatchSize && Tokens(piece) <= p.maxBatchTokens
    ensures !MustClose(p, current, c)
  {
    var skipped, tail := taken[..|taken| - |current|], piece[|taken| + 1..];
    assert |piece| == |skipped| + |current| + 1 + |tail|;
    if current != [] {
      assert (current + [c])[..|current|] == current;
      if p.maxBatchSize <= 2 {
        assert piece == current + [c];
      } else {
        assert piece == (skipped + (current + [c])) + tail;
        MiddleTokens(skipped, current + [c], tail);
      }
    }
  }

  lemma {:induction false} MiddleTokens(a: seq<Candidate>, b: seq<Candidate>, c: seq<Candidate>)
    requires NonNegative(a) && NonNegative(c)
    ensures Tokens(b) <= Tokens((a + b) + c)
  {
    TokensConcat(a + b, c);
    TokensConcat(a, b);
    TokensConcat([], a);
    assert [] + a == a;
  }

  /** When the rival's open piece is full, its next piece begins with the next candidate. */
  lemma {:induction false} NextPiece(p: Policy, taken: seq<Candidate>, rest: seq<Candidate>,
                                     pieces: seq<seq<Candidate>>)
    requires rest != [] && Tame(p, taken + rest) && Cutting(p, taken + rest, pieces)
    requires pieces != [] && taken == pieces[0]
    ensures Cutting(p, [rest[0]] + rest[1..], pieces[1..]) && Tame(p, [rest[0]] + rest[1..])
    ensures pieces[1..] != [] && [rest[0]] <= pieces[1..][0]
  {
    assert (taken + rest)[|taken|..] == rest == [rest[0]] + rest[1..];
    assert forall d :: d in rest ==> d in taken + rest;
  }

  /** The rival's open piece takes the next candidate. */
  lemma {:induction false} SamePiece(p: Policy, taken: seq<Candidate>, rest: seq<Candidate>,
                                     pieces: seq<seq<Candidate>>)
    requires rest != [] && Tame(p, taken + rest) && Cutting(p, taken + rest, pieces)
    requires taken == [] || (pieces != [] && taken <= pieces[0] && |taken| < |pieces[0]|)
    ensures pieces != [] && taken + [rest[0]] <= pieces[0] && Tame(p, pieces[0])
    ensures |pieces[0]| <= p.maxBatchSize && Tokens(pieces[0]) <= p.maxBatchTokens
  {
    assert pieces[0] <= taken + rest;
    CuttingIsPart(p, taken + rest, pieces);
  }

  lemma {:induction false} CuttingIsPart(p: Policy, cs: seq<Candidate>, pieces: seq<seq<Candidate>>)
    requires Cutting(p, cs, pieces) && pieces != []
    ensures forall c :: c in pieces[0] ==> c in cs
    ensures forall c :: c in cs[|pieces[0]|..] ==> c in cs
  {
  }

  /** Greedy stays ahead of any rival cutting. The rival has put `taken` of `rest`'s predecessors
      in its open piece; `lead` counts the cuts greedy is ahead by. When the lead is zero, greedy's
      open batch is a suffix of the rival's. */
  lemma {:induction false} GreedyStaysAhead(p: Policy, current: seq<Candidate>, rest: seq<Candidate>,
                                            taken: seq<Candidate>, pieces: seq<seq<Candidate>>, lead: nat)
    requires p.Valid() && Tame(p, taken + rest)
    requires Cutting(p, taken + rest, pieces)
    requires taken != [] ==> pieces != [] && taken <= pieces[0]
    requires lead == 0 ==> |current| <= |taken| && current == taken[|taken| - |current|..]
    ensures |SplitFrom(p, current, rest)| <= |pieces| + lead
    decreases |rest|, |pieces|
  {
    if rest != [] {
      var c := rest[0];
      assert c in taken + rest;
      assert taken + rest == (taken + [c]) + rest[1..];
      if taken == [] || |taken| < |pieces[0]| {
        // The rival keeps its piece open: so can greedy, if it has no lead.
        SamePiece(p, taken, rest, pieces);
        if lead == 0 {
          RoomForOneMore(p, current, c, taken, pieces[0]);
        }
        var lead' := if MustClose(p, current, c) then lead - 1 else lead;
        GreedyStaysAhead(p, if MustClose(p, current, c) then [c] else current + [c], rest[1..],
                         taken + [c], pieces, lead');
      } else {
        // The rival starts a new piece here.
        NextPiece(p, taken, rest, pieces);
        if MustClose(p, current, c) {
          GreedyStaysAhead(p, [c], rest[1..], [c], pieces[1..], lead);
        } else {
          GreedyStaysAhead(p, current + [c], rest[1..], [c], pieces[1..], lead + 1);
        }
      }
    }
  }

  function Pieces(bs: seq<Batch>): seq<seq<Candidate>> {
    seq(|bs|, i requires 0 <= i < |bs| => bs[i].candidates)
  }

  lemma CutInFront(p: Policy, piece: seq<Candidate>, rest: seq<Candidate>, pieces: seq<seq<Candidate>>)
    requires piece != [] && |piece| <= p.maxBatchSize && Tokens(piece) <= p.maxBatchTokens
    requires Cutting(p, rest, pieces)
    ensures Cutting(p, piece + rest, [piece] + pieces)
  {
    assert ([piece] + pieces)[1..] == pieces && (piece + rest)[|piece|..] == rest;
  }

  lemma {:induction false} GreedyCuts(p: Policy, current: seq<Candidate>, rest: seq<Candidate>)
    requires p.Valid() && p.allowSingleItemBatches
    requires |current| <= p.maxBatchSize && Tokens(current) <= p.maxBatchTokens
    requires forall c :: c in rest ==> c.estimatedTokens <= p.maxBatchTokens
    ensures Cutting(p, current + rest, Pieces(SplitFrom(p, current, rest)))
    decreases |rest|
  {
    var bs := SplitFrom(p, current, rest);
    if rest == [] {
      assert current + rest == current;
      if current != [] {
        assert Pieces(bs) == [current];
        assert current[|current|..] == [];
      }
    } else if MustClose(p, current, rest[0]) {
      assert [rest[0]][..0] == [];
      var later := SplitFrom(p, [rest[0]], rest[1..]);
      GreedyCuts(p, [rest[0]], rest[1..]);
      ShiftHead([], rest);
      assert Pieces(bs) == [current] + Pieces(later);
      CutInFront(p, current, rest, Pieces(later));
    } else {
      assert (current + [rest[0]])[..|current|] == current;
      GreedyCuts(p, current + [rest[0]], rest[1..]);
      ShiftHead(current, rest);
    }
  }

  /** The split of a group is itself a cutting within the limits, and no cutting is shorter. */
  lemma {:induction false} GreedyIsOptimal(p: Policy, group: seq<Candidate>)
    requires p.Valid() && p.allowSingleItemBatches
    requires Tame(p, group) && forall c :: c in group ==> c.estimatedTokens <= p.maxBatchTokens
    ensures Cutting(p, group, Pieces(SplitGroup(p, group)))
    ensures forall pieces :: Cutting(p, group, pieces) ==> |SplitGroup(p, group)| <= |pieces|
  {
    assert [] + group == group;
    GreedyCuts(p, [], group);
    forall pieces | Cutting(p, group, pieces) ensures |SplitGroup(p, group)| <= |pieces| {
      GreedyStaysAhead(p, [], group, [], pieces, 0);
    }
  }

  /** Every group that `build_batches` splits is split into as few batches as possible. */
  lemma {:induction false} PlannedGroupsAreOptimal(p: Policy, cs: seq<Candidate>, k: (string, string))
    requires p.Valid() && p.allowSingleItemBatches && Tame(p, cs)
    ensures var group := GroupOf(Groupable(p, Sort(Before, cs)), k);
            forall pieces :: Cutting(p, group, pieces) ==> |SplitGroup(p, group)| <= |pieces|
  {
    var sorted := Sort(Before, cs);
    SortPermutes(Before, cs);
    SameMembers(cs, sorted);
    BeforeIsTotal();
    SortSorts(Before, cs);
    SievesKeepOrder(p, sorted, k);
    GroupableAreNotAlone(p, sorted);
    GroupIsUniform(Groupable(p, sorted), k);
    GreedyIsOptimal(p, GroupOf(Groupable(p, sorted), k));
  }

  /** Greedy is minimal on every group whose token counts are at least `least`. */
  ghost predicate AlwaysMinimal(p: Policy, least: int)
    requires p.Valid()
  {
    forall group: seq<Candidate>, pieces: seq<seq<Candidate>> ::
      (forall c :: c in group ==> least <= c.estimatedTokens <= p.maxBatchTokens) && Cutting(p, group, pieces)
      ==> |SplitGroup(p, group)| <= |pieces|
  }

  /** For which token counts greedy is minimal: exactly if they cannot be negative, or batches hold
      two requests at most. */
  lemma GreedyIsMinimalExactly(p: Policy, least: int)
    requires p.Valid() && p.allowSingleItemBatches
    ensures AlwaysMinimal(p, least) <==> least >= 0 || p.maxBatchSize <= 2
  {
    if least >= 0 || p.maxBatchSize <= 2 {
      forall group: seq<Candidate>, pieces: seq<seq<Candidate>> |
        (forall c :: c in group ==> least <= c.estimatedTokens <= p.maxBatchTokens) && Cutting(p, group, pieces)
        ensures |SplitGroup(p, group)| <= |pieces|
      {
        GreedyIsOptimal(p, group);
      }
    } else {
      var group := BeatsGreedy(p, least);
      assert Cutting(p, group, [group]) && |SplitGroup(p, group)| > |[group]|;
    }
  }

  /** A group with a negative count that fits one batch and that greedy cuts in two. */
  lemma BeatsGreedy(p: Policy, least: int) returns (group: seq<Candidate>)
    requires p.Valid() && p.allowSingleItemBatches && least < 0 && p.maxBatchSize >= 3
    ensures forall c :: c in group ==> least <= c.estimatedTokens <= p.maxBatchTokens
    ensures Cutting(p, group, [group]) && |SplitGroup(p, group)| == 2
  {
    var a := Candidate("a", "", "", "m", "e", 5, p.maxBatchTokens, true, 0.0);
    var b := a.(requestId := "b", estimatedTokens := if -least < p.maxBatchTokens then -least else p.maxBatchTokens);
    var c := a.(requestId := "c", estimatedTokens := least);
    group := [a, b, c];
    ThreeTokens(a, b, c);
    assert group[1..] == [b, c] && [b, c][1..] == [c] && [c][1..] == [];
    assert [] + [a] == [a] && [b] + [c] == [b, c];
    assert SplitFrom(p, [b, c], []) == [MakeBatch([b, c], CompatibleDynamicBatch)];
    assert SplitFrom(p, [b], [c]) == SplitFrom(p, [b, c], []);
    assert SplitFrom(p, [a], [b, c]) == [MakeBatch([a], CompatibleDynamicBatch)] + SplitFrom(p, [b], [c]);
    assert SplitFrom(p, [], group) == SplitFrom(p, [a], [b, c]);
    assert group[3..] == [] && Cutting(p, group[3..], [group][1..]);
  }

  lemma ThreeTokens(a: Candidate, b: Candidate, c: Candidate)
    ensures Tokens([a]) == a.estimatedTokens && Tokens([b]) == b.estimatedTokens
    ensures Tokens([a, b, c]) == a.estimatedTokens + b.estimatedTokens + c.estimatedTokens
  {
    assert [a][..0] == [] && [b][..0] == [];
    assert [a, b][..1] == [a] && [a, b, c][..2] == [a, b];
  }
}
