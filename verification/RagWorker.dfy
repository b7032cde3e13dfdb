/** The queue worker as the objects it is made of. Its methods are proved to be the execution of the
    delivery's program, for every order in which the adapter's calls complete, and to report whether
    all of it went well: for distinct requests, exactly that every message has been deleted. */
module RagWorkers {
  import opened Results
  import opened Worker
  import opened WorkerProofs
  import opened Executions
  import Adapter
  import Batching
  import BatchingProofs
  import Breaker
  import Latency
  import Scheduler
  import Sorting

  class SqsClient {
    var deleted: set<string>

    constructor ()
      ensures deleted == {}
    {
      deleted := {};
    }

    method DeleteMessage(receipt: string)
      modifies this
      ensures deleted == old(deleted) + {receipt}
    {
      deleted := deleted + {receipt};
    }
  }

  type Messages = map<string, Message>

  function ReceiptMap(messages: Messages): map<string, string> {
    map id | id in messages :: messages[id].receipt
  }

  /** Each candidate has a message in the table. */
  ghost predicate InTable(messages: Messages, cs: seq<Batching.Candidate>) {
    forall c :: c in cs ==> c.requestId in messages
  }

  // ----- what the adapter returns -----

  function OutputFor(c: Batching.Candidate, t: Tick): Adapter.Output {
    Adapter.Output(c.requestId, t.text, t.error, t.durationMs)
  }

  /** The outputs for the candidates in this order; recording a success takes two steps, a failure one. */
  function OutputsFor(cs: seq<Batching.Candidate>, world: nat -> Tick, n: nat): seq<Adapter.Output> {
    if cs == [] then []
    else [OutputFor(cs[0], world(n))] + OutputsFor(cs[1..], world, n + if world(n).Success() then 2 else 1)
  }

  lemma {:induction false} OutputsMatch(cs: seq<Batching.Candidate>, world: nat -> Tick, n: nat)
    ensures |OutputsFor(cs, world, n)| == |cs|
    ensures forall i :: 0 <= i < |cs| ==> OutputsFor(cs, world, n)[i].requestId == cs[i].requestId
  {
    if cs != [] {
      OutputsMatch(cs[1..], world, n + if world(n).Success() then 2 else 1);
    }
  }

  /** Any order in which concurrent calls complete. Outputs for one id keep their order, since the world
      gives them in the order in which they complete. */
  ghost predicate Rearranges(finish: seq<Adapter.Output> -> seq<Adapter.Output>) {
    forall xs ::
      multiset(finish(xs)) == multiset(xs) && forall id :: Adapter.OfId(id, finish(xs)) == Adapter.OfId(id, xs)
  }

  predicate Occurs(cs: seq<Batching.Candidate>, id: string) {
    exists c :: c in cs && c.requestId == id
  }

  lemma {:induction false} LastAtFinds(cs: seq<Batching.Candidate>, id: string)
    requires Occurs(cs, id)
    ensures LastAt(cs, id) < |cs| && cs[LastAt(cs, id)].requestId == id
  {
    if cs[|cs| - 1].requestId != id {
      assert cs == cs[..|cs| - 1] + [cs[|cs| - 1]];
      LastAtFinds(cs[..|cs| - 1], id);
    }
  }

  /** The adapter ranks an id by where it occurs last. */
  lemma {:induction false} RanksAreLast(cs: seq<Batching.Candidate>, id: string)
    ensures id in Adapter.OrderOf(Adapter.InputsFor(cs)) <==> Occurs(cs, id)
    ensures Occurs(cs, id) ==> Adapter.OrderOf(Adapter.InputsFor(cs))[id] == LastAt(cs, id)
  {
    if cs != [] {
      var init, last := cs[..|cs| - 1], cs[|cs| - 1];
      assert cs == init + [last];
      RanksAreLast(init, id);
      assert Adapter.InputsFor(cs)[..|cs| - 1] == Adapter.InputsFor(init);
    }
  }

  lemma {:induction false} AnswerOrderOccurs(cs: seq<Batching.Candidate>, i: nat)
    requires i < |cs|
    ensures Occurs(cs, AnswerOrder(cs)[i].requestId)
    ensures AnswerOrder(cs)[i] == FirstLike(cs, AnswerOrder(cs)[i])
  {
    var sorted := Sorting.Sort(ByLast(cs), cs);
    Sorting.SortPermutes(ByLast(cs), cs);
    Sorting.SameMembers(sorted, cs);
    assert sorted[i] in cs;
    FirstLikeAgain(cs, sorted[i]);
  }

  lemma {:induction false} FirstLikeAgain(cs: seq<Batching.Candidate>, c: Batching.Candidate)
    requires Occurs(cs, c.requestId)
    ensures FirstLike(cs, c) in cs && FirstLike(cs, FirstLike(cs, c)) == FirstLike(cs, c)
  {
    if cs[0].requestId != c.requestId {
      assert cs == [cs[0]] + cs[1..];
      FirstLikeAgain(cs[1..], c);
    }
  }

  lemma {:induction false} RanksDiffer(cs: seq<Batching.Candidate>)
    ensures var order := Adapter.OrderOf(Adapter.InputsFor(cs));
            forall x, y :: x in order && y in order && order[x] == order[y] ==> x == y
  {
    var order := Adapter.OrderOf(Adapter.InputsFor(cs));
    forall x, y | x in order && y in order && order[x] == order[y] ensures x == y {
      RanksAreLast(cs, x);
      RanksAreLast(cs, y);
      LastAtFinds(cs, x);
      LastAtFinds(cs, y);
    }
  }

  lemma {:induction false} AnswersAreRanked(live: seq<Batching.Candidate>, world: nat -> Tick, n: nat)
    ensures var order, recorded := Adapter.OrderOf(Adapter.InputsFor(live)), OutputsFor(AnswerOrder(live), world, n);
            && (forall o :: o in recorded ==> o.requestId in order)
            && Sorting.Sorted(Adapter.ByRank(order), recorded)
  {
    var order, recorded := Adapter.OrderOf(Adapter.InputsFor(live)), OutputsFor(AnswerOrder(live), world, n);
    var sorted := Sorting.Sort(ByLast(live), live);
    OutputsMatch(AnswerOrder(live), world, n);
    Sorting.SortPermutes(ByLast(live), live);
    Sorting.SortSorts(ByLast(live), live);
    forall i | 0 <= i < |live|
      ensures recorded[i].requestId in order && order[recorded[i].requestId] == LastAt(live, sorted[i].requestId)
    {
      AnswerOrderOccurs(live, i);
      RanksAreLast(live, recorded[i].requestId);
    }
    forall i, j | 0 <= i < j < |recorded| ensures Adapter.ByRank(order)(recorded[i], recorded[j]) {
      assert ByLast(live)(sorted[i], sorted[j]);
    }
  }

  /** The outputs come back in the order of the answers, whatever order the calls finish in. */
  lemma {:induction false} OutputsInOrder(live: seq<Batching.Candidate>, world: nat -> Tick, n: nat,
                                          finish: seq<Adapter.Output> -> seq<Adapter.Output>)
    requires Rearranges(finish)
    ensures var order, recorded := Adapter.OrderOf(Adapter.InputsFor(live)), OutputsFor(AnswerOrder(live), world, n);
            Sorting.Sort(Adapter.ByRank(order), finish(recorded)) == recorded
  {
    var order, recorded := Adapter.OrderOf(Adapter.InputsFor(live)), OutputsFor(AnswerOrder(live), world, n);
    AnswersAreRanked(live, world, n);
    RanksDiffer(live);
    Adapter.RestoresRankOrder(order, finish(recorded), recorded);
  }

  // ----- the TTL check -----

  /** The requests that have not expired at their turn of the TTL check; an expired one takes two steps. */
  function LiveOf(cfg: Config, cs: seq<Batching.Candidate>, world: nat -> Tick, n: nat): seq<Batching.Candidate> {
    if cs == [] then []
    else if IsExpired(cfg, cs[0], world(n).now) then LiveOf(cfg, cs[1..], world, n + 2)
    else [cs[0]] + LiveOf(cfg, cs[1..], world, n + 1)
  }

  /** The messages of those that have. */
  function ExpiredOf(cfg: Config, messages: Messages, cs: seq<Batching.Candidate>, world: nat -> Tick, n: nat)
    : set<string>
  {
    if cs == [] then {}
    else if !IsExpired(cfg, cs[0], world(n).now) then ExpiredOf(cfg, messages, cs[1..], world, n + 1)
    else
      ExpiredOf(cfg, messages, cs[1..], world, n + 2)
        + if cs[0].requestId in messages then {messages[cs[0].requestId].receipt} else {}
  }

  lemma {:induction false} LiveInTable(cfg: Config, messages: Messages, cs: seq<Batching.Candidate>,
                                       world: nat -> Tick, n: nat)
    requires InTable(messages, cs)
    ensures InTable(messages, LiveOf(cfg, cs, world, n))
  {
    if cs != [] {
      LiveInTable(cfg, messages, cs[1..], world, n + if IsExpired(cfg, cs[0], world(n).now) then 2 else 1);
    }
  }

  class RAGWorker {
    const cfg: Config
    const resultStore: InMemoryResultStore
    const circuitBreaker: Breaker.CircuitBreaker
    const latencyTracker: Latency.LatencyTracker
    const sqs: SqsClient
    const gpuScheduler: Scheduler.GPUScheduler
    const batcher: Batching.DynamicBatcher
    ghost var completions: seq<string>

    ghost predicate Valid()
      reads resultStore
    {
      && cfg.Valid() && resultStore.store.Valid()
      && circuitBreaker.policy == cfg.breaker && batcher.policy == cfg.batching
      && gpuScheduler.modelProfiles == cfg.profiles && gpuScheduler.policy == cfg.scheduling
    }

    ghost function View(): Core
      reads this, resultStore, circuitBreaker, latencyTracker, sqs
    {
      Core(resultStore.store, circuitBreaker.View(), latencyTracker.View(), sqs.deleted, completions)
    }

    constructor (cfg: Config, latency: Latency.Policy, resultStore: InMemoryResultStore, sqs: SqsClient)
      requires cfg.Valid() && resultStore.store.Valid()
      ensures Valid() && this.cfg == cfg
      ensures View() == Core(resultStore.store, Breaker.FRESH, Latency.Tracker(latency, map[]), sqs.deleted, [])
    {
      this.cfg := cfg;
      this.resultStore := resultStore;
      this.sqs := sqs;
      this.circuitBreaker := new Breaker.CircuitBreaker(cfg.breaker);
      this.latencyTracker := new Latency.LatencyTracker(latency);
      this.gpuScheduler := new Scheduler.GPUScheduler(cfg.profiles, cfg.scheduling);
      this.batcher := new Batching.DynamicBatcher(cfg.batching);
      completions := [];
    }

    /** Writes one record. */
    method PutResult(r: Record)
      requires Valid()
      modifies resultStore, this`completions
      ensures Valid() && View() == Write(old(View()), r)
    {
      resultStore.Put(r);
      completions := completions + if r.status == Completed then [r.requestId] else [];
    }

    /** Decodes the messages, plans batches and processes them; `world(n)` is what the n-th operation
        meets, `finish` the order in which concurrent adapter calls complete. */
    method ProcessMessages(ms: seq<Message>, world: nat -> Tick, finish: seq<Adapter.Output> -> seq<Adapter.Output>)
      returns (ok: bool)
      requires Valid() && Rearranges(finish)
      modifies this`completions, resultStore, circuitBreaker, latencyTracker, sqs
      ensures Valid()
      ensures View() == Execute(cfg, ReceiptsOf(ms), old(View()), ProgramFor(cfg, old(View()).latency, ms), world, 0)
      ensures ok <==> (exists m :: m in ms && m.body.Some?)
                      && Succeeds(cfg, ReceiptsOf(ms), old(View()), ProgramFor(cfg, old(View()).latency, ms), world, 0)
      ensures old(sqs.deleted) <= sqs.deleted <= old(sqs.deleted) + ReceiptsOf(ms).Values
      ensures Deliverable(ms) && (forall m :: m in ms ==> m.receipt !in old(sqs.deleted)) ==>
                && (ok <==> (exists m :: m in ms && m.body.Some?)
                            && forall m :: m in ms && m.body.Some? ==> m.receipt in sqs.deleted)
    {
      ghost var start := View();
      var candidates, messages := Decode(ms);
      TableReceipts(ms);
      DeletesFromTable(cfg, ReceiptsOf(ms), start, ProgramFor(cfg, start.latency, ms), world, 0);
      DecodedInTable(cfg, start.latency, ms);
      if Deliverable(ms) && forall m :: m in ms ==> m.receipt !in sqs.deleted {
        DeliverySucceedsExactly(cfg, start, ms, world);
      }
      if candidates == [] {
        return false;
      }
      var batches := batcher.BuildBatches(candidates);
      PlanInTable(cfg, start.latency, ms);
      ok := ProcessBatches(batches, messages, world, finish);
    }

    /** The loop over the messages. */
    method Decode(ms: seq<Message>) returns (candidates: seq<Batching.Candidate>, messages: Messages)
      requires Valid()
      ensures candidates == CandidatesOf(cfg, View().latency, ms) && messages == MessagesOf(ms)
    {
      candidates, messages := [], map[];
      for i := 0 to |ms|
        invariant candidates == CandidatesOf(cfg, View().latency, ms[..i])
        invariant messages == MessagesOf(ms[..i])
      {
        var message := ms[i];
        assert ms[..i + 1][..i] == ms[..i];
        match message.body {
          case None =>
            assert candidates + [] == candidates;
          case Some(task) =>
            var candidate := CandidateOf(cfg, latencyTracker.View(), task);
            candidates := candidates + [candidate];
            messages := messages[candidate.requestId := message];
        }
      }
      assert ms[..|ms|] == ms;
    }

    /** Processes every batch, whatever became of the ones before; true if all of them succeeded. */
    method ProcessBatches(batches: seq<Batching.Batch>, messages: Messages, world: nat -> Tick,
                          finish: seq<Adapter.Output> -> seq<Adapter.Output>)
      returns (ok: bool)
      requires Valid() && Rearranges(finish) && forall b :: b in batches ==> InTable(messages, b.candidates)
      modifies this`completions, resultStore, circuitBreaker, latencyTracker, sqs
      ensures Valid() && View() == Execute(cfg, ReceiptMap(messages), old(View()), Gates(batches), world, 0)
      ensures ok <==> Succeeds(cfg, ReceiptMap(messages), old(View()), Gates(batches), world, 0)
    {
      ghost var start, receipts := View(), ReceiptMap(messages);
      var tick := 0;
      ok := true;
      assert batches[0..] == batches;
      for i := 0 to |batches|
        invariant Valid()
        invariant Leads(cfg, receipts, world, start, Gates(batches), 0, View(), Gates(batches[i..]), tick, ok)
      {
        FirstGate(batches, i);
        assert batches[i] in batches;
        var result;
        result, tick := ProcessBatch(batches[i], messages, world, finish, tick, Gates(batches[i + 1..]));
        ok := ok && result;
      }
      assert batches[|batches|..] == [];
    }

    /** Processes one batch: execution of its gate and all it expands to, for every completion order. */
    method ProcessBatch(batch: Batching.Batch, messages: Messages, world: nat -> Tick,
                        finish: seq<Adapter.Output> -> seq<Adapter.Output>, tick: nat, ghost rest: seq<Op>)
      returns (ok: bool, tick': nat)
      requires Valid() && InTable(messages, batch.candidates) && Rearranges(finish)
      modifies this`completions, resultStore, circuitBreaker, latencyTracker, sqs
      ensures Valid()
      ensures Leads(cfg, ReceiptMap(messages), world, old(View()), [Gate(batch)] + rest, tick, View(), rest, tick', ok)
    {
      var cs, model := batch.candidates, batch.modelName;
      ExecuteOne(cfg, ReceiptMap(messages), View(), Gate(batch), rest, world, tick);
      tick' := tick + 1;
      if cfg.gpuSchedulingEnabled {
        var decision := gpuScheduler.Place(model, cfg.devices, |cs|);
        if decision.status != Scheduler.Scheduled {
          assert [] + rest == rest;
          return false, tick';
        }
      }
      var allowed := circuitBreaker.AllowRequest(world(tick).now);
      if !allowed {
        tick' := RefuseBatch(cs, model, messages, world, tick', rest);
        return false, tick';
      }
      ok, tick' := RunBatch(cs, model, messages, world, finish, tick', rest);
    }

    /** A batch that was let through. */
    method RunBatch(cs: seq<Batching.Candidate>, model: string, messages: Messages, world: nat -> Tick,
                    finish: seq<Adapter.Output> -> seq<Adapter.Output>, tick: nat, ghost rest: seq<Op>)
      returns (ok: bool, tick': nat)
      requires Valid() && InTable(messages, cs) && Rearranges(finish)
      modifies this`completions, resultStore, circuitBreaker, latencyTracker, sqs
      ensures Valid()
      ensures Leads(cfg, ReceiptMap(messages), world, old(View()), [Sweep(cs, [], model)] + rest, tick,
                    View(), rest, tick', ok)
    {
      var live;
      live, tick' := SweepBatch(cs, model, messages, world, tick, rest);
      if live == [] {
        assert (MarkAll([], model) + AnswerAll(AnswerOrder([]), model)) + rest == rest;
        return true, tick';
      }
      LiveInTable(cfg, messages, cs, world, tick);
      ghost var marks, answers := MarkAll(live, model), AnswerAll(AnswerOrder(live), model);
      Sorting.ConcatAssociative(marks, answers, rest);
      assert Leads(cfg, ReceiptMap(messages), world, old(View()), [Sweep(cs, [], model)] + rest, tick,
                   View(), marks + (answers + rest), tick', true);
      tick' := MarkBatch(live, model, messages, world, tick', answers + rest);
      ok, tick' := InferBatch(live, model, messages, world, finish, tick', rest);
    }

    /** The breaker refused: every request fails, its message stays. */
    method RefuseBatch(cs: seq<Batching.Candidate>, model: string, messages: Messages, world: nat -> Tick, tick: nat,
                       ghost rest: seq<Op>)
      returns (tick': nat)
      requires Valid()
      modifies this`completions, resultStore
      ensures Valid()
      ensures Leads(cfg, ReceiptMap(messages), world, old(View()), RefuseAll(cs, model) + rest, tick,
                    View(), rest, tick', cs == [])
    {
      ghost var start, receipts := View(), ReceiptMap(messages);
      tick' := tick;
      assert cs[0..] == cs;
      for i := 0 to |cs|
        invariant Valid()
        invariant Leads(cfg, receipts, world, start, RefuseAll(cs, model) + rest, tick,
                        View(), RefuseAll(cs[i..], model) + rest, tick', i == 0)
      {
        assert cs[i..][1..] == cs[i + 1..];
        ghost var tail := RefuseAll(cs[i + 1..], model) + rest;
        Sorting.ConcatAssociative([Refuse(cs[i], model)], RefuseAll(cs[i + 1..], model), rest);
        ExecuteOne(cfg, receipts, View(), Refuse(cs[i], model), tail, world, tick');
        assert [] + tail == tail;
        PutResult(FailedRecord(cs[i], model, BreakerOpen, world(tick').now));
        tick' := tick' + 1;
      }
      assert RefuseAll(cs[|cs|..], model) + rest == rest;
    }

    /** The TTL check: expired requests fail and their messages are deleted; the others stay live. */
    method SweepBatch(cs: seq<Batching.Candidate>, model: string, messages: Messages, world: nat -> Tick, tick: nat,
                      ghost rest: seq<Op>)
      returns (live: seq<Batching.Candidate>, tick': nat)
      requires Valid() && InTable(messages, cs)
      modifies this`completions, resultStore, sqs
      ensures Valid() && live == LiveOf(cfg, cs, world, tick)
      ensures sqs.deleted == old(sqs.deleted) + ExpiredOf(cfg, messages, cs, world, tick)
      ensures Leads(cfg, ReceiptMap(messages), world, old(View()), [Sweep(cs, [], model)] + rest, tick,
                    View(), (MarkAll(live, model) + AnswerAll(AnswerOrder(live), model)) + rest, tick', true)
    {
      ghost var start, receipts := View(), ReceiptMap(messages);
      tick', live := tick, [];
      assert cs[0..] == cs && [] + LiveOf(cfg, cs, world, tick) == LiveOf(cfg, cs, world, tick);
      for i := 0 to |cs|
        invariant Valid() && live + LiveOf(cfg, cs[i..], world, tick') == LiveOf(cfg, cs, world, tick)
        invariant sqs.deleted + ExpiredOf(cfg, messages, cs[i..], world, tick')
               == start.deleted + ExpiredOf(cfg, messages, cs, world, tick)
        invariant Leads(cfg, receipts, world, start, [Sweep(cs, [], model)] + rest, tick,
                        View(), [Sweep(cs[i..], live, model)] + rest, tick', true)
      {
        live, tick' := SweepOne(cs, i, live, model, messages, world, tick', rest);
      }
      assert cs[|cs|..] == [] && live + [] == live;
      SweepEnds(cfg, receipts, View(), live, model, rest, world, tick');
      tick' := tick' + 1;
    }

    /** One turn of the TTL check. */
    method SweepOne(cs: seq<Batching.Candidate>, i: nat, live: seq<Batching.Candidate>, model: string,
                    messages: Messages, world: nat -> Tick, tick: nat, ghost rest: seq<Op>)
      returns (live': seq<Batching.Candidate>, tick': nat)
      requires Valid() && i < |cs| && InTable(messages, cs)
      modifies this`completions, resultStore, sqs
      ensures Valid()
      ensures live' + LiveOf(cfg, cs[i + 1..], world, tick') == live + LiveOf(cfg, cs[i..], world, tick)
      ensures sqs.deleted + ExpiredOf(cfg, messages, cs[i + 1..], world, tick')
           == old(sqs.deleted) + ExpiredOf(cfg, messages, cs[i..], world, tick)
      ensures Leads(cfg, ReceiptMap(messages), world, old(View()), [Sweep(cs[i..], live, model)] + rest, tick,
                    View(), [Sweep(cs[i + 1..], live', model)] + rest, tick', true)
    {
      var c := cs[i];
      assert c in cs;
      Sorting.Slices(cs, i);
      SweepOnStep(cfg, ReceiptMap(messages), View(), cs[i..], live, model, rest, world, tick);
      if IsExpired(cfg, c, world(tick).now) {
        Expire(c, model, messages, world(tick));
        live', tick' := live, tick + 2;
      } else {
        Sorting.ConcatAssociative(live, [c], LiveOf(cfg, cs[i + 1..], world, tick + 1));
        live', tick' := live + [c], tick + 1;
      }
    }

    /** Fails an expired request and deletes its message. */
    method Expire(c: Batching.Candidate, model: string, messages: Messages, t: Tick)
      requires Valid() && c.requestId in messages
      modifies this`completions, resultStore, sqs
      ensures Valid() && View() == AfterExpiry(ReceiptMap(messages), old(View()), c, model, t)
      ensures sqs.deleted == old(sqs.deleted) + {messages[c.requestId].receipt}
    {
      PutResult(FailedRecord(c, model, Expired, t.now));
      var message := messages[c.requestId];
      sqs.DeleteMessage(message.receipt);
    }

    /** Marks every live request as processing. */
    method MarkBatch(live: seq<Batching.Candidate>, model: string, messages: Messages, world: nat -> Tick, tick: nat,
                     ghost rest: seq<Op>)
      returns (tick': nat)
      requires Valid()
      modifies this`completions, resultStore
      ensures Valid()
      ensures Leads(cfg, ReceiptMap(messages), world, old(View()), MarkAll(live, model) + rest, tick,
                    View(), rest, tick', true)
    {
      ghost var start, receipts := View(), ReceiptMap(messages);
      tick' := tick;
      assert live[0..] == live;
      for i := 0 to |live|
        invariant Valid()
        invariant Leads(cfg, receipts, world, start, MarkAll(live, model) + rest, tick,
                        View(), MarkAll(live[i..], model) + rest, tick', true)
      {
        assert live[i..][1..] == live[i + 1..];
        ghost var tail := MarkAll(live[i + 1..], model) + rest;
        Sorting.ConcatAssociative([Mark(live[i], model)], MarkAll(live[i + 1..], model), rest);
        ExecuteOne(cfg, receipts, View(), Mark(live[i], model), tail, world, tick');
        assert [] + tail == tail;
        PutResult(ProcessingRecord(live[i], model));
        tick' := tick' + 1;
      }
      assert MarkAll(live[|live|..], model) + rest == rest;
    }

    /** Runs the adapter, whatever order its calls finish in, and records the outputs. */
    method InferBatch(live: seq<Batching.Candidate>, model: string, messages: Messages, world: nat -> Tick,
                      finish: seq<Adapter.Output> -> seq<Adapter.Output>, tick: nat, ghost rest: seq<Op>)
      returns (allSucceeded: bool, tick': nat)
      requires Valid() && InTable(messages, live) && Rearranges(finish)
      modifies this`completions, resultStore, circuitBreaker, latencyTracker, sqs
      ensures Valid()
      ensures Leads(cfg, ReceiptMap(messages), world, old(View()), AnswerAll(AnswerOrder(live), model) + rest, tick,
                    View(), rest, tick', allSucceeded)
    {
      var outputs := AdapterOutputs(live, world, finish, tick);
      ghost var start, receipts, order := View(), ReceiptMap(messages), AnswerOrder(live);
      tick', allSucceeded := tick, true;
      assert order[0..] == order;
      for i := 0 to |outputs|
        invariant Valid() && outputs[i..] == OutputsFor(order[i..], world, tick')
        invariant Leads(cfg, receipts, world, start, AnswerAll(order, model) + rest, tick,
                        View(), AnswerAll(order[i..], model) + rest, tick', allSucceeded)
      {
        ghost var tail := AnswerAll(order[i + 1..], model) + rest;
        Sorting.Slices(order, i);
        Sorting.Slices(outputs, i);
        Sorting.ConcatAssociative([Answer(order[i], model)], AnswerAll(order[i + 1..], model), rest);
        AnswerOrderOccurs(live, i);
        TableHolds(messages, live, order[i].requestId);
        ExecuteAnswer(cfg, receipts, View(), order[i], model, tail, world, tick');
        TakeOutput(live, order[i], model, outputs[i], messages, world(tick'));
        allSucceeded := allSucceeded && outputs[i].Success();
        tick' := tick' + if outputs[i].Success() then 2 else 1;
      }
      assert AnswerAll(order[|order|..], model) + rest == rest;
    }

    /** The first live candidate with the id of an output. */
    method FindCandidate(live: seq<Batching.Candidate>, requestId: string, ghost like: Batching.Candidate)
      returns (c: Batching.Candidate)
      requires Occurs(live, requestId) && like.requestId == requestId
      ensures c == FirstLike(live, like)
    {
      var i := 0;
      assert live[0..] == live;
      while i < |live| && live[i].requestId != requestId
        invariant i < |live| && Occurs(live[i..], requestId) && FirstLike(live[i..], like) == FirstLike(live, like)
        decreases |live| - i
      {
        Sorting.Slices(live, i);
        i := i + 1;
      }
      c := live[i];
    }

    /** Records one output: the breaker, the result store, the latency window, the queue. */
    method TakeOutput(live: seq<Batching.Candidate>, ghost c: Batching.Candidate, model: string,
                      output: Adapter.Output, messages: Messages, t: Tick)
      requires Valid() && Occurs(live, c.requestId) && c == FirstLike(live, c) && c.requestId in messages
      requires output == OutputFor(c, t)
      modifies this`completions, resultStore, circuitBreaker, latencyTracker, sqs
      ensures Valid() && View() == AfterAnswer(cfg, ReceiptMap(messages), old(View()), c, model, t)
    {
      var candidate := FindCandidate(live, output.requestId, c);
      if output.Success() {
        circuitBreaker.RecordSuccess();
        PutResult(CompletedRecord(candidate, model, t));
        latencyTracker.Record(model, output.durationMs);
        var message := messages[output.requestId];
        sqs.DeleteMessage(message.receipt);
      } else {
        circuitBreaker.RecordFailure(t.now);
        PutResult(FailedRecord(candidate, model, ErrorOf(output.error), t.now));
      }
    }
  }

  lemma TableHolds(messages: Messages, cs: seq<Batching.Candidate>, id: string)
    requires InTable(messages, cs) && Occurs(cs, id)
    ensures id in messages
  {
  }

  /** The adapter's outputs, in the order of the answers. */
  method AdapterOutputs(live: seq<Batching.Candidate>, world: nat -> Tick,
                        finish: seq<Adapter.Output> -> seq<Adapter.Output>, tick: nat)
    returns (outputs: seq<Adapter.Output>)
    requires Rearranges(finish)
    ensures outputs == OutputsFor(AnswerOrder(live), world, tick) && |outputs| == |live|
  {
    var completed := finish(OutputsFor(AnswerOrder(live), world, tick));
    OutputsMatch(AnswerOrder(live), world, tick);
    Sorting.SameMembers(completed, OutputsFor(AnswerOrder(live), world, tick));
    OutputsInOrder(live, world, tick, finish);
    outputs := Adapter.InferBatch(Adapter.InputsFor(live), completed, completed);
  }

  // ----- from the delivered messages to their batches -----

  /** The well-formed messages of a delivery, each under the id of its request. */
  function MessagesOf(ms: seq<Message>): Messages {
    if ms == [] then map[]
    else
      var before := MessagesOf(ms[..|ms| - 1]);
      match ms[|ms| - 1].body
      case None => before
      case Some(task) => before[task.eventId := ms[|ms| - 1]]
  }

  /** Distinct messages for distinct requests. */
  ghost predicate Deliverable(ms: seq<Message>) {
    forall i, j :: 0 <= i < j < |ms| ==>
      ms[i].receipt != ms[j].receipt
      && (ms[i].body.Some? && ms[j].body.Some? ==> ms[i].body.value.eventId != ms[j].body.value.eventId)
  }

  lemma FirstGate(bs: seq<Batching.Batch>, i: nat)
    requires i < |bs|
    ensures Gates(bs[i..]) == [Gate(bs[i])] + Gates(bs[i + 1..])
  {
    assert bs[i..][1..] == bs[i + 1..];
  }

  lemma {:induction false} TableReceipts(ms: seq<Message>)
    ensures ReceiptMap(MessagesOf(ms)) == ReceiptsOf(ms)
  {
    if ms != [] {
      TableReceipts(ms[..|ms| - 1]);
    }
  }

  /** Every candidate's id is in the table; there are candidates if and only if some message parses. */
  lemma {:induction false} DecodedInTable(cfg: Config, latency: Latency.Tracker, ms: seq<Message>)
    requires cfg.router.Valid()
    ensures InTable(MessagesOf(ms), CandidatesOf(cfg, latency, ms))
    ensures CandidatesOf(cfg, latency, ms) != [] <==> exists m :: m in ms && m.body.Some?
  {
    if ms != [] {
      DecodedInTable(cfg, latency, ms[..|ms| - 1]);
      assert ms == ms[..|ms| - 1] + [ms[|ms| - 1]];
      assert ms[|ms| - 1] in ms;
    }
  }

  lemma {:induction false} PlanInTable(cfg: Config, latency: Latency.Tracker, ms: seq<Message>)
    requires cfg.Valid()
    ensures forall b :: b in Batching.Plan(cfg.batching, CandidatesOf(cfg, latency, ms)) ==>
              InTable(MessagesOf(ms), b.candidates) && b.candidates != []
  {
    var cs := CandidatesOf(cfg, latency, ms);
    var bs := Batching.Plan(cfg.batching, cs);
    DecodedInTable(cfg, latency, ms);
    BatchingProofs.BatchesPartitionInput(cfg.batching, cs);
    BatchingProofs.BatchesWellFormed(cfg.batching, cs);
    Sorting.SameMembers(cs, BatchingProofs.Flatten(bs));
    forall b | b in bs ensures InTable(MessagesOf(ms), b.candidates) && b.candidates != [] {
      assert BatchingProofs.WellFormed(cfg.batching, b);
      BatchingProofs.FlattenHolds(bs, b);
    }
  }

  // ----- what success means for a delivery -----

  /** Some message of the delivery is for this request. */
  ghost predicate Requests(ms: seq<Message>, id: string) {
    exists m :: m in ms && m.body.Some? && m.body.value.eventId == id
  }

  lemma RequestsSnoc(init: seq<Message>, last: Message, id: string)
    ensures Requests(init + [last], id)
       <==> Requests(init, id) || (last.body.Some? && last.body.value.eventId == id)
  {
    assert forall m :: m in init + [last] <==> m in init || m == last;
  }

  lemma LastIsNew(ms: seq<Message>)
    requires Deliverable(ms) && ms != []
    ensures ms == ms[..|ms| - 1] + [ms[|ms| - 1]] && Deliverable(ms[..|ms| - 1])
    ensures var last := ms[|ms| - 1]; last.body.Some? ==> !Requests(ms[..|ms| - 1], last.body.value.eventId)
  {
  }

  /** The candidates are for the requests of the delivery, each once if these are distinct. */
  lemma {:induction false} CandidateIds(cfg: Config, latency: Latency.Tracker, ms: seq<Message>, id: string)
    requires cfg.router.Valid() && Deliverable(ms)
    ensures IdBag(CandidatesOf(cfg, latency, ms))[id] == if Requests(ms, id) then 1 else 0
  {
    if ms != [] {
      var init, last := ms[..|ms| - 1], ms[|ms| - 1];
      var before := CandidatesOf(cfg, latency, init);
      LastIsNew(ms);
      CandidateIds(cfg, latency, init, id);
      RequestsSnoc(init, last, id);
      if last.body.Some? {
        IdBagSnoc(before, CandidateOf(cfg, latency, last.body.value));
      } else {
        assert before + [] == before;
      }
    }
  }

  /** Each request of the delivery is mapped to the receipt of its own message. */
  lemma {:induction false} OwnReceipts(ms: seq<Message>)
    requires Deliverable(ms)
    ensures forall m :: m in ms && m.body.Some? ==>
              m.body.value.eventId in ReceiptsOf(ms) && ReceiptsOf(ms)[m.body.value.eventId] == m.receipt
  {
    if ms != [] {
      LastIsNew(ms);
      OwnReceipts(ms[..|ms| - 1]);
    }
  }

  lemma {:induction false} DeliveryIsNeat(cfg: Config, latency: Latency.Tracker, ms: seq<Message>, deleted: set<string>)
    requires cfg.router.Valid() && Deliverable(ms) && forall m :: m in ms ==> m.receipt !in deleted
    ensures Neat(ReceiptsOf(ms), IdBag(CandidatesOf(cfg, latency, ms)), deleted)
    ensures forall id :: id in IdBag(CandidatesOf(cfg, latency, ms)) <==> Requests(ms, id)
  {
    var slots, receipts := IdBag(CandidatesOf(cfg, latency, ms)), ReceiptsOf(ms);
    OwnReceipts(ms);
    forall id ensures slots[id] == if Requests(ms, id) then 1 else 0 {
      CandidateIds(cfg, latency, ms, id);
    }
    forall x, y | x in slots && y in slots && receipts[x] == receipts[y] ensures x == y {
      var m :| m in ms && m.body.Some? && m.body.value.eventId == x;
      var k :| k in ms && k.body.Some? && k.body.value.eventId == y;
      assert m == k;
    }
  }

  /** For distinct requests: all goes well exactly if every message that parses is deleted. */
  lemma {:induction false} DeliverySucceedsExactly(cfg: Config, core: Core, ms: seq<Message>, world: nat -> Tick)
    requires cfg.Valid() && Deliverable(ms) && forall m :: m in ms ==> m.receipt !in core.deleted
    ensures var prog := ProgramFor(cfg, core.latency, ms);
            var end := Execute(cfg, ReceiptsOf(ms), core, prog, world, 0).deleted;
            Succeeds(cfg, ReceiptsOf(ms), core, prog, world, 0) <==>
              forall m :: m in ms && m.body.Some? ==> m.receipt in end
  {
    var prog := ProgramFor(cfg, core.latency, ms);
    var slots, receipts := IdBag(CandidatesOf(cfg, core.latency, ms)), ReceiptsOf(ms);
    var end := Execute(cfg, receipts, core, prog, world, 0).deleted;
    DeliveryIsNeat(cfg, core.latency, ms, core.deleted);
    OwnReceipts(ms);
    ProgramHoldsDelivery(cfg, core.latency, ms);
    PlanInTable(cfg, core.latency, ms);
    GatesAreFull(Batching.Plan(cfg.batching, CandidatesOf(cfg, core.latency, ms)));
    SucceedsExactly(cfg, receipts, core, prog, world, 0);
    forall id | id in slots && forall m :: m in ms && m.body.Some? ==> m.receipt in end ensures receipts[id] in end {
      var m :| m in ms && m.body.Some? && m.body.value.eventId == id;
    }
  }

  lemma {:induction false} GatesAreFull(bs: seq<Batching.Batch>)
    requires forall b :: b in bs ==> b.candidates != []
    ensures NoEmptyGate(Gates(bs))
  {
    if bs != [] {
      GatesAreFull(bs[1..]);
      assert bs[0] in bs;
    }
  }

  /** Of two messages for one request in a delivery, only the later can be deleted, however well the
      request fares: the earlier is delivered again. */
  lemma {:induction false} EarlierMessageStays(cfg: Config, core: Core, ms: seq<Message>, i: nat, j: nat,
                                               world: nat -> Tick)
    requires cfg.Valid() && i < j < |ms| && ms[i].body.Some? && ms[j].body.Some?
    requires ms[i].body.value.eventId == ms[j].body.value.eventId && ms[i].receipt !in core.deleted
    requires forall x, y :: 0 <= x < y < |ms| ==> ms[x].receipt != ms[y].receipt
    ensures ms[i].receipt !in
              Execute(cfg, ReceiptsOf(ms), core, ProgramFor(cfg, core.latency, ms), world, 0).deleted
  {
    DeletesFromTable(cfg, ReceiptsOf(ms), core, ProgramFor(cfg, core.latency, ms), world, 0);
    forall id | id in ReceiptsOf(ms) ensures ReceiptsOf(ms)[id] != ms[i].receipt {
      ReceiptIsOfLast(ms, id);
    }
  }

  /** The table has, for each request, the last message of the delivery for it. */
  lemma {:induction false} ReceiptIsOfLast(ms: seq<Message>, id: string)
    requires id in ReceiptsOf(ms)
    ensures exists k :: 0 <= k < |ms| && ms[k].body.Some? && ms[k].body.value.eventId == id
                        && ReceiptsOf(ms)[id] == ms[k].receipt
                        && forall j :: k < j < |ms| && ms[j].body.Some? ==> ms[j].body.value.eventId != id
  {
    var init, last := ms[..|ms| - 1], ms[|ms| - 1];
    if last.body.Some? && last.body.value.eventId == id {
      assert ms[|ms| - 1] == last;
    } else {
      ReceiptIsOfLast(init, id);
    }
  }
}
