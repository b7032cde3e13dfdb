/** Any number of queue workers over one queue and one result store. Nothing in the system itself
    keeps a message from being delivered to a second worker while the first still holds it: the
    queue's visibility timeout may run out. */
module Fleets {
  import opened Results
  import opened Worker
  import Breaker
  import Latency

  /** What is a worker's own. */
  datatype Node = Node(breaker: Breaker.State, latency: Latency.Tracker, receipts: map<string, string>, prog: seq<Op>)

  datatype Fleet = Fleet(
    inbox: map<string, Message>,
    store: Store,
    deleted: set<string>,
    completions: seq<string>,
    nodes: seq<Node>)
  {
    predicate Has(w: nat) {
      w < |nodes|
    }

    /** The platform as worker `w` sees it. */
    function SystemOf(w: nat): System
      requires Has(w)
    {
      var node := nodes[w];
      System(inbox, Core(store, node.breaker, node.latency, deleted, completions), node.receipts, node.prog)
    }

    /** The platform after worker `w` has come to see it as `s`. */
    function Absorb(w: nat, s: System): Fleet
      requires Has(w)
    {
      Fleet(s.inbox, s.core.store, s.core.deleted, s.core.completions,
            nodes[w := Node(s.core.breaker, s.core.latency, s.receipts, s.prog)])
    }
  }

  /** Publications belong to no worker: the worker named is irrelevant. A restarted worker has
      forgotten its program, its breaker and its latency window. */
  datatype FleetEvent = Act(worker: nat, event: Event) | Restart(worker: nat)

  function FreshNode(latency: Latency.Policy): Node {
    Node(Breaker.FRESH, Latency.Tracker(latency, map[]), map[], [])
  }

  function Advance(cfg: Config, f: Fleet, e: FleetEvent): Fleet
    requires cfg.Valid()
  {
    if !f.Has(e.worker) then f
    else
      match e
      case Act(w, event) => f.Absorb(w, Next(cfg, f.SystemOf(w), event))
      case Restart(w) => f.(nodes := f.nodes[w := FreshNode(f.nodes[w].latency.policy)])
  }

  function Initial(n: nat, latency: Latency.Policy): Fleet {
    Fleet(map[], EMPTY, {}, [], seq(n, _ => FreshNode(latency)))
  }

  function Run(cfg: Config, f: Fleet, es: seq<FleetEvent>): Fleet
    requires cfg.Valid()
  {
    if es == [] then f else Advance(cfg, Run(cfg, f, es[..|es| - 1]), es[|es| - 1])
  }

  lemma {:induction false} RunConcat(cfg: Config, f: Fleet, es: seq<FleetEvent>, more: seq<FleetEvent>)
    requires cfg.Valid()
    ensures Run(cfg, f, es + more) == Run(cfg, Run(cfg, f, es), more)
  {
    if more == [] {
      assert es + more == es;
    } else {
      RunConcat(cfg, f, es, more[..|more| - 1]);
      assert (es + more)[..|es + more| - 1] == es + more[..|more| - 1];
    }
  }

  lemma {:induction false} RunOne(cfg: Config, f: Fleet, e: FleetEvent)
    requires cfg.Valid()
    ensures Run(cfg, f, [e]) == Advance(cfg, f, e)
  {
    assert [e][..0] == [];
  }

  /** The number of workers never changes. */
  lemma {:induction false} RunKeepsNodes(cfg: Config, f: Fleet, es: seq<FleetEvent>)
    requires cfg.Valid()
    ensures |Run(cfg, f, es).nodes| == |f.nodes|
  {
    if es != [] {
      RunKeepsNodes(cfg, f, es[..|es| - 1]);
    }
  }

  /** `o` with what all workers share taken from `s`. */
  function Shared(o: System, s: System): System {
    System(s.inbox, s.core.(breaker := o.core.breaker, latency := o.core.latency), o.receipts, o.prog)
  }

  lemma AbsorbViews(f: Fleet, w: nat, s: System, v: nat)
    requires f.Has(w) && f.Has(v)
    ensures f.Absorb(w, s).Has(v)
    ensures f.Absorb(w, s).SystemOf(v) == if v == w then s else Shared(f.SystemOf(v), s)
  {
  }

  // ----- a program's execution is a run -----

  /** `k` operations of worker `w` from step `n` of the world on. */
  function Works(w: nat, world: nat -> Tick, n: nat, k: nat): seq<FleetEvent>
    decreases k
  {
    if k == 0 then [] else [Act(w, Work(world(n)))] + Works(w, world, n + 1, k - 1)
  }

  /** The platform after worker `w`, alone at work, has executed its program. */
  function Finished(cfg: Config, f: Fleet, w: nat, world: nat -> Tick, n: nat): Fleet
    requires f.Has(w)
  {
    var s := f.SystemOf(w);
    f.Absorb(w, s.(prog := [], core := Execute(cfg, s.receipts, s.core, s.prog, world, n)))
  }

  lemma WorkKeepsFinish(cfg: Config, f: Fleet, w: nat, world: nat -> Tick, n: nat)
    requires cfg.Valid() && f.Has(w) && f.SystemOf(w).prog != []
    ensures var f' := Advance(cfg, f, Act(w, Work(world(n))));
            && f'.Has(w) && Cost(f'.SystemOf(w).prog) < Cost(f.SystemOf(w).prog)
            && Finished(cfg, f', w, world, n + 1) == Finished(cfg, f, w, world, n)
  {
    var s := f.SystemOf(w);
    AbsorbViews(f, w, Next(cfg, s, Work(world(n))), w);
    StepShrinks(cfg, s.core.breaker, s.prog, world(n));
  }

  /** Executing a worker's program on its own is a run of the fleet. */
  lemma {:induction false} ExecutionIsARun(cfg: Config, f: Fleet, w: nat, world: nat -> Tick, n: nat)
    requires cfg.Valid() && f.Has(w)
    ensures exists k: nat :: Run(cfg, f, Works(w, world, n, k)) == Finished(cfg, f, w, world, n)
    decreases Cost(f.SystemOf(w).prog)
  {
    if f.SystemOf(w).prog == [] {
      assert Works(w, world, n, 0) == [] && Finished(cfg, f, w, world, n) == f;
    } else {
      var e := Act(w, Work(world(n)));
      WorkKeepsFinish(cfg, f, w, world, n);
      ExecutionIsARun(cfg, Advance(cfg, f, e), w, world, n + 1);
      var k: nat :| Run(cfg, Advance(cfg, f, e), Works(w, world, n + 1, k))
          == Finished(cfg, Advance(cfg, f, e), w, world, n + 1);
      RunOne(cfg, f, e);
      RunConcat(cfg, f, [e], Works(w, world, n + 1, k));
      assert Works(w, world, n, k + 1) == [e] + Works(w, world, n + 1, k);
    }
  }
}
