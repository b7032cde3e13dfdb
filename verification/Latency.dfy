/** Observed latency per model: a bounded window and a percentile test on it. */
module Latency {
  import opened Options
  import opened Sorting

  datatype Policy = Policy(windowSize: nat, p95ThresholdMs: real, minSamples: int)

  datatype Stats = Stats(sampleCount: nat, p50Ms: real, p95Ms: real, degraded: bool)

  predicate RealLe(a: real, b: real) {
    a <= b
  }

  /** Appends to a window of at most `n`, dropping the oldest sample of a full one. */
  function Push(w: seq<real>, n: nat, x: real): seq<real> {
    var grown := w + [x];
    if |grown| > n then grown[|grown| - n..] else grown
  }

  function PercentileIndex(n: nat, pct: nat): (idx: nat)
    requires n > 0
    ensures idx < n
  {
    var idx := n * pct / 100;
    if idx < n - 1 then idx else n - 1
  }

  function Percentile(w: seq<real>, pct: nat): real
    requires w != []
  {
    var sorted := Sort(RealLe, w);
    SortPermutes(RealLe, w);
    sorted[PercentileIndex(|sorted|, pct)]
  }

  function Degraded(p: Policy, w: seq<real>): bool {
    w != [] && |w| >= p.minSamples && Percentile(w, 95) > p.p95ThresholdMs
  }

  datatype Tracker = Tracker(policy: Policy, windows: map<string, seq<real>>) {
    function WindowOf(model: string): seq<real> {
      if model in windows then windows[model] else []
    }

    function Record(model: string, durationMs: real): Tracker {
      this.(windows := windows[model := Push(WindowOf(model), policy.windowSize, durationMs)])
    }

    predicate IsDegraded(model: string) {
      Degraded(policy, WindowOf(model))
    }
  }

  class LatencyTracker {
    const policy: Policy
    var windows: map<string, seq<real>>

    function View(): Tracker
      reads this
    {
      Tracker(policy, windows)
    }

    constructor (policy: Policy)
      ensures View() == Tracker(policy, map[])
    {
      this.policy := policy;
      windows := map[];
    }

    method Record(model: string, durationMs: real)
      modifies this
      ensures View() == old(View()).Record(model, durationMs)
    {
      var window := if model in windows then windows[model] else [];
      windows := windows[model := Push(window, policy.windowSize, durationMs)];
    }

    predicate IsDegraded(model: string)
      reads this
    {
      View().IsDegraded(model)
    }

    function GetStats(model: string): (stats: Option<Stats>)
      reads this
      ensures stats.Some? ==> stats.value.p50Ms <= stats.value.p95Ms
      ensures stats.Some? ==> stats.value.sampleCount == |View().WindowOf(model)|
      ensures stats.Some? ==> (stats.value.degraded <==> View().IsDegraded(model))
      ensures stats.Some? <==> View().WindowOf(model) != []
      ensures stats.Some? ==> ExceedsAllBut(View().WindowOf(model), stats.value.p50Ms, 50)
      ensures stats.Some? ==> ExceedsAllBut(View().WindowOf(model), stats.value.p95Ms, 95)
    {
      var w := View().WindowOf(model);
      if w == [] then None
      else
        PercentilesAscend(w, 50, 95);
        PercentileIsRank(w, 50);
        PercentileIsRank(w, 95);
        Some(Stats(|w|, Percentile(w, 50), Percentile(w, 95), View().IsDegraded(model)))
    }
  }

  // ----- the window is the recent past -----

  datatype Sample = Sample(model: string, durationMs: real)

  function RecordAll(t: Tracker, samples: seq<Sample>): Tracker {
    if samples == [] then t
    else
      var s := samples[|samples| - 1];
      RecordAll(t, samples[..|samples| - 1]).Record(s.model, s.durationMs)
  }

  function DurationsOf(samples: seq<Sample>, model: string): seq<real> {
    if samples == [] then []
    else
      var s := samples[|samples| - 1];
      DurationsOf(samples[..|samples| - 1], model) + if s.model == model then [s.durationMs] else []
  }

  function LastN(xs: seq<real>, n: nat): seq<real> {
    if |xs| <= n then xs else xs[|xs| - n..]
  }

  lemma PushIsLastN(xs: seq<real>, n: nat, x: real)
    ensures Push(LastN(xs, n), n, x) == LastN(xs + [x], n)
  {
  }

  /** After any run of samples, a model's window is its last `windowSize` durations. */
  lemma {:induction false} WindowIsRecentPast(p: Policy, samples: seq<Sample>, model: string)
    ensures var t := RecordAll(Tracker(p, map[]), samples);
            t.policy == p && t.WindowOf(model) == LastN(DurationsOf(samples, model), p.windowSize)
  {
    if samples != [] {
      var init, s := samples[..|samples| - 1], samples[|samples| - 1];
      WindowIsRecentPast(p, init, model);
      PushIsLastN(DurationsOf(init, model), p.windowSize, s.durationMs);
      assert DurationsOf(init, model) + [] == DurationsOf(init, model);
    }
  }

  // ----- the percentile as a counting statement -----

  function CountAbove(xs: seq<real>, threshold: real): nat {
    if xs == [] then 0 else (if xs[0] > threshold then 1 else 0) + CountAbove(xs[1..], threshold)
  }

  lemma {:induction false} CountInsert(xs: seq<real>, x: real, threshold: real)
    ensures CountAbove(Insert(RealLe, x, xs), threshold) == CountAbove([x] + xs, threshold)
  {
    assert ([x] + xs)[1..] == xs;
    if xs != [] && !RealLe(x, xs[0]) {
      CountInsert(xs[1..], x, threshold);
      assert ([x] + xs[1..])[1..] == xs[1..];
      assert Insert(RealLe, x, xs)[1..] == Insert(RealLe, x, xs[1..]);
    }
  }

  lemma {:induction false} CountSorted(xs: seq<real>, threshold: real)
    ensures CountAbove(Sort(RealLe, xs), threshold) == CountAbove(xs, threshold)
  {
    if xs != [] {
      CountSorted(xs[1..], threshold);
      CountInsert(Sort(RealLe, xs[1..]), xs[0], threshold);
      assert ([xs[0]] + Sort(RealLe, xs[1..]))[1..] == Sort(RealLe, xs[1..]);
    }
  }

  /** In an ascending list the k-th element exceeds the threshold exactly when it and everything
      after it do. */
  lemma {:induction false} SortedSelect(xs: seq<real>, k: nat, threshold: real)
    requires Sorted(RealLe, xs) && k < |xs|
    ensures xs[k] > threshold <==> CountAbove(xs, threshold) >= |xs| - k
    ensures CountAbove(xs, threshold) <= |xs|
    ensures xs[0] > threshold ==> CountAbove(xs, threshold) == |xs|
  {
    if |xs| > 1 {
      assert RealLe(xs[0], xs[1]) && (k == 0 || RealLe(xs[0], xs[k]));
      SortedSelect(xs[1..], if k > 0 then k - 1 else 0, threshold);
    }
  }

  lemma RealLeIsTotal()
    ensures TotalPreorder(RealLe)
  {
  }

  /** `x` is the percentile: it is over just those thresholds that all but floor(pct n / 100) of the n
      samples are over. */
  ghost predicate ExceedsAllBut(w: seq<real>, x: real, pct: nat) {
    forall threshold :: x > threshold <==> CountAbove(w, threshold) >= |w| - |w| * pct / 100
  }

  lemma IndexIsFloor(n: nat, pct: nat)
    requires n > 0 && pct < 100
    ensures PercentileIndex(n, pct) == n * pct / 100 < n
  {
    Scale(n, pct, 99);
    assert n * 99 / 100 < n;
  }

  lemma {:induction false} PercentileIsRank(w: seq<real>, pct: nat)
    requires w != [] && pct < 100
    ensures ExceedsAllBut(w, Percentile(w, pct), pct)
  {
    RealLeIsTotal();
    SortSorts(RealLe, w);
    SortPermutes(RealLe, w);
    IndexIsFloor(|w|, pct);
    var sorted, k := Sort(RealLe, w), |w| * pct / 100;
    assert Percentile(w, pct) == sorted[k];
    forall threshold ensures sorted[k] > threshold <==> CountAbove(w, threshold) >= |w| - k {
      CountSorted(w, threshold);
      SortedSelect(sorted, k, threshold);
    }
  }

  /** With n samples, a model is degraded exactly when at least n - floor(95 n / 100) of them
      exceed the threshold, provided there are enough samples to judge. */
  lemma {:induction false} DegradedIsCounting(p: Policy, w: seq<real>)
    ensures Degraded(p, w) <==>
              w != [] && |w| >= p.minSamples && CountAbove(w, p.p95ThresholdMs) >= |w| - |w| * 95 / 100
  {
    if w != [] {
      RealLeIsTotal();
      SortSorts(RealLe, w);
      SortPermutes(RealLe, w);
      CountSorted(w, p.p95ThresholdMs);
      SortedSelect(Sort(RealLe, w), |w| * 95 / 100, p.p95ThresholdMs);
    }
  }

  lemma PercentilesAscend(w: seq<real>, lo: nat, hi: nat)
    requires w != [] && lo <= hi
    ensures Percentile(w, lo) <= Percentile(w, hi)
  {
    RealLeIsTotal();
    SortSorts(RealLe, w);
    SortPermutes(RealLe, w);
    PercentileIndexAscends(|w|, lo, hi);
    var s, i, j := Sort(RealLe, w), PercentileIndex(|w|, lo), PercentileIndex(|w|, hi);
    assert i == j || RealLe(s[i], s[j]);
  }

  lemma PercentileIndexAscends(n: nat, lo: nat, hi: nat)
    requires n > 0 && lo <= hi
    ensures PercentileIndex(n, lo) <= PercentileIndex(n, hi)
  {
    Scale(n, lo, hi);
    assert n * lo / 100 <= n * hi / 100;
  }

  lemma Scale(n: nat, a: nat, b: nat)
    requires a <= b
    ensures n * a <= n * b
  {
    assert n * (b - a) >= 0;
  }

  /** The verdict does not depend on the order in which the samples arrived. */
  lemma DegradedIgnoresOrder(p: Policy, v: seq<real>, w: seq<real>)
    requires multiset(v) == multiset(w)
    ensures Degraded(p, v) == Degraded(p, w)
  {
    assert |multiset(v)| == |v| && |multiset(w)| == |w|;
    RealLeIsTotal();
    SortIgnoresOrder(RealLe, v, w);
  }
}
