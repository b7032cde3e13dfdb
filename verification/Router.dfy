/** Deterministic model routing. */
module Router {
  import opened Options
  import opened Sorting

  datatype ModelProfile = ModelProfile(
    name: string,
    maxContextTokens: int,
    priority: int,
    supportsBatching: bool,
    enabled: bool)

  datatype Request = Request(
    prompt: string,
    context: string,
    eventType: string,
    priority: int,
    requestedModel: Option<string>)
  {
    /** A quarter of the characters of prompt, newline and context, and at least one. */
    function EstimatedTokens(): int {
      var n := (|prompt| + 1 + |context|) / 4;
      if n < 1 then 1 else n
    }
  }

  datatype Reason =
    | ExplicitModelRequested
    | ContextTooLargeForSmallModel
    | ComplexTaskType
    | HighPriorityRequest
    | DefaultSmallModel
    | LatencyAvoidance

  datatype Decision = Decision(modelName: string, reason: Reason, estimatedTokens: int, batchable: bool)

  datatype Error = NoEnabledProfile | DefaultNotConfigured

  datatype Result<T> = Ok(value: T) | Err(error: Error)

  const COMPLEX_EVENT_TYPES := {
    "long_context_rag", "multi_document_rag", "code_generation", "analysis",
    "mission_summary", "legal_review", "medical_review"
  }

  /** The enabled profiles in dict order: by first appearance, the last profile of a name wins. */
  function EnabledProfiles(given: seq<ModelProfile>): seq<ModelProfile> {
    if given == [] then []
    else
      var m := given[|given| - 1];
      var before := EnabledProfiles(given[..|given| - 1]);
      if m.enabled then Replace(before, m) else before
  }

  function Replace(ms: seq<ModelProfile>, m: ModelProfile): seq<ModelProfile> {
    if ms == [] then [m]
    else if ms[0].name == m.name then [m] + ms[1..]
    else [ms[0]] + Replace(ms[1..], m)
  }

  datatype ModelRouter = ModelRouter(profiles: seq<ModelProfile>, defaultModel: string) {
    ghost predicate Valid() {
      && (exists m :: m in profiles && m.name == defaultModel)
      && (forall i, j :: 0 <= i < j < |profiles| ==> profiles[i].name != profiles[j].name)
      && (forall m :: m in profiles ==> m.enabled)
    }
  }

  predicate Configured(ms: seq<ModelProfile>, name: string) {
    exists i :: 0 <= i < |ms| && ms[i].name == name
  }

  function Create(given: seq<ModelProfile>, defaultModel: string): Result<ModelRouter> {
    var ms := EnabledProfiles(given);
    if ms == [] then Err(NoEnabledProfile)
    else if !Configured(ms, defaultModel) then Err(DefaultNotConfigured)
    else Ok(ModelRouter(ms, defaultModel))
  }

  function Lookup(ms: seq<ModelProfile>, name: string): Option<ModelProfile> {
    if ms == [] then None else if ms[0].name == name then Some(ms[0]) else Lookup(ms[1..], name)
  }

  /** The sort key (max_context_tokens, priority). */
  predicate ProfileLe(a: ModelProfile, b: ModelProfile) {
    a.maxContextTokens < b.maxContextTokens || (a.maxContextTokens == b.maxContextTokens && a.priority <= b.priority)
  }

  function Fits(m: ModelProfile, tokens: int): bool {
    tokens <= m.maxContextTokens
  }

  function SmallestThatFits(sorted: seq<ModelProfile>, tokens: int): Option<ModelProfile> {
    if sorted == [] then None
    else if Fits(sorted[0], tokens) then Some(sorted[0])
    else SmallestThatFits(sorted[1..], tokens)
  }

  /** The first model other than `preferred` that fits and is not degraded. */
  function Alternative(sorted: seq<ModelProfile>, preferred: string, tokens: int,
                       degraded: string -> bool): Option<ModelProfile> {
    if sorted == [] then None
    else if sorted[0].name != preferred && Fits(sorted[0], tokens) && !degraded(sorted[0].name) then Some(sorted[0])
    else Alternative(sorted[1..], preferred, tokens, degraded)
  }

  /** The choice among the profiles in ascending order, when no configured model was asked for. */
  function PickBySize(sorted: seq<ModelProfile>, tokens: int, eventType: string, priority: int,
                      degraded: string -> bool)
    : (ModelProfile, Reason)
    requires sorted != []
  {
    var smallest, largest := sorted[0], sorted[|sorted| - 1];
    if tokens > smallest.maxContextTokens then
      var fit := SmallestThatFits(sorted, tokens);
      (if fit.Some? then fit.value else largest, ContextTooLargeForSmallModel)
    else if eventType in COMPLEX_EVENT_TYPES then (largest, ComplexTaskType)
    else if priority <= 2 then (largest, HighPriorityRequest)
    else
      var alternative := if degraded(smallest.name) then Alternative(sorted, smallest.name, tokens, degraded) else None;
      if alternative.Some? then (alternative.value, LatencyAvoidance) else (smallest, DefaultSmallModel)
  }

  /** The profile chosen, and why. `degraded` is the latency tracker's verdict; a router without a
      tracker sees none. */
  function Pick(r: ModelRouter, req: Request, degraded: string -> bool): (ModelProfile, Reason)
    requires r.Valid()
  {
    var requested := if req.requestedModel.Some? && req.requestedModel.value != ""
                     then Lookup(r.profiles, req.requestedModel.value) else None;
    if requested.Some? then (requested.value, ExplicitModelRequested)
    else
      SortPermutes(ProfileLe, r.profiles);
      PickBySize(Sort(ProfileLe, r.profiles), req.EstimatedTokens(), req.eventType, req.priority, degraded)
  }

  function Route(r: ModelRouter, req: Request, degraded: string -> bool): Decision
    requires r.Valid()
  {
    var (m, reason) := Pick(r, req, degraded);
    Decision(m.name, reason, req.EstimatedTokens(), m.supportsBatching)
  }

  // ----- construction -----

  lemma {:induction false} ReplaceFacts(ms: seq<ModelProfile>, m: ModelProfile)
    requires forall i, j :: 0 <= i < j < |ms| ==> ms[i].name != ms[j].name
    ensures var out := Replace(ms, m);
            && m in out
            && (forall x :: x in out ==> x == m || x in ms)
            && (forall i, j :: 0 <= i < j < |out| ==> out[i].name != out[j].name)
  {
    if ms != [] && ms[0].name != m.name {
      ReplaceFacts(ms[1..], m);
      var tail := Replace(ms[1..], m);
      assert forall x :: x in ms[1..] ==> x.name != ms[0].name;
      assert forall i :: 0 <= i < |tail| ==> tail[i] in tail;
    }
  }

  lemma {:induction false} EnabledProfilesFacts(given: seq<ModelProfile>)
    ensures var out := EnabledProfiles(given);
            && (forall x :: x in out ==> x in given && x.enabled)
            && (forall i, j :: 0 <= i < j < |out| ==> out[i].name != out[j].name)
  {
    if given != [] {
      EnabledProfilesFacts(given[..|given| - 1]);
      assert given == given[..|given| - 1] + [given[|given| - 1]];
      ReplaceFacts(EnabledProfiles(given[..|given| - 1]), given[|given| - 1]);
    }
  }

  /** A router that could be constructed is well formed. */
  lemma CreateGivesValid(given: seq<ModelProfile>, defaultModel: string)
    ensures Create(given, defaultModel).Ok? ==> Create(given, defaultModel).value.Valid()
  {
    EnabledProfilesFacts(given);
    var ms := EnabledProfiles(given);
    if i :| 0 <= i < |ms| && ms[i].name == defaultModel {
      assert ms[i] in ms;
    }
  }

  // ----- the choice -----

  lemma ProfileLeIsTotal()
    ensures TotalPreorder(ProfileLe)
  {
  }

  lemma {:induction false} LookupFinds(ms: seq<ModelProfile>, m: ModelProfile)
    requires m in ms && forall i, j :: 0 <= i < j < |ms| ==> ms[i].name != ms[j].name
    ensures Lookup(ms, m.name) == Some(m)
  {
    if ms[0] != m {
      assert m in ms[1..];
      assert exists i :: 0 < i < |ms| && ms[i] == m;
      LookupFinds(ms[1..], m);
    }
  }

  lemma {:induction false} LookupMember(ms: seq<ModelProfile>, name: string)
    ensures Lookup(ms, name).Some? ==> Lookup(ms, name).value in ms && Lookup(ms, name).value.name == name
  {
    if ms != [] {
      LookupMember(ms[1..], name);
    }
  }

  lemma {:induction false} SmallestIsLeast(sorted: seq<ModelProfile>, tokens: int)
    requires Sorted(ProfileLe, sorted)
    ensures var fit := SmallestThatFits(sorted, tokens);
            && (fit.Some? <==> exists m :: m in sorted && Fits(m, tokens))
            && (fit.Some? ==> fit.value in sorted && Fits(fit.value, tokens)
                              && forall m :: m in sorted && Fits(m, tokens) ==> ProfileLe(fit.value, m))
  {
    if sorted != [] {
      SmallestIsLeast(sorted[1..], tokens);
      assert sorted == [sorted[0]] + sorted[1..];
      assert forall m :: m in sorted[1..] ==> ProfileLe(sorted[0], m);
    }
  }

  /** `m` can stand in for `preferred`. */
  predicate Avoids(m: ModelProfile, preferred: string, tokens: int, degraded: string -> bool) {
    m.name != preferred && Fits(m, tokens) && !degraded(m.name)
  }

  lemma {:induction false} AlternativeFits(sorted: seq<ModelProfile>, preferred: string, tokens: int,
                                           degraded: string -> bool)
    ensures var alt := Alternative(sorted, preferred, tokens, degraded);
            && (alt.Some? ==> alt.value in sorted && Avoids(alt.value, preferred, tokens, degraded))
            && (alt.None? ==> forall m :: m in sorted ==> !Avoids(m, preferred, tokens, degraded))
  {
    if sorted != [] {
      AlternativeFits(sorted[1..], preferred, tokens, degraded);
      assert sorted == [sorted[0]] + sorted[1..];
    }
  }

  lemma SortedProfiles(r: ModelRouter)
    requires r.Valid()
    ensures var s := Sort(ProfileLe, r.profiles);
            && |s| == |r.profiles| > 0 && Sorted(ProfileLe, s) && forall m :: m in s <==> m in r.profiles
  {
    ProfileLeIsTotal();
    SortSorts(ProfileLe, r.profiles);
    SortPermutes(ProfileLe, r.profiles);
    var s := Sort(ProfileLe, r.profiles);
    assert forall m :: m in s <==> m in multiset(s);
    assert forall m :: m in r.profiles <==> m in multiset(r.profiles);
  }

  lemma PickBySizeFits(sorted: seq<ModelProfile>, tokens: int, eventType: string, priority: int,
                       degraded: string -> bool)
    requires sorted != [] && Sorted(ProfileLe, sorted)
    ensures var (m, reason) := PickBySize(sorted, tokens, eventType, priority, degraded);
            && m in sorted && reason != ExplicitModelRequested
            && ((exists x :: x in sorted && Fits(x, tokens)) ==> Fits(m, tokens))
            && (reason == ContextTooLargeForSmallModel ==>
                  forall x :: x in sorted && Fits(x, tokens) ==> ProfileLe(m, x))
  {
    assert |sorted| == 1 || ProfileLe(sorted[0], sorted[|sorted| - 1]);
    SmallestIsLeast(sorted, tokens);
    AlternativeFits(sorted, sorted[0].name, tokens, degraded);
  }

  /** The choice is a configured model; unless that model was asked for, it fits whenever any
      model fits; and on context overflow it is the least (context, priority) that fits. */
  lemma RoutingFitsAndIsMinimal(r: ModelRouter, req: Request, degraded: string -> bool)
    requires r.Valid()
    ensures var (m, reason) := Pick(r, req, degraded); var tokens := req.EstimatedTokens();
            && m in r.profiles
            && (reason == ExplicitModelRequested ==> req.requestedModel == Some(m.name))
            && (reason != ExplicitModelRequested ==>
                  ((exists x :: x in r.profiles && Fits(x, tokens)) ==> Fits(m, tokens)))
            && (reason == ContextTooLargeForSmallModel ==>
                  forall x :: x in r.profiles && Fits(x, tokens) ==> ProfileLe(m, x))
  {
    if req.requestedModel.Some? {
      LookupMember(r.profiles, req.requestedModel.value);
    }
    SortedProfiles(r);
    PickBySizeFits(Sort(ProfileLe, r.profiles), req.EstimatedTokens(), req.eventType, req.priority, degraded);
  }

  /** Re-routing the gateway's choice in a worker with the same profiles gives the same model,
      token estimate and batchability, whatever latency either side has observed. */
  lemma ReroutingIsStable(r: ModelRouter, req: Request, atGateway: string -> bool, atWorker: string -> bool)
    requires r.Valid() && Route(r, req, atGateway).modelName != ""
    ensures var d := Route(r, req, atGateway);
            Route(r, req.(requestedModel := Some(d.modelName)), atWorker) == d.(reason := ExplicitModelRequested)
  {
    RoutingFitsAndIsMinimal(r, req, atGateway);
    LookupFinds(r.profiles, Pick(r, req, atGateway).0);
  }

  /** The worker's latency tracker moves the request off the gateway's choice: the choice was the
      smallest model by default, its name is empty, it is degraded, and another model can stand in. */
  predicate MovedByLatency(r: ModelRouter, req: Request, d: Decision, atWorker: string -> bool) {
    && d.modelName == "" && d.reason == DefaultSmallModel && atWorker("")
    && exists m :: m in r.profiles && Avoids(m, "", req.EstimatedTokens(), atWorker)
  }

  /** The empty string is no request for a model, so re-routing keeps the model except exactly in
      one case, in which the model's name is empty. */
  lemma ReroutingChangesExactly(r: ModelRouter, req: Request, atWorker: string -> bool)
    requires r.Valid()
    ensures var d := Route(r, req, _ => false);
            Route(r, req.(requestedModel := Some(d.modelName)), atWorker).modelName != d.modelName
            <==> MovedByLatency(r, req, d, atWorker)
  {
    var none: string -> bool := _ => false;
    var d, again := Route(r, req, none), req.(requestedModel := Some(Route(r, req, none).modelName));
    if d.modelName != "" {
      ReroutingIsStable(r, req, none, atWorker);
    } else {
      RoutingFitsAndIsMinimal(r, req, none);
      SortedProfiles(r);
      var sorted := Sort(ProfileLe, r.profiles);
      AlternativeFits(sorted, sorted[0].name, req.EstimatedTokens(), atWorker);
      assert again.EstimatedTokens() == req.EstimatedTokens();
    }
  }

  ghost predicate RoutedAway(r: ModelRouter, req: Request, atWorker: string -> bool) {
    r.Valid() && var d := Route(r, req, _ => false);
                 Route(r, req.(requestedModel := Some(d.modelName)), atWorker).modelName != d.modelName
  }

  /** The empty string is no request for a model, so a model of that name can be re-routed away. */
  lemma EmptyNameIsRerouted()
    ensures exists r, req, atWorker :: RoutedAway(r, req, atWorker)
  {
    var a, b := ModelProfile("", 100, 10, true, true), ModelProfile("b", 200, 20, true, true);
    var r, req := ModelRouter([a, b], ""), Request("", "", "", 5, None);
    var slow := (name: string) => name == "";
    assert a in r.profiles;
    assert [a, b][1..] == [b] && [b][1..] == [];
    assert Sort(ProfileLe, r.profiles) == [a, b] by {
      assert Sort(ProfileLe, [b]) == [b];
    }
    assert Route(r, req, _ => false).modelName == "";
    assert Alternative([a, b], "", 1, slow) == Some(b) by {
      assert Alternative([b], "", 1, slow) == Some(b);
    }
    assert Route(r, req.(requestedModel := Some("")), slow).modelName == "b";
    assert RoutedAway(r, req, slow);
  }
}
