/** Routing, exactly: which model every request gets, and why. */
module RouterChoices {
  import opened Options
  import opened Router
  import opened Sorting

  // ----- the vocabulary of what is promised -----

  predicate Smaller(a: ModelProfile, b: ModelProfile) {
    a.maxContextTokens < b.maxContextTokens || (a.maxContextTokens == b.maxContextTokens && a.priority < b.priority)
  }

  predicate SameSize(a: ModelProfile, b: ModelProfile) {
    a.maxContextTokens == b.maxContextTokens && a.priority == b.priority
  }

  /** `m` is the smallest of the models with the property, by context and priority; of several the first
      configured. */
  ghost predicate IsSmallest(ms: seq<ModelProfile>, has: ModelProfile -> bool, m: ModelProfile) {
    && m in ms && has(m)
    && forall x :: x in ms && has(x) && x != m ==> Smaller(m, x) || (SameSize(m, x) && ComesBefore(ms, m, x))
  }

  /** `m` is the largest model; of several the last configured. */
  ghost predicate IsLargest(ms: seq<ModelProfile>, m: ModelProfile) {
    && m in ms
    && forall x :: x in ms && x != m ==> Smaller(x, m) || (SameSize(x, m) && ComesBefore(ms, x, m))
  }

  ghost predicate AsksFor(ms: seq<ModelProfile>, req: Request, name: string) {
    req.requestedModel == Some(name) && name != "" && exists m :: m in ms && m.name == name
  }

  ghost predicate AsksForAny(ms: seq<ModelProfile>, req: Request) {
    exists m :: m in ms && AsksFor(ms, req, m.name)
  }

  /** The request is too long for some model. */
  ghost predicate Overflows(ms: seq<ModelProfile>, tokens: int) {
    exists m :: m in ms && m.maxContextTokens < tokens
  }

  predicate IsComplex(eventType: string) {
    || eventType == "long_context_rag" || eventType == "multi_document_rag" || eventType == "code_generation"
    || eventType == "analysis" || eventType == "mission_summary" || eventType == "legal_review"
    || eventType == "medical_review"
  }

  /** Other than the model of this name, fit for the request, and not degraded. */
  function Instead(name: string, tokens: int, degraded: string -> bool): ModelProfile -> bool {
    (m: ModelProfile) => m.name != name && tokens <= m.maxContextTokens && !degraded(m.name)
  }

  function FitFor(tokens: int): ModelProfile -> bool {
    (m: ModelProfile) => tokens <= m.maxContextTokens
  }

  function Any(): ModelProfile -> bool {
    (m: ModelProfile) => true
  }

  /** When a request gets this model for this reason. The cases exclude each other. */
  ghost predicate Gets(ms: seq<ModelProfile>, req: Request, tokens: int, degraded: string -> bool, m: ModelProfile,
                       reason: Reason)
  {
    match reason
    case ExplicitModelRequested => AsksFor(ms, req, m.name)
    case ContextTooLargeForSmallModel =>
      && !AsksForAny(ms, req) && Overflows(ms, tokens)
      && if exists x :: x in ms && tokens <= x.maxContextTokens then IsSmallest(ms, FitFor(tokens), m)
         else IsLargest(ms, m)
    case ComplexTaskType =>
      !AsksForAny(ms, req) && !Overflows(ms, tokens) && IsComplex(req.eventType) && IsLargest(ms, m)
    case HighPriorityRequest =>
      && !AsksForAny(ms, req) && !Overflows(ms, tokens) && !IsComplex(req.eventType) && req.priority <= 2
      && IsLargest(ms, m)
    case LatencyAvoidance =>
      && !AsksForAny(ms, req) && !Overflows(ms, tokens) && !IsComplex(req.eventType) && req.priority > 2
      && exists least ::
           IsSmallest(ms, Any(), least) && degraded(least.name)
           && IsSmallest(ms, Instead(least.name, tokens, degraded), m)
    case DefaultSmallModel =>
      && !AsksForAny(ms, req) && !Overflows(ms, tokens) && !IsComplex(req.eventType) && req.priority > 2
      && IsSmallest(ms, Any(), m)
      && (degraded(m.name) ==> forall x :: x in ms ==> !Instead(m.name, tokens, degraded)(x))
  }

  /** A quarter of the characters of prompt, line break and context, rounded down, but at least one. */
  predicate Estimates(req: Request, tokens: int) {
    var n := |req.prompt| + 1 + |req.context|;
    if n < 8 then tokens == 1 else 4 * tokens <= n < 4 * tokens + 4
  }

  // ----- construction -----

  /** No later enabled profile has the name. */
  ghost predicate LastOfName(given: seq<ModelProfile>, m: ModelProfile) {
    exists i ::
      && 0 <= i < |given| && given[i] == m && m.enabled
      && forall j :: i < j < |given| && given[j].enabled ==> given[j].name != m.name
  }

  ghost predicate HasEnabled(given: seq<ModelProfile>, name: string) {
    exists m :: m in given && m.enabled && m.name == name
  }

  /** Of the enabled profiles, one of the first name comes before all of the second. */
  ghost predicate NamedFirst(given: seq<ModelProfile>, name: string, other: string) {
    exists i ::
      && 0 <= i < |given| && given[i].enabled && given[i].name == name
      && forall j :: 0 <= j <= i && given[j].enabled ==> given[j].name != other
  }

  lemma LastOfNameSnoc(given: seq<ModelProfile>, last: ModelProfile, m: ModelProfile)
    ensures LastOfName(given + [last], m) <==>
              if last.enabled && last.name == m.name then m == last else LastOfName(given, m)
  {
    var n, all := |given|, given + [last];
    assert all[n] == last && forall i :: 0 <= i < n ==> all[i] == given[i];
    if i :| 0 <= i <= n && all[i] == m && m.enabled
            && forall j :: i < j <= n && all[j].enabled ==> all[j].name != m.name
    {
      assert i < n ==> given[i] == m;
    }
    if i :| 0 <= i < n && given[i] == m && m.enabled
            && forall j :: i < j < n && given[j].enabled ==> given[j].name != m.name
    {
      assert all[i] == m;
    }
  }

  lemma NamedFirstSnoc(given: seq<ModelProfile>, last: ModelProfile, name: string, other: string)
    requires NamedFirst(given, name, other)
    ensures NamedFirst(given + [last], name, other)
  {
    var all := given + [last];
    var i :| 0 <= i < |given| && given[i].enabled && given[i].name == name
             && forall j :: 0 <= j <= i && given[j].enabled ==> given[j].name != other;
    assert all[i] == given[i];
  }

  lemma OnlyOneNamed(given: seq<ModelProfile>, name: string, other: string)
    requires HasEnabled(given, name) && !HasEnabled(given, other)
    ensures NamedFirst(given, name, other)
  {
    var i :| 0 <= i < |given| && given[i].enabled && given[i].name == name;
    assert forall j :: 0 <= j <= i ==> given[j] in given;
  }

  /** Replacing keeps the places of all names. */
  lemma {:induction false} ReplacePlaces(ms: seq<ModelProfile>, m: ModelProfile)
    requires forall i, j :: 0 <= i < j < |ms| ==> ms[i].name != ms[j].name
    ensures var out := Replace(ms, m);
            && |ms| <= |out| <= |ms| + 1
            && (forall i :: 0 <= i < |ms| ==> out[i] == if ms[i].name == m.name then m else ms[i])
            && (|out| > |ms| <==> forall x :: x in ms ==> x.name != m.name)
            && (|out| > |ms| ==> out[|ms|] == m)
  {
    if ms != [] {
      assert ms == [ms[0]] + ms[1..];
      if ms[0].name != m.name {
        ReplacePlaces(ms[1..], m);
      } else {
        assert forall i :: 0 < i < |ms| ==> ms[i].name != m.name;
      }
    }
  }

  /** The profiles a router keeps of those given. */
  ghost predicate Keeps(given: seq<ModelProfile>, ms: seq<ModelProfile>) {
    && (forall m :: m in ms <==> LastOfName(given, m))
    && (forall name :: HasEnabled(given, name) <==> exists m :: m in ms && m.name == name)
    && (forall i, j :: 0 <= i < j < |ms| ==> NamedFirst(given, ms[i].name, ms[j].name))
  }

  lemma {:induction false} KeepsSnoc(given: seq<ModelProfile>, last: ModelProfile, ms: seq<ModelProfile>)
    requires Keeps(given, ms) && last.enabled && forall i, j :: 0 <= i < j < |ms| ==> ms[i].name != ms[j].name
    ensures Keeps(given + [last], Replace(ms, last))
  {
    var all, out := given + [last], Replace(ms, last);
    ReplacePlaces(ms, last);
    forall m ensures m in out <==> LastOfName(all, m) {
      LastOfNameSnoc(given, last, m);
      MembersAfterReplace(ms, last, m);
    }
    forall name ensures HasEnabled(all, name) <==> exists m :: m in out && m.name == name {
      NamesAfterReplace(given, last, ms, name);
    }
    forall i, j | 0 <= i < j < |out| ensures NamedFirst(all, out[i].name, out[j].name) {
      assert out[i].name == ms[i].name && ms[i] in ms;
      if j == |ms| {
        OnlyOneNamed(given, out[i].name, out[j].name);
      }
      NamedFirstSnoc(given, last, out[i].name, out[j].name);
    }
  }

  lemma {:induction false} MembersAfterReplace(ms: seq<ModelProfile>, last: ModelProfile, m: ModelProfile)
    requires forall i, j :: 0 <= i < j < |ms| ==> ms[i].name != ms[j].name
    ensures m in Replace(ms, last) <==> if m.name == last.name then m == last else m in ms
  {
    ReplacePlaces(ms, last);
    var out := Replace(ms, last);
    if i :| 0 <= i < |ms| && ms[i] == m {
      assert out[i] == if m.name == last.name then last else m;
    }
    if last.name == m.name {
      ReplaceFacts(ms, last);
    }
  }

  lemma {:induction false} NamesAfterReplace(given: seq<ModelProfile>, last: ModelProfile, ms: seq<ModelProfile>,
                                             name: string)
    requires Keeps(given, ms) && last.enabled && forall i, j :: 0 <= i < j < |ms| ==> ms[i].name != ms[j].name
    ensures HasEnabled(given + [last], name) <==> exists m :: m in Replace(ms, last) && m.name == name
  {
    var all, out := given + [last], Replace(ms, last);
    assert forall m :: m in all <==> m in given || m == last;
    assert HasEnabled(all, name) <==> HasEnabled(given, name) || last.name == name;
    MembersAfterReplace(ms, last, last);
    forall m ensures m in out <==> if m.name == last.name then m == last else m in ms {
      MembersAfterReplace(ms, last, m);
    }
  }

  lemma {:induction false} KeepsLast(given: seq<ModelProfile>)
    ensures Keeps(given, EnabledProfiles(given))
  {
    if given != [] {
      var init, last := given[..|given| - 1], given[|given| - 1];
      assert given == init + [last];
      KeepsLast(init);
      EnabledProfilesFacts(init);
      if last.enabled {
        KeepsSnoc(init, last, EnabledProfiles(init));
      } else {
        KeepsDisabled(init, last, EnabledProfiles(init));
      }
    }
  }

  lemma {:induction false} KeepsDisabled(given: seq<ModelProfile>, last: ModelProfile, ms: seq<ModelProfile>)
    requires Keeps(given, ms) && !last.enabled
    ensures Keeps(given + [last], ms)
  {
    forall m ensures LastOfName(given, m) <==> LastOfName(given + [last], m) {
      LastOfNameSnoc(given, last, m);
    }
    forall name ensures HasEnabled(given, name) <==> HasEnabled(given + [last], name) {
      assert forall m :: m in given + [last] <==> m in given || m == last;
    }
    forall i, j | 0 <= i < j < |ms| ensures NamedFirst(given + [last], ms[i].name, ms[j].name) {
      NamedFirstSnoc(given, last, ms[i].name, ms[j].name);
    }
  }

  /** What a router is made of: of every name the last profile that is enabled, in the order in which the
      names first appear; and when it cannot be made. */
  lemma {:induction false} ConstructionExactly(given: seq<ModelProfile>, defaultModel: string)
    ensures match Create(given, defaultModel)
            case Err(NoEnabledProfile) => forall m :: m in given ==> !m.enabled
            case Err(DefaultNotConfigured) =>
              (exists m :: m in given && m.enabled) && !HasEnabled(given, defaultModel)
            case Ok(r) =>
              Keeps(given, r.profiles) && r.defaultModel == defaultModel && HasEnabled(given, defaultModel)
  {
    KeepsLast(given);
    var ms := EnabledProfiles(given);
    assert forall m :: m in given && m.enabled ==> HasEnabled(given, m.name);
    if ms != [] {
      assert ms[0] in ms && HasEnabled(given, ms[0].name);
    }
    assert Configured(ms, defaultModel) <==> exists m :: m in ms && m.name == defaultModel by {
      if m :| m in ms && m.name == defaultModel {
        assert exists i :: 0 <= i < |ms| && ms[i] == m;
      }
    }
  }

  // ----- the sorted profiles -----

  lemma {:induction false} ProfilesInOrder(r: ModelRouter, i: nat, j: nat)
    requires r.Valid() && i < j < |Sort(ProfileLe, r.profiles)|
    ensures var a, b := Sort(ProfileLe, r.profiles)[i], Sort(ProfileLe, r.profiles)[j];
            a != b && (Smaller(a, b) || (SameSize(a, b) && ComesBefore(r.profiles, a, b)))
  {
    ProfileLeIsTotal();
    assert NoDuplicates(r.profiles);
    SortBreaksTies(ProfileLe, r.profiles, i, j);
    SortPermutes(ProfileLe, r.profiles);
    CountsOfDistinct(r.profiles);
    CountsOfDistinct(Sort(ProfileLe, r.profiles));
  }

  /** The first of the sorted profiles with a property is the smallest that has it. */
  lemma {:induction false} FirstIsSmallest(r: ModelRouter, has: ModelProfile -> bool, k: nat)
    requires r.Valid() && k < |Sort(ProfileLe, r.profiles)| && has(Sort(ProfileLe, r.profiles)[k])
    requires forall i :: 0 <= i < k ==> !has(Sort(ProfileLe, r.profiles)[i])
    ensures IsSmallest(r.profiles, has, Sort(ProfileLe, r.profiles)[k])
  {
    var s := Sort(ProfileLe, r.profiles);
    SortedProfiles(r);
    forall x | x in r.profiles && has(x) && x != s[k]
      ensures Smaller(s[k], x) || (SameSize(s[k], x) && ComesBefore(r.profiles, s[k], x))
    {
      var j :| 0 <= j < |s| && s[j] == x;
      ProfilesInOrder(r, k, j);
    }
  }

  lemma {:induction false} LastIsLargest(r: ModelRouter)
    requires r.Valid()
    ensures var s := Sort(ProfileLe, r.profiles); s != [] && IsLargest(r.profiles, s[|s| - 1])
  {
    SortedProfiles(r);
    var s := Sort(ProfileLe, r.profiles);
    var last := s[|s| - 1];
    forall x | x in r.profiles && x != last
      ensures Smaller(x, last) || (SameSize(x, last) && ComesBefore(r.profiles, x, last))
    {
      assert x in s;
      var j :| 0 <= j < |s| && s[j] == x;
      ProfilesInOrder(r, j, |s| - 1);
    }
  }

  /** Where the scans over the sorted profiles stop. */
  lemma {:induction false} FitStops(sorted: seq<ModelProfile>, tokens: int) returns (k: nat)
    ensures k <= |sorted| && forall i :: 0 <= i < k ==> !FitFor(tokens)(sorted[i])
    ensures SmallestThatFits(sorted, tokens) == if k < |sorted| then Some(sorted[k]) else None
    ensures k < |sorted| ==> FitFor(tokens)(sorted[k])
  {
    if sorted == [] || Fits(sorted[0], tokens) {
      k := 0;
    } else {
      var j := FitStops(sorted[1..], tokens);
      k := j + 1;
    }
  }

  lemma {:induction false} AlternativeStops(sorted: seq<ModelProfile>, name: string, tokens: int,
                                            degraded: string -> bool)
    returns (k: nat)
    ensures k <= |sorted| && forall i :: 0 <= i < k ==> !Instead(name, tokens, degraded)(sorted[i])
    ensures Alternative(sorted, name, tokens, degraded) == if k < |sorted| then Some(sorted[k]) else None
    ensures k < |sorted| ==> Instead(name, tokens, degraded)(sorted[k])
  {
    if sorted == [] || (sorted[0].name != name && Fits(sorted[0], tokens) && !degraded(sorted[0].name)) {
      k := 0;
    } else {
      var j := AlternativeStops(sorted[1..], name, tokens, degraded);
      k := j + 1;
    }
  }

  // ----- the choice -----

  lemma {:induction false} LookupExactly(ms: seq<ModelProfile>, name: string)
    ensures Lookup(ms, name).Some? <==> exists m :: m in ms && m.name == name
    ensures Lookup(ms, name).Some? ==> Lookup(ms, name).value in ms && Lookup(ms, name).value.name == name
  {
    if ms != [] {
      LookupExactly(ms[1..], name);
      assert ms == [ms[0]] + ms[1..];
    }
  }

  /** A request too long for some model. */
  lemma {:induction false} OverflowChoice(r: ModelRouter, tokens: int)
    requires r.Valid()
    ensures var s := Sort(ProfileLe, r.profiles);
            && s != [] && (Overflows(r.profiles, tokens) <==> tokens > s[0].maxContextTokens)
            && var fit := SmallestThatFits(s, tokens);
               if exists x :: x in r.profiles && tokens <= x.maxContextTokens
               then fit.Some? && IsSmallest(r.profiles, FitFor(tokens), fit.value)
               else fit.None? && IsLargest(r.profiles, s[|s| - 1])
  {
    var s := Sort(ProfileLe, r.profiles);
    SortedProfiles(r);
    LastIsLargest(r);
    var k := FitStops(s, tokens);
    if k < |s| {
      FirstIsSmallest(r, FitFor(tokens), k);
      assert s[k] in r.profiles;
    }
    FirstIsSmallest(r, Any(), 0);
    assert s[0] in r.profiles;
  }

  /** The least model, or another in its stead. */
  lemma {:induction false} LeastChoice(r: ModelRouter, tokens: int, degraded: string -> bool)
    requires r.Valid()
    ensures var s := Sort(ProfileLe, r.profiles);
            && s != [] && IsSmallest(r.profiles, Any(), s[0])
            && var alternative := Alternative(s, s[0].name, tokens, degraded);
               if alternative.Some? then IsSmallest(r.profiles, Instead(s[0].name, tokens, degraded), alternative.value)
               else forall x :: x in r.profiles ==> !Instead(s[0].name, tokens, degraded)(x)
  {
    var s := Sort(ProfileLe, r.profiles);
    SortedProfiles(r);
    FirstIsSmallest(r, Any(), 0);
    var k := AlternativeStops(s, s[0].name, tokens, degraded);
    if k < |s| {
      FirstIsSmallest(r, Instead(s[0].name, tokens, degraded), k);
    } else {
      forall x | x in r.profiles ensures !Instead(s[0].name, tokens, degraded)(x) {
        assert x in s;
      }
    }
  }

  lemma ComplexTypes(eventType: string)
    ensures IsComplex(eventType) <==> eventType in COMPLEX_EVENT_TYPES
  {
  }

  lemma {:induction false} SmallChoice(r: ModelRouter, req: Request, tokens: int, degraded: string -> bool)
    requires r.Valid() && !AsksForAny(r.profiles, req) && !Overflows(r.profiles, tokens)
    ensures var s := Sort(ProfileLe, r.profiles);
            && s != []
            && var (m, reason) := PickBySize(s, tokens, req.eventType, req.priority, degraded);
               Gets(r.profiles, req, tokens, degraded, m, reason)
  {
    var s := Sort(ProfileLe, r.profiles);
    OverflowChoice(r, tokens);
    LastIsLargest(r);
    LeastChoice(r, tokens, degraded);
    ComplexTypes(req.eventType);
  }

  lemma SmallestIsUnique(ms: seq<ModelProfile>, has: ModelProfile -> bool, a: ModelProfile, b: ModelProfile)
    requires NoDuplicates(ms) && IsSmallest(ms, has, a) && IsSmallest(ms, has, b)
    ensures a == b
  {
  }

  lemma LargestIsUnique(ms: seq<ModelProfile>, a: ModelProfile, b: ModelProfile)
    requires NoDuplicates(ms) && IsLargest(ms, a) && IsLargest(ms, b)
    ensures a == b
  {
  }

  lemma {:induction false} LatencyIsUnique(r: ModelRouter, req: Request, tokens: int, degraded: string -> bool,
                                           a: ModelProfile, b: ModelProfile, why: Reason, because: Reason)
    requires r.Valid() && a in r.profiles && b in r.profiles
    requires Gets(r.profiles, req, tokens, degraded, a, why) && Gets(r.profiles, req, tokens, degraded, b, because)
    requires why == LatencyAvoidance || because == LatencyAvoidance
    ensures a == b && why == because
    decreases why != LatencyAvoidance
  {
    var ms := r.profiles;
    if why != LatencyAvoidance {
      LatencyIsUnique(r, req, tokens, degraded, b, a, because, why);
    } else {
      assert because == ExplicitModelRequested ==> AsksForAny(ms, req);
      var least :| IsSmallest(ms, Any(), least) && degraded(least.name)
                   && IsSmallest(ms, Instead(least.name, tokens, degraded), a);
      if because == LatencyAvoidance {
        var other :| IsSmallest(ms, Any(), other) && degraded(other.name)
                     && IsSmallest(ms, Instead(other.name, tokens, degraded), b);
        SmallestIsUnique(ms, Any(), least, other);
        SmallestIsUnique(ms, Instead(least.name, tokens, degraded), a, b);
      } else if because == DefaultSmallModel {
        SmallestIsUnique(ms, Any(), least, b);
      }
    }
  }

  /** Only one model can be due to a request, for one reason. */
  lemma {:induction false} ChoiceIsUnique(r: ModelRouter, req: Request, tokens: int, degraded: string -> bool,
                                          a: ModelProfile, b: ModelProfile, why: Reason, because: Reason)
    requires r.Valid() && a in r.profiles && b in r.profiles
    requires Gets(r.profiles, req, tokens, degraded, a, why) && Gets(r.profiles, req, tokens, degraded, b, because)
    ensures a == b && why == because
  {
    var ms := r.profiles;
    assert NoDuplicates(ms);
    assert why == ExplicitModelRequested || because == ExplicitModelRequested ==> AsksForAny(ms, req);
    if why == LatencyAvoidance || because == LatencyAvoidance {
      LatencyIsUnique(r, req, tokens, degraded, a, b, why, because);
    } else if why == because == ContextTooLargeForSmallModel && exists x :: x in ms && tokens <= x.maxContextTokens {
      SmallestIsUnique(ms, FitFor(tokens), a, b);
    } else if why == because == DefaultSmallModel {
      SmallestIsUnique(ms, Any(), a, b);
    } else if why == because && why != ExplicitModelRequested {
      LargestIsUnique(ms, a, b);
    }
  }

  /** For every request and every view of latencies: the model, its batchability, the estimate and the
      reason. */
  lemma {:induction false} RoutingExactly(r: ModelRouter, req: Request, degraded: string -> bool)
    requires r.Valid()
    ensures var d := Route(r, req, degraded);
            && Estimates(req, d.estimatedTokens)
            && exists m :: m in r.profiles && m.name == d.modelName && m.supportsBatching == d.batchable
                           && Gets(r.profiles, req, d.estimatedTokens, degraded, m, d.reason)
  {
    var (m, reason) := Pick(r, req, degraded);
    var tokens := req.EstimatedTokens();
    if req.requestedModel.Some? {
      LookupExactly(r.profiles, req.requestedModel.value);
    }
    if !AsksForAny(r.profiles, req) {
      OverflowChoice(r, tokens);
      if !Overflows(r.profiles, tokens) {
        SmallChoice(r, req, tokens, degraded);
      }
    }
    assert m in r.profiles && Gets(r.profiles, req, tokens, degraded, m, reason);
  }
}
