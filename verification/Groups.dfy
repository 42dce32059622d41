/**
 Group definitions and the policies they pass down (internal/groups/types.go, validate.go, and the
 policy functions of compiler.go).
 */
module Groups {
  import opened Wrappers
  import opened Text
  import Ordering
  import opened Matcher

  datatype SourceKind = ModelSource | GroupSource | OtherSource

  datatype Source = Source(
    kind: SourceKind, modelID: string, groupID: string, providerName: string, providerNames: seq<string>,
    includeNewProviders: bool, retries: Option<int>, percent: Option<int>)

  datatype Stage = Stage(
    name: string, position: int, sources: seq<Source>, providerNames: seq<string>, billing: seq<BillingClass>,
    selection: string, maximumInput: Option<int64>, maximumOutput: Option<int64>, maximumCost: Option<int64>,
    sameRouteRetries: Option<int>, tryRetries: Option<int>)

  datatype Definition = Definition(id: string, slug: string, enabled: bool, revision: int64, stages: seq<Stage>)

  /** Joins the slugs and stage names above a try with its position; names hold no NUL, so joining is injective. */
  datatype TryKey = TryKey(names: seq<string>, position: int)

  datatype EffectiveStage = EffectiveStage(
    path: seq<string>, tryKey: TryKey, name: string, models: seq<string>,
    providers: seq<string>, billing: seq<BillingClass>, selection: string,
    maximumInput: Option<int64>, maximumOutput: Option<int64>, maximumCost: Option<int64>,
    percent: Option<int>, sameRouteRetries: int, tryRetries: int)

  datatype Policy = Policy(
    providers: seq<string>, billing: seq<BillingClass>,
    maximumInput: Option<int64>, maximumOutput: Option<int64>, maximumCost: Option<int64>,
    retries: Option<int>, retryLocked: bool, percent: Option<int>,
    tryRetries: Option<int>, tryRetryLocked: bool)

  const NO_POLICY := Policy([], [], None, None, None, None, false, None, None, false)

  // ---------------------------------------------------------------- lists and caps

  /** The members of `s`, first occurrences only, in order. */
  function Unique<T(==,!new)>(s: seq<T>): (r: seq<T>)
    ensures forall x :: x in r <==> x in s
    ensures forall i, j :: 0 <= i < j < |r| ==> r[i] != r[j]
  {
    if s == [] then []
    else
      var init := Unique(s[..|s| - 1]);
      assert s == s[..|s| - 1] + [s[|s| - 1]];
      if s[|s| - 1] in init then init else init + [s[|s| - 1]]
  }

  function CommonMembers<T(==,!new)>(a: seq<T>, b: seq<T>): (r: seq<T>)
    ensures forall x :: x in r <==> x in a && x in b
  {
    if a == [] then []
    else
      var init := CommonMembers(a[..|a| - 1], b);
      var last := a[|a| - 1];
      assert a == a[..|a| - 1] + [last];
      if last in b && last !in init then init + [last] else init
  }

  /** An empty list stands for "no restriction", on either side. */
  function Narrow<T(==,!new)>(a: seq<T>, b: seq<T>): seq<T> {
    if a == [] then b else if b == [] then a else CommonMembers(a, b)
  }

  method IntersectLists<T(==,!new)>(a: seq<T>, b: seq<T>) returns (out: seq<T>)
    ensures out == Narrow(a, b)
  {
    if |a| == 0 {
      return b;
    }
    if |b| == 0 {
      return a;
    }
    var members := set x | x in b;
    out := [];
    for i := 0 to |a|
      invariant out == CommonMembers(a[..i], b)
    {
      assert a[..i + 1][..i] == a[..i];
      if a[i] in members {
        if a[i] !in out { out := out + [a[i]]; }
      }
    }
    assert a[..|a|] == a;
  }

  function MinCap(a: Option<int64>, b: Option<int64>): Option<int64> {
    if a.None? then b else if b.None? || a.value <= b.value then a else b
  }

  function MinInt(a: Option<int>, b: Option<int>): Option<int> {
    if a.None? then b else if b.None? || a.value <= b.value then a else b
  }

  // ---------------------------------------------------------------- normal form

  function UniqueLower(values: seq<string>): seq<string> {
    Ordering.StableSort(StringLess, Unique(Ordering.Filter((v: string) => v != "", Cleaned(values))))
  }

  function Cleaned(values: seq<string>): seq<string> {
    if values == [] then [] else Cleaned(values[..|values| - 1]) + [Clean(values[|values| - 1])]
  }

  function NormalizeSource(s: Source): Source {
    s.(modelID := TrimSpace(s.modelID), groupID := TrimSpace(s.groupID),
       providerName := Clean(s.providerName), providerNames := UniqueLower(s.providerNames))
  }

  function NormalizeSources(s: seq<Source>): (r: seq<Source>)
    ensures |r| == |s| && forall i :: 0 <= i < |s| ==> r[i] == NormalizeSource(s[i])
  {
    seq(|s|, i requires 0 <= i < |s| => NormalizeSource(s[i]))
  }

  const LOWEST_EXPECTED_COST := "lowest_expected_cost"
  const ALL_BILLING_CLASSES := [FreeBilling, SubscriptionBilling, MeteredBilling]

  function NormalizeStage(s: Stage): Stage {
    s.(providerNames := UniqueLower(s.providerNames),
       billing := Unique(if s.billing == [] then ALL_BILLING_CLASSES else s.billing),
       selection := if s.selection == "" then LOWEST_EXPECTED_COST else s.selection,
       sources := NormalizeSources(s.sources))
  }

  // ---------------------------------------------------------------- policy composition

  function ComposePolicy(parent: Policy, stage: Stage): Policy {
    var retries := stage.sameRouteRetries.Some? && !parent.retryLocked;
    var tries := stage.tryRetries.Some? && !parent.tryRetryLocked;
    Policy(
      Narrow(parent.providers, stage.providerNames),
      Narrow(parent.billing, stage.billing),
      MinCap(parent.maximumInput, stage.maximumInput),
      MinCap(parent.maximumOutput, stage.maximumOutput),
      MinCap(parent.maximumCost, stage.maximumCost),
      if retries then stage.sameRouteRetries else parent.retries, retries || parent.retryLocked,
      parent.percent,
      if tries then stage.tryRetries else parent.tryRetries, tries || parent.tryRetryLocked)
  }

  /** The providers a source asks for; the empty list asks for nothing. */
  function SourceProviders(source: Source): seq<string> {
    if source.providerName != "" then [Clean(source.providerName)]
    else if !source.includeNewProviders then source.providerNames else []
  }

  function SourcePolicy(parent: Policy, source: Source): Policy {
    var retries := source.retries.Some? && !parent.retryLocked;
    parent.(
      providers := Narrow(parent.providers, SourceProviders(source)),
      retries := if retries then source.retries else parent.retries,
      retryLocked := retries || parent.retryLocked,
      percent := if source.percent.Some? then MinInt(parent.percent, source.percent) else parent.percent)
  }

  function ModelIDs(sources: seq<Source>): seq<string> {
    if sources == [] then []
    else
      var last := sources[|sources| - 1];
      ModelIDs(sources[..|sources| - 1]) + (if last.kind == ModelSource then [last.modelID] else [])
  }

  /** effectiveStage: composes the stage once more on top of the policy it is given. */
  function MakeEffective(parent: Policy, stage: Stage, path: seq<string>, tryKey: TryKey): EffectiveStage {
    var policy := ComposePolicy(parent, stage);
    EffectiveStage(
      path, tryKey, stage.name, Unique(ModelIDs(stage.sources)), policy.providers, policy.billing, stage.selection,
      policy.maximumInput, policy.maximumOutput, policy.maximumCost, policy.percent,
      if stage.sameRouteRetries.Some? && !parent.retryLocked then stage.sameRouteRetries.value
      else policy.retries.GetOr(0),
      policy.tryRetries.GetOr(0))
  }

  /** The stage effectiveStage is given for one source of a source-specific stage. */
  function SingleSourceStage(stage: Stage, source: Source): Stage {
    Stage(stage.name, 0, [source], [], [], stage.selection, None, None, None, None, None)
  }
}
