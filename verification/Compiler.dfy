/** Flattening a group ladder under inherited policies (internal/groups/compiler.go). */
module Compiler {
  import opened Wrappers
  import opened Text
  import Ordering
  import opened Matcher
  import opened Groups
  import opened GroupsLaws

  datatype Limits = Limits(maximumDepth: int, maximumStages: int)

  function DefaultLimits(): Limits { Limits(8, 24) }

  function Normalized(limits: Limits): (r: Limits)
    ensures 0 < r.maximumDepth && 0 < r.maximumStages
    ensures 0 < limits.maximumDepth && 0 < limits.maximumStages ==> r == limits
  {
    Limits(if limits.maximumDepth <= 0 then 8 else limits.maximumDepth,
           if limits.maximumStages <= 0 then 24 else limits.maximumStages)
  }

  datatype IssueCode =
    | GroupDepthExceeded | GroupCycle | GroupNotFound | DisabledNestedGroup | GroupPlanTooLarge | GroupDisabled

  datatype Level = Error | Warning

  datatype Issue = Issue(code: IssueCode, level: Level)

  predicate HasError(issues: seq<Issue>) {
    exists i :: i in issues && i.level == Error
  }

  // ---------------------------------------------------------------- the nesting structure

  predicate Precedes(a: Stage, b: Stage) { a.position < b.position }

  function InOrder(stages: seq<Stage>): seq<Stage> {
    Ordering.StableSort(Precedes, stages)
  }

  /** A stage whose only source is a group nests that group. */
  predicate IsNested(stage: Stage) {
    |stage.sources| == 1 && stage.sources[0].kind == GroupSource
  }

  /** Some model source carries its own providers, retries or price percentage. */
  predicate IsSourceSpecific(stage: Stage) {
    exists s :: s in stage.sources && s.kind == ModelSource
             && (s.providerName != "" || s.providerNames != [] || s.retries.Some? || s.percent.Some?)
  }

  /** One level of a nesting path: a normalized stage of the group `slug`, and the source taken in it, if one. */
  datatype Step = Step(slug: string, stage: Stage, source: Option<Source>)

  /** A root-to-leaf path with the models its last stage offers. */
  datatype Leaf = Leaf(above: seq<Step>, last: Step, models: seq<string>) {
    function Steps(): seq<Step> { above + [last] }
  }

  function SourceLeaf(above: seq<Step>, slug: string, stage: Stage, source: Source): seq<Leaf> {
    if source.kind != ModelSource || TrimSpace(source.modelID) == "" then []
    else [Leaf(above, Step(slug, stage, Some(source)), [source.modelID])]
  }

  function SourceLeaves(above: seq<Step>, slug: string, stage: Stage, sources: seq<Source>): seq<Leaf> {
    if sources == [] then []
    else SourceLeaves(above, slug, stage, sources[..|sources| - 1])
         + SourceLeaf(above, slug, stage, sources[|sources| - 1])
  }

  /** The leaves of a stage that nests nothing. */
  function OwnLeaves(above: seq<Step>, slug: string, stage: Stage): seq<Leaf> {
    if IsSourceSpecific(stage) then SourceLeaves(above, slug, stage, stage.sources)
    else if Unique(ModelIDs(stage.sources)) == [] then []
    else [Leaf(above, Step(slug, stage, None), Unique(ModelIDs(stage.sources)))]
  }

  function NestedLeaves(all: map<string, Definition>, above: seq<Step>, slug: string, stage: Stage,
                        fuel: nat): seq<Leaf>
    requires IsNested(stage)
    decreases fuel, 0
  {
    var source := stage.sources[0];
    if source.groupID in all && all[source.groupID].enabled && fuel > 0
    then Leaves(all, above + [Step(slug, stage, Some(source))], all[source.groupID], fuel - 1)
    else []
  }

  function StageLeaves(all: map<string, Definition>, above: seq<Step>, slug: string, raw: Stage, fuel: nat): seq<Leaf>
    decreases fuel, 1
  {
    var stage := NormalizeStage(raw);
    if IsNested(stage) then NestedLeaves(all, above, slug, stage, fuel) else OwnLeaves(above, slug, stage)
  }

  function StagesLeaves(all: map<string, Definition>, above: seq<Step>, slug: string, stages: seq<Stage>,
                        fuel: nat): seq<Leaf>
    decreases fuel, 2, |stages|
  {
    if stages == [] then []
    else StagesLeaves(all, above, slug, stages[..|stages| - 1], fuel)
         + StageLeaves(all, above, slug, stages[|stages| - 1], fuel)
  }

  /** The pure flattening: every leaf below `def`, `fuel` further levels deep, in position order. */
  function Leaves(all: map<string, Definition>, above: seq<Step>, def: Definition, fuel: nat): seq<Leaf>
    decreases fuel, 3
  {
    StagesLeaves(all, above, def.slug, InOrder(def.stages), fuel)
  }

  /** Everything below `def` exists, is acyclic and is at most `fuel` groups deep. */
  predicate WellNested(all: map<string, Definition>, onPath: set<string>, def: Definition, fuel: nat)
    decreases fuel, 1, 0
  {
    && fuel > 0
    && def.id !in onPath
    && AllNest(all, onPath + {def.id}, def.stages, fuel - 1)
  }

  predicate AllNest(all: map<string, Definition>, onPath: set<string>, stages: seq<Stage>, fuel: nat)
    decreases fuel, 3
  {
    forall raw :: raw in stages ==> StageNests(all, onPath, raw, fuel)
  }

  predicate StageNests(all: map<string, Definition>, onPath: set<string>, raw: Stage, fuel: nat)
    decreases fuel, 2
  {
    var stage := NormalizeStage(raw);
    IsNested(stage) ==> NestedExists(all, onPath, stage, fuel)
  }

  predicate NestedExists(all: map<string, Definition>, onPath: set<string>, stage: Stage, fuel: nat)
    requires IsNested(stage)
    decreases fuel, 1, 1
  {
    var id := stage.sources[0].groupID;
    id in all && (all[id].enabled ==> WellNested(all, onPath, all[id], fuel))
  }

  // ---------------------------------------------------------------- effective stages in closed form

  function Names(steps: seq<Step>): seq<string> {
    if steps == [] then [] else Names(steps[..|steps| - 1]) + [steps[|steps| - 1].slug, steps[|steps| - 1].stage.name]
  }

  function PolicyOf(steps: seq<Step>): Policy {
    if steps == [] then NO_POLICY
    else
      var last := steps[|steps| - 1];
      var p := ComposePolicy(PolicyOf(steps[..|steps| - 1]), last.stage);
      if last.source.Some? then SourcePolicy(p, last.source.value) else p
  }

  /** What the source of a step adds; a step without one adds nothing. */
  function StepProviders(step: Step): seq<string> {
    if step.source.Some? then SourceProviders(step.source.value) else []
  }

  function StepRetries(step: Step): Option<int> {
    if step.source.Some? then step.source.value.retries else None
  }

  function StepPercent(step: Step): Option<int> {
    if step.source.Some? then step.source.value.percent else None
  }

  function ProviderLists(steps: seq<Step>): seq<seq<string>> {
    if steps == [] then []
    else
      var last := steps[|steps| - 1];
      ProviderLists(steps[..|steps| - 1]) + [last.stage.providerNames] + [StepProviders(last)]
  }

  function RetryChoices(steps: seq<Step>): seq<Option<int>> {
    if steps == [] then []
    else
      var last := steps[|steps| - 1];
      RetryChoices(steps[..|steps| - 1]) + [last.stage.sameRouteRetries] + [StepRetries(last)]
  }

  function Percents(steps: seq<Step>): seq<Option<int>> {
    if steps == [] then [] else Percents(steps[..|steps| - 1]) + [StepPercent(steps[|steps| - 1])]
  }

  function BillingOf(s: Stage): seq<BillingClass> { s.billing }
  function InputCapOf(s: Stage): Option<int64> { s.maximumInput }
  function OutputCapOf(s: Stage): Option<int64> { s.maximumOutput }
  function CostCapOf(s: Stage): Option<int64> { s.maximumCost }
  function TryRetriesOf(s: Stage): Option<int> { s.tryRetries }

  function Chosen<T>(steps: seq<Step>, pick: Stage -> T): seq<T> {
    if steps == [] then [] else Chosen(steps[..|steps| - 1], pick) + [pick(steps[|steps| - 1].stage)]
  }

  /** The lists a leaf is narrowed by. A leaf without a source has its own stage composed twice. */
  function LeafProviderLists(leaf: Leaf): seq<seq<string>> {
    if leaf.last.source.None? then ProviderLists(leaf.Steps()) + [leaf.last.stage.providerNames]
    else ProviderLists(leaf.Steps())
  }

  function LeafBillingLists(leaf: Leaf): seq<seq<BillingClass>> {
    if leaf.last.source.None? then Chosen(leaf.Steps(), BillingOf) + [leaf.last.stage.billing]
    else Chosen(leaf.Steps(), BillingOf)
  }

  /** What the leaf's stage must come out as, stated over its whole nesting path. */
  function EffectiveOf(leaf: Leaf): EffectiveStage {
    var steps := leaf.Steps();
    var stage := leaf.last.stage;
    EffectiveStage(
      Names(leaf.above) + [leaf.last.slug, stage.name], TryKey(Names(leaf.above) + [leaf.last.slug], stage.position),
      stage.name, leaf.models,
      NarrowAll(LeafProviderLists(leaf)), NarrowAll(LeafBillingLists(leaf)), stage.selection,
      MinCaps(Chosen(steps, InputCapOf)), MinCaps(Chosen(steps, OutputCapOf)), MinCaps(Chosen(steps, CostCapOf)),
      MinInts(Percents(steps)),
      FirstSome(RetryChoices(steps)).GetOr(0), FirstSome(Chosen(steps, TryRetriesOf)).GetOr(0))
  }

  /** Each stage is the closed form of its leaf. */
  ghost predicate Mirrors(stages: seq<EffectiveStage>, leaves: seq<Leaf>) {
    |stages| == |leaves| && forall i :: 0 <= i < |stages| ==> stages[i] == EffectiveOf(leaves[i])
  }

  lemma {:induction false} ListsClosedForm(steps: seq<Step>)
    ensures PolicyOf(steps).providers == NarrowAll(ProviderLists(steps))
    ensures PolicyOf(steps).billing == NarrowAll(Chosen(steps, BillingOf))
  {
    if steps != [] {
      var init, last := steps[..|steps| - 1], steps[|steps| - 1];
      ListsClosedForm(init);
      ListStep(ProviderLists(init), last.stage.providerNames);
      ListStep(ProviderLists(init) + [last.stage.providerNames], StepProviders(last));
      ListStep(Chosen(init, BillingOf), last.stage.billing);
    }
  }

  lemma {:induction false} InputCapClosedForm(steps: seq<Step>)
    ensures PolicyOf(steps).maximumInput == MinCaps(Chosen(steps, InputCapOf))
  {
    if steps != [] {
      var init, last := steps[..|steps| - 1], steps[|steps| - 1];
      InputCapClosedForm(init);
      CapStep(Chosen(init, InputCapOf), last.stage.maximumInput);
    }
  }

  lemma {:induction false} OutputCapClosedForm(steps: seq<Step>)
    ensures PolicyOf(steps).maximumOutput == MinCaps(Chosen(steps, OutputCapOf))
  {
    if steps != [] {
      var init, last := steps[..|steps| - 1], steps[|steps| - 1];
      OutputCapClosedForm(init);
      CapStep(Chosen(init, OutputCapOf), last.stage.maximumOutput);
    }
  }

  lemma {:induction false} CostCapClosedForm(steps: seq<Step>)
    ensures PolicyOf(steps).maximumCost == MinCaps(Chosen(steps, CostCapOf))
  {
    if steps != [] {
      var init, last := steps[..|steps| - 1], steps[|steps| - 1];
      CostCapClosedForm(init);
      CapStep(Chosen(init, CostCapOf), last.stage.maximumCost);
    }
  }

  lemma {:induction false} PercentClosedForm(steps: seq<Step>)
    ensures PolicyOf(steps).percent == MinInts(Percents(steps))
  {
    if steps != [] {
      var init, last := steps[..|steps| - 1], steps[|steps| - 1];
      PercentClosedForm(init);
      IntStep(Percents(init), StepPercent(last));
    }
  }

  lemma {:induction false} RetriesClosedForm(steps: seq<Step>)
    ensures PolicyOf(steps).retries == FirstSome(RetryChoices(steps))
    ensures PolicyOf(steps).retryLocked == PolicyOf(steps).retries.Some?
  {
    if steps != [] {
      var init, last := steps[..|steps| - 1], steps[|steps| - 1];
      RetriesClosedForm(init);
      IntStep(RetryChoices(init), last.stage.sameRouteRetries);
      IntStep(RetryChoices(init) + [last.stage.sameRouteRetries], StepRetries(last));
    }
  }

  lemma {:induction false} TryRetriesClosedForm(steps: seq<Step>)
    ensures PolicyOf(steps).tryRetries == FirstSome(Chosen(steps, TryRetriesOf))
    ensures PolicyOf(steps).tryRetryLocked == PolicyOf(steps).tryRetries.Some?
  {
    if steps != [] {
      var init, last := steps[..|steps| - 1], steps[|steps| - 1];
      TryRetriesClosedForm(init);
      IntStep(Chosen(init, TryRetriesOf), last.stage.tryRetries);
    }
  }

  /** Composing policies level by level yields the closed form over the whole path. */
  lemma PolicyClosedForm(steps: seq<Step>)
    ensures PolicyOf(steps)
         == Policy(NarrowAll(ProviderLists(steps)), NarrowAll(Chosen(steps, BillingOf)),
                   MinCaps(Chosen(steps, InputCapOf)), MinCaps(Chosen(steps, OutputCapOf)),
                   MinCaps(Chosen(steps, CostCapOf)),
                   FirstSome(RetryChoices(steps)), FirstSome(RetryChoices(steps)).Some?, MinInts(Percents(steps)),
                   FirstSome(Chosen(steps, TryRetriesOf)), FirstSome(Chosen(steps, TryRetriesOf)).Some?)
  {
    ListsClosedForm(steps);
    InputCapClosedForm(steps);
    OutputCapClosedForm(steps);
    CostCapClosedForm(steps);
    PercentClosedForm(steps);
    RetriesClosedForm(steps);
    TryRetriesClosedForm(steps);
  }

  lemma ListStep<T(!new)>(lists: seq<seq<T>>, l: seq<T>)
    ensures NarrowAll(lists + [l]) == Narrow(NarrowAll(lists), l)
  {}

  lemma CapStep(caps: seq<Option<int64>>, c: Option<int64>)
    ensures MinCaps(caps + [c]) == MinCap(MinCaps(caps), c)
  {}

  lemma IntStep(values: seq<Option<int>>, v: Option<int>)
    ensures MinInts(values + [v]) == MinInt(MinInts(values), v)
    ensures FirstSome(values + [v]) == if FirstSome(values).Some? then FirstSome(values) else v
  {}

  lemma PolicyStep(above: seq<Step>, step: Step)
    ensures var p := ComposePolicy(PolicyOf(above), step.stage);
            PolicyOf(above + [step]) == if step.source.Some? then SourcePolicy(p, step.source.value) else p
    ensures Names(above + [step]) == Names(above) + [step.slug, step.stage.name]
  {}

  /** Composing the whole stage on top of a policy that already includes it only repeats its lists. */
  lemma SecondComposition(p: Policy, stage: Stage)
    requires p.retryLocked == p.retries.Some? && p.tryRetryLocked == p.tryRetries.Some?
    ensures var q := ComposePolicy(ComposePolicy(p, stage), stage);
            q == ComposePolicy(p, stage).(providers := q.providers, billing := q.billing)
  {}

  /** A stage offered whole compiles to the closed form of its leaf. */
  lemma WholeStageIsClosedForm(above: seq<Step>, slug: string, stage: Stage)
    ensures MakeEffective(ComposePolicy(PolicyOf(above), stage), stage,
                          Names(above) + [slug, stage.name], TryKey(Names(above) + [slug], stage.position))
         == EffectiveOf(Leaf(above, Step(slug, stage, None), Unique(ModelIDs(stage.sources))))
  {
    var steps := above + [Step(slug, stage, None)];
    PolicyStep(above, Step(slug, stage, None));
    assert steps[..|above|] == above;
    PolicyClosedForm(above);
    PolicyClosedForm(steps);
    SecondComposition(PolicyOf(above), stage);
    ListStep(ProviderLists(steps), stage.providerNames);
    ListStep(Chosen(steps, BillingOf), stage.billing);
  }

  /** For one source, the stage composed last is empty: the effective stage is the policy itself. */
  lemma SingleSourceEffective(p: Policy, stage: Stage, source: Source, path: seq<string>, key: TryKey)
    requires source.kind == ModelSource
    ensures MakeEffective(p, SingleSourceStage(stage, source), path, key)
         == EffectiveStage(path, key, stage.name, [source.modelID], p.providers, p.billing, stage.selection,
                           p.maximumInput, p.maximumOutput, p.maximumCost, p.percent,
                           p.retries.GetOr(0), p.tryRetries.GetOr(0))
  {
    SingleModel(source);
  }

  /** One model source of a source-specific stage compiles to the closed form of its leaf. */
  lemma SourceStageIsClosedForm(above: seq<Step>, slug: string, stage: Stage, source: Source)
    requires source.kind == ModelSource
    ensures MakeEffective(SourcePolicy(ComposePolicy(PolicyOf(above), stage), source), SingleSourceStage(stage, source),
                          Names(above) + [slug, stage.name], TryKey(Names(above) + [slug], stage.position))
         == EffectiveOf(Leaf(above, Step(slug, stage, Some(source)), [source.modelID]))
  {
    var steps := above + [Step(slug, stage, Some(source))];
    PolicyStep(above, Step(slug, stage, Some(source)));
    assert steps[..|above|] == above;
    PolicyClosedForm(steps);
    SingleSourceEffective(PolicyOf(steps), stage, source, Names(above) + [slug, stage.name],
                          TryKey(Names(above) + [slug], stage.position));
  }

  lemma SingleModel(source: Source)
    requires source.kind == ModelSource
    ensures Unique(ModelIDs([source])) == [source.modelID]
  {}

  // ---------------------------------------------------------------- Compile

  /** Nesting levels left at a depth, the group at that depth included. */
  function Fuel(limits: Limits, depth: int): nat {
    if depth > limits.maximumDepth then 0 else limits.maximumDepth + 1 - depth
  }

  /** The issues reported since `before`, none of them an error. */
  ghost predicate ErrorFree(before: seq<Issue>, after: seq<Issue>) {
    before <= after && !HasError(after[|before|..])
  }

  /** A part of the walk: where it began, where it ended. */
  datatype Part = Part(leavesBefore: seq<Leaf>, issuesBefore: seq<Issue>, leavesAfter: seq<Leaf>,
                       issuesAfter: seq<Issue>)

  /** Without a new error, exactly `leaves` were appended; well nested and with room, there is no error. */
  ghost predicate Added(p: Part, leaves: seq<Leaf>, nested: bool, limits: Limits) {
    && p.issuesBefore <= p.issuesAfter
    && (ErrorFree(p.issuesBefore, p.issuesAfter) ==>
          && nested
          && p.leavesAfter == p.leavesBefore + leaves
          && (|p.leavesBefore| <= limits.maximumStages ==> |p.leavesAfter| <= limits.maximumStages))
    && (nested && |p.leavesBefore| + |leaves| <= limits.maximumStages ==> ErrorFree(p.issuesBefore, p.issuesAfter))
  }

  lemma AddedInTurn(p: Part, q: Part, first: seq<Leaf>, second: seq<Leaf>, nestedFirst: bool, nestedSecond: bool,
                    limits: Limits)
    requires p.leavesAfter == q.leavesBefore && p.issuesAfter == q.issuesBefore
    requires Added(p, first, nestedFirst, limits) && Added(q, second, nestedSecond, limits)
    ensures Added(Part(p.leavesBefore, p.issuesBefore, q.leavesAfter, q.issuesAfter), first + second,
                  nestedFirst && nestedSecond, limits)
  {}

  /** A walk that stops at an error has not broken its promise about the whole. */
  lemma StoppedEarly(p: Part, q: Part, some: seq<Leaf>, whole: seq<Leaf>, nestedSome: bool, nestedAll: bool,
                     limits: Limits)
    requires p.leavesAfter == q.leavesBefore && p.issuesAfter == q.issuesBefore
    requires p.issuesBefore <= p.issuesAfter <= q.issuesAfter
    requires Added(Part(p.leavesBefore, p.issuesBefore, q.leavesAfter, q.issuesAfter), some, nestedSome, limits)
    requires !ErrorFree(q.issuesBefore, q.issuesAfter)
    requires |some| <= |whole| && (nestedAll ==> nestedSome)
    ensures Added(Part(p.leavesBefore, p.issuesBefore, q.leavesAfter, q.issuesAfter), whole, nestedAll, limits)
  {}

  lemma {:induction false} FewerStagesFewerLeaves(all: map<string, Definition>, above: seq<Step>, slug: string,
                                                  stages: seq<Stage>, n: nat, fuel: nat)
    requires n <= |stages|
    ensures |StagesLeaves(all, above, slug, stages[..n], fuel)| <= |StagesLeaves(all, above, slug, stages, fuel)|
  {
    if n < |stages| {
      FewerStagesFewerLeaves(all, above, slug, stages[..|stages| - 1], n, fuel);
      assert stages[..|stages| - 1][..n] == stages[..n];
    } else {
      assert stages[..n] == stages;
    }
  }

  lemma AllNestStep(all: map<string, Definition>, onPath: set<string>, stages: seq<Stage>, i: nat, fuel: nat)
    requires i < |stages|
    ensures AllNest(all, onPath, stages[..i + 1], fuel)
       <==> AllNest(all, onPath, stages[..i], fuel) && StageNests(all, onPath, stages[i], fuel)
    ensures AllNest(all, onPath, stages, fuel) ==> AllNest(all, onPath, stages[..i + 1], fuel)
  {}

  lemma StagesLeavesStep(all: map<string, Definition>, above: seq<Step>, slug: string, stages: seq<Stage>, i: nat,
                         fuel: nat)
    requires i < |stages|
    ensures StagesLeaves(all, above, slug, stages[..i + 1], fuel)
         == StagesLeaves(all, above, slug, stages[..i], fuel) + StageLeaves(all, above, slug, stages[i], fuel)
  {
    assert stages[..i + 1][..i] == stages[..i];
  }

  /** The state the recursive closure of Compile works on. Its boolean result is ignored by every caller. */
  class Walk {
    const all: map<string, Definition>
    const limits: Limits
    var stages: seq<EffectiveStage>
    var issues: seq<Issue>
    var stack: set<string>
    ghost var leaves: seq<Leaf>

    ghost predicate Valid()
      reads this
    {
      Mirrors(stages, leaves)
    }

    constructor (all: map<string, Definition>, limits: Limits)
      ensures this.all == all && this.limits == limits
      ensures Valid() && stages == [] && leaves == [] && issues == [] && stack == {}
    {
      this.all, this.limits := all, limits;
      stages, leaves, issues, stack := [], [], [], {};
    }

    method Report(code: IssueCode, level: Level)
      modifies this`issues
      ensures issues == old(issues) + [Issue(code, level)]
      ensures ErrorFree(old(issues), issues) <==> level != Error
    {
      issues := issues + [Issue(code, level)];
      assert issues[|old(issues)|..] == [Issue(code, level)];
      assert HasError([Issue(code, level)]) <==> level == Error by {
        assert Issue(code, level) in [Issue(code, level)];
      }
    }

    method Visit(def: Definition, depth: int, prefix: seq<string>, inherited: Policy, ghost above: seq<Step>)
      requires Valid() && 1 <= depth && prefix == Names(above) && inherited == PolicyOf(above)
      modifies this
      decreases Fuel(limits, depth), 2
      ensures Valid()
      ensures stack == old(stack)
      ensures Added(Part(old(leaves), old(issues), leaves, issues),
                    if Fuel(limits, depth) == 0 then [] else Leaves(all, above, def, Fuel(limits, depth) - 1),
                    WellNested(all, old(stack), def, Fuel(limits, depth)), limits)
    {
      if depth > limits.maximumDepth {
        Report(GroupDepthExceeded, Error);
        return;
      }
      if def.id in stack {
        Report(GroupCycle, Error);
        return;
      }
      stack := stack + {def.id};
      var ordered := InOrder(def.stages);
      OrderKeepsStages(def.stages);
      VisitStages(def.slug, ordered, depth, prefix, inherited, above);
      assert AllNest(all, stack, ordered, Fuel(limits, depth) - 1) <==>
               AllNest(all, stack, def.stages, Fuel(limits, depth) - 1);
      stack := stack - {def.id};
    }

    method VisitStages(slug: string, ordered: seq<Stage>, depth: int, prefix: seq<string>, inherited: Policy,
                       ghost above: seq<Step>)
      requires Valid() && 1 <= depth <= limits.maximumDepth && prefix == Names(above) && inherited == PolicyOf(above)
      modifies this
      decreases Fuel(limits, depth), 1
      ensures Valid() && stack == old(stack)
      ensures Added(Part(old(leaves), old(issues), leaves, issues),
                    StagesLeaves(all, above, slug, ordered, Fuel(limits, depth) - 1),
                    AllNest(all, old(stack), ordered, Fuel(limits, depth) - 1), limits)
    {
      hide StageLeaves, StageNests, Names, PolicyOf, Mirrors;
      ghost var fuel := Fuel(limits, depth) - 1;
      var i := 0;
      while i < |ordered|
        invariant 0 <= i <= |ordered| && Valid() && stack == old(stack)
        invariant Added(Part(old(leaves), old(issues), leaves, issues),
                        StagesLeaves(all, above, slug, ordered[..i], fuel), AllNest(all, stack, ordered[..i], fuel),
                        limits)
      {
        ghost var leavesNow, issuesNow := leaves, issues;
        var full := VisitStage(slug, ordered[i], depth, prefix, inherited, above);
        StagesLeavesStep(all, above, slug, ordered, i, fuel);
        AddedInTurn(Part(old(leaves), old(issues), leavesNow, issuesNow), Part(leavesNow, issuesNow, leaves, issues),
                    StagesLeaves(all, above, slug, ordered[..i], fuel), StageLeaves(all, above, slug, ordered[i], fuel),
                    AllNest(all, stack, ordered[..i], fuel), StageNests(all, stack, ordered[i], fuel), limits);
        AllNestStep(all, stack, ordered, i, fuel);
        i := i + 1;
        if full {
          FewerStagesFewerLeaves(all, above, slug, ordered, i, fuel);
          StoppedEarly(Part(old(leaves), old(issues), leavesNow, issuesNow), Part(leavesNow, issuesNow, leaves, issues),
                       StagesLeaves(all, above, slug, ordered[..i], fuel),
                       StagesLeaves(all, above, slug, ordered, fuel),
                       AllNest(all, stack, ordered[..i], fuel), AllNest(all, stack, ordered, fuel), limits);
          return;
        }
      }
      assert ordered[..i] == ordered;
    }

    method VisitStage(slug: string, raw: Stage, depth: int, prefix: seq<string>, inherited: Policy,
                      ghost above: seq<Step>)
      returns (full: bool)
      requires Valid() && 1 <= depth <= limits.maximumDepth && prefix == Names(above) && inherited == PolicyOf(above)
      modifies this
      decreases Fuel(limits, depth), 0, 2
      ensures Valid() && stack == old(stack)
      ensures Added(Part(old(leaves), old(issues), leaves, issues),
                    StageLeaves(all, above, slug, raw, Fuel(limits, depth) - 1),
                    StageNests(all, old(stack), raw, Fuel(limits, depth) - 1), limits)
      ensures full ==> !ErrorFree(old(issues), issues)
    {
      full := false;
      var stage := NormalizeStage(raw);
      if IsNested(stage) {
        VisitNested(slug, stage, depth, prefix, inherited, above);
        return;
      }
      AddLeaves(slug, stage, prefix, inherited, above);
      if |stages| > limits.maximumStages {
        Report(GroupPlanTooLarge, Error);
        full := true;
      }
    }

    method VisitNested(slug: string, stage: Stage, depth: int, prefix: seq<string>, inherited: Policy,
                       ghost above: seq<Step>)
      requires Valid() && 1 <= depth <= limits.maximumDepth && prefix == Names(above) && inherited == PolicyOf(above)
      requires IsNested(stage)
      modifies this
      decreases Fuel(limits, depth), 0, 1
      ensures Valid() && stack == old(stack)
      ensures Added(Part(old(leaves), old(issues), leaves, issues),
                    NestedLeaves(all, above, slug, stage, Fuel(limits, depth) - 1),
                    NestedExists(all, old(stack), stage, Fuel(limits, depth) - 1), limits)
    {
      hide Leaves, WellNested, ComposePolicy, SourcePolicy;
      var source := stage.sources[0];
      if source.groupID !in all {
        Report(GroupNotFound, Error);
        return;
      }
      var child := all[source.groupID];
      if !child.enabled {
        Report(DisabledNestedGroup, Warning);
        return;
      }
      var childPolicy := SourcePolicy(ComposePolicy(inherited, stage), source);
      PolicyStep(above, Step(slug, stage, Some(source)));
      Visit(child, depth + 1, prefix + [slug, stage.name], childPolicy, above + [Step(slug, stage, Some(source))]);
    }

    method Append(effective: EffectiveStage, ghost leaf: Leaf)
      requires Valid() && effective == EffectiveOf(leaf)
      modifies this`stages, this`leaves
      ensures Valid() && leaves == old(leaves) + [leaf]
    {
      stages := stages + [effective];
      leaves := leaves + [leaf];
    }

    method AddLeaves(slug: string, stage: Stage, prefix: seq<string>, inherited: Policy, ghost above: seq<Step>)
      requires Valid() && prefix == Names(above) && inherited == PolicyOf(above)
      modifies this`stages, this`leaves
      ensures Valid() && leaves == old(leaves) + OwnLeaves(above, slug, stage)
    {
      hide ComposePolicy, MakeEffective, PolicyOf, Unique, ModelIDs, Mirrors, SourceLeaves;
      if IsSourceSpecific(stage) {
        AddSources(slug, stage, prefix, inherited, above);
      } else {
        var effective := MakeEffective(ComposePolicy(inherited, stage), stage, prefix + [slug, stage.name],
                                       TryKey(prefix + [slug], stage.position));
        WholeStageIsClosedForm(above, slug, stage);
        if effective.models != [] {
          Append(effective, Leaf(above, Step(slug, stage, None), Unique(ModelIDs(stage.sources))));
        }
      }
    }

    method AddSources(slug: string, stage: Stage, prefix: seq<string>, inherited: Policy, ghost above: seq<Step>)
      requires Valid() && prefix == Names(above) && inherited == PolicyOf(above)
      modifies this`stages, this`leaves
      ensures Valid() && leaves == old(leaves) + SourceLeaves(above, slug, stage, stage.sources)
    {
      hide PolicyOf, SourceLeaf, Mirrors;
      var j := 0;
      while j < |stage.sources|
        invariant 0 <= j <= |stage.sources| && Valid()
        invariant leaves == old(leaves) + SourceLeaves(above, slug, stage, stage.sources[..j])
      {
        assert stage.sources[..j + 1][..j] == stage.sources[..j];
        AddSource(slug, stage, stage.sources[j], prefix, inherited, above);
        j := j + 1;
      }
      assert stage.sources[..j] == stage.sources;
    }

    method AddSource(slug: string, stage: Stage, source: Source, prefix: seq<string>, inherited: Policy,
                     ghost above: seq<Step>)
      requires Valid() && prefix == Names(above) && inherited == PolicyOf(above)
      modifies this`stages, this`leaves
      ensures Valid() && leaves == old(leaves) + SourceLeaf(above, slug, stage, source)
    {
      if source.kind == ModelSource && TrimSpace(source.modelID) != "" {
        var policy := SourcePolicy(ComposePolicy(inherited, stage), source);
        var effective := MakeEffective(policy, SingleSourceStage(stage, source), prefix + [slug, stage.name],
                                       TryKey(prefix + [slug], stage.position));
        SourceStageIsClosedForm(above, slug, stage, source);
        if effective.models != [] {
          Append(effective, Leaf(above, Step(slug, stage, Some(source)), [source.modelID]));
        }
      }
    }
  }

  lemma OrderKeepsStages(stages: seq<Stage>)
    ensures forall s :: s in InOrder(stages) <==> s in stages
    ensures Ordering.SortedBy(Precedes, InOrder(stages))
  {
    Ordering.SortIsSorted(Precedes, stages);
    assert forall s :: s in InOrder(stages) <==> s in multiset(InOrder(stages));
    assert forall s :: s in stages <==> s in multiset(stages);
  }

  datatype CompileResult = CompileResult(stages: seq<EffectiveStage>, issues: seq<Issue>)

  /** Everything reachable from the root is in order: it compiles without an error. */
  predicate Compilable(root: Definition, all: map<string, Definition>, limits: Limits) {
    var l := Normalized(limits);
    && root.enabled
    && WellNested(all, {}, root, l.maximumDepth)
    && |Leaves(all, [], root, l.maximumDepth - 1)| <= l.maximumStages
  }

  /**
   Compile terminates on every definition map, cyclic or not. It reports an error exactly when the
   root is disabled, the nesting is bad or there are too many leaves; otherwise the stages are the
   leaves of the pure flattening, each in closed form.
   */
  method Compile(root: Definition, all: map<string, Definition>, limits: Limits) returns (result: CompileResult)
    ensures HasError(result.issues) <==> !Compilable(root, all, limits)
    ensures !HasError(result.issues) ==>
              && Mirrors(result.stages, Leaves(all, [], root, Normalized(limits).maximumDepth - 1))
              && |result.stages| <= Normalized(limits).maximumStages
  {
    hide Leaves, WellNested, EffectiveOf;
    var l := Normalized(limits);
    var walk := new Walk(all, l);
    if root.enabled {
      walk.Visit(root, 1, [], NO_POLICY, []);
    } else {
      walk.Report(GroupDisabled, Error);
    }
    assert walk.issues[0..] == walk.issues;
    ghost var leaves := Leaves(all, [], root, l.maximumDepth - 1);
    assert [] + leaves == leaves;
    result := CompileResult(walk.stages, walk.issues);
  }
}
