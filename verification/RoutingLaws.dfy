/** Properties of every group plan, across compilation, matching and plan building. */
module RoutingLaws {
  import opened Wrappers
  import opened Text
  import opened Matcher
  import opened MatcherLaws
  import opened Groups
  import opened GroupsLaws
  import opened Compiler
  import opened CompilerLaws
  import opened Routing

  // ---------------------------------------------------------------- plan shape

  ghost predicate NoRouteTwice(entries: seq<Entry>) {
    forall i, j :: 0 <= i < j < |entries| ==> entries[i].route.id != entries[j].route.id
  }

  lemma {:induction false} RankingAddsFreshRoutes(cycle: seq<Entry>, stage: EffectiveStage, ranked: seq<RankedRoute>)
    requires NoRouteTwice(cycle)
    ensures NoRouteTwice(AddRanking(cycle, stage, ranked))
  {
    if ranked != [] {
      var init, last := ranked[..|ranked| - 1], ranked[|ranked| - 1];
      RankingAddsFreshRoutes(cycle, stage, init);
      var before := AddRanking(cycle, stage, init);
      assert !HasRoute(before, last.route.id) ==> forall e :: e in before ==> e.route.id != last.route.id;
    }
  }

  /** The list that one run of a try key repeats never holds a route twice. */
  lemma {:induction false} CycleHasNoRouteTwice(request: MatchRequest, stages: seq<EffectiveStage>, routes: seq<Route>,
                                                now: int)
    ensures NoRouteTwice(Cycle(request, stages, routes, now))
  {
    if stages != [] {
      var init, last := stages[..|stages| - 1], stages[|stages| - 1];
      CycleHasNoRouteTwice(request, init, routes, now);
      RankingAddsFreshRoutes(Cycle(request, init, routes, now), last,
                             Ranking(StageRequest(request, last), routes, now));
    }
  }

  /** A cycle misses no ranked route of any of its stages. */
  lemma {:induction false} CycleHoldsEveryRankedRoute(request: MatchRequest, stages: seq<EffectiveStage>,
                                                      routes: seq<Route>, now: int,
                                                      k: nat, r: RankedRoute)
    requires k < |stages| && r in Ranking(StageRequest(request, stages[k]), routes, now)
    ensures HasRoute(Cycle(request, stages, routes, now), r.route.id)
  {
    hide Ranking, StageRequest;
    var init, last := stages[..|stages| - 1], stages[|stages| - 1];
    var before := Cycle(request, init, routes, now);
    var ranked := Ranking(StageRequest(request, last), routes, now);
    if k < |init| {
      CycleHoldsEveryRankedRoute(request, init, routes, now, k, r);
      RankingExtends(before, last, ranked, 0);
      var e :| e in before && e.route.id == r.route.id;
      assert e in AddRanking(before, last, ranked);
    } else {
      var i :| 0 <= i < |ranked| && ranked[i] == r;
      RankingHolds(before, last, ranked, i);
    }
  }

  lemma {:induction false} RankingHolds(cycle: seq<Entry>, stage: EffectiveStage, ranked: seq<RankedRoute>, i: nat)
    requires i < |ranked|
    ensures HasRoute(AddRanking(cycle, stage, ranked), ranked[i].route.id)
  {
    var init, last := ranked[..|ranked| - 1], ranked[|ranked| - 1];
    var after := AddRanking(cycle, stage, ranked);
    if i < |init| {
      RankingHolds(cycle, stage, init, i);
      var e :| e in AddRanking(cycle, stage, init) && e.route.id == ranked[i].route.id;
      assert e in after;
    } else {
      assert HasRoute(AddRanking(cycle, stage, init), last.route.id) || EntryFor(stage, last) in after;
    }
  }

  /** Where an entry comes from: a route that one compiled stage ranked. */
  ghost predicate ComesFrom(e: Entry, request: MatchRequest, stages: seq<EffectiveStage>, routes: seq<Route>, now: int,
                            k: nat) {
    && k < |stages|
    && RankedRoute(e.route, e.expectedCost) in Ranking(StageRequest(request, stages[k]), routes, now)
    && e == EntryFor(stages[k], RankedRoute(e.route, e.expectedCost))
  }

  ghost predicate HasOrigin(e: Entry, request: MatchRequest, stages: seq<EffectiveStage>, routes: seq<Route>,
                            now: int) {
    exists k: nat :: ComesFrom(e, request, stages, routes, now, k)
  }

  lemma {:induction false} RankingEntriesComeFrom(cycle: seq<Entry>, stage: EffectiveStage, ranked: seq<RankedRoute>,
                                                  e: Entry)
    requires e in AddRanking(cycle, stage, ranked)
    ensures e in cycle || (RankedRoute(e.route, e.expectedCost) in ranked
                           && e == EntryFor(stage, RankedRoute(e.route, e.expectedCost)))
  {
    if ranked != [] {
      var init, last := ranked[..|ranked| - 1], ranked[|ranked| - 1];
      assert ranked == init + [last];
      if e in AddRanking(cycle, stage, init) { RankingEntriesComeFrom(cycle, stage, init, e); }
    }
  }

  lemma {:induction false} CycleEntriesComeFrom(request: MatchRequest, stages: seq<EffectiveStage>, lo: nat, hi: nat,
                                                routes: seq<Route>, now: int, e: Entry)
    requires lo <= hi <= |stages| && e in Cycle(request, stages[lo..hi], routes, now)
    ensures HasOrigin(e, request, stages, routes, now)
    decreases hi
  {
    hide Ranking, StageRequest, EntryFor;
    var block := stages[lo..hi];
    var last := block[|block| - 1];
    assert block[..|block| - 1] == stages[lo..hi - 1] && last == stages[hi - 1];
    var ranked := Ranking(StageRequest(request, last), routes, now);
    RankingEntriesComeFrom(Cycle(request, block[..|block| - 1], routes, now), last, ranked, e);
    if e in Cycle(request, block[..|block| - 1], routes, now) {
      CycleEntriesComeFrom(request, stages, lo, hi - 1, routes, now, e);
    } else {
      assert ComesFrom(e, request, stages, routes, now, hi - 1);
    }
  }

  lemma {:induction false} RepeatMembers<T>(n: nat, s: seq<T>, x: T)
    requires x in Repeat(n, s)
    ensures x in s
  {
    if x !in s { RepeatMembers(n - 1, s, x); }
  }

  lemma {:induction false} FullEntriesComeFrom(request: MatchRequest, stages: seq<EffectiveStage>, index: nat,
                                               routes: seq<Route>, now: int, e: Entry)
    requires index <= |stages| && e in FullEntries(request, stages, index, routes, now)
    ensures HasOrigin(e, request, stages, routes, now)
    decreases |stages| - index
  {
    hide Cycle, HasOrigin;
    var end := BlockEnd(stages, index, index + 1);
    var cycle := Cycle(request, stages[index..end], routes, now);
    if e in Repeat(Repeats(stages[index]), cycle) {
      RepeatMembers(Repeats(stages[index]), cycle, e);
      CycleEntriesComeFrom(request, stages, index, end, routes, now, e);
    } else {
      FullEntriesComeFrom(request, stages, end, routes, now, e);
    }
  }

  /** A plan without an error is inside both limits; no plan ever exceeds the route limit. */
  lemma PlanIsBounded(plan: Plan, request: MatchRequest, stages: seq<EffectiveStage>, routes: seq<Route>, now: int,
                      limits: Routing.Limits)
    requires 0 < limits.maximumRoutes && IsPlanOf(plan, request, stages, routes, now, limits)
    ensures |plan.entries| <= limits.maximumRoutes
    ensures plan.error.None? ==>
              && plan.entries != []
              && plan.entries == FullEntries(request, stages, 0, routes, now)
              && TriesAllowed(plan.entries) <= limits.maximumAttempts
  {
    hide FullEntries;
  }

  // ---------------------------------------------------------------- caps and lists, end to end

  ghost predicate CleanList(s: seq<string>) {
    forall v :: v in s ==> v != "" && Clean(v) == v
  }

  /** Lists of a normalized stage and of one of its sources. */
  ghost predicate NormalStep(step: Step) {
    CleanList(step.stage.providerNames) && CleanList(StepProviders(step))
  }

  ghost predicate AllNormal(steps: seq<Step>) {
    forall i :: 0 <= i < |steps| ==> NormalStep(steps[i])
  }

  lemma UniqueLowerIsClean(values: seq<string>)
    ensures CleanList(UniqueLower(values))
  {
    hide UniqueLower, Clean;
    UniqueLowerIsNormal(values);
  }

  lemma NormalizedSourceIsClean(source: Source)
    ensures CleanList(SourceProviders(NormalizeSource(source)))
  {
    hide UniqueLower, Clean;
    CleanTwice(source.providerName);
    UniqueLowerIsClean(source.providerNames);
  }

  lemma NormalizedStepIsNormal(slug: string, raw: Stage, source: Option<Source>)
    requires source.Some? ==> source.value in NormalizeStage(raw).sources
    ensures NormalStep(Step(slug, NormalizeStage(raw), source))
  {
    hide UniqueLower, Clean, CleanList, NormalizeSource, SourceProviders;
    UniqueLowerIsClean(raw.providerNames);
    if source.Some? {
      var sources := NormalizeStage(raw).sources;
      var i :| 0 <= i < |sources| && sources[i] == source.value;
      NormalizedSourceIsClean(raw.sources[i]);
    } else {
      NoneIsClean();
    }
  }

  lemma NoneIsClean()
    ensures CleanList([])
  {}

  lemma {:induction false} SourceLeavesAreNormal(above: seq<Step>, slug: string, raw: Stage, sources: seq<Source>,
                                                 leaf: Leaf)
    requires AllNormal(above) && (forall s :: s in sources ==> s in NormalizeStage(raw).sources)
    requires leaf in SourceLeaves(above, slug, NormalizeStage(raw), sources)
    ensures AllNormal(leaf.Steps())
  {
    hide NormalizeStage, NormalStep;
    var init, last := sources[..|sources| - 1], sources[|sources| - 1];
    if leaf in SourceLeaves(above, slug, NormalizeStage(raw), init) {
      SourceLeavesAreNormal(above, slug, raw, init, leaf);
    } else {
      NormalizedStepIsNormal(slug, raw, Some(last));
    }
  }

  lemma {:induction false} StageLeavesAreNormal(all: map<string, Definition>, above: seq<Step>, slug: string,
                                                raw: Stage, fuel: nat, leaf: Leaf)
    requires AllNormal(above) && leaf in StageLeaves(all, above, slug, raw, fuel)
    ensures AllNormal(leaf.Steps())
    decreases fuel, 0
  {
    hide NormalizeStage, NormalStep;
    var stage := NormalizeStage(raw);
    if IsNested(stage) {
      var source := stage.sources[0];
      NormalizedStepIsNormal(slug, raw, Some(source));
      LeavesAreNormal(all, above + [Step(slug, stage, Some(source))], all[source.groupID], fuel - 1, leaf);
    } else if IsSourceSpecific(stage) {
      SourceLeavesAreNormal(above, slug, raw, stage.sources, leaf);
    } else {
      NormalizedStepIsNormal(slug, raw, None);
    }
  }

  lemma {:induction false} StagesLeavesAreNormal(all: map<string, Definition>, above: seq<Step>, slug: string,
                                                 stages: seq<Stage>, fuel: nat, leaf: Leaf)
    requires AllNormal(above) && leaf in StagesLeaves(all, above, slug, stages, fuel)
    ensures AllNormal(leaf.Steps())
    decreases fuel, 1, |stages|
  {
    hide StageLeaves, NormalStep;
    if leaf in StagesLeaves(all, above, slug, stages[..|stages| - 1], fuel) {
      StagesLeavesAreNormal(all, above, slug, stages[..|stages| - 1], fuel, leaf);
    } else {
      StageLeavesAreNormal(all, above, slug, stages[|stages| - 1], fuel, leaf);
    }
  }

  lemma {:induction false} LeavesAreNormal(all: map<string, Definition>, above: seq<Step>, def: Definition, fuel: nat,
                                           leaf: Leaf)
    requires AllNormal(above) && leaf in Leaves(all, above, def, fuel)
    ensures AllNormal(leaf.Steps())
    decreases fuel, 2
  {
    StagesLeavesAreNormal(all, above, def.slug, InOrder(def.stages), fuel, leaf);
  }

  /** What one level of a nesting path asks of an entry's price. */
  ghost predicate WithinStepCaps(e: Entry, step: Step) {
    && WithinCap(e.route.price.input, step.stage.maximumInput)
    && WithinCap(e.route.price.output, step.stage.maximumOutput)
    && WithinCap(e.expectedCost, step.stage.maximumCost)
    && (StepPercent(step).Some? ==>
          && WithinPercent(e.route.price.input, e.route.officialPrice.input, StepPercent(step).value)
          && WithinPercent(e.route.price.output, e.route.officialPrice.output, StepPercent(step).value))
  }

  ghost predicate Admits(list: seq<string>, provider: string) {
    list != [] ==> ToLower(provider) in list
  }

  /** What one level of a nesting path asks of an entry's provider. */
  ghost predicate OnStepProviders(e: Entry, step: Step) {
    Admits(step.stage.providerNames, e.route.provider) && Admits(StepProviders(step), e.route.provider)
  }

  /** What one level of a nesting path asks of an entry's billing class. */
  ghost predicate OnStepBilling(e: Entry, step: Step) {
    step.stage.billing != [] ==> EffectiveBilling(e.route) in step.stage.billing
  }

  lemma WeakerPercent(price: int64, official: int64, inner: int, outer: int)
    requires 0 <= official && inner <= outer && WithinPercent(price, official, inner)
    ensures WithinPercent(price, official, outer)
  {}

  lemma EntryIsWithinStepCaps(e: Entry, request: MatchRequest, routes: seq<Route>, now: int, leaf: Leaf, k: nat)
    requires RankedRoute(e.route, e.expectedCost) in Ranking(StageRequest(request, EffectiveOf(leaf)), routes, now)
    requires k < |leaf.Steps()|
    ensures WithinStepCaps(e, leaf.Steps()[k])
  {
    hide Ranking, EffectiveOf, StepPercent;
    var step := leaf.Steps()[k];
    var stage := EffectiveOf(leaf);
    LeafCapsHold(leaf, k);
    RankedRouteIsAllowed(StageRequest(request, stage), routes, now, RankedRoute(e.route, e.expectedCost));
    if StepPercent(step).Some? {
      WeakerPercent(e.route.price.input, e.route.officialPrice.input, stage.percent.value, StepPercent(step).value);
      WeakerPercent(e.route.price.output, e.route.officialPrice.output, stage.percent.value, StepPercent(step).value);
    }
  }

  lemma EntryIsOnStepLists(e: Entry, request: MatchRequest, routes: seq<Route>, now: int, leaf: Leaf, k: nat)
    requires RankedRoute(e.route, e.expectedCost) in Ranking(StageRequest(request, EffectiveOf(leaf)), routes, now)
    requires k < |leaf.Steps()| && AllNormal(leaf.Steps())
    ensures RunningNonEmpty(LeafProviderLists(leaf)) ==> OnStepProviders(e, leaf.Steps()[k])
    ensures RunningNonEmpty(LeafBillingLists(leaf)) ==> OnStepBilling(e, leaf.Steps()[k])
  {
    hide Ranking, EffectiveOf, StepProviders, LeafProviderLists, LeafBillingLists, RunningNonEmpty;
    var step := leaf.Steps()[k];
    LeafListsHold(leaf, k);
    RankedRouteIsAllowed(StageRequest(request, EffectiveOf(leaf)), routes, now, RankedRoute(e.route, e.expectedCost));
    assert NormalStep(step);
    if RunningNonEmpty(LeafProviderLists(leaf)) {
      ProviderIsAdmitted(EffectiveOf(leaf).providers, step.stage.providerNames, e.route.provider);
      ProviderIsAdmitted(EffectiveOf(leaf).providers, StepProviders(step), e.route.provider);
    }
  }

  lemma ProviderIsAdmitted(effective: seq<string>, list: seq<string>, provider: string)
    requires CleanList(list) && ListHolds(effective, list)
    requires ProviderSet(effective) != {} ==> ToLower(provider) in ProviderSet(effective)
    ensures Admits(list, provider)
  {
    hide Clean;
    if list != [] {
      assert effective[0] in effective;
      assert Clean(effective[0]) in ProviderSet(effective);
    }
  }

  /** The entry is what its leaf's stage makes of a route it ranks. */
  ghost predicate EntryOf(e: Entry, leaf: Leaf, request: MatchRequest, routes: seq<Route>, now: int) {
    var r := RankedRoute(e.route, e.expectedCost);
    e == EntryFor(EffectiveOf(leaf), r) && r in Ranking(StageRequest(request, EffectiveOf(leaf)), routes, now)
  }

  /** Each level of the leaf's path keeps its promises for the entry; its lists, where they narrow. */
  ghost predicate RespectsPath(e: Entry, leaf: Leaf) {
    forall k :: 0 <= k < |leaf.Steps()| ==>
      && WithinStepCaps(e, leaf.Steps()[k])
      && (RunningNonEmpty(LeafProviderLists(leaf)) ==> OnStepProviders(e, leaf.Steps()[k]))
      && (RunningNonEmpty(LeafBillingLists(leaf)) ==> OnStepBilling(e, leaf.Steps()[k]))
  }

  /**
   End to end: every entry of a group's plan comes from a leaf of the group, and each level of that leaf's own path
   caps the entry's prices, its cost and its share of the official price; where the provider lists of the path narrow,
   each level allows its provider, and where the billing lists do, its billing class.
   */
  lemma PlanEntryRespectsItsPath(plan: Plan, request: MatchRequest, stages: seq<EffectiveStage>, leaves: seq<Leaf>,
                                 root: Definition, all: map<string, Definition>, fuel: nat,
                                 routes: seq<Route>, now: int, limits: Routing.Limits, e: Entry)
    requires leaves == Leaves(all, [], root, fuel) && Mirrors(stages, leaves)
    requires 0 < limits.maximumRoutes && IsPlanOf(plan, request, stages, routes, now, limits) && e in plan.entries
    ensures exists leaf :: leaf in leaves && EntryOf(e, leaf, request, routes, now)
    ensures forall leaf :: leaf in leaves && EntryOf(e, leaf, request, routes, now) ==> RespectsPath(e, leaf)
  {
    hide Leaves, FullEntries, RespectsPath, EffectiveOf, Ranking, EntryFor;
    assert e in FullEntries(request, stages, 0, routes, now);
    FullEntriesComeFrom(request, stages, 0, routes, now, e);
    var k: nat :| ComesFrom(e, request, stages, routes, now, k);
    assert leaves[k] in leaves && EntryOf(e, leaves[k], request, routes, now);
    forall leaf | leaf in leaves && EntryOf(e, leaf, request, routes, now) ensures RespectsPath(e, leaf) {
      LeafEntryRespectsPath(e, leaf, request, root, all, fuel, routes, now);
    }
  }

  lemma LeafEntryRespectsPath(e: Entry, leaf: Leaf, request: MatchRequest, root: Definition,
                              all: map<string, Definition>, fuel: nat, routes: seq<Route>, now: int)
    requires leaf in Leaves(all, [], root, fuel) && EntryOf(e, leaf, request, routes, now)
    ensures RespectsPath(e, leaf)
  {
    hide Leaves, WithinStepCaps, OnStepProviders, OnStepBilling, EffectiveOf, RunningNonEmpty, AllNormal, Ranking,
         EntryFor;
    assert AllNormal([]) by { NothingAbove(); }
    LeavesAreNormal(all, [], root, fuel, leaf);
    forall k | 0 <= k < |leaf.Steps()|
      ensures WithinStepCaps(e, leaf.Steps()[k])
      ensures RunningNonEmpty(LeafProviderLists(leaf)) ==> OnStepProviders(e, leaf.Steps()[k])
      ensures RunningNonEmpty(LeafBillingLists(leaf)) ==> OnStepBilling(e, leaf.Steps()[k])
    {
      EntryIsWithinStepCaps(e, request, routes, now, leaf, k);
      EntryIsOnStepLists(e, request, routes, now, leaf, k);
    }
  }

  lemma NothingAbove()
    ensures AllNormal([])
  {}
}
