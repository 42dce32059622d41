/** Turning ranked stages into a bounded plan (internal/routing/plan.go). */
module Routing {
  import opened Wrappers
  import opened Matcher
  import Groups
  import Compiler

  datatype Entry = Entry(stageID: string, stagePath: seq<string>, route: Route, expectedCost: int64,
                         sameRouteRetries: int)

  datatype PlanError =
    | CompileError(code: Compiler.IssueCode)
    | TooManyRoutes
    | TooManyAttempts
    | PriceLimitExceeded
    | NoEligible
    | Unmatched(error: MatchError)

  datatype Plan = Plan(entries: seq<Entry>, rejections: seq<Rejection>, error: Option<PlanError>)

  datatype Limits = Limits(maximumRoutes: int, maximumAttempts: int)

  function DefaultLimits(): Limits { Limits(128, 32) }

  function Normalized(limits: Limits): (r: Limits)
    ensures 0 < r.maximumRoutes && 0 < r.maximumAttempts
    ensures 0 < limits.maximumRoutes && 0 < limits.maximumAttempts ==> r == limits
  {
    Limits(if limits.maximumRoutes <= 0 then 128 else limits.maximumRoutes,
           if limits.maximumAttempts <= 0 then 32 else limits.maximumAttempts)
  }

  /** Tries the entries allow together: one each, plus their same-route retries. */
  function TriesAllowed(entries: seq<Entry>): int {
    if entries == [] then 0
    else TriesAllowed(entries[..|entries| - 1]) + 1 + entries[|entries| - 1].sameRouteRetries
  }

  method MaxAttempts(entries: seq<Entry>) returns (total: int)
    ensures total == TriesAllowed(entries)
  {
    total := 0;
    for i := 0 to |entries|
      invariant total == TriesAllowed(entries[..i])
    {
      assert entries[..i + 1][..i] == entries[..i];
      total := total + 1 + entries[i].sameRouteRetries;
    }
    assert entries[..|entries|] == entries;
  }

  // ---------------------------------------------------------------- one cycle through one run of stages

  /** The request a stage is matched with: the client's, under the stage's own policy. */
  function StageRequest(request: MatchRequest, stage: Groups.EffectiveStage): MatchRequest {
    request.(logicalModel := "", logicalModels := stage.models, allowedProviders := stage.providers,
             allowedBilling := stage.billing, maximumInput := stage.maximumInput, maximumOutput := stage.maximumOutput,
             maximumCost := stage.maximumCost, maximumOfficialPercent := stage.percent)
  }

  function EntryFor(stage: Groups.EffectiveStage, r: RankedRoute): Entry {
    Entry(stage.name, stage.path, r.route, r.expectedCost, stage.sameRouteRetries)
  }

  predicate HasRoute(entries: seq<Entry>, id: string) {
    exists e :: e in entries && e.route.id == id
  }

  /** Appends the routes of a ranking that the cycle does not hold yet. */
  function AddRanking(cycle: seq<Entry>, stage: Groups.EffectiveStage, ranked: seq<RankedRoute>): seq<Entry> {
    if ranked == [] then cycle
    else
      var before := AddRanking(cycle, stage, ranked[..|ranked| - 1]);
      var last := ranked[|ranked| - 1];
      if HasRoute(before, last.route.id) then before else before + [EntryFor(stage, last)]
  }

  function Cycle(request: MatchRequest, stages: seq<Groups.EffectiveStage>, routes: seq<Route>, now: int): seq<Entry> {
    if stages == [] then []
    else
      var last := stages[|stages| - 1];
      AddRanking(Cycle(request, stages[..|stages| - 1], routes, now), last,
                 Ranking(StageRequest(request, last), routes, now))
  }

  function CycleRejections(request: MatchRequest, stages: seq<Groups.EffectiveStage>, routes: seq<Route>,
                           now: int): seq<Rejection> {
    if stages == [] then []
    else
      var last := stages[|stages| - 1];
      CycleRejections(request, stages[..|stages| - 1], routes, now)
      + MatchSpec(StageRequest(request, last), routes, now).rejections
  }

  // ---------------------------------------------------------------- the whole plan

  function BlockEnd(stages: seq<Groups.EffectiveStage>, index: nat, end: nat): (r: nat)
    requires index < end <= |stages|
    ensures end <= r <= |stages|
    ensures forall i :: end <= i < r ==> stages[i].tryKey == stages[index].tryKey
    ensures r < |stages| ==> stages[r].tryKey != stages[index].tryKey
    decreases |stages| - end
  {
    if end < |stages| && stages[end].tryKey == stages[index].tryKey then BlockEnd(stages, index, end + 1) else end
  }

  function Repeat<T>(n: nat, s: seq<T>): seq<T> {
    if n == 0 then [] else Repeat(n - 1, s) + s
  }

  function Repeats(stage: Groups.EffectiveStage): nat {
    Max(0, 1 + stage.tryRetries)
  }

  /** Every maximal run of one try key, its cycle repeated 1+TryRetries times, from stage `index` on. */
  function FullEntries(request: MatchRequest, stages: seq<Groups.EffectiveStage>, index: nat, routes: seq<Route>,
                       now: int): seq<Entry>
    requires index <= |stages|
    decreases |stages| - index
  {
    if index == |stages| then []
    else
      var end := BlockEnd(stages, index, index + 1);
      Repeat(Repeats(stages[index]), Cycle(request, stages[index..end], routes, now))
      + FullEntries(request, stages, end, routes, now)
  }

  function FullRejections(request: MatchRequest, stages: seq<Groups.EffectiveStage>, index: nat, routes: seq<Route>,
                          now: int): seq<Rejection>
    requires index <= |stages|
    decreases |stages| - index
  {
    if index == |stages| then []
    else
      var end := BlockEnd(stages, index, index + 1);
      Repeat(Repeats(stages[index]), CycleRejections(request, stages[index..end], routes, now))
      + FullRejections(request, stages, end, routes, now)
  }

  function Take<T>(s: seq<T>, n: nat): seq<T> {
    if n <= |s| then s[..n] else s
  }

  predicate IsCapCode(c: RejectionCode) { c in {OverInputPriceLimit, OverOutputPriceLimit, OverMaximumCost} }

  predicate IsPolicyCode(c: RejectionCode) { c in {WrongBillingClass, ProviderNotAllowed, ProviderExcluded} }

  /** An empty plan is blamed on price caps when some route hit one and nothing but policy stopped the others. */
  predicate OnlyCapsInTheWay(rejections: seq<Rejection>) {
    && (exists r :: r in rejections && IsCapCode(r.code))
    && (forall r :: r in rejections ==> IsCapCode(r.code) || IsPolicyCode(r.code))
  }

  /** One stage of a cycle: `entries` ends in the cycle so far, whose route IDs are `seen`. */
  method AppendRanking(stage: Groups.EffectiveStage, ranked: seq<RankedRoute>, entries: seq<Entry>, seen: set<string>,
                       ghost before: seq<Entry>, ghost cycle: seq<Entry>, maximumRoutes: nat)
    returns (newEntries: seq<Entry>, newSeen: set<string>, full: bool)
    requires entries == before + cycle && |entries| < maximumRoutes && seen == IDs(cycle)
    ensures newEntries == Take(before + AddRanking(cycle, stage, ranked), maximumRoutes)
    ensures full <==> |before| + |AddRanking(cycle, stage, ranked)| >= maximumRoutes
    ensures !full ==> newSeen == IDs(AddRanking(cycle, stage, ranked))
  {
    hide EntryFor;
    newEntries, newSeen, full := entries, seen, false;
    var k := 0;
    while k < |ranked|
      invariant 0 <= k <= |ranked| && !full
      invariant newEntries == before + AddRanking(cycle, stage, ranked[..k]) && |newEntries| < maximumRoutes
      invariant newSeen == IDs(AddRanking(cycle, stage, ranked[..k]))
    {
      var r := ranked[k];
      assert ranked[..k + 1][..k] == ranked[..k];
      IDsAreRoutes(AddRanking(cycle, stage, ranked[..k]), r.route.id);
      if r.route.id !in newSeen {
        newSeen := newSeen + {r.route.id};
        newEntries := newEntries + [EntryFor(stage, r)];
        EntryKeepsRoute(stage, r);
        RankingExtends(cycle, stage, ranked, k + 1);
        if |newEntries| >= maximumRoutes {
          full := true;
          TakePrefix(before, AddRanking(cycle, stage, ranked[..k + 1]), AddRanking(cycle, stage, ranked),
                     maximumRoutes);
          return;
        }
      }
      k := k + 1;
    }
    assert ranked[..k] == ranked;
  }

  lemma TakePrefix<T>(before: seq<T>, some: seq<T>, all: seq<T>, n: nat)
    requires some <= all && |before + some| == n
    ensures before + some == Take(before + all, n)
  {}

  lemma EntryKeepsRoute(stage: Groups.EffectiveStage, r: RankedRoute)
    ensures EntryFor(stage, r).route == r.route
  {}

  /** One repetition over one run of stages; stops as soon as the plan is full. */
  method AppendCycle(request: MatchRequest, stages: seq<Groups.EffectiveStage>, routes: seq<Route>, now: int,
                     entries: seq<Entry>, rejections: seq<Rejection>, maximumRoutes: nat)
    returns (newEntries: seq<Entry>, newRejections: seq<Rejection>, full: bool)
    requires |entries| < maximumRoutes
    ensures newEntries == Take(entries + Cycle(request, stages, routes, now), maximumRoutes)
    ensures full <==> |entries| + |Cycle(request, stages, routes, now)| >= maximumRoutes
    ensures !full ==> newRejections == rejections + CycleRejections(request, stages, routes, now)
  {
    hide Ranking, MatchSpec, StageRequest, AddRanking;
    newEntries, newRejections, full := entries, rejections, false;
    var seen: set<string> := {};
    var i := 0;
    while i < |stages|
      invariant 0 <= i <= |stages| && !full
      invariant newEntries == entries + Cycle(request, stages[..i], routes, now) && |newEntries| < maximumRoutes
      invariant seen == IDs(Cycle(request, stages[..i], routes, now))
      invariant newRejections == rejections + CycleRejections(request, stages[..i], routes, now)
    {
      assert stages[..i + 1][..i] == stages[..i];
      var matched := Match(StageRequest(request, stages[i]), routes, now);
      var ranked := RankedOf(matched, StageRequest(request, stages[i]), routes, now);
      newRejections := newRejections + matched.rejections;
      newEntries, seen, full :=
        AppendRanking(stages[i], ranked, newEntries, seen, entries, Cycle(request, stages[..i], routes, now),
                      maximumRoutes);
      i := i + 1;
      if full {
        CycleExtends(request, stages, i, routes, now);
        return;
      }
    }
    assert stages[..i] == stages;
  }

  /** `ranked` of a match result is the ranking, with or without an error. */
  function RankedOf(m: MatchResult, request: MatchRequest, routes: seq<Route>, now: int): (r: seq<RankedRoute>)
    requires m == MatchSpec(request, routes, now)
    ensures r == Ranking(request, routes, now)
  {
    m.ranked
  }

  function IDs(entries: seq<Entry>): set<string> {
    if entries == [] then {} else IDs(entries[..|entries| - 1]) + {entries[|entries| - 1].route.id}
  }

  lemma {:induction false} IDsAreRoutes(entries: seq<Entry>, id: string)
    ensures id in IDs(entries) <==> HasRoute(entries, id)
  {
    if entries != [] {
      var init, last := entries[..|entries| - 1], entries[|entries| - 1];
      IDsAreRoutes(init, id);
      assert entries == init + [last];
    }
  }

  lemma {:induction false} RankingExtends(cycle: seq<Entry>, stage: Groups.EffectiveStage, ranked: seq<RankedRoute>,
                                          k: nat)
    requires k <= |ranked|
    ensures AddRanking(cycle, stage, ranked[..k]) <= AddRanking(cycle, stage, ranked)
    ensures cycle <= AddRanking(cycle, stage, ranked)
    decreases |ranked|
  {
    if |ranked| > 0 {
      var init := ranked[..|ranked| - 1];
      RankingExtends(cycle, stage, init, if k < |ranked| then k else |init|);
      if k < |ranked| { assert init[..k] == ranked[..k]; } else { assert ranked[..k] == ranked; }
    }
  }

  lemma {:induction false} CycleExtends(request: MatchRequest, stages: seq<Groups.EffectiveStage>, i: nat,
                                        routes: seq<Route>, now: int)
    requires i <= |stages|
    ensures Cycle(request, stages[..i], routes, now) <= Cycle(request, stages, routes, now)
    decreases |stages|
  {
    hide Ranking, StageRequest;
    if i < |stages| {
      var init, last := stages[..|stages| - 1], stages[|stages| - 1];
      CycleExtends(request, init, i, routes, now);
      assert init[..i] == stages[..i];
      RankingExtends(Cycle(request, init, routes, now), last, Ranking(StageRequest(request, last), routes, now), 0);
    } else {
      assert stages[..i] == stages;
    }
  }

  /** All repetitions of one run of stages. */
  method AppendBlock(request: MatchRequest, stages: seq<Groups.EffectiveStage>, repeats: int, routes: seq<Route>,
                     now: int, entries: seq<Entry>, rejections: seq<Rejection>, maximumRoutes: nat)
    returns (newEntries: seq<Entry>, newRejections: seq<Rejection>, full: bool)
    requires |entries| < maximumRoutes
    ensures var added := Repeat(Max(0, repeats), Cycle(request, stages, routes, now));
            && newEntries == Take(entries + added, maximumRoutes)
            && (full <==> |entries| + |added| >= maximumRoutes)
    ensures !full ==>
              newRejections == rejections + Repeat(Max(0, repeats), CycleRejections(request, stages, routes, now))
  {
    hide Cycle, CycleRejections;
    newEntries, newRejections, full := entries, rejections, false;
    ghost var cycle := Cycle(request, stages, routes, now);
    var repetition := 0;
    while repetition < repeats
      invariant 0 <= repetition <= Max(0, repeats) && !full
      invariant newEntries == entries + Repeat(repetition, cycle) && |newEntries| < maximumRoutes
      invariant newRejections == rejections + Repeat(repetition, CycleRejections(request, stages, routes, now))
    {
      newEntries, newRejections, full :=
        AppendCycle(request, stages, routes, now, newEntries, newRejections, maximumRoutes);
      repetition := repetition + 1;
      assert entries + Repeat(repetition - 1, cycle) + cycle == entries + Repeat(repetition, cycle);
      if full {
        RepeatExtends(repetition, repeats, cycle);
        return;
      }
    }
  }

  lemma {:induction false} RepeatExtends<T>(m: nat, n: nat, s: seq<T>)
    requires m <= n
    ensures Repeat(m, s) <= Repeat(n, s)
  {
    if m < n { RepeatExtends(m, n - 1, s); }
  }

  method FindBlockEnd(stages: seq<Groups.EffectiveStage>, index: nat) returns (end: nat)
    requires index < |stages|
    ensures end == BlockEnd(stages, index, index + 1)
  {
    end := index + 1;
    while end < |stages| && stages[end].tryKey == stages[index].tryKey
      invariant index < end <= |stages|
      invariant BlockEnd(stages, index, end) == BlockEnd(stages, index, index + 1)
    {
      end := end + 1;
    }
  }

  method ExplainEmptyPlan(rejections: seq<Rejection>) returns (error: PlanError)
    ensures error == if OnlyCapsInTheWay(rejections) then PriceLimitExceeded else NoEligible
  {
    var capOnly := |rejections| > 0;
    var hasCap := false;
    var i := 0;
    while i < |rejections|
      invariant 0 <= i <= |rejections|
      invariant hasCap <==> exists k :: 0 <= k < i && IsCapCode(rejections[k].code)
      invariant capOnly <==> |rejections| > 0
      invariant forall k :: 0 <= k < i ==> IsCapCode(rejections[k].code) || IsPolicyCode(rejections[k].code)
    {
      if IsCapCode(rejections[i].code) {
        hasCap := true;
      } else if !IsPolicyCode(rejections[i].code) {
        capOnly := false;
        assert rejections[i] in rejections;
        break;
      }
      i := i + 1;
    }
    if capOnly && hasCap {
      var k :| 0 <= k < i && IsCapCode(rejections[k].code);
      assert rejections[k] in rejections;
      error := PriceLimitExceeded;
    } else {
      error := NoEligible;
    }
  }

  lemma SplitAt<T>(before: seq<T>, block: seq<T>, rest: seq<T>)
    ensures before + (block + rest) == before + block + rest
  {}

  /** What a run of stages adds, and what comes after it. */
  lemma BlockOf(request: MatchRequest, stages: seq<Groups.EffectiveStage>, index: nat, end: nat, routes: seq<Route>,
                now: int)
    requires index < |stages| && end == BlockEnd(stages, index, index + 1)
    ensures FullEntries(request, stages, index, routes, now)
         == Repeat(Repeats(stages[index]), Cycle(request, stages[index..end], routes, now))
            + FullEntries(request, stages, end, routes, now)
    ensures FullRejections(request, stages, index, routes, now)
         == Repeat(Repeats(stages[index]), CycleRejections(request, stages[index..end], routes, now))
            + FullRejections(request, stages, end, routes, now)
  {}

  lemma NothingAfter(request: MatchRequest, stages: seq<Groups.EffectiveStage>, routes: seq<Route>, now: int)
    ensures FullEntries(request, stages, |stages|, routes, now) == []
            && FullRejections(request, stages, |stages|, routes, now) == []
  {}

  /** The plan of the compiled stages: all entries, or the first MaximumRoutes of them with an error. */
  method PlanStages(request: MatchRequest, stages: seq<Groups.EffectiveStage>, routes: seq<Route>, now: int,
                    limits: Limits)
    returns (plan: Plan)
    requires 0 < limits.maximumRoutes
    ensures IsPlanOf(plan, request, stages, routes, now, limits)
  {
    hide Cycle, CycleRejections, FinalError, FullEntries, FullRejections, Repeat, BlockEnd;
    var entries: seq<Entry>, rejections: seq<Rejection>, full := [], [], false;
    ghost var whole := FullEntries(request, stages, 0, routes, now);
    ghost var allRejections := FullRejections(request, stages, 0, routes, now);
    assert entries + whole == whole && rejections + allRejections == allRejections;
    var index := 0;
    while index < |stages|
      invariant 0 <= index <= |stages| && |entries| < limits.maximumRoutes
      invariant entries + FullEntries(request, stages, index, routes, now) == whole
      invariant rejections + FullRejections(request, stages, index, routes, now) == allRejections
    {
      var end := FindBlockEnd(stages, index);
      ghost var block := Repeat(Repeats(stages[index]), Cycle(request, stages[index..end], routes, now));
      ghost var rejected := Repeat(Repeats(stages[index]), CycleRejections(request, stages[index..end], routes, now));
      BlockOf(request, stages, index, end, routes, now);
      SplitAt(entries, block, FullEntries(request, stages, end, routes, now));
      SplitAt(rejections, rejected, FullRejections(request, stages, end, routes, now));
      ghost var entriesBefore := entries;
      entries, rejections, full :=
        AppendBlock(request, stages[index..end], 1 + stages[index].tryRetries, routes, now, entries, rejections,
                    limits.maximumRoutes);
      if full {
        assert Take(entriesBefore + block, limits.maximumRoutes) == Take(whole, limits.maximumRoutes);
        return Plan(entries, rejections, Some(TooManyRoutes));
      }
      index := end;
    }
    NothingAfter(request, stages, routes, now);
    assert entries == whole && rejections == allRejections;
    plan := Finish(entries, rejections, limits);
  }

  /** What is left to decide once every stage has been planned. */
  method Finish(entries: seq<Entry>, rejections: seq<Rejection>, limits: Limits) returns (plan: Plan)
    ensures plan.entries == entries && plan.rejections == rejections
    ensures plan.error == FinalError(entries, rejections, limits)
  {
    plan := Plan(entries, rejections, None);
    if |entries| == 0 {
      var why := ExplainEmptyPlan(rejections);
      plan := plan.(error := Some(why));
    }
    var attempts := MaxAttempts(entries);
    if attempts > limits.maximumAttempts {
      plan := plan.(error := Some(TooManyAttempts));
    }
  }

  function FinalError(entries: seq<Entry>, rejections: seq<Rejection>, limits: Limits): Option<PlanError> {
    if TriesAllowed(entries) > limits.maximumAttempts then Some(TooManyAttempts)
    else if entries != [] then None
    else if OnlyCapsInTheWay(rejections) then Some(PriceLimitExceeded)
    else Some(NoEligible)
  }

  method BuildGroup(request: MatchRequest, definition: Groups.Definition, definitions: map<string, Groups.Definition>,
                    routes: seq<Route>, now: int, limits: Limits) returns (plan: Plan)
    ensures var l := Normalized(limits);
            if !Compiler.Compilable(definition, definitions, Compiler.DefaultLimits())
            then plan.entries == [] && plan.error.Some? && plan.error.value.CompileError?
            else exists stages ::
              && Compiler.Mirrors(stages, Compiler.Leaves(definitions, [], definition, 7))
              && IsPlanOf(plan, request, stages, routes, now, l)
  {
    hide Compiler.Leaves, Compiler.Mirrors, Compiler.Compilable, FullEntries, FullRejections, TriesAllowed;
    var l := Normalized(limits);
    var compiled := Compiler.Compile(definition, definitions, Compiler.DefaultLimits());
    for i := 0 to |compiled.issues|
      invariant forall k :: 0 <= k < i ==> compiled.issues[k].level != Compiler.Error
    {
      if compiled.issues[i].level == Compiler.Error {
        assert compiled.issues[i] in compiled.issues;
        return Plan([], [], Some(CompileError(compiled.issues[i].code)));
      }
    }
    assert !Compiler.HasError(compiled.issues);
    plan := PlanStages(request, compiled.stages, routes, now, l);
    assert IsPlanOf(plan, request, compiled.stages, routes, now, l);
  }

  /** `plan` is what the compiled stages come to under the limits. */
  ghost predicate IsPlanOf(plan: Plan, request: MatchRequest, stages: seq<Groups.EffectiveStage>, routes: seq<Route>,
                           now: int, limits: Limits)
    requires 0 < limits.maximumRoutes
  {
    var whole := FullEntries(request, stages, 0, routes, now);
    && plan.entries == Take(whole, limits.maximumRoutes)
    && (|whole| >= limits.maximumRoutes ==> plan.error == Some(TooManyRoutes))
    && (|whole| < limits.maximumRoutes ==>
          && plan.rejections == FullRejections(request, stages, 0, routes, now)
          && plan.error == FinalError(whole, plan.rejections, limits))
  }

  /** The plan of a plain model request: the ranking, one retry on every route that is not free. */
  method BuildDirect(request: MatchRequest, routes: seq<Route>, now: int) returns (plan: Plan)
    ensures var m := MatchSpec(request, routes, now);
            && |plan.entries| == |m.ranked|
            && (forall i :: 0 <= i < |m.ranked| ==>
                  plan.entries[i] == Entry("", [], m.ranked[i].route, m.ranked[i].expectedCost,
                                           if m.ranked[i].route.free then 0 else 1))
            && plan.rejections == m.rejections
            && (plan.error.None? <==> m.error.None?)
  {
    hide Ranking, Rejections, RequestError;
    var m := Match(request, routes, now);
    var entries: seq<Entry> := [];
    for i := 0 to |m.ranked|
      invariant |entries| == i
      invariant forall k :: 0 <= k < i ==>
                  entries[k] == Entry("", [], m.ranked[k].route, m.ranked[k].expectedCost,
                                      if m.ranked[k].route.free then 0 else 1)
    {
      var retries := 1;
      if m.ranked[i].route.free { retries := 0; }
      entries := entries + [Entry("", [], m.ranked[i].route, m.ranked[i].expectedCost, retries)];
    }
    plan := Plan(entries, m.rejections, if m.error.Some? then Some(Unmatched(m.error.value)) else None);
  }
}
