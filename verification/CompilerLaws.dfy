/** What a compilable group guarantees: bounded acyclic nesting, and caps and lists that hold along every path. */
module CompilerLaws {
  import opened Wrappers
  import opened Text
  import opened Matcher
  import opened Groups
  import opened GroupsLaws
  import opened Compiler
  import Ordering

  // ---------------------------------------------------------------- nesting chains

  /** `child` is the enabled group that some stage of `parent` nests. */
  ghost predicate Nests(all: map<string, Definition>, parent: Definition, child: Definition) {
    exists raw :: raw in parent.stages && NestsThrough(all, NormalizeStage(raw), child)
  }

  ghost predicate NestsThrough(all: map<string, Definition>, stage: Stage, child: Definition) {
    && IsNested(stage)
    && stage.sources[0].groupID in all
    && all[stage.sources[0].groupID] == child
    && child.enabled
  }

  /** No stage of `def` names a group that is not there. */
  ghost predicate NoMissingGroup(all: map<string, Definition>, def: Definition) {
    forall raw :: raw in def.stages && IsNested(NormalizeStage(raw)) ==> NormalizeStage(raw).sources[0].groupID in all
  }

  ghost predicate IsChain(all: map<string, Definition>, ds: seq<Definition>) {
    && ds != []
    && forall i :: 0 <= i < |ds| - 1 ==> Nests(all, ds[i], ds[i + 1])
  }

  /** A chain is good when it is short, repeats no group, avoids `above` and ends in a group missing nothing. */
  ghost predicate GoodChain(all: map<string, Definition>, above: set<string>, ds: seq<Definition>, fuel: nat) {
    && |ds| <= fuel
    && (forall i :: 0 <= i < |ds| ==> ds[i].id !in above)
    && (forall i, j :: 0 <= i < j < |ds| ==> ds[i].id != ds[j].id)
    && (ds != [] ==> NoMissingGroup(all, ds[|ds| - 1]))
  }

  ghost predicate AllChainsGood(all: map<string, Definition>, above: set<string>, def: Definition, fuel: nat) {
    forall ds :: IsChain(all, ds) && ds[0] == def ==> GoodChain(all, above, ds, fuel)
  }

  lemma {:induction false} WellNestedChain(all: map<string, Definition>, above: set<string>, ds: seq<Definition>,
                                           fuel: nat)
    requires IsChain(all, ds) && WellNested(all, above, ds[0], fuel)
    ensures GoodChain(all, above, ds, fuel)
    decreases |ds|
  {
    hide NormalizeStage;
    var def := ds[0];
    assert NoMissingGroup(all, def) by {
      forall raw | raw in def.stages && IsNested(NormalizeStage(raw))
        ensures NormalizeStage(raw).sources[0].groupID in all
      {
        assert StageNests(all, above + {def.id}, raw, fuel - 1);
        assert NestedExists(all, above + {def.id}, NormalizeStage(raw), fuel - 1);
      }
    }
    if |ds| > 1 {
      var child := ds[1];
      assert Nests(all, ds[0], ds[1]);
      var raw :| raw in def.stages && NestsThrough(all, NormalizeStage(raw), child);
      assert StageNests(all, above + {def.id}, raw, fuel - 1);
      assert NestedExists(all, above + {def.id}, NormalizeStage(raw), fuel - 1);
      assert IsChain(all, ds[1..]) by {
        forall i | 0 <= i < |ds[1..]| - 1 ensures Nests(all, ds[1..][i], ds[1..][i + 1]) {
          assert Nests(all, ds[i + 1], ds[i + 2]);
        }
      }
      WellNestedChain(all, above + {def.id}, ds[1..], fuel - 1);
      assert forall i :: 1 <= i < |ds| ==> ds[i] == ds[1..][i - 1];
    }
  }

  lemma {:induction false} GoodChainsNestWell(all: map<string, Definition>, above: set<string>, def: Definition,
                                              fuel: nat)
    requires AllChainsGood(all, above, def, fuel)
    ensures WellNested(all, above, def, fuel)
    decreases fuel
  {
    hide NormalizeStage;
    assert IsChain(all, [def]);
    assert GoodChain(all, above, [def], fuel);
    assert [def][0] == def && [def][|[def]| - 1] == def;
    forall raw | raw in def.stages ensures StageNests(all, above + {def.id}, raw, fuel - 1) {
      var stage := NormalizeStage(raw);
      if IsNested(stage) {
        assert stage.sources[0].groupID in all;
        var child := all[stage.sources[0].groupID];
        if child.enabled {
          assert NestsThrough(all, stage, child);
          assert Nests(all, def, child);
          forall ds | IsChain(all, ds) && ds[0] == child
            ensures GoodChain(all, above + {def.id}, ds, fuel - 1)
          {
            LongerChainIsGood(all, above, def, ds, fuel);
          }
          GoodChainsNestWell(all, above + {def.id}, child, fuel - 1);
        }
      }
    }
  }

  lemma LongerChainIsGood(all: map<string, Definition>, above: set<string>, def: Definition, ds: seq<Definition>,
                          fuel: nat)
    requires AllChainsGood(all, above, def, fuel)
    requires IsChain(all, ds) && Nests(all, def, ds[0]) && fuel > 0
    ensures GoodChain(all, above + {def.id}, ds, fuel - 1)
  {
    hide Nests, NoMissingGroup;
    var longer := [def] + ds;
    assert IsChain(all, longer) by {
      forall i | 0 <= i < |longer| - 1 ensures Nests(all, longer[i], longer[i + 1]) {
        if i > 0 { assert longer[i] == ds[i - 1] && longer[i + 1] == ds[i]; }
      }
    }
    assert longer[0] == def;
    assert GoodChain(all, above, longer, fuel);
    forall i | 0 <= i < |ds| ensures ds[i].id !in above + {def.id} {
      assert longer[i + 1] == ds[i];
    }
    forall i, j | 0 <= i < j < |ds| ensures ds[i].id != ds[j].id {
      assert longer[i + 1] == ds[i] && longer[j + 1] == ds[j];
    }
  }

  /**
   Compile finds no nesting error exactly when every chain of enabled nested groups from the root has
   at most MaximumDepth groups, repeats none of them, and refers to no missing group.
   */
  lemma NestingIsGoodExactly(all: map<string, Definition>, root: Definition, fuel: nat)
    ensures WellNested(all, {}, root, fuel) <==> AllChainsGood(all, {}, root, fuel)
  {
    if WellNested(all, {}, root, fuel) {
      forall ds | IsChain(all, ds) && ds[0] == root ensures GoodChain(all, {}, ds, fuel) {
        WellNestedChain(all, {}, ds, fuel);
      }
    } else if AllChainsGood(all, {}, root, fuel) {
      GoodChainsNestWell(all, {}, root, fuel);
    }
  }

  // ---------------------------------------------------------------- policies along a leaf's path

  lemma {:induction false} ChosenAt<T>(steps: seq<Step>, pick: Stage -> T, k: nat)
    requires k < |steps|
    ensures |Chosen(steps, pick)| == |steps| && Chosen(steps, pick)[k] == pick(steps[k].stage)
  {
    if |steps| > 1 { ChosenAt(steps[..|steps| - 1], pick, if k < |steps| - 1 then k else 0); }
  }

  lemma {:induction false} PercentAt(steps: seq<Step>, k: nat)
    requires k < |steps|
    ensures |Percents(steps)| == |steps| && Percents(steps)[k] == StepPercent(steps[k])
  {
    if |steps| > 1 { PercentAt(steps[..|steps| - 1], if k < |steps| - 1 then k else 0); }
  }

  lemma {:induction false} ProvidersAt(steps: seq<Step>, k: nat)
    requires k < |steps|
    ensures steps[k].stage.providerNames in ProviderLists(steps) && StepProviders(steps[k]) in ProviderLists(steps)
  {
    if k < |steps| - 1 {
      ProvidersAt(steps[..|steps| - 1], k);
    }
  }

  /** A cap at least as tight as `outer`. */
  ghost predicate AsTight(inner: Option<int64>, outer: Option<int64>) {
    outer.Some? ==> inner.Some? && inner.value <= outer.value
  }

  /** A leaf's caps are at most those of every stage, and every source percentage, on its path. */
  lemma LeafCapsHold(leaf: Leaf, k: nat)
    requires k < |leaf.Steps()|
    ensures var e := EffectiveOf(leaf);
            var step := leaf.Steps()[k];
            && AsTight(e.maximumInput, step.stage.maximumInput)
            && AsTight(e.maximumOutput, step.stage.maximumOutput)
            && AsTight(e.maximumCost, step.stage.maximumCost)
            && (StepPercent(step).Some? ==> e.percent.Some? && e.percent.value <= StepPercent(step).value)
  {
    var steps := leaf.Steps();
    ChosenAt(steps, InputCapOf, k);
    ChosenAt(steps, OutputCapOf, k);
    ChosenAt(steps, CostCapOf, k);
    PercentAt(steps, k);
    MinCapsIsTightest(Chosen(steps, InputCapOf));
    MinCapsIsTightest(Chosen(steps, OutputCapOf));
    MinCapsIsTightest(Chosen(steps, CostCapOf));
    MinIntsIsTightest(Percents(steps));
  }

  /** An effective list admits only members of `l`, and is no "unrestricted" in disguise. */
  ghost predicate ListHolds<T(!new)>(effective: seq<T>, l: seq<T>) {
    l != [] ==> effective != [] && forall x :: x in effective ==> x in l
  }

  lemma NarrowedListHolds<T(!new)>(lists: seq<seq<T>>, l: seq<T>)
    requires RunningNonEmpty(lists) && l in lists
    ensures ListHolds(NarrowAll(lists), l)
  {
    AllowListsNarrowExactly(lists);
    if l != [] {
      assert Restricted(lists);
      assert forall x :: OnEveryList(x, lists) ==> x in l;
    }
  }

  /** Where the lists of a leaf's path narrow, the leaf's own are on every one of them; providers and billing apart. */
  lemma LeafListsHold(leaf: Leaf, k: nat)
    requires k < |leaf.Steps()|
    ensures RunningNonEmpty(LeafProviderLists(leaf)) ==>
              && ListHolds(EffectiveOf(leaf).providers, leaf.Steps()[k].stage.providerNames)
              && ListHolds(EffectiveOf(leaf).providers, StepProviders(leaf.Steps()[k]))
    ensures RunningNonEmpty(LeafBillingLists(leaf)) ==>
              ListHolds(EffectiveOf(leaf).billing, leaf.Steps()[k].stage.billing)
  {
    hide RunningNonEmpty;
    var steps := leaf.Steps();
    var step := steps[k];
    ProvidersAt(steps, k);
    ChosenAt(steps, BillingOf, k);
    assert step.stage.billing in Chosen(steps, BillingOf);
    if RunningNonEmpty(LeafProviderLists(leaf)) {
      NarrowedListHolds(LeafProviderLists(leaf), step.stage.providerNames);
      NarrowedListHolds(LeafProviderLists(leaf), StepProviders(step));
    }
    if RunningNonEmpty(LeafBillingLists(leaf)) {
      NarrowedListHolds(LeafBillingLists(leaf), step.stage.billing);
    }
  }

  // ---------------------------------------------------------------- a group that widens

  function OneSource(kind: SourceKind, modelID: string, groupID: string): Source {
    Source(kind, modelID, groupID, "", [], false, None, None)
  }

  function StageFor(provider: string, source: Source): Stage {
    Stage("s", 0, [source], [provider], [MeteredBilling], LOWEST_EXPECTED_COST, None, None, None, None, None)
  }

  const INNER := Definition("inner", "h", true, 0, [StageFor("b", OneSource(ModelSource, "m", ""))])
  const OUTER := Definition("outer", "g", true, 0, [StageFor("a", OneSource(GroupSource, "", "inner"))])
  const WIDENING_LEAF := Leaf([Step("g", OUTER.stages[0], Some(OUTER.stages[0].sources[0]))],
                              Step("h", INNER.stages[0], None), ["m"])

  lemma OneProviderIsNormal(provider: string)
    requires provider != "" && Clean(provider) == provider
    ensures UniqueLower([provider]) == [provider]
  {
    hide Clean;
    var one := [provider];
    assert one[..0] == [] && one[1..] == [];
    assert Cleaned(one) == [] + [Clean(provider)] == one;
    assert Unique(one) == one;
    assert Ordering.Filter((v: string) => v != "", one) == one;
    assert Ordering.StableSort(StringLess, one) == one;
  }

  lemma StageForIsNormal(provider: string, source: Source)
    requires provider != "" && Clean(provider) == provider && NormalizeSource(source) == source
    ensures NormalizeStage(StageFor(provider, source)) == StageFor(provider, source)
  {
    hide Clean, UniqueLower, NormalizeSource;
    OneProviderIsNormal(provider);
    assert [MeteredBilling][..0] == [];
  }

  lemma WideningLeaves()
    ensures Leaves(map["inner" := INNER], [], OUTER, 1) == [WIDENING_LEAF]
  {
    var inner, outer, all := INNER.stages[0], OUTER.stages[0], map["inner" := INNER];
    assert UniqueLower([]) == [];
    StageForIsNormal("a", outer.sources[0]);
    StageForIsNormal("b", inner.sources[0]);
    hide NormalizeStage;
    assert Unique(ModelIDs(inner.sources)) == ["m"] by { SingleModel(inner.sources[0]); }
    assert !IsSourceSpecific(inner);
    hide IsSourceSpecific, Unique, ModelIDs;
    var above := WIDENING_LEAF.above;
    assert [inner][..0] == [] && [outer][..0] == [];
    assert StageLeaves(all, above, "h", inner, 0) == [WIDENING_LEAF];
    assert Leaves(all, above, INNER, 0) == [WIDENING_LEAF];
    assert [] + above == above;
    assert StageLeaves(all, [], "g", outer, 1) == [WIDENING_LEAF];
  }

  /**
   Two levels are enough to widen, because the last stage of a path without a single source is composed twice: a group
   that allows one provider, around a group that allows another, compiles to a stage that allows what it forbids.
   */
  lemma TwoLevelsWiden()
    ensures Leaves(map["inner" := INNER], [], OUTER, 1) == [WIDENING_LEAF]
    ensures EffectiveOf(WIDENING_LEAF).providers == ["b"] && OUTER.stages[0].providerNames == ["a"]
  {
    WideningLeaves();
    WideningLists();
    NarrowedToTheLast();
    hide NarrowAll, LeafProviderLists, Leaves;
  }

  lemma WideningLists()
    ensures LeafProviderLists(WIDENING_LEAF) == [["a"], [], ["b"], [], ["b"]]
  {
    hide Clean;
    var above, last := WIDENING_LEAF.above, WIDENING_LEAF.last;
    OneStepLists(above[0]);
    assert [above[0]] == above;
    assert (above + [last])[..1] == above;
    assert ProviderLists(above + [last]) == ProviderLists(above) + [["b"]] + [[]];
  }

  lemma OneStepLists(step: Step)
    ensures ProviderLists([step]) == [step.stage.providerNames, StepProviders(step)]
  {
    assert [step][..0] == [];
  }

  lemma NarrowedToTheLast()
    ensures NarrowAll([["a"], [], ["b"], [], ["b"]]) == ["b"]
  {
    var lists := [["a"], [], ["b"], [], ["b"]];
    assert CommonMembers(["a"], ["b"]) == [] by { assert ["a"][..0] == []; }
    assert lists[..1][..0] == [] && NarrowAll(lists[..1]) == ["a"];
    assert lists[..2][..1] == lists[..1] && NarrowAll(lists[..2]) == ["a"];
    assert lists[..3][..2] == lists[..2] && NarrowAll(lists[..3]) == [];
    assert lists[..4][..3] == lists[..3] && NarrowAll(lists[..4]) == [];
  }
}
