/** What normalization and policy composition guarantee along a nesting path. */
module GroupsLaws {
  import opened Wrappers
  import opened Text
  import opened Ordering
  import opened Matcher
  import opened Groups

  // ---------------------------------------------------------------- normal form

  lemma {:induction false} CleanedMembers(values: seq<string>)
    ensures |Cleaned(values)| == |values|
    ensures forall i :: 0 <= i < |values| ==> Cleaned(values)[i] == Clean(values[i])
  {
    if values != [] { CleanedMembers(values[..|values| - 1]); }
  }

  /** A list that is already clean, non-empty, unique and sorted. */
  ghost predicate IsNormalList(s: seq<string>) {
    && (forall v :: v in s ==> v != "" && Clean(v) == v)
    && (forall i, j :: 0 <= i < j < |s| ==> s[i] != s[j])
    && SortedBy(StringLess, s)
  }

  lemma UniqueLowerMembers(values: seq<string>)
    ensures forall v :: v in UniqueLower(values) <==> v != "" && exists w :: w in values && v == Clean(w)
  {
    hide Clean, StringLess, Cleaned;
    CleanedMembers(values);
    StringLessIsStrictWeakOrder();
    SortMembers(StringLess, Unique(Filter((v: string) => v != "", Cleaned(values))));
    assert forall v :: v in UniqueLower(values) <==> v != "" && v in Cleaned(values);
    forall w | w in values ensures Clean(w) in Cleaned(values) {
      var i :| 0 <= i < |values| && values[i] == w;
      assert Cleaned(values)[i] == Clean(w);
    }
  }

  lemma UniqueLowerIsNormal(values: seq<string>)
    ensures IsNormalList(UniqueLower(values))
  {
    hide Clean;
    UniqueLowerMembers(values);
    var u := Unique(Filter((v: string) => v != "", Cleaned(values)));
    StringLessIsStrictWeakOrder();
    SortIsSorted(StringLess, u);
    forall v | v in UniqueLower(values) ensures Clean(v) == v {
      var w :| w in values && v == Clean(w);
      CleanTwice(w);
    }
    UniqueByCount(u, UniqueLower(values));
  }

  lemma StringLessIsStrictWeakOrder()
    ensures StrictWeakOrder(StringLess)
  {
    StringLessIsStrictTotalOrder();
  }

  lemma NormalListIsFixed(s: seq<string>)
    requires IsNormalList(s)
    ensures UniqueLower(s) == s
  {
    hide Clean, StringLess;
    CleanedMembers(s);
    assert Cleaned(s) == s;
    FilterAll((v: string) => v != "", s);
    UniqueOfUnique(s);
    StringLessIsStrictWeakOrder();
    StringLessIsStrictTotalOrder();
    SortIsSorted(StringLess, s);
    SortedIsUnique(StringLess, s, StableSort(StringLess, s));
  }

  lemma {:induction false} FilterAll<T(!new)>(keep: T -> bool, s: seq<T>)
    requires forall x :: x in s ==> keep(x)
    ensures Filter(keep, s) == s
  {
    if s != [] {
      assert s == [s[0]] + s[1..];
      FilterAll(keep, s[1..]);
    }
  }

  lemma {:induction false} UniqueOfUnique<T(!new)>(s: seq<T>)
    requires forall i, j :: 0 <= i < j < |s| ==> s[i] != s[j]
    ensures Unique(s) == s
  {
    if s != [] {
      var init, last := s[..|s| - 1], s[|s| - 1];
      UniqueOfUnique(init);
      assert last !in init;
      assert s == init + [last];
    }
  }

  lemma NormalizeSourceTwice(s: Source)
    ensures NormalizeSource(NormalizeSource(s)) == NormalizeSource(s)
  {
    CleanTwice(s.providerName);
    UniqueLowerIsNormal(s.providerNames);
    NormalListIsFixed(UniqueLower(s.providerNames));
  }

  /**
   normalizeStage rewrites the source elements it shares with the caller's definition. Normalizing
   again changes nothing, so a definition visited twice compiles the same both times.
   */
  lemma NormalizeStageTwice(s: Stage)
    ensures NormalizeStage(NormalizeStage(s)) == NormalizeStage(s)
    ensures NormalizeStage(s.(sources := NormalizeSources(s.sources))) == NormalizeStage(s)
  {
    var n := NormalizeStage(s);
    UniqueLowerIsNormal(s.providerNames);
    NormalListIsFixed(n.providerNames);
    assert n.billing != [] by { assert (if s.billing == [] then ALL_BILLING_CLASSES else s.billing)[0] in n.billing; }
    UniqueOfUnique(n.billing);
    forall i | 0 <= i < |s.sources| ensures NormalizeSource(n.sources[i]) == n.sources[i] {
      NormalizeSourceTwice(s.sources[i]);
    }
    assert NormalizeSources(n.sources) == n.sources;
  }

  // ---------------------------------------------------------------- allow-lists along a path

  function NarrowAll<T(==,!new)>(lists: seq<seq<T>>): seq<T> {
    if lists == [] then [] else Narrow(NarrowAll(lists[..|lists| - 1]), lists[|lists| - 1])
  }

  ghost predicate Restricted<T(!new)>(lists: seq<seq<T>>) {
    exists l :: l in lists && l != []
  }

  /** `x` is on every list that restricts anything. */
  ghost predicate OnEveryList<T(!new)>(x: T, lists: seq<seq<T>>) {
    forall l :: l in lists && l != [] ==> x in l
  }

  /** No running intersection along the path is empty once a list has restricted it. */
  ghost predicate RunningNonEmpty<T(!new)>(lists: seq<seq<T>>) {
    forall k :: 0 <= k <= |lists| && Restricted(lists[..k]) ==> NarrowAll(lists[..k]) != []
  }

  /** What an allow-list promises: nothing outside any list on the path, and no silent "unrestricted". */
  ghost predicate Narrows<T(!new)>(lists: seq<seq<T>>) {
    && (forall x :: x in NarrowAll(lists) ==> OnEveryList(x, lists))
    && (Restricted(lists) ==> NarrowAll(lists) != [])
  }

  lemma {:induction false} UnrestrictedIsEmpty<T(!new)>(lists: seq<seq<T>>)
    requires !Restricted(lists)
    ensures NarrowAll(lists) == []
  {
    if lists != [] {
      var init := lists[..|lists| - 1];
      assert lists[|lists| - 1] in lists;
      assert forall l :: l in init ==> l in lists;
      UnrestrictedIsEmpty(init);
    }
  }

  lemma {:induction false} ExactIntersection<T(!new)>(lists: seq<seq<T>>)
    requires RunningNonEmpty(lists)
    ensures forall x :: x in NarrowAll(lists) <==> Restricted(lists) && OnEveryList(x, lists)
  {
    if lists != [] {
      var init, last := lists[..|lists| - 1], lists[|lists| - 1];
      assert lists == init + [last];
      assert forall k :: 0 <= k <= |init| ==> init[..k] == lists[..k];
      ExactIntersection(init);
      assert Restricted(lists) <==> Restricted(init) || last != [] by {
        if Restricted(init) { var l :| l in init && l != []; assert l in lists; }
        if last != [] { assert last in lists; }
      }
      assert forall x :: OnEveryList(x, lists) <==> OnEveryList(x, init) && (last != [] ==> x in last);
      if Restricted(init) {
        assert Restricted(lists[..|init|]) && NarrowAll(init) != [];
      } else {
        UnrestrictedIsEmpty(init);
      }
    }
  }

  /** Where a running intersection is empty, no member is on every list. */
  lemma {:induction false} EmptyRunIsEmptyIntersection<T(!new)>(lists: seq<seq<T>>)
    requires !RunningNonEmpty(lists)
    ensures Restricted(lists) && forall x :: !OnEveryList(x, lists)
    decreases |lists|
  {
    var k :| 0 <= k <= |lists| && Restricted(lists[..k]) && NarrowAll(lists[..k]) == [];
    var prefix := lists[..k];
    assert forall l :: l in prefix ==> l in lists;
    assert forall x :: OnEveryList(x, lists) ==> OnEveryList(x, prefix);
    var init, last := prefix[..k - 1], prefix[k - 1];
    assert prefix == init + [last];
    assert forall x :: OnEveryList(x, prefix) ==> OnEveryList(x, init) && (last != [] ==> x in last);
    if !RunningNonEmpty(init) {
      EmptyRunIsEmptyIntersection(init);
    } else {
      ExactIntersection(init);
      if Restricted(init) {
        assert init == init[..k - 1];
        assert NarrowAll(init) != [];
        assert forall x :: !OnEveryList(x, prefix);
      } else {
        UnrestrictedIsEmpty(init);
      }
    }
  }

  /**
   Nested allow-lists only ever narrow exactly when no running intersection is empty; then the
   effective list is the exact intersection. An empty intersection is read as "unrestricted".
   */
  lemma AllowListsNarrowExactly<T(!new)>(lists: seq<seq<T>>)
    ensures Narrows(lists) <==> RunningNonEmpty(lists)
    ensures RunningNonEmpty(lists) ==>
              forall x :: x in NarrowAll(lists) <==> Restricted(lists) && OnEveryList(x, lists)
  {
    if RunningNonEmpty(lists) {
      ExactIntersection(lists);
      assert lists[..|lists|] == lists;
    } else {
      EmptyRunIsEmptyIntersection(lists);
      if NarrowAll(lists) != [] { assert NarrowAll(lists)[0] in NarrowAll(lists); }
    }
  }

  /** Three disjoint lists: the path ends up allowing exactly what its first two levels forbid. */
  lemma DisjointListsWiden()
    ensures NarrowAll([["a"], ["b"], ["c"]]) == ["c"]
    ensures !Narrows([["a"], ["b"], ["c"]])
  {
    var lists := [["a"], ["b"], ["c"]];
    assert lists[..2][..1] == lists[..1] && lists[..1][..0] == [];
    assert NarrowAll(lists[..1]) == ["a"];
    assert CommonMembers(["a"], ["b"]) == [] by { assert ["a"][..0] == []; }
    assert NarrowAll(lists[..2]) == [];
    assert "c" in NarrowAll(lists) && ["a"] in lists && "c" !in ["a"];
  }

  // ---------------------------------------------------------------- caps and retries along a path

  function MinCaps(caps: seq<Option<int64>>): Option<int64> {
    if caps == [] then None else MinCap(MinCaps(caps[..|caps| - 1]), caps[|caps| - 1])
  }

  function MinInts(values: seq<Option<int>>): Option<int> {
    if values == [] then None else MinInt(MinInts(values[..|values| - 1]), values[|values| - 1])
  }

  function FirstSome(values: seq<Option<int>>): Option<int> {
    if values == [] then None
    else
      var init := FirstSome(values[..|values| - 1]);
      if init.Some? then init else values[|values| - 1]
  }

  /** The composed cap is the tightest one: at most every cap on the path, and one of them. */
  lemma {:induction false} MinCapsIsTightest(caps: seq<Option<int64>>)
    ensures forall c :: c in caps && c.Some? ==> MinCaps(caps).Some? && MinCaps(caps).value <= c.value
    ensures MinCaps(caps).Some? ==> MinCaps(caps) in caps
  {
    if caps != [] {
      MinCapsIsTightest(caps[..|caps| - 1]);
      assert caps == caps[..|caps| - 1] + [caps[|caps| - 1]];
    }
  }

  lemma {:induction false} MinIntsIsTightest(values: seq<Option<int>>)
    ensures forall c :: c in values && c.Some? ==> MinInts(values).Some? && MinInts(values).value <= c.value
    ensures MinInts(values).Some? ==> MinInts(values) in values
  {
    if values != [] {
      MinIntsIsTightest(values[..|values| - 1]);
      assert values == values[..|values| - 1] + [values[|values| - 1]];
    }
  }

  /** The outermost explicit retry count wins. */
  lemma {:induction false} FirstSomeIsFirst(values: seq<Option<int>>, k: nat)
    requires k < |values| && values[k].Some? && forall i :: 0 <= i < k ==> values[i].None?
    ensures FirstSome(values) == values[k]
  {
    var init := values[..|values| - 1];
    if k < |init| {
      FirstSomeIsFirst(init, k);
    } else {
      NoneBefore(init);
    }
  }

  lemma {:induction false} NoneBefore(values: seq<Option<int>>)
    requires forall i :: 0 <= i < |values| ==> values[i].None?
    ensures FirstSome(values) == None
  {
    if values != [] { NoneBefore(values[..|values| - 1]); }
  }
}
