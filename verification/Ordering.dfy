/**
 Stable sorting by a strict comparison, as `sort.SliceStable` offers it. The comparison is the
 caller's; what callers need is proved for every strict weak order.
 */
module Ordering {

  ghost predicate StrictWeakOrder<T(!new)>(less: (T, T) -> bool) {
    && (forall a :: !less(a, a))
    && (forall a, b, c :: less(a, b) && less(b, c) ==> less(a, c))
    && (forall a, b, c :: !less(a, b) && !less(b, c) ==> !less(a, c))
  }

  ghost predicate SortedBy<T>(less: (T, T) -> bool, s: seq<T>) {
    forall i, j :: 0 <= i < j < |s| ==> !less(s[j], s[i])
  }

  /** Any two different elements of `s` are strictly ordered one way or the other. */
  ghost predicate Separates<T>(less: (T, T) -> bool, s: seq<T>) {
    forall i, j :: 0 <= i < |s| && 0 <= j < |s| ==> s[i] == s[j] || less(s[i], s[j]) || less(s[j], s[i])
  }

  function Insert<T>(less: (T, T) -> bool, x: T, s: seq<T>): seq<T> {
    if s == [] || !less(s[0], x) then [x] + s else [s[0]] + Insert(less, x, s[1..])
  }

  function StableSort<T>(less: (T, T) -> bool, s: seq<T>): seq<T> {
    if s == [] then [] else Insert(less, s[0], StableSort(less, s[1..]))
  }

  function Filter<T(!new)>(keep: T -> bool, s: seq<T>): (r: seq<T>)
    ensures forall x :: x in r <==> x in s && keep(x)
    ensures |r| <= |s|
  {
    if s == [] then []
    else if keep(s[0]) then [s[0]] + Filter(keep, s[1..])
    else Filter(keep, s[1..])
  }

  lemma {:induction false} InsertAdds<T>(less: (T, T) -> bool, x: T, s: seq<T>)
    ensures multiset(Insert(less, x, s)) == multiset(s) + multiset{x}
  {
    if s != [] && less(s[0], x) {
      InsertAdds(less, x, s[1..]);
      assert s == [s[0]] + s[1..];
    }
  }

  lemma {:induction false} InsertIsSorted<T(!new)>(less: (T, T) -> bool, x: T, s: seq<T>)
    requires StrictWeakOrder(less) && SortedBy(less, s)
    ensures SortedBy(less, Insert(less, x, s))
    ensures multiset(Insert(less, x, s)) == multiset(s) + multiset{x}
  {
    InsertAdds(less, x, s);
    if s == [] {
    } else if !less(s[0], x) {
      forall j | 0 <= j < |s| ensures !less(s[j], x) {
        if j > 0 { assert !less(s[j], s[0]); }
      }
    } else {
      InsertIsSorted(less, x, s[1..]);
      var r := Insert(less, x, s[1..]);
      forall y | y in r ensures !less(y, s[0]) {
        assert y in multiset(r);
        assert y in s[1..] || y == x;
        if y in s[1..] { var j :| 0 < j < |s| && s[j] == y; }
      }
    }
  }

  lemma {:induction false} SortIsSorted<T(!new)>(less: (T, T) -> bool, s: seq<T>)
    requires StrictWeakOrder(less)
    ensures SortedBy(less, StableSort(less, s))
    ensures multiset(StableSort(less, s)) == multiset(s)
  {
    if s != [] {
      SortIsSorted(less, s[1..]);
      InsertIsSorted(less, s[0], StableSort(less, s[1..]));
      assert s == [s[0]] + s[1..];
    }
  }

  lemma SortMembers<T(!new)>(less: (T, T) -> bool, s: seq<T>)
    requires StrictWeakOrder(less)
    ensures forall x :: x in StableSort(less, s) <==> x in s
  {
    SortIsSorted(less, s);
    forall x ensures x in StableSort(less, s) <==> x in s {
      assert x in StableSort(less, s) <==> x in multiset(StableSort(less, s));
      assert x in s <==> x in multiset(s);
    }
  }

  lemma {:induction false} FilterInsert<T(!new)>(less: (T, T) -> bool, keep: T -> bool, x: T, s: seq<T>)
    requires StrictWeakOrder(less) && SortedBy(less, s)
    ensures Filter(keep, Insert(less, x, s))
         == if keep(x) then Insert(less, x, Filter(keep, s)) else Filter(keep, s)
  {
    if s == [] {
    } else if !less(s[0], x) {
      assert ([x] + s)[1..] == s;
      var f := Filter(keep, s);
      if f != [] {
        assert f[0] in s;
        var j :| 0 <= j < |s| && s[j] == f[0];
        if j > 0 { assert !less(s[j], s[0]); }
        assert !less(f[0], x);
      }
    } else {
      FilterInsert(less, keep, x, s[1..]);
      assert Insert(less, x, s)[1..] == Insert(less, x, s[1..]);
      if keep(s[0]) { assert ([s[0]] + Filter(keep, s[1..]))[1..] == Filter(keep, s[1..]); }
    }
  }

  /** Sorting and filtering commute: dropping candidates never reorders the rest. */
  lemma {:induction false} FilterSort<T(!new)>(less: (T, T) -> bool, keep: T -> bool, s: seq<T>)
    requires StrictWeakOrder(less)
    ensures Filter(keep, StableSort(less, s)) == StableSort(less, Filter(keep, s))
  {
    if s != [] {
      FilterSort(less, keep, s[1..]);
      SortIsSorted(less, s[1..]);
      FilterInsert(less, keep, s[0], StableSort(less, s[1..]));
    }
  }

  lemma SameHead<T(!new)>(less: (T, T) -> bool, a: seq<T>, b: seq<T>)
    requires SortedBy(less, a) && SortedBy(less, b) && multiset(a) == multiset(b)
    requires StrictWeakOrder(less) && Separates(less, a) && a != []
    ensures b != [] && a[0] == b[0]
  {
    assert a[0] in multiset(a);
    assert a[0] in b;
    assert b[0] in multiset(b);
    assert b[0] in a;
    var i :| 0 <= i < |a| && a[i] == b[0];
    var j :| 0 <= j < |b| && b[j] == a[0];
    assert i == 0 || !less(a[i], a[0]);
    assert j == 0 || !less(b[j], b[0]);
  }

  lemma DropHead<T>(less: (T, T) -> bool, s: seq<T>)
    requires s != [] && SortedBy(less, s)
    ensures s == [s[0]] + s[1..] && multiset(s[1..]) == multiset(s) - multiset{s[0]} && SortedBy(less, s[1..])
  {
    assert s == [s[0]] + s[1..];
  }

  lemma DropSeparated<T>(less: (T, T) -> bool, s: seq<T>)
    requires s != [] && Separates(less, s)
    ensures Separates(less, s[1..])
  {}

  lemma {:induction false} SortedIsUnique<T(!new)>(less: (T, T) -> bool, a: seq<T>, b: seq<T>)
    requires StrictWeakOrder(less)
    requires SortedBy(less, a) && SortedBy(less, b) && multiset(a) == multiset(b)
    requires Separates(less, a)
    ensures a == b
  {
    if a == [] {
      assert |multiset(b)| == |b|;
    } else {
      SameHead(less, a, b);
      hide StrictWeakOrder, SortedBy, Separates;
      DropHead(less, a);
      DropHead(less, b);
      assert Separates(less, a[1..]) by { DropSeparated(less, a); }
      SortedIsUnique(less, a[1..], b[1..]);
    }
  }

  /** With no ties, sorting depends only on which elements are present. */
  lemma SortOfPermutation<T(!new)>(less: (T, T) -> bool, a: seq<T>, b: seq<T>)
    requires StrictWeakOrder(less) && multiset(a) == multiset(b) && Separates(less, a)
    ensures StableSort(less, a) == StableSort(less, b)
  {
    SortIsSorted(less, a);
    SortIsSorted(less, b);
    var sa := StableSort(less, a);
    forall i, j | 0 <= i < |sa| && 0 <= j < |sa|
      ensures sa[i] == sa[j] || less(sa[i], sa[j]) || less(sa[j], sa[i])
    {
      assert sa[i] in multiset(sa) && sa[j] in multiset(sa);
      assert sa[i] in a && sa[j] in a;
    }
    SortedIsUnique(less, sa, StableSort(less, b));
  }

  function TiedWith<T(!new)>(less: (T, T) -> bool, x: T): T -> bool {
    (y: T) => !less(x, y) && !less(y, x)
  }

  /** Ties keep their input order: among elements equivalent to `x`, sorting changes nothing. */
  lemma {:induction false} SortIsStable<T(!new)>(less: (T, T) -> bool, x: T, s: seq<T>)
    requires StrictWeakOrder(less)
    ensures Filter(TiedWith(less, x), StableSort(less, s)) == Filter(TiedWith(less, x), s)
  {
    var tied := TiedWith(less, x);
    FilterSort(less, tied, s);
    SortOfTies(less, x, Filter(tied, s));
  }

  lemma {:induction false} SortOfTies<T(!new)>(less: (T, T) -> bool, x: T, s: seq<T>)
    requires StrictWeakOrder(less)
    requires forall y :: y in s ==> !less(x, y) && !less(y, x)
    ensures StableSort(less, s) == s
  {
    if s != [] {
      SortOfTies(less, x, s[1..]);
      assert s == [s[0]] + s[1..];
      if |s| > 1 { assert s[1] in s && s[0] in s; }
    }
  }

  lemma {:induction false} CountAtMostOnce<T(!new)>(s: seq<T>, x: T)
    requires forall i, j :: 0 <= i < j < |s| ==> s[i] != s[j]
    ensures multiset(s)[x] <= 1
  {
    if s != [] {
      var init := s[..|s| - 1];
      CountAtMostOnce(init, x);
      assert s == init + [s[|s| - 1]];
      if x == s[|s| - 1] { assert x !in init; assert x !in multiset(init); }
    }
  }

  /** A permutation of distinct elements has distinct elements. */
  lemma UniqueByCount<T(!new)>(u: seq<T>, r: seq<T>)
    requires forall i, j :: 0 <= i < j < |u| ==> u[i] != u[j]
    requires multiset(u) == multiset(r)
    ensures forall i, j :: 0 <= i < j < |r| ==> r[i] != r[j]
  {
    forall i, j | 0 <= i < j < |r| ensures r[i] != r[j] {
      CountAtMostOnce(u, r[i]);
      assert r == r[..j] + ([r[j]] + r[j + 1..]);
      assert r[i] in r[..j];
      assert multiset(r)[r[j]] >= multiset(r[..j])[r[j]] + 1;
    }
  }

  lemma {:induction false} DistinctCount<T>(s: seq<T>)
    requires forall i, j :: 0 <= i < j < |s| ==> s[i] != s[j]
    ensures |set x | x in s| == |s|
  {
    if s != [] {
      var init, last := s[..|s| - 1], s[|s| - 1];
      DistinctCount(init);
      assert (set x | x in s) == (set x | x in init) + {last};
    }
  }
}
