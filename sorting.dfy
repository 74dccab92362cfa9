/**
 * `Array.prototype.sort` with a comparator, as the ranking code calls it: the
 * comparator's sign says whether its first argument goes before (< 0), after
 * (> 0) or anywhere next to (0) the second. A JavaScript comparator that
 * returns NaN counts as 0.
 */
module Sorting {
  import opened JsText

  /** Swapping the arguments never turns "after" into "after". The model's
      comparators have this property, including the ones that return NaN for
      some pairs; the source's hit comparator lacks it for a hit whose flag is
      `undefined` against one whose flag is `false` (CandidateRanker.CompareHits
      keeps only the flags' truthiness). */
  ghost predicate Antisymmetric<T(!new)>(cmp: (T, T) -> int) {
    forall x, y :: cmp(x, y) > 0 ==> cmp(y, x) <= 0
  }

  /** "May stay before" is transitive: the comparator is a total preorder. */
  ghost predicate Transitive<T(!new)>(cmp: (T, T) -> int) {
    forall x, y, z :: cmp(x, y) <= 0 && cmp(y, z) <= 0 ==> cmp(x, z) <= 0
  }

  /** No neighbour pair is out of order. */
  ghost predicate AdjacentOrdered<T>(s: seq<T>, cmp: (T, T) -> int) {
    forall k :: 0 <= k < |s| - 1 ==> cmp(s[k], s[k + 1]) <= 0
  }

  /** No pair is out of order. */
  ghost predicate Sorted<T>(s: seq<T>, cmp: (T, T) -> int) {
    forall i, j :: 0 <= i < j < |s| ==> cmp(s[i], s[j]) <= 0
  }

  /** Exchanges two neighbours. */
  method SwapDown<T>(a: array<T>, j: int)
    requires 0 < j < a.Length
    modifies a
    ensures a[..] == old(a[..])[j - 1 := old(a[j])][j := old(a[j - 1])]
    ensures multiset(a[..]) == old(multiset(a[..]))
  {
    a[j - 1], a[j] := a[j], a[j - 1];
  }

  /** Insertion sort in place: the result is a permutation of the input with
      no neighbour pair out of order. */
  method InsertionSort<T(!new)>(a: array<T>, cmp: (T, T) -> int)
    requires Antisymmetric(cmp)
    modifies a
    ensures multiset(a[..]) == old(multiset(a[..]))
    ensures AdjacentOrdered(a[..], cmp)
  {
    var i := 1;
    while i < a.Length
      invariant a.Length == 0 || 1 <= i <= a.Length
      invariant multiset(a[..]) == old(multiset(a[..]))
      invariant forall k :: 0 <= k < i - 1 && k + 1 < a.Length ==> cmp(a[k], a[k + 1]) <= 0
    {
      InsertAt(a, i, cmp);
      i := i + 1;
    }
  }

  /** While `s[j]` moves down through `s[..i + 1]`: the parts below and above
      it are ordered, and its neighbours would be in order without it. */
  ghost predicate Inserting<T>(s: seq<T>, i: nat, j: nat, cmp: (T, T) -> int) {
    && j <= i < |s|
    && (forall k :: 0 <= k < j - 1 ==> cmp(s[k], s[k + 1]) <= 0)
    && (forall k :: j <= k < i ==> cmp(s[k], s[k + 1]) <= 0)
    && (0 < j < i ==> cmp(s[j - 1], s[j + 1]) <= 0)
  }

  /** Swapping an out-of-order `s[j]` with its lower neighbour moves it down
      one place. */
  lemma InsertingStep<T(!new)>(s: seq<T>, i: nat, j: nat, cmp: (T, T) -> int)
    requires Antisymmetric(cmp)
    requires Inserting(s, i, j, cmp) && 0 < j && cmp(s[j - 1], s[j]) > 0
    ensures Inserting(s[j - 1 := s[j]][j := s[j - 1]], i, j - 1, cmp)
  {
    var t := s[j - 1 := s[j]][j := s[j - 1]];
    assert cmp(t[j - 1], t[j]) <= 0;
    forall k | j - 1 <= k < i
      ensures cmp(t[k], t[k + 1]) <= 0
    {
      if k > j {
        assert t[k] == s[k] && t[k + 1] == s[k + 1];
      }
    }
  }

  /** One pass of the outer loop: moves `a[i]` down into the ordered prefix
      `a[..i]`, so that `a[..i + 1]` is ordered. */
  method InsertAt<T(!new)>(a: array<T>, i: nat, cmp: (T, T) -> int)
    requires Antisymmetric(cmp)
    requires 1 <= i < a.Length
    requires forall k :: 0 <= k < i - 1 ==> cmp(a[k], a[k + 1]) <= 0
    modifies a
    ensures multiset(a[..]) == old(multiset(a[..]))
    ensures forall k :: 0 <= k < i ==> cmp(a[k], a[k + 1]) <= 0
  {
    var j := i;
    while j > 0 && cmp(a[j - 1], a[j]) > 0
      invariant multiset(a[..]) == old(multiset(a[..]))
      invariant Inserting(a[..], i, j, cmp)
    {
      InsertingStep(a[..], i, j, cmp);
      SwapDown(a, j);
      j := j - 1;
    }
    forall k | 0 <= k < i
      ensures cmp(a[k], a[k + 1]) <= 0
    {
      assert a[k] == a[..][k] && a[k + 1] == a[..][k + 1];
    }
  }

  /** With a total preorder, neighbour order is order. */
  lemma {:induction false} AdjacentOrderedIsSorted<T(!new)>(s: seq<T>, cmp: (T, T) -> int)
    requires Transitive(cmp)
    requires AdjacentOrdered(s, cmp)
    ensures Sorted(s, cmp)
  {
    if |s| > 1 {
      var t := s[..|s| - 1];
      assert AdjacentOrdered(t, cmp);
      AdjacentOrderedIsSorted(t, cmp);
      forall i | 0 <= i < |s| - 1
        ensures cmp(s[i], s[|s| - 1]) <= 0
      {
        assert cmp(t[i], t[|t| - 1]) <= 0 || i == |t| - 1;
      }
    }
  }

  /** Sorting a sequence of values through an array. */
  method SortSeq<T(!new)>(s: seq<T>, cmp: (T, T) -> int) returns (r: seq<T>)
    requires Antisymmetric(cmp)
    ensures multiset(r) == multiset(s)
    ensures |r| == |s|
    ensures AdjacentOrdered(r, cmp)
  {
    if |s| == 0 {
      return s;
    }
    var a := new T[|s|](i requires 0 <= i < |s| => s[i]);
    assert a[..] == s;
    InsertionSort(a, cmp);
    r := a[..];
    assert |multiset(r)| == |multiset(s)|;
  }

  /** `Array.prototype.filter`: the elements that pass, in order. */
  function Filter<T>(s: seq<T>, keep: T -> bool): (r: seq<T>)
    ensures |r| <= |s|
    ensures forall x :: x in r ==> x in s && keep(x)
  {
    if s == [] then []
    else Filter(s[..|s| - 1], keep) + (if keep(s[|s| - 1]) then [s[|s| - 1]] else [])
  }

  /** `find`/`findIndex` from a position: the first index whose element passes. */
  function FirstWhere<T>(s: seq<T>, pass: T -> bool, from: nat): (r: Option<nat>)
    requires from <= |s|
    ensures r.Some? ==> from <= r.value < |s| && pass(s[r.value])
    ensures r.Some? ==> forall j :: from <= j < r.value ==> !pass(s[j])
    ensures r.None? ==> forall j :: from <= j < |s| ==> !pass(s[j])
    decreases |s| - from
  {
    if from == |s| then None
    else if pass(s[from]) then Some(from)
    else FirstWhere(s, pass, from + 1)
  }

  /** Filtering keeps every passing element, as often as it occurs. */
  lemma {:induction false} FilterCount<T>(s: seq<T>, keep: T -> bool, x: T)
    ensures multiset(Filter(s, keep))[x] == if keep(x) then multiset(s)[x] else 0
  {
    if s != [] {
      FilterCount(s[..|s| - 1], keep, x);
      assert s == s[..|s| - 1] + [s[|s| - 1]];
    }
  }

  /** Filtering a sorted sequence leaves it sorted. */
  lemma {:induction false} FilterSorted<T>(s: seq<T>, keep: T -> bool, cmp: (T, T) -> int)
    requires Sorted(s, cmp)
    ensures Sorted(Filter(s, keep), cmp)
  {
    if s != [] {
      var init := s[..|s| - 1];
      var last := s[|s| - 1];
      assert Sorted(init, cmp);
      FilterSorted(init, keep, cmp);
      if keep(last) {
        var r := Filter(s, keep);
        var f := Filter(init, keep);
        forall i | 0 <= i < |f|
          ensures cmp(f[i], last) <= 0
        {
          assert f[i] in init;
          var k :| 0 <= k < |init| && init[k] == f[i];
          assert s[k] == f[i];
        }
        assert r == f + [last];
      }
    }
  }


  /** An index at which an element of a sequence occurs. */
  lemma IndexIn<T>(s: seq<T>, x: T) returns (k: nat)
    requires x in s
    ensures k < |s| && s[k] == x
  {
    k :| 0 <= k < |s| && s[k] == x;
  }
}
