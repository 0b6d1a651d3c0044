/** Ascending order by a key, as the forecaster's and collector's sort calls leave a list. */
module Sorting {
  predicate Ascending<T>(xs: seq<T>, key: T -> real) {
    forall i, j :: 0 <= i < j < |xs| ==> key(xs[i]) <= key(xs[j])
  }

  function Insert<T>(xs: seq<T>, x: T, key: T -> real): (r: seq<T>)
    ensures |r| == |xs| + 1
  {
    var n := |xs| - 1;
    if xs == [] || key(xs[n]) <= key(x) then xs + [x] else Insert(xs[..n], x, key) + [xs[n]]
  }

  lemma {:induction false} InsertElements<T>(xs: seq<T>, x: T, key: T -> real)
    ensures multiset(Insert(xs, x, key)) == multiset(xs) + multiset{x}
  {
    if xs != [] && !(key(xs[|xs| - 1]) <= key(x)) {
      InsertElements(xs[..|xs| - 1], x, key);
      assert xs == xs[..|xs| - 1] + [xs[|xs| - 1]];
    }
  }

  lemma {:induction false} InsertAscending<T>(xs: seq<T>, x: T, key: T -> real)
    requires Ascending(xs, key)
    ensures Ascending(Insert(xs, x, key), key)
    ensures Insert(xs, x, key)[|xs|] == if xs == [] || key(xs[|xs| - 1]) <= key(x) then x else xs[|xs| - 1]
  {
    if xs != [] && !(key(xs[|xs| - 1]) <= key(x)) {
      var n := |xs| - 1;
      InsertAscending(xs[..n], x, key);
      var rest := Insert(xs[..n], x, key);
      assert key(rest[n]) <= key(xs[n]);
      assert forall i :: 0 <= i <= n ==> key(rest[i]) <= key(rest[n]);
    }
  }

  function Sort<T>(xs: seq<T>, key: T -> real): (r: seq<T>)
    ensures |r| == |xs|
  {
    if xs == [] then [] else Insert(Sort(xs[..|xs| - 1], key), xs[|xs| - 1], key)
  }

  lemma {:induction false} SortAscends<T>(xs: seq<T>, key: T -> real)
    ensures Ascending(Sort(xs, key), key)
  {
    hide Insert;
    if xs != [] {
      var n := |xs| - 1;
      SortAscends(xs[..n], key);
      InsertAscending(Sort(xs[..n], key), xs[n], key);
    }
  }

  lemma {:induction false} SortKeeps<T>(xs: seq<T>, key: T -> real)
    ensures multiset(Sort(xs, key)) == multiset(xs)
  {
    hide Insert;
    if xs != [] {
      var n := |xs| - 1;
      SortKeeps(xs[..n], key);
      InsertElements(Sort(xs[..n], key), xs[n], key);
      assert xs == xs[..n] + [xs[n]];
      assert multiset(xs) == multiset(xs[..n]) + multiset{xs[n]};
    }
  }

  /** Whatever holds of every element before sorting holds after. */
  lemma SortedElement<T>(xs: seq<T>, key: T -> real, i: nat)
    requires i < |xs|
    ensures Sort(xs, key)[i] in xs
  {
    hide Sort;
    SortKeeps(xs, key);
    assert Sort(xs, key)[i] in multiset(Sort(xs, key));
  }

  function DurationKey(d: int): real { d as real }

  function Identity(x: real): real { x }

  /** The middle element, or the mean of the two middle ones; zero for an empty list. */
  function Median(xs: seq<real>): real {
    var sorted := Sort(xs, Identity);
    var mid := |sorted| / 2;
    if xs == [] then 0.0
    else if |sorted| % 2 == 1 then sorted[mid]
    else (sorted[mid - 1] + sorted[mid]) / 2.0
  }

  /** A median lies between any bounds on the elements. */
  lemma MedianBetween(xs: seq<real>, lo: real, hi: real)
    requires xs != [] && forall x :: x in xs ==> lo <= x <= hi
    ensures lo <= Median(xs) <= hi
  {
    hide Sort;
    var mid := |xs| / 2;
    SortedElement(xs, Identity, mid);
    if |xs| % 2 == 0 {
      SortedElement(xs, Identity, mid - 1);
    }
  }

  lemma MedianPositive(xs: seq<real>)
    requires xs != [] && forall x :: x in xs ==> x > 0.0
    ensures Median(xs) > 0.0
  {
    hide Sort;
    SortedElement(xs, Identity, |xs| / 2);
    if |xs| % 2 == 0 {
      SortedElement(xs, Identity, |xs| / 2 - 1);
    }
  }

  // ---- what makes it a median ----

  /** How many elements have a key strictly below `m`. */
  function Below<T>(xs: seq<T>, key: T -> real, m: real): (n: nat)
    ensures n <= |xs|
  {
    if xs == [] then 0
    else Below(xs[..|xs| - 1], key, m) + if key(xs[|xs| - 1]) < m then 1 else 0
  }

  /** How many elements have a key strictly above `m`. */
  function Above<T>(xs: seq<T>, key: T -> real, m: real): (n: nat)
    ensures n <= |xs|
  {
    if xs == [] then 0
    else Above(xs[..|xs| - 1], key, m) + if key(xs[|xs| - 1]) > m then 1 else 0
  }

  lemma {:induction false} InsertCounts<T>(xs: seq<T>, x: T, key: T -> real, m: real)
    ensures Below(Insert(xs, x, key), key, m) == Below(xs, key, m) + if key(x) < m then 1 else 0
    ensures Above(Insert(xs, x, key), key, m) == Above(xs, key, m) + if key(x) > m then 1 else 0
  {
    var n := |xs| - 1;
    if xs == [] || key(xs[n]) <= key(x) {
      assert (xs + [x])[..|xs|] == xs;
    } else {
      InsertCounts(xs[..n], x, key, m);
      var before := Insert(xs[..n], x, key);
      assert (before + [xs[n]])[..|before|] == before;
    }
  }

  lemma {:induction false} SortCounts<T>(xs: seq<T>, key: T -> real, m: real)
    ensures Below(Sort(xs, key), key, m) == Below(xs, key, m)
    ensures Above(Sort(xs, key), key, m) == Above(xs, key, m)
  {
    hide Insert;
    if xs != [] {
      var n := |xs| - 1;
      SortCounts(xs[..n], key, m);
      InsertCounts(Sort(xs[..n], key), xs[n], key, m);
    }
  }

  lemma {:induction false} CountsBounded<T>(xs: seq<T>, key: T -> real, m: real, k: nat)
    requires k <= |xs|
    ensures (forall i :: k <= i < |xs| ==> key(xs[i]) >= m) ==> Below(xs, key, m) <= k
    ensures (forall i :: 0 <= i < k ==> key(xs[i]) <= m) ==> Above(xs, key, m) <= |xs| - k
  {
    if xs != [] {
      var n := |xs| - 1;
      CountsBounded(xs[..n], key, m, if k < |xs| then k else n);
      assert forall i :: 0 <= i < n ==> xs[..n][i] == xs[i];
    }
  }

  /** The element at place `k` of the sorted list has at most `k` elements below it and at most the rest but one above. */
  lemma SortedPlace<T>(xs: seq<T>, key: T -> real, k: nat)
    requires k < |xs|
    ensures var m := key(Sort(xs, key)[k]);
            Below(xs, key, m) <= k && Above(xs, key, m) <= |xs| - 1 - k
  {
    hide Sort, Below, Above;
    var sorted := Sort(xs, key);
    SortAscends(xs, key);
    SortCounts(xs, key, key(sorted[k]));
    CountsBounded(sorted, key, key(sorted[k]), k);
    CountsBounded(sorted, key, key(sorted[k]), k + 1);
  }

  /** `a` and `b` are neighbours in the middle: half of the list is up to `a`, half is from `b` on, nothing is between. */
  ghost predicate AreMiddle<T>(xs: seq<T>, key: T -> real, a: T, b: T) {
    && a in xs && b in xs && key(a) <= key(b)
    && 2 * (|xs| - Above(xs, key, key(a))) >= |xs| && 2 * (|xs| - Below(xs, key, key(b))) >= |xs|
    && forall x :: x in xs ==> key(x) <= key(a) || key(x) >= key(b)
  }

  lemma MiddleOfSorted<T>(xs: seq<T>, key: T -> real, mid: nat)
    requires 1 <= mid && |xs| == 2 * mid
    ensures AreMiddle(xs, key, Sort(xs, key)[mid - 1], Sort(xs, key)[mid])
  {
    hide Sort, Below, Above;
    var sorted := Sort(xs, key);
    SortAscends(xs, key);
    SortKeeps(xs, key);
    SortedElement(xs, key, mid);
    SortedElement(xs, key, mid - 1);
    SortedPlace(xs, key, mid);
    SortedPlace(xs, key, mid - 1);
    forall x | x in xs
      ensures key(x) <= key(sorted[mid - 1]) || key(x) >= key(sorted[mid])
    {
      assert x in multiset(sorted);
      var i :| 0 <= i < |sorted| && sorted[i] == x;
      assert i < mid - 1 ==> key(sorted[i]) <= key(sorted[mid - 1]);
      assert mid < i ==> key(sorted[mid]) <= key(sorted[i]);
    }
  }

  /** A value between the two middle elements splits the list in half. */
  lemma MiddleSplits<T>(xs: seq<T>, key: T -> real, mid: nat, m: real)
    requires 1 <= mid && |xs| == 2 * mid && key(Sort(xs, key)[mid - 1]) <= m <= key(Sort(xs, key)[mid])
    ensures 2 * Below(xs, key, m) <= |xs| && 2 * Above(xs, key, m) <= |xs|
  {
    hide Sort, Below, Above;
    var sorted := Sort(xs, key);
    SortAscends(xs, key);
    SortCounts(xs, key, m);
    CountsBounded(sorted, key, m, mid);
    assert forall i :: mid <= i < |sorted| ==> key(sorted[mid]) <= key(sorted[i]);
    assert forall i :: 0 <= i < mid ==> key(sorted[i]) <= key(sorted[mid - 1]);
  }

  /**
   * At most half of the values lie strictly below the median and at most half strictly above; it is
   * one of the values, or for an even number of them the mean of the two in the middle.
   */
  lemma MedianSplits(xs: seq<real>)
    requires xs != []
    ensures 2 * Below(xs, Identity, Median(xs)) <= |xs| && 2 * Above(xs, Identity, Median(xs)) <= |xs|
    ensures |xs| % 2 == 1 ==> Median(xs) in xs
    ensures |xs| % 2 == 0 ==> exists a, b :: AreMiddle(xs, Identity, a, b) && 2.0 * Median(xs) == a + b
  {
    hide Sort, Below, Above, AreMiddle;
    var mid := |xs| / 2;
    SortedElement(xs, Identity, mid);
    SortedPlace(xs, Identity, mid);
    if |xs| % 2 == 0 {
      SortAscends(xs, Identity);
      assert Identity(Sort(xs, Identity)[mid - 1]) <= Identity(Sort(xs, Identity)[mid]);
      MiddleOfSorted(xs, Identity, mid);
      MiddleSplits(xs, Identity, mid, Median(xs));
    }
  }
}
