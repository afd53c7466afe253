/** Python's `sorted`: a stable insertion sort over an explicit strict order. */
module Sorting {

  /** Puts `x` behind every element it does not come strictly before. */
  function Insert<T>(xs: seq<T>, x: T, before: (T, T) -> bool): seq<T> {
    if xs == [] then [x]
    else if before(x, xs[0]) then [x] + xs
    else [xs[0]] + Insert(xs[1..], x, before)
  }

  function Sort<T>(xs: seq<T>, before: (T, T) -> bool): seq<T> {
    if xs == [] then []
    else Insert(Sort(xs[..|xs| - 1], before), xs[|xs| - 1], before)
  }

  ghost predicate Sorted<T>(xs: seq<T>, before: (T, T) -> bool) {
    forall i, j :: 0 <= i < j < |xs| ==> !before(xs[j], xs[i])
  }

  /** What an order has to satisfy for sorting to mean anything. */
  ghost predicate StrictWeakOrder<T(!new)>(before: (T, T) -> bool) {
    && (forall x, y :: before(x, y) ==> !before(y, x))
    && (forall x, y, z :: !before(x, y) && !before(y, z) ==> !before(x, z))
  }

  lemma {:induction false} InsertPermutes<T>(xs: seq<T>, x: T, before: (T, T) -> bool)
    ensures multiset(Insert(xs, x, before)) == multiset(xs) + multiset{x}
  {
    if xs != [] && !before(x, xs[0]) {
      InsertPermutes(xs[1..], x, before);
      assert xs == [xs[0]] + xs[1..];
    }
  }

  lemma {:induction false} SortPermutes<T>(xs: seq<T>, before: (T, T) -> bool)
    ensures multiset(Sort(xs, before)) == multiset(xs)
  {
    if xs != [] {
      var n := |xs| - 1;
      SortPermutes(xs[..n], before);
      InsertPermutes(Sort(xs[..n], before), xs[n], before);
      assert xs == xs[..n] + [xs[n]];
    }
  }

  lemma {:induction false} InsertSorted<T(!new)>(xs: seq<T>, x: T, before: (T, T) -> bool)
    requires StrictWeakOrder(before) && Sorted(xs, before)
    ensures Sorted(Insert(xs, x, before), before)
  {
    var r := Insert(xs, x, before);
    if xs != [] && !before(x, xs[0]) {
      InsertSorted(xs[1..], x, before);
      InsertPermutes(xs[1..], x, before);
      var rest := Insert(xs[1..], x, before);
      forall j | 0 <= j < |rest| ensures !before(rest[j], xs[0]) {
        assert rest[j] in multiset(rest);
        assert rest[j] == x || rest[j] in xs[1..];
      }
      assert r == [xs[0]] + rest;
    } else if xs != [] {
      assert r == [x] + xs;
    }
  }

  lemma {:induction false} SortSorted<T(!new)>(xs: seq<T>, before: (T, T) -> bool)
    requires StrictWeakOrder(before)
    ensures Sorted(Sort(xs, before), before)
  {
    if xs != [] {
      SortSorted(xs[..|xs| - 1], before);
      InsertSorted(Sort(xs[..|xs| - 1], before), xs[|xs| - 1], before);
    }
  }

  /** Sorting a list neither adds, drops nor duplicates an element. */
  lemma SortKeepsElements<T>(xs: seq<T>, before: (T, T) -> bool)
    ensures |Sort(xs, before)| == |xs|
    ensures forall x :: x in Sort(xs, before) <==> x in xs
  {
    SortPermutes(xs, before);
    assert |multiset(Sort(xs, before))| == |multiset(xs)|;
    forall x ensures x in Sort(xs, before) <==> x in xs {
      assert x in Sort(xs, before) <==> x in multiset(Sort(xs, before));
    }
  }

  lemma {:induction false} InsertAtEnd<T>(xs: seq<T>, x: T, before: (T, T) -> bool)
    requires forall y :: y in xs ==> !before(x, y)
    ensures Insert(xs, x, before) == xs + [x]
  {
    if xs != [] {
      assert xs[0] in xs;
      InsertAtEnd(xs[1..], x, before);
      assert xs == [xs[0]] + xs[1..];
    }
  }

  /** Sorting leaves exactly the sorted lists alone. */
  lemma {:induction false} SortFixesSorted<T(!new)>(xs: seq<T>, before: (T, T) -> bool)
    requires StrictWeakOrder(before)
    ensures Sort(xs, before) == xs <==> Sorted(xs, before)
  {
    if Sorted(xs, before) && xs != [] {
      var n := |xs| - 1;
      assert forall i :: 0 <= i < n ==> xs[..n][i] == xs[i];
      SortFixesSorted(xs[..n], before);
      InsertAtEnd(xs[..n], xs[n], before);
      assert xs == xs[..n] + [xs[n]];
    }
    SortSorted(xs, before);
  }
}
