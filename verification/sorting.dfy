/** A stable sort by an integer key, standing in for `Array.prototype.sort`
    with a numeric comparator and for the store's ORDER BY. */
module Sorting {

  /** Keys never decrease along the sequence. */
  ghost predicate SortedBy<T>(xs: seq<T>, key: T -> int) {
    forall i, j :: 0 <= i < j < |xs| ==> key(xs[i]) <= key(xs[j])
  }

  /** Put x in front of the first element whose key is not smaller, so x stays
      ahead of the equal keys that followed it in the input. */
  function Insert<T>(x: T, xs: seq<T>, key: T -> int): (r: seq<T>)
    ensures |r| == |xs| + 1
    ensures multiset(r) == multiset(xs) + multiset{x}
    ensures r[0] == x || (xs != [] && r[0] == xs[0])
  {
    if xs == [] || key(x) <= key(xs[0]) then [x] + xs
    else
      assert xs == [xs[0]] + xs[1..];
      [xs[0]] + Insert(x, xs[1..], key)
  }

  /** Inserting into a sorted sequence keeps it sorted. */
  lemma {:induction false} InsertSorted<T>(x: T, xs: seq<T>, key: T -> int)
    requires SortedBy(xs, key)
    ensures SortedBy(Insert(x, xs, key), key)
  {
    if xs == [] || key(x) <= key(xs[0]) {
      SortedCons(x, xs, key);
    } else {
      SortedTail(xs, key);
      InsertSorted(x, xs[1..], key);
      SortedCons(xs[0], Insert(x, xs[1..], key), key);
    }
  }

  lemma SortedCons<T>(h: T, t: seq<T>, key: T -> int)
    requires SortedBy(t, key) && (t == [] || key(h) <= key(t[0]))
    ensures SortedBy([h] + t, key)
  {
    var u := [h] + t;
    forall i, j | 0 <= i < j < |u| ensures key(u[i]) <= key(u[j]) {
      if i == 0 && j > 1 {
        assert key(t[0]) <= key(t[j - 1]);
      }
    }
  }

  lemma SortedTail<T>(xs: seq<T>, key: T -> int)
    requires SortedBy(xs, key) && xs != []
    ensures SortedBy(xs[1..], key)
  {
    forall i, j | 0 <= i < j < |xs| - 1 ensures key(xs[1..][i]) <= key(xs[1..][j]) {
      assert xs[1..][i] == xs[i + 1] && xs[1..][j] == xs[j + 1];
    }
  }

  /** Insertion sort: a stable sort by key. */
  function SortBy<T>(xs: seq<T>, key: T -> int): (r: seq<T>)
    ensures multiset(r) == multiset(xs)
    ensures |r| == |xs|
    ensures SortedBy(r, key)
  {
    if xs == [] then []
    else
      assert xs == [xs[0]] + xs[1..];
      InsertSorted(xs[0], SortBy(xs[1..], key), key);
      Insert(xs[0], SortBy(xs[1..], key), key)
  }

  /** The position of the first element with the least key. */
  function FirstMin<T>(xs: seq<T>, key: T -> int): (r: nat)
    requires xs != []
    ensures r < |xs|
    ensures forall i :: 0 <= i < |xs| ==> key(xs[r]) <= key(xs[i])
    ensures forall i :: 0 <= i < r ==> key(xs[r]) < key(xs[i])
  {
    if |xs| == 1 then 0
    else
      var m := FirstMin(xs[1..], key);
      if key(xs[0]) <= key(xs[1..][m]) then 0 else 1 + m
  }

  /** The head of the stable sort is the first element with the least key. */
  lemma {:induction false} SortHeadIsFirstMin<T>(xs: seq<T>, key: T -> int)
    requires xs != []
    ensures SortBy(xs, key)[0] == xs[FirstMin(xs, key)]
  {
    if |xs| > 1 {
      var tail := xs[1..];
      SortHeadIsFirstMin(tail, key);
      var s := SortBy(tail, key);
      var m := FirstMin(tail, key);
      assert s[0] == tail[m];
    }
  }
}
