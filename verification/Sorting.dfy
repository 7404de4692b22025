/** Stable sorting by a position key, as Python's `sorted` and `list.sort` do. */
module Sorting {
  import opened Refs

  ghost predicate SortedBy<T>(xs: seq<T>, key: T -> Pos) {
    forall i, j :: 0 <= i < j < |xs| ==> PosLe(key(xs[i]), key(xs[j]))
  }

  /** Insert before the first element whose key is at least as large. */
  function Insert<T>(x: T, xs: seq<T>, key: T -> Pos): seq<T> {
    if xs == [] || PosLe(key(x), key(xs[0])) then [x] + xs
    else [xs[0]] + Insert(x, xs[1..], key)
  }

  function StableSort<T>(xs: seq<T>, key: T -> Pos): seq<T> {
    if xs == [] then [] else Insert(xs[0], StableSort(xs[1..], key), key)
  }

  lemma {:induction false} InsertSorted<T>(x: T, xs: seq<T>, key: T -> Pos)
    requires SortedBy(xs, key)
    ensures SortedBy(Insert(x, xs, key), key)
    ensures multiset(Insert(x, xs, key)) == multiset{x} + multiset(xs)
  {
    if xs == [] {
    } else if PosLe(key(x), key(xs[0])) {
      forall j | 0 <= j < |xs| ensures PosLe(key(x), key(xs[j])) {
        assert j > 0 ==> PosLe(key(xs[0]), key(xs[j]));
      }
    } else {
      InsertSorted(x, xs[1..], key);
      var t := Insert(x, xs[1..], key);
      assert xs == [xs[0]] + xs[1..];
      forall j | 0 <= j < |t| ensures PosLe(key(xs[0]), key(t[j])) {
        assert t[j] in multiset(t);
        assert t[j] == x || t[j] in multiset(xs[1..]);
      }
    }
  }

  /** Sorting yields an ordered permutation. */
  lemma {:induction false} SortSorts<T>(xs: seq<T>, key: T -> Pos)
    ensures SortedBy(StableSort(xs, key), key)
    ensures multiset(StableSort(xs, key)) == multiset(xs)
  {
    if xs == [] {
    } else {
      SortSorts(xs[1..], key);
      InsertSorted(xs[0], StableSort(xs[1..], key), key);
      assert xs == [xs[0]] + xs[1..];
    }
  }

  lemma SortMembers<T>(xs: seq<T>, key: T -> Pos)
    ensures |StableSort(xs, key)| == |xs|
    ensures forall x :: x in StableSort(xs, key) <==> x in xs
  {
    SortSorts(xs, key);
    var r := StableSort(xs, key);
    assert |multiset(r)| == |multiset(xs)|;
    forall x ensures x in r <==> x in xs {
      assert x in r <==> x in multiset(r);
      assert x in xs <==> x in multiset(xs);
    }
  }

  /** Sorting an already sorted list leaves every element where it was. */
  lemma {:induction false} SortOfSorted<T>(xs: seq<T>, key: T -> Pos)
    requires SortedBy(xs, key)
    ensures StableSort(xs, key) == xs
  {
    if xs == [] {
    } else {
      SortOfSorted(xs[1..], key);
      assert xs == [xs[0]] + xs[1..];
      if |xs| > 1 {
        assert PosLe(key(xs[0]), key(xs[1]));
      }
    }
  }

  /** The elements with one key keep their relative order. */
  function WithKey<T>(xs: seq<T>, key: T -> Pos, k: Pos): seq<T> {
    if xs == [] then [] else (if key(xs[0]) == k then [xs[0]] else []) + WithKey(xs[1..], key, k)
  }

  lemma {:induction false} InsertStable<T>(x: T, xs: seq<T>, key: T -> Pos, k: Pos)
    requires SortedBy(xs, key)
    ensures WithKey(Insert(x, xs, key), key, k) == WithKey([x] + xs, key, k)
  {
    if xs == [] || PosLe(key(x), key(xs[0])) {
    } else {
      InsertStable(x, xs[1..], key, k);
      var t := Insert(x, xs[1..], key);
      assert ([xs[0]] + t)[1..] == t;
      assert ([x] + xs)[1..] == xs;
      assert ([x] + xs[1..])[1..] == xs[1..];
    }
  }

  /** Stability: among equal keys the input order survives. */
  lemma {:induction false} SortIsStable<T>(xs: seq<T>, key: T -> Pos, k: Pos)
    ensures WithKey(StableSort(xs, key), key, k) == WithKey(xs, key, k)
  {
    if xs == [] {
    } else {
      SortIsStable(xs[1..], key, k);
      SortSorts(xs[1..], key);
      var t := StableSort(xs[1..], key);
      InsertStable(xs[0], t, key, k);
      assert ([xs[0]] + t)[1..] == t;
    }
  }
}
