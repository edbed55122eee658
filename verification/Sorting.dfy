// Python's list.sort with a key: a stable sort.
module Sorting {

  /** `less` compares by some key: no cycles, and keys that are not less can be chained. */
  ghost predicate ByKey<T(!new)>(less: (T, T) -> bool) {
    && (forall a, b :: less(a, b) ==> !less(b, a))
    && (forall a, b, c :: !less(b, a) && !less(c, b) ==> !less(c, a))
  }

  predicate SameKey<T>(less: (T, T) -> bool, a: T, b: T) { !less(a, b) && !less(b, a) }

  ghost predicate Sorted<T>(less: (T, T) -> bool, s: seq<T>) {
    forall i, j :: 0 <= i < j < |s| ==> !less(s[j], s[i])
  }

  /** Puts `x` behind every element whose key is not greater. */
  function Insert<T>(less: (T, T) -> bool, s: seq<T>, x: T): seq<T> {
    if s == [] || !less(x, s[|s| - 1]) then s + [x]
    else Insert(less, s[..|s| - 1], x) + [s[|s| - 1]]
  }

  function StableSort<T>(less: (T, T) -> bool, s: seq<T>): seq<T> {
    if s == [] then [] else Insert(less, StableSort(less, s[..|s| - 1]), s[|s| - 1])
  }

  /** The elements with the key of `k`, in order. */
  function WithKey<T>(less: (T, T) -> bool, s: seq<T>, k: T): seq<T> {
    if s == [] then []
    else WithKey(less, s[..|s| - 1], k) + (if SameKey(less, s[|s| - 1], k) then [s[|s| - 1]] else [])
  }

  lemma {:induction false} InsertPermutes<T>(less: (T, T) -> bool, s: seq<T>, x: T)
    ensures multiset(Insert(less, s, x)) == multiset(s) + multiset{x}
  {
    if s != [] && less(x, s[|s| - 1]) {
      InsertPermutes(less, s[..|s| - 1], x);
      assert s == s[..|s| - 1] + [s[|s| - 1]];
    }
  }

  lemma InsertElements<T>(less: (T, T) -> bool, s: seq<T>, x: T)
    ensures forall y :: y in Insert(less, s, x) <==> y in s || y == x
  {
    InsertPermutes(less, s, x);
    forall y ensures y in Insert(less, s, x) <==> y in s || y == x {
      assert y in Insert(less, s, x) <==> y in multiset(Insert(less, s, x));
      assert y in s <==> y in multiset(s);
    }
  }

  lemma SortedSnoc<T>(less: (T, T) -> bool, s: seq<T>, last: T)
    requires Sorted(less, s) && forall y :: y in s ==> !less(last, y)
    ensures Sorted(less, s + [last])
  {
  }

  lemma {:induction false} InsertSorted<T(!new)>(less: (T, T) -> bool, s: seq<T>, x: T)
    requires ByKey(less) && Sorted(less, s)
    ensures Sorted(less, Insert(less, s, x))
  {
    if s == [] {
    } else if less(x, s[|s| - 1]) {
      var init, last := s[..|s| - 1], s[|s| - 1];
      InsertSorted(less, init, x);
      InsertElements(less, init, x);
      SortedSnoc(less, Insert(less, init, x), last);
    } else {
      forall y | y in s ensures !less(x, y) {
        var i :| 0 <= i < |s| && s[i] == y;
        assert i == |s| - 1 || !less(s[|s| - 1], s[i]);
      }
      SortedSnoc(less, s, x);
    }
  }

  lemma {:induction false} InsertStable<T(!new)>(less: (T, T) -> bool, s: seq<T>, x: T, k: T)
    requires ByKey(less) && Sorted(less, s)
    ensures WithKey(less, Insert(less, s, x), k) ==
            WithKey(less, s, k) + (if SameKey(less, x, k) then [x] else [])
  {
    if s != [] && less(x, s[|s| - 1]) {
      var init, last := s[..|s| - 1], s[|s| - 1];
      InsertStable(less, init, x, k);
      var r := Insert(less, s, x);
      assert r[..|r| - 1] == Insert(less, init, x);
    } else {
      assert (s + [x])[..|s|] == s;
    }
  }

  /** Sorting permutes the elements, orders them by key, and keeps equal keys in order. */
  lemma {:induction false} StableSortProperties<T(!new)>(less: (T, T) -> bool, s: seq<T>, k: T)
    requires ByKey(less)
    ensures Sorted(less, StableSort(less, s))
    ensures multiset(StableSort(less, s)) == multiset(s)
    ensures WithKey(less, StableSort(less, s), k) == WithKey(less, s, k)
  {
    if s != [] {
      var init, last := s[..|s| - 1], s[|s| - 1];
      StableSortProperties(less, init, k);
      InsertSorted(less, StableSort(less, init), last);
      InsertPermutes(less, StableSort(less, init), last);
      InsertStable(less, StableSort(less, init), last, k);
      assert s == init + [last];
    }
  }

  lemma {:induction false} SortKeepsElements<T(!new)>(less: (T, T) -> bool, s: seq<T>)
    requires ByKey(less)
    ensures Sorted(less, StableSort(less, s)) && |StableSort(less, s)| == |s|
    ensures forall x :: x in StableSort(less, s) <==> x in s
  {
    if s != [] {
      SortKeepsElements(less, s[..|s| - 1]);
      InsertSorted(less, StableSort(less, s[..|s| - 1]), s[|s| - 1]);
      InsertElements(less, StableSort(less, s[..|s| - 1]), s[|s| - 1]);
      InsertPermutes(less, StableSort(less, s[..|s| - 1]), s[|s| - 1]);
      assert |StableSort(less, s)| == |multiset(StableSort(less, s))|;
      assert s == s[..|s| - 1] + [s[|s| - 1]];
    }
  }

  predicate DistinctBy<T, K(==)>(key: T -> K, s: seq<T>) {
    forall i, j :: 0 <= i < j < |s| ==> key(s[i]) != key(s[j])
  }

  lemma DistinctSnoc<T(!new), K(!new)>(key: T -> K, s: seq<T>, x: T)
    requires DistinctBy(key, s) && forall y :: y in s ==> key(y) != key(x)
    ensures DistinctBy(key, s + [x])
  {
    assert forall i :: 0 <= i < |s| ==> s[i] in s;
  }

  lemma LastIsDistinct<T(!new), K(!new)>(key: T -> K, s: seq<T>)
    requires s != [] && DistinctBy(key, s)
    ensures DistinctBy(key, s[..|s| - 1])
    ensures forall y :: y in s[..|s| - 1] ==> key(y) != key(s[|s| - 1])
  {
  }

  lemma {:induction false} InsertKeepsDistinct<T(!new), K(!new)>(less: (T, T) -> bool, key: T -> K, s: seq<T>, x: T)
    requires DistinctBy(key, s) && forall y :: y in s ==> key(y) != key(x)
    ensures DistinctBy(key, Insert(less, s, x))
  {
    if s != [] && less(x, s[|s| - 1]) {
      var init, last := s[..|s| - 1], s[|s| - 1];
      InsertKeepsDistinct(less, key, init, x);
      InsertElements(less, init, x);
      LastIsDistinct(key, s);
      assert last in s && key(last) != key(x);
      forall y | y in Insert(less, init, x) ensures key(y) != key(last) {
        assert y in init || y == x;
      }
      DistinctSnoc(key, Insert(less, init, x), last);
    } else {
      DistinctSnoc(key, s, x);
    }
  }

  /** Sorting by one key keeps any other key distinct. */
  lemma {:induction false} SortKeepsDistinct<T(!new), K(!new)>(less: (T, T) -> bool, key: T -> K, s: seq<T>)
    requires ByKey(less) && DistinctBy(key, s)
    ensures DistinctBy(key, StableSort(less, s))
  {
    if s != [] {
      var init, last := s[..|s| - 1], s[|s| - 1];
      SortKeepsDistinct(less, key, init);
      SortKeepsElements(less, init);
      LastIsDistinct(key, s);
      InsertKeepsDistinct(less, key, StableSort(less, init), last);
    }
  }

  lemma {:induction false} NoneWithKey<T>(less: (T, T) -> bool, s: seq<T>, k: T)
    requires forall j :: 0 <= j < |s| ==> !SameKey(less, s[j], k)
    ensures WithKey(less, s, k) == []
  {
    if s != [] { NoneWithKey(less, s[..|s| - 1], k); }
  }

  /** The first element with its key leads its class. */
  lemma {:induction false} FirstWithKey<T>(less: (T, T) -> bool, s: seq<T>, p: nat)
    requires p < |s| && SameKey(less, s[p], s[p]) && forall j :: 0 <= j < p ==> !SameKey(less, s[j], s[p])
    ensures WithKey(less, s, s[p]) != [] && WithKey(less, s, s[p])[0] == s[p]
  {
    if p + 1 == |s| {
      NoneWithKey(less, s[..p], s[p]);
    } else {
      FirstWithKey(less, s[..|s| - 1], p);
      assert s[..|s| - 1][p] == s[p];
    }
  }
}
