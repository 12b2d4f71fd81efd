/** Ordering by a numeric key, newest first. JavaScript's `Array.prototype.sort`
    is stable, and so is this insertion sort: an element is placed before the
    later elements whose key is not larger. */
module Sorting {

  predicate SortedDesc<T>(s: seq<T>, key: T -> int)
  {
    forall i, j :: 0 <= i < j < |s| ==> key(s[i]) >= key(s[j])
  }

  function Insert<T>(x: T, s: seq<T>, key: T -> int): seq<T>
    decreases |s|
  {
    if s == [] || key(s[0]) <= key(x) then [x] + s
    else [s[0]] + Insert(x, s[1..], key)
  }

  /** The elements of `s` ordered by decreasing key. */
  function SortDesc<T>(s: seq<T>, key: T -> int): seq<T>
    decreases |s|
  {
    if s == [] then [] else Insert(s[0], SortDesc(s[1..], key), key)
  }

  lemma {:induction false} InsertPermutation<T>(x: T, s: seq<T>, key: T -> int)
    ensures multiset(Insert(x, s, key)) == multiset(s) + multiset{x}
    decreases |s|
  {
    if s != [] && key(s[0]) > key(x) {
      InsertPermutation(x, s[1..], key);
      assert s == [s[0]] + s[1..];
    }
  }

  /** Inserting an element no larger than a bound into a list bounded by it
      keeps the list bounded. */
  lemma {:induction false} InsertBounded<T>(x: T, s: seq<T>, key: T -> int, b: int)
    requires key(x) <= b && forall i :: 0 <= i < |s| ==> key(s[i]) <= b
    ensures forall i :: 0 <= i < |Insert(x, s, key)| ==> key(Insert(x, s, key)[i]) <= b
    decreases |s|
  {
    if s != [] && key(s[0]) > key(x) {
      InsertBounded(x, s[1..], key, b);
    }
  }

  lemma {:induction false} InsertSorted<T>(x: T, s: seq<T>, key: T -> int)
    requires SortedDesc(s, key)
    ensures SortedDesc(Insert(x, s, key), key)
    decreases |s|
  {
    if s != [] && key(s[0]) > key(x) {
      InsertSorted(x, s[1..], key);
      var t := Insert(x, s[1..], key);
      InsertBounded(x, s[1..], key, key(s[0]));
      assert Insert(x, s, key) == [s[0]] + t;
    }
  }

  /** Sorting yields a list ordered by decreasing key. */
  lemma {:induction false} SortDescSorted<T>(s: seq<T>, key: T -> int)
    ensures SortedDesc(SortDesc(s, key), key)
    decreases |s|
  {
    if s != [] {
      SortDescSorted(s[1..], key);
      InsertSorted(s[0], SortDesc(s[1..], key), key);
    }
  }

  /** Sorting neither loses nor adds elements. */
  lemma {:induction false} SortDescPermutation<T>(s: seq<T>, key: T -> int)
    ensures multiset(SortDesc(s, key)) == multiset(s)
    decreases |s|
  {
    if s != [] {
      SortDescPermutation(s[1..], key);
      InsertPermutation(s[0], SortDesc(s[1..], key), key);
      assert s == [s[0]] + s[1..];
    }
  }

  /** A list already in order is left as it is; in particular sorting twice is
      sorting once. */
  lemma {:induction false} SortDescKeepsSorted<T>(s: seq<T>, key: T -> int)
    requires SortedDesc(s, key)
    ensures SortDesc(s, key) == s
    decreases |s|
  {
    if s != [] {
      SortDescKeepsSorted(s[1..], key);
      assert s == [s[0]] + s[1..];
    }
  }

  /** The elements whose key is `k`, in their order. */
  function WithKey<T>(s: seq<T>, key: T -> int, k: int): seq<T>
    decreases |s|
  {
    if s == [] then []
    else (if key(s[0]) == k then [s[0]] else []) + WithKey(s[1..], key, k)
  }

  /** Inserting puts the element ahead of every element with its key, since
      the elements it passes all have larger keys. */
  lemma {:induction false} InsertWithKey<T>(x: T, s: seq<T>, key: T -> int, k: int)
    ensures WithKey(Insert(x, s, key), key, k) == (if key(x) == k then [x] else []) + WithKey(s, key, k)
    decreases |s|
  {
    var hx := if key(x) == k then [x] else [];
    if s == [] || key(s[0]) <= key(x) {
      calc {
        WithKey(Insert(x, s, key), key, k);
        == { assert Insert(x, s, key) == [x] + s; assert ([x] + s)[1..] == s; }
        hx + WithKey(s, key, k);
      }
    } else {
      var hs := if key(s[0]) == k then [s[0]] else [];
      calc {
        WithKey(Insert(x, s, key), key, k);
        == { assert Insert(x, s, key) == [s[0]] + Insert(x, s[1..], key);
             assert ([s[0]] + Insert(x, s[1..], key))[1..] == Insert(x, s[1..], key); }
        hs + WithKey(Insert(x, s[1..], key), key, k);
        == { InsertWithKey(x, s[1..], key, k); }
        hs + (hx + WithKey(s[1..], key, k));
        == { assert hs == [] || hx == []; }
        hx + (hs + WithKey(s[1..], key, k));
        ==
        hx + WithKey(s, key, k);
      }
    }
  }

  /** The sort is stable: elements with equal keys keep their relative
      order. */
  lemma {:induction false} SortDescStable<T>(s: seq<T>, key: T -> int, k: int)
    ensures WithKey(SortDesc(s, key), key, k) == WithKey(s, key, k)
    decreases |s|
  {
    if s != [] {
      SortDescStable(s[1..], key, k);
      InsertWithKey(s[0], SortDesc(s[1..], key), key, k);
    }
  }

  lemma SortDescIdempotent<T>(s: seq<T>, key: T -> int)
    ensures SortDesc(SortDesc(s, key), key) == SortDesc(s, key)
  {
    SortDescSorted(s, key);
    SortDescKeepsSorted(SortDesc(s, key), key);
  }
}
