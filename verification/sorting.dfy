/** Python's `sorted(xs, key=key, reverse=True)`: a stable sort into non-increasing key
    order, modelled as insertion sort. The lemmas state the guarantees Python documents for
    it: the result is a permutation of the input, its keys never increase, elements with
    equal keys keep their original relative order, and sorting a sorted list changes nothing. */
module Sorting {

  /** Keys never increase from left to right. */
  predicate NonIncreasing<T>(xs: seq<T>, key: T -> int) {
    forall i, j :: 0 <= i < j < |xs| ==> key(xs[i]) >= key(xs[j])
  }

  /** The subsequence of `xs` whose key is `k`, in its original order. */
  function WithKey<T>(xs: seq<T>, key: T -> int, k: int): seq<T>
    decreases |xs|
  {
    if |xs| == 0 then []
    else (if key(xs[0]) == k then [xs[0]] else []) + WithKey(xs[1..], key, k)
  }

  /** Places `x` in front of the first element whose key is not larger than its own. */
  function Insert<T>(x: T, ys: seq<T>, key: T -> int): seq<T>
    decreases |ys|
  {
    if |ys| == 0 || key(ys[0]) <= key(x) then [x] + ys
    else [ys[0]] + Insert(x, ys[1..], key)
  }

  /** `sorted(xs, key=key, reverse=True)`. */
  function SortDescending<T>(xs: seq<T>, key: T -> int): seq<T>
    decreases |xs|
  {
    if |xs| == 0 then [] else Insert(xs[0], SortDescending(xs[1..], key), key)
  }

  lemma {:induction false} InsertPermutes<T>(x: T, ys: seq<T>, key: T -> int)
    ensures multiset(Insert(x, ys, key)) == multiset{x} + multiset(ys)
    decreases |ys|
  {
    if |ys| > 0 && key(ys[0]) > key(x) {
      InsertPermutes(x, ys[1..], key);
      assert ys == [ys[0]] + ys[1..];
    }
  }

  lemma {:induction false} InsertKeepsOrder<T>(x: T, ys: seq<T>, key: T -> int)
    requires NonIncreasing(ys, key)
    ensures NonIncreasing(Insert(x, ys, key), key)
    decreases |ys|
  {
    if |ys| > 0 && key(ys[0]) > key(x) {
      var tail := Insert(x, ys[1..], key);
      InsertKeepsOrder(x, ys[1..], key);
      InsertBounded(x, ys[1..], key, key(ys[0]));
      var r := [ys[0]] + tail;
      forall i, j | 0 <= i < j < |r| ensures key(r[i]) >= key(r[j]) {
        assert r[j] == tail[j - 1];
        if i > 0 {
          assert r[i] == tail[i - 1];
        }
      }
    }
  }

  /** Inserting below a bound keeps every key below it. */
  lemma {:induction false} InsertBounded<T>(x: T, ys: seq<T>, key: T -> int, b: int)
    requires key(x) <= b && forall k :: 0 <= k < |ys| ==> key(ys[k]) <= b
    ensures forall k :: 0 <= k < |Insert(x, ys, key)| ==> key(Insert(x, ys, key)[k]) <= b
    decreases |ys|
  {
    if |ys| > 0 && key(ys[0]) > key(x) {
      InsertBounded(x, ys[1..], key, b);
      var r, t := Insert(x, ys, key), Insert(x, ys[1..], key);
      assert r == [ys[0]] + t;
      forall k | 0 <= k < |r| ensures key(r[k]) <= b {
        if k > 0 {
          assert r[k] == t[k - 1];
        }
      }
    }
  }

  lemma {:induction false} InsertWithKey<T>(x: T, ys: seq<T>, key: T -> int, k: int)
    requires NonIncreasing(ys, key)
    ensures WithKey(Insert(x, ys, key), key, k)
         == (if key(x) == k then [x] else []) + WithKey(ys, key, k)
    decreases |ys|
  {
    if |ys| == 0 || key(ys[0]) <= key(x) {
      WithKeyCons(x, ys, key, k);
    } else {
      NonIncreasingTail(ys, key);
      InsertWithKey(x, ys[1..], key, k);
      WithKeyCons(ys[0], Insert(x, ys[1..], key), key, k);
      // `ys[0]` has a strictly larger key than `x`, so at most one of them has key `k`
      assert !(key(x) == k && key(ys[0]) == k);
    }
  }

  lemma WithKeyCons<T>(y: T, ys: seq<T>, key: T -> int, k: int)
    ensures WithKey([y] + ys, key, k) == (if key(y) == k then [y] else []) + WithKey(ys, key, k)
  {
    assert ([y] + ys)[1..] == ys;
  }

  lemma NonIncreasingTail<T>(ys: seq<T>, key: T -> int)
    requires |ys| > 0 && NonIncreasing(ys, key)
    ensures NonIncreasing(ys[1..], key)
  {
    forall i, j | 0 <= i < j < |ys[1..]| ensures key(ys[1..][i]) >= key(ys[1..][j]) {
      assert ys[1..][i] == ys[i + 1] && ys[1..][j] == ys[j + 1];
    }
  }

  lemma {:induction false} SortedIsPermutation<T>(xs: seq<T>, key: T -> int)
    ensures multiset(SortDescending(xs, key)) == multiset(xs)
    decreases |xs|
  {
    if |xs| > 0 {
      SortedIsPermutation(xs[1..], key);
      InsertPermutes(xs[0], SortDescending(xs[1..], key), key);
      assert xs == [xs[0]] + xs[1..];
    }
  }

  lemma {:induction false} SortedIsNonIncreasing<T>(xs: seq<T>, key: T -> int)
    ensures NonIncreasing(SortDescending(xs, key), key)
    decreases |xs|
  {
    if |xs| > 0 {
      SortedIsNonIncreasing(xs[1..], key);
      InsertKeepsOrder(xs[0], SortDescending(xs[1..], key), key);
    }
  }

  /** Stability: for every key, the elements carrying it appear in the result in exactly
      the order they appear in the input. */
  lemma {:induction false} SortIsStable<T>(xs: seq<T>, key: T -> int, k: int)
    ensures WithKey(SortDescending(xs, key), key, k) == WithKey(xs, key, k)
    decreases |xs|
  {
    if |xs| > 0 {
      SortIsStable(xs[1..], key, k);
      SortedIsNonIncreasing(xs[1..], key);
      InsertWithKey(xs[0], SortDescending(xs[1..], key), key, k);
    }
  }

  /** Sorting an already non-increasing list returns it unchanged. */
  lemma {:induction false} SortOfSortedIsIdentity<T>(xs: seq<T>, key: T -> int)
    requires NonIncreasing(xs, key)
    ensures SortDescending(xs, key) == xs
    decreases |xs|
  {
    if |xs| > 0 {
      assert NonIncreasing(xs[1..], key) by {
        forall i, j | 0 <= i < j < |xs[1..]| ensures key(xs[1..][i]) >= key(xs[1..][j]) {
          assert xs[1..][i] == xs[i + 1] && xs[1..][j] == xs[j + 1];
        }
      }
      SortOfSortedIsIdentity(xs[1..], key);
      assert xs == [xs[0]] + xs[1..];
    }
  }

  /** Re-sorting is a no-op. */
  lemma SortIsIdempotent<T>(xs: seq<T>, key: T -> int)
    ensures SortDescending(SortDescending(xs, key), key) == SortDescending(xs, key)
  {
    SortedIsNonIncreasing(xs, key);
    SortOfSortedIsIdentity(SortDescending(xs, key), key);
  }

  /** The head of the sorted list carries the largest key of the input. */
  lemma HeadHasLargestKey<T>(xs: seq<T>, key: T -> int, y: T)
    requires y in xs
    ensures |SortDescending(xs, key)| > 0
    ensures key(SortDescending(xs, key)[0]) >= key(y)
  {
    var s := SortDescending(xs, key);
    SortedIsPermutation(xs, key);
    SortedIsNonIncreasing(xs, key);
    assert y in multiset(s);
    var j :| 0 <= j < |s| && s[j] == y;
  }
}
