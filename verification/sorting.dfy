/**
 * Sorting and the order statistics the scripts take of height lists:
 * `sorted(hs)[len(hs) // 2]` in cozy_cottage.py and `int(np.median(hs))`
 * in extreme.py.
 */
module Sorting {

  /** `s` is in non-decreasing order. */
  predicate Sorted(s: seq<int>) {
    forall i, j :: 0 <= i < j < |s| ==> s[i] <= s[j]
  }

  /** Number of elements of `s` that are at most `t`. */
  function CountLe(s: seq<int>, t: int): nat {
    if |s| == 0 then 0 else (if s[0] <= t then 1 else 0) + CountLe(s[1..], t)
  }

  /** Number of elements of `s` that are at least `t`. */
  function CountGe(s: seq<int>, t: int): nat {
    if |s| == 0 then 0 else (if s[0] >= t then 1 else 0) + CountGe(s[1..], t)
  }

  /** `x` inserted into the sorted `s` before the first larger element. */
  function Insert(x: int, s: seq<int>): (r: seq<int>)
    requires Sorted(s)
    ensures Sorted(r)
    ensures multiset(r) == multiset(s) + multiset{x}
    ensures |r| == |s| + 1
    ensures r[0] == if |s| == 0 || x <= s[0] then x else s[0]
  {
    if |s| == 0 || x <= s[0] then [x] + s
    else
      var rest := Insert(x, s[1..]);
      assert s == [s[0]] + s[1..];
      assert s[0] <= rest[0];
      [s[0]] + rest
  }

  /** Insertion sort: the elements of `s` in non-decreasing order (Python's `sorted`). */
  function Sort(s: seq<int>): (r: seq<int>)
    ensures Sorted(r)
    ensures multiset(r) == multiset(s)
    ensures |r| == |s|
  {
    if |s| == 0 then []
    else
      assert s == [s[0]] + s[1..];
      Insert(s[0], Sort(s[1..]))
  }

  /** Inserting `x` adds one to each count exactly when `x` is counted. */
  lemma {:induction false} InsertCounts(x: int, s: seq<int>, t: int)
    requires Sorted(s)
    ensures CountLe(Insert(x, s), t) == (if x <= t then 1 else 0) + CountLe(s, t)
    ensures CountGe(Insert(x, s), t) == (if x >= t then 1 else 0) + CountGe(s, t)
  {
    if |s| == 0 || x <= s[0] {
      assert ([x] + s)[1..] == s;
    } else {
      InsertCounts(x, s[1..], t);
      var r := [s[0]] + Insert(x, s[1..]);
      assert r[1..] == Insert(x, s[1..]);
    }
  }

  /** Sorting keeps both counts. */
  lemma {:induction false} SortCounts(s: seq<int>, t: int)
    ensures CountLe(Sort(s), t) == CountLe(s, t)
    ensures CountGe(Sort(s), t) == CountGe(s, t)
  {
    if |s| > 0 {
      SortCounts(s[1..], t);
      InsertCounts(s[0], Sort(s[1..]), t);
    }
  }

  /** When the first `k` elements are at most `t`, at least `k` elements are counted. */
  lemma {:induction false} CountLePrefix(s: seq<int>, t: int, k: nat)
    requires k <= |s|
    requires forall i :: 0 <= i < k ==> s[i] <= t
    ensures CountLe(s, t) >= k
  {
    if k > 0 {
      CountLePrefix(s[1..], t, k - 1);
    }
  }

  /** When the elements from index `k` on are at least `t`, at least `|s| - k` elements are counted. */
  lemma {:induction false} CountGeSuffix(s: seq<int>, t: int, k: nat)
    requires k <= |s|
    requires forall i :: k <= i < |s| ==> s[i] >= t
    ensures CountGe(s, t) >= |s| - k
  {
    if |s| > 0 {
      if k > 0 {
        CountGeSuffix(s[1..], t, k - 1);
      } else {
        CountGeSuffix(s[1..], t, 0);
      }
    }
  }

  /** In a sorted sequence, at least k + 1 elements are at most the one at index k and at least |r| - k are at least it. */
  lemma SortedAt(r: seq<int>, k: nat)
    requires Sorted(r) && k < |r|
    ensures CountLe(r, r[k]) >= k + 1
    ensures CountGe(r, r[k]) >= |r| - k
  {
    assert forall i :: 0 <= i < k + 1 ==> r[i] <= r[k];
    CountLePrefix(r, r[k], k + 1);
    assert forall i :: k <= i < |r| ==> r[i] >= r[k];
    CountGeSuffix(r, r[k], k);
  }

  /**
   * In sorted order, the element at index k is preceded by k elements no
   * larger and followed by elements no smaller: at least k + 1 elements of
   * `s` are at most it and at least |s| - k are at least it.
   */
  lemma OrderStatistic(s: seq<int>, k: nat)
    requires k < |s|
    ensures Sort(s)[k] in s
    ensures CountLe(s, Sort(s)[k]) >= k + 1
    ensures CountGe(s, Sort(s)[k]) >= |s| - k
  {
    var r := Sort(s);
    assert r[k] in multiset(r);
    SortCounts(s, r[k]);
    SortedAt(r, k);
  }

  /** In a sorted sequence, a value between the elements at k - 1 and k splits it at k. */
  lemma SortedBetween(r: seq<int>, k: nat, v: int)
    requires Sorted(r) && 0 < k < |r|
    requires r[k - 1] <= v <= r[k]
    ensures CountLe(r, v) >= k
    ensures CountGe(r, v) >= |r| - k
  {
    assert forall i :: 0 <= i < k ==> r[i] <= r[k - 1];
    CountLePrefix(r, v, k);
    assert forall i :: k <= i < |r| ==> r[k] <= r[i];
    CountGeSuffix(r, v, k);
  }

  /**
   * Any value between the sorted elements at k - 1 and k has at least k
   * elements of `s` at most it and at least |s| - k elements at least it.
   */
  lemma BetweenOrderStatistics(s: seq<int>, k: nat, v: int)
    requires 0 < k < |s|
    requires Sort(s)[k - 1] <= v <= Sort(s)[k]
    ensures CountLe(s, v) >= k
    ensures CountGe(s, v) >= |s| - k
  {
    SortCounts(s, v);
    SortedBetween(Sort(s), k, v);
  }

  /**
   * `sorted(s)[len(s) // 2]`: an element of `s` with at least `|s| / 2 + 1`
   * elements at most it and at least `|s| - |s| / 2` elements at least it.
   */
  function UpperMiddle(s: seq<int>): (v: int)
    requires |s| > 0
    ensures v in s
    ensures CountLe(s, v) >= |s| / 2 + 1
    ensures CountGe(s, v) >= |s| - |s| / 2
  {
    OrderStatistic(s, |s| / 2);
    Sort(s)[|s| / 2]
  }

  /** Python's `int(x / 2)` for an integer x: halving rounded toward zero. */
  function HalfTowardZero(x: int): (h: int)
    ensures x >= 0 ==> 2 * h <= x < 2 * h + 2
    ensures x < 0 ==> 2 * h - 2 < x <= 2 * h
  {
    if x >= 0 then x / 2 else -((-x) / 2)
  }

  /**
   * v is `int(np.median(s))` read off the sorted list: the middle element
   * for an odd count; for an even count the two middle elements' sum halved
   * toward zero, which lies between them.
   */
  predicate IsTruncatedMedian(s: seq<int>, v: int)
    requires |s| > 0
  {
    var t, n := Sort(s), |s|;
    if n % 2 == 1 then v == t[n / 2]
    else t[n / 2 - 1] <= v <= t[n / 2] && v == HalfTowardZero(t[n / 2 - 1] + t[n / 2])
  }

  /**
   * `int(np.median(s))`: the middle element for odd lengths, else the mean
   * of the two middle elements truncated toward zero. It lies between the
   * two middle elements, so at least half of `s` is at most it and at least
   * half is at least it.
   */
  function MedianTruncated(s: seq<int>): (v: int)
    requires |s| > 0
    ensures CountLe(s, v) >= |s| / 2 && CountGe(s, v) >= |s| / 2
    ensures |s| % 2 == 1 ==> v == UpperMiddle(s)
    ensures IsTruncatedMedian(s, v)
  {
    var n := |s|;
    if n % 2 == 1 then UpperMiddle(s)
    else
      var a, b := Sort(s)[n / 2 - 1], Sort(s)[n / 2];
      assert a <= b;
      var v := HalfTowardZero(a + b);
      BetweenOrderStatistics(s, n / 2, v);
      v
  }
}
