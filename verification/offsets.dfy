/**
 * Coordinate enumerations: the nested `for dx in range(..): for dz in
 * range(..)` loops the scripts use to visit a rectangle of offsets, and the
 * `if ...: list.append(...)` filters they apply while visiting.
 */
module Offsets {

  /** An (x, z) offset or position. */
  type Cell = (int, int)

  /** No element of `s` occurs twice. */
  predicate Distinct<T(==)>(s: seq<T>) {
    forall i, j :: 0 <= i < j < |s| ==> s[i] != s[j]
  }

  /** Two sequences without duplicates and without common elements concatenate to one without duplicates. */
  lemma DistinctConcat<T>(a: seq<T>, b: seq<T>)
    requires Distinct(a) && Distinct(b)
    requires forall x :: x in a ==> x !in b
    ensures Distinct(a + b)
  {
    forall i, j | 0 <= i < j < |a + b|
      ensures (a + b)[i] != (a + b)[j]
    {
      if j >= |a| && i < |a| {
        assert (a + b)[i] in a && (a + b)[j] in b;
      } else if i >= |a| {
        assert (a + b)[i] == b[i - |a|] && (a + b)[j] == b[j - |a|];
      }
    }
  }

  /** The cells (x, z) for z in range(z0, z1), in order. */
  function Column(x: int, z0: int, z1: int): (r: seq<Cell>)
    ensures forall c :: c in r <==> c.0 == x && z0 <= c.1 < z1
    ensures Distinct(r)
    ensures |r| == if z1 <= z0 then 0 else z1 - z0
    decreases z1 - z0
  {
    if z1 <= z0 then []
    else
      var rest := Column(x, z0 + 1, z1);
      DistinctConcat([(x, z0)], rest);
      [(x, z0)] + rest
  }

  /**
   * The cells of `for x in range(x0, x1): for z in range(z0, z1)`, in that
   * order: each cell of the rectangle exactly once.
   */
  function Box(x0: int, x1: int, z0: int, z1: int): (r: seq<Cell>)
    ensures forall c :: c in r <==> x0 <= c.0 < x1 && z0 <= c.1 < z1
    ensures Distinct(r)
    decreases x1 - x0
  {
    if x1 <= x0 then []
    else
      var col := Column(x0, z0, z1);
      var rest := Box(x0 + 1, x1, z0, z1);
      DistinctConcat(col, rest);
      col + rest
  }

  /** The elements of `s` that satisfy `keep`, in their original order. */
  function Filter<T(==,!new)>(s: seq<T>, keep: T -> bool): (r: seq<T>)
    ensures forall x :: x in r <==> x in s && keep(x)
    ensures |r| <= |s|
    ensures Distinct(s) ==> Distinct(r)
  {
    if |s| == 0 then []
    else
      var rest := Filter(s[1..], keep);
      assert Distinct(s) ==> Distinct(s[1..]) && s[0] !in s[1..];
      if keep(s[0]) then
        assert Distinct(s) ==> Distinct([s[0]] + rest) by {
          if Distinct(s) {
            DistinctConcat([s[0]], rest);
          }
        }
        [s[0]] + rest
      else rest
  }

  /** The image of `s` under `f`, in order. */
  function Map<T, U>(s: seq<T>, f: T -> U): (r: seq<U>)
    ensures |r| == |s|
    ensures forall i :: 0 <= i < |s| ==> r[i] == f(s[i])
  {
    seq(|s|, i requires 0 <= i < |s| => f(s[i]))
  }

  /** A compass facing of a placed block. */
  datatype Facing = North | South | East | West

  /** The values of Python's `range(a, b, step)` for a positive step, in increasing order. */
  function Range(a: int, b: int, step: int): (r: seq<int>)
    requires step > 0
    ensures forall v :: v in r <==> a <= v < b && (v - a) % step == 0
    ensures forall i, j :: 0 <= i < j < |r| ==> r[i] < r[j]
    ensures |r| > 0 ==> r[0] == a
    decreases b - a
  {
    if b <= a then []
    else
      var rest := Range(a + step, b, step);
      RangeTail(a, b, step, rest);
      [a] + rest
  }

  /** The tail of a range from `a + step` holds the values of the range from `a` other than `a`. */
  lemma RangeTail(a: int, b: int, step: int, rest: seq<int>)
    requires step > 0 && a < b
    requires forall v :: v in rest <==> a + step <= v < b && (v - (a + step)) % step == 0
    ensures forall v :: v in [a] + rest <==> a <= v < b && (v - a) % step == 0
  {
    forall v
      ensures v in [a] + rest <==> a <= v < b && (v - a) % step == 0
    {
      ModShift(v - a, step);
      if a <= v < a + step {
        ModSmall(v - a, step);
      }
    }
  }

  /** Subtracting the modulus does not change the remainder. */
  lemma ModShift(x: int, step: int)
    requires step > 0
    ensures (x - step) % step == x % step
  {
    var q, r := x / step, x % step;
    var q', r' := (x - step) / step, (x - step) % step;
    assert step * (q - 1 - q') == r' - r;
    MulSmall(step, q - 1 - q');
  }

  /** A value below the modulus is its own remainder. */
  lemma ModSmall(x: int, step: int)
    requires 0 <= x < step
    ensures x % step == x
  {
    MulSmall(step, x / step);
  }

  /** A multiple of `step` strictly between `-step` and `step` is zero. */
  lemma MulSmall(step: int, k: int)
    requires step > 0 && -step < step * k < step
    ensures k == 0
  {
    if k >= 1 {
      assert step * k == step + step * (k - 1);
      MulNonNeg(step, k - 1);
    } else if k <= -1 {
      assert step * k == -step + step * (k + 1);
      MulNonNeg(step, -(k + 1));
      assert step * (k + 1) == -(step * (-(k + 1)));
    }
  }

  /** The product of non-negative integers is non-negative. */
  lemma MulNonNeg(a: int, b: int)
    requires a >= 0 && b >= 0
    ensures a * b >= 0
  {
  }

  /** A strictly increasing sequence has no duplicates. */
  lemma IncreasingDistinct(s: seq<int>)
    requires forall i, j :: 0 <= i < j < |s| ==> s[i] < s[j]
    ensures Distinct(s)
  {
  }

  /**
   * The values of Python's `range(a, b, step)` for a non-zero step: rising
   * from a below b for a positive step, falling from a above b for a
   * negative one. A zero step raises ValueError in Python, so callers test
   * for it first.
   */
  function PyRange(a: int, b: int, step: int): (r: seq<int>)
    requires step != 0
    ensures step > 0 ==> forall v :: v in r <==> a <= v < b && (v - a) % step == 0
    ensures step < 0 ==> forall v :: v in r <==> b < v <= a && (a - v) % (-step) == 0
    ensures Distinct(r)
  {
    if step > 0 then
      var r := Range(a, b, step);
      IncreasingDistinct(r);
      r
    else
      var up := Range(-a, -b, -step);
      IncreasingDistinct(up);
      var r := Map(up, (v: int) => -v);
      assert forall v :: v in r <==> -v in up by {
        forall v
          ensures v in r <==> -v in up
        {
          if v in r {
            var i :| 0 <= i < |r| && r[i] == v;
            assert up[i] == -v;
          }
          if -v in up {
            var i :| 0 <= i < |up| && up[i] == -v;
            assert r[i] == v;
          }
        }
      }
      assert Distinct(r) by {
        forall i, j | 0 <= i < j < |r|
          ensures r[i] != r[j]
        {
          assert up[i] != up[j];
        }
      }
      r
  }

  /** The cells (x, z) for z in zs, in order. */
  function Row(x: int, zs: seq<int>): (r: seq<Cell>)
    ensures forall c :: c in r <==> c.0 == x && c.1 in zs
    ensures Distinct(zs) ==> Distinct(r)
  {
    if |zs| == 0 then []
    else
      var rest := Row(x, zs[1..]);
      assert Distinct(zs) ==> Distinct([(x, zs[0])] + rest) by {
        if Distinct(zs) {
          assert zs[0] !in zs[1..];
          DistinctConcat([(x, zs[0])], rest);
        }
      }
      [(x, zs[0])] + rest
  }

  /** The cells of `for x in xs: for z in zs`, in that order. */
  function Pairs(xs: seq<int>, zs: seq<int>): (r: seq<Cell>)
    ensures forall c :: c in r <==> c.0 in xs && c.1 in zs
    ensures Distinct(xs) && Distinct(zs) ==> Distinct(r)
  {
    if |xs| == 0 then []
    else
      var row := Row(xs[0], zs);
      var rest := Pairs(xs[1..], zs);
      assert Distinct(xs) && Distinct(zs) ==> Distinct(row + rest) by {
        if Distinct(xs) && Distinct(zs) {
          assert xs[0] !in xs[1..];
          DistinctConcat(row, rest);
        }
      }
      row + rest
  }

  /**
   * The loop `for c in cands: if c not in s: s.append(c)`: `s` is kept as a
   * prefix, every candidate ends up in the list, and nothing is added twice.
   */
  function AppendNew<T(==,!new)>(s: seq<T>, cands: seq<T>): (r: seq<T>)
    ensures |r| >= |s| && r[..|s|] == s
    ensures forall x :: x in r <==> x in s || x in cands
    ensures Distinct(s) ==> Distinct(r)
    decreases |cands|
  {
    if |cands| == 0 then s
    else
      var next := if cands[0] in s then s else s + [cands[0]];
      assert Distinct(s) ==> Distinct(next) by {
        if Distinct(s) && cands[0] !in s {
          DistinctConcat(s, [cands[0]]);
        }
      }
      var r := AppendNew(next, cands[1..]);
      assert r[..|s|] == next[..|s|];
      r
  }
}
