/**
 * highend.py: the terrain-adjustment map, the site height of
 * `build_luxury_mansion`, the lowest ground level `build_foundation`
 * builds down to, the odd mansion dimensions, and the facing of the
 * mansion's windows. Here `x - width // 2` is x minus the floor half.
 */
module Highend {
  import opened Grids
  import opened Offsets
  import opened Terrain

  // ---------------------------------------------------------------------
  // Adjustment map

  /**
   * `create_terrain_adjustment_map`: one entry per surveyed position, the
   * height the ground there must be raised by to reach the target (negative
   * where it must be cut down).
   */
  method AdjustmentMap(heights: Grid, s: Survey, targetY: int) returns (m: map<Cell, int>)
    requires IsGrid(heights, s.rows, s.cols)
    ensures forall c :: c in m <==> Surveyed(s, c)
    ensures forall c :: c in m ==> HeightUnder(heights, s, c) + m[c] == targetY
  {
    m := SurveyMap(s, (l: Cell) => targetY - At(heights, l.0, l.1));
  }

  // ---------------------------------------------------------------------
  // Site height

  /** Sum of the ground heights under the given positions. */
  function SumHeights(heights: Grid, s: Survey, cells: seq<Cell>): int {
    if |cells| == 0 then 0 else HeightUnder(heights, s, cells[0]) + SumHeights(heights, s, cells[1..])
  }

  /** If n * m <= total then m <= total // n. */
  lemma DivLower(total: int, n: int, m: int)
    requires n > 0 && n * m <= total
    ensures m <= total / n
  {
    if total / n < m {
      MulNonNeg(n, m - total / n - 1);
    }
  }

  /** If total <= n * m then total // n <= m. */
  lemma DivUpper(total: int, n: int, m: int)
    requires n > 0 && total <= n * m
    ensures total / n <= m
  {
    if total / n > m {
      MulNonNeg(n, total / n - m - 1);
    }
  }

  /** n * v + v is (n + 1) * v. */
  lemma MulSucc(n: int, v: int)
    ensures (n + 1) * v == n * v + v
  {
  }

  /**
   * One step of the lowest-height induction: when n copies of hl fit under
   * the rest of the sum, n + 1 copies of the smaller of ha and hl fit under
   * ha plus the rest.
   */
  lemma MinStep(n: nat, ha: int, hl: int, rest: int)
    requires n * hl <= rest
    ensures ha <= hl ==> (n + 1) * ha <= ha + rest
    ensures ha > hl ==> (n + 1) * hl <= ha + rest
  {
    MulSucc(n, ha);
    MulSucc(n, hl);
    if ha <= hl {
      MulNonNeg(n, hl - ha);
      assert n * hl - n * ha == n * (hl - ha);
    }
  }

  /** The same step for the highest height, from above. */
  lemma MaxStep(n: nat, ha: int, hh: int, rest: int)
    requires rest <= n * hh
    ensures ha >= hh ==> ha + rest <= (n + 1) * ha
    ensures ha < hh ==> ha + rest <= (n + 1) * hh
  {
    MulSucc(n, ha);
    MulSucc(n, hh);
    if ha >= hh {
      MulNonNeg(n, ha - hh);
      assert n * ha - n * hh == n * (ha - hh);
    }
  }

  /** Some position's height times the count is at most the sum. */
  lemma {:induction false} SumAboveLowest(heights: Grid, s: Survey, cells: seq<Cell>) returns (lo: Cell)
    requires |cells| > 0
    ensures lo in cells && |cells| * HeightUnder(heights, s, lo) <= SumHeights(heights, s, cells)
  {
    var a := cells[0];
    if |cells| == 1 {
      lo := a;
    } else {
      var lo' := SumAboveLowest(heights, s, cells[1..]);
      var ha, hl := HeightUnder(heights, s, a), HeightUnder(heights, s, lo');
      var rest := SumHeights(heights, s, cells[1..]);
      assert SumHeights(heights, s, cells) == ha + rest;
      MinStep(|cells| - 1, ha, hl, rest);
      lo := if ha <= hl then a else lo';
    }
  }

  /** Some position's height times the count is at least the sum. */
  lemma {:induction false} SumBelowHighest(heights: Grid, s: Survey, cells: seq<Cell>) returns (hi: Cell)
    requires |cells| > 0
    ensures hi in cells && SumHeights(heights, s, cells) <= |cells| * HeightUnder(heights, s, hi)
  {
    var a := cells[0];
    if |cells| == 1 {
      hi := a;
    } else {
      var hi' := SumBelowHighest(heights, s, cells[1..]);
      var ha, hh := HeightUnder(heights, s, a), HeightUnder(heights, s, hi');
      var rest := SumHeights(heights, s, cells[1..]);
      assert SumHeights(heights, s, cells) == ha + rest;
      MaxStep(|cells| - 1, ha, hh, rest);
      hi := if ha >= hh then a else hi';
    }
  }

  /** The floor of the mean lies between the lowest and the highest height. */
  lemma MeanBetweenExtremes(heights: Grid, s: Survey, cells: seq<Cell>)
    requires |cells| > 0
    ensures exists c :: c in cells && HeightUnder(heights, s, c) <= SumHeights(heights, s, cells) / |cells|
    ensures exists c :: c in cells && SumHeights(heights, s, cells) / |cells| <= HeightUnder(heights, s, c)
  {
    var lo := SumAboveLowest(heights, s, cells);
    var hi := SumBelowHighest(heights, s, cells);
    DivLower(SumHeights(heights, s, cells), |cells|, HeightUnder(heights, s, lo));
    DivUpper(SumHeights(heights, s, cells), |cells|, HeightUnder(heights, s, hi));
  }

  /** Floor division brackets the total: n * (total // n) <= total < n * (total // n + 1). */
  lemma FloorMean(total: int, n: int)
    requires n > 0
    ensures n * (total / n) <= total < n * (total / n + 1)
  {
    var q, r := total / n, total % n;
    assert total == n * q + r && 0 <= r < n;
    MulSucc(q, n);
    assert n * (q + 1) == n * q + n;
  }

  /**
   * The mansion's floor level: one above the floor of the mean ground height
   * over the surveyed positions, or 64 when none is surveyed. y - 1 times the
   * count is at most the height sum and y times the count exceeds it; so y - 1
   * lies between the lowest and the highest surveyed ground.
   */
  function SiteY(heights: Grid, s: Survey): (y: int)
    ensures |SurveyedCells(s)| == 0 ==> y == 64
    ensures |SurveyedCells(s)| > 0 ==>
      var n, total := |SurveyedCells(s)|, SumHeights(heights, s, SurveyedCells(s));
      n * (y - 1) <= total < n * y
    ensures |SurveyedCells(s)| > 0 ==>
      && (exists c :: c in SurveyedCells(s) && HeightUnder(heights, s, c) <= y - 1)
      && (exists c :: c in SurveyedCells(s) && y - 1 <= HeightUnder(heights, s, c))
  {
    var cells := SurveyedCells(s);
    if |cells| == 0 then 64
    else
      var total, n := SumHeights(heights, s, cells), |cells|;
      MeanBetweenExtremes(heights, s, cells);
      FloorMean(total, n);
      var q := total / n;
      assert n * q <= total < n * (q + 1);
      q + 1
  }

  // ---------------------------------------------------------------------
  // Lowest ground under the foundation

  /**
   * `min_height` over the given positions: y lowered to y - adjustment for
   * every position whose adjustment is positive. It never exceeds y, is at
   * most every such lowered value, and is y or one of them.
   */
  function LowestRaised(adj: map<Cell, int>, cells: seq<Cell>, y: int): (h: int)
    ensures h <= y
    ensures forall c :: c in cells && c in adj && adj[c] > 0 ==> h <= y - adj[c]
    ensures h == y || exists c :: c in cells && c in adj && adj[c] > 0 && h == y - adj[c]
  {
    if |cells| == 0 then y
    else
      var rest := LowestRaised(adj, cells[1..], y);
      var c := cells[0];
      assert forall d :: d in cells <==> d == c || d in cells[1..];
      if c in adj && adj[c] > 0 && y - adj[c] < rest then y - adj[c] else rest
  }

  /** The positions of the foundation loop: the footprint padded by one block. */
  function FoundationCells(xaxis: int, zaxis: int, width: int, length: int): (r: seq<Cell>)
    ensures forall c :: c in r <==>
      (-width) / 2 - 1 <= c.0 - xaxis < width / 2 + 2 && (-length) / 2 - 1 <= c.1 - zaxis < length / 2 + 2
  {
    Box(xaxis + (-width) / 2 - 1, xaxis + width / 2 + 2, zaxis + (-length) / 2 - 1, zaxis + length / 2 + 2)
  }

  /**
   * With the adjustment map for target y, `min_height` is the lowest ground
   * under the padded footprint that lies below y, or y when none does.
   */
  lemma MinHeightIsLowestLowGround(heights: Grid, s: Survey, adj: map<Cell, int>, y: int)
    requires forall c :: c in adj <==> Surveyed(s, c)
    requires forall c :: c in adj ==> HeightUnder(heights, s, c) + adj[c] == y
    ensures var cells := FoundationCells(s.xaxis, s.zaxis, s.width, s.length);
      var h := LowestRaised(adj, cells, y);
      && h <= y
      && (forall c :: c in cells && Surveyed(s, c) && HeightUnder(heights, s, c) < y ==> h <= HeightUnder(heights, s, c))
      && (h == y || exists c :: c in cells && Surveyed(s, c) && HeightUnder(heights, s, c) < y && h == HeightUnder(heights, s, c))
  {
    var cells := FoundationCells(s.xaxis, s.zaxis, s.width, s.length);
    var h := LowestRaised(adj, cells, y);
    if h != y {
      var c :| c in cells && c in adj && adj[c] > 0 && h == y - adj[c];
      assert HeightUnder(heights, s, c) == h;
    }
  }

  // ---------------------------------------------------------------------
  // Mansion dimensions

  /** `if v % 2 == 0: v += 1`. */
  function MakeOdd(v: int): (r: int)
    ensures r % 2 == 1
    ensures v <= r <= v + 1
    ensures v % 2 == 1 ==> r == v
  {
    if v % 2 == 0 then v + 1 else v
  }

  /** A width drawn from 13..19 and a length from 19..27 stay in their ranges once made odd. */
  lemma MansionDimensions(width: int, length: int)
    requires 13 <= width <= 19 && 19 <= length <= 27
    ensures 13 <= MakeOdd(width) <= 19 && MakeOdd(width) % 2 == 1
    ensures 19 <= MakeOdd(length) <= 27 && MakeOdd(length) % 2 == 1
  {
  }

  // ---------------------------------------------------------------------
  // Windows

  /** The ten window positions of `add_windows`: three on each side, two on each end. */
  function MansionWindows(xaxis: int, zaxis: int, width: int, length: int): (r: seq<Cell>)
    ensures |r| == 10
    ensures width >= 0 && length >= 0 ==> forall c :: c in r ==> OnOutline(c, xaxis, zaxis, width, length)
    ensures width >= 4 && length >= 3 ==> forall i, j :: 0 <= i < j < |r| ==> r[i] != r[j]
  {
    [(xaxis + width / 2, zaxis - length / 3), (xaxis + width / 2, zaxis), (xaxis + width / 2, zaxis + length / 3),
     (xaxis - width / 2, zaxis - length / 3), (xaxis - width / 2, zaxis), (xaxis - width / 2, zaxis + length / 3),
     (xaxis - width / 3, zaxis + length / 2), (xaxis + width / 3, zaxis + length / 2),
     (xaxis - width / 3, zaxis - length / 2), (xaxis + width / 3, zaxis - length / 2)]
  }

  /** Cell c is on the outline of the house: on a side line within the ends, or on an end line within the sides. */
  predicate OnOutline(c: Cell, xaxis: int, zaxis: int, width: int, length: int) {
    || ((c.0 == xaxis + width / 2 || c.0 == xaxis - width / 2) && zaxis - length / 2 <= c.1 <= zaxis + length / 2)
    || ((c.1 == zaxis + length / 2 || c.1 == zaxis - length / 2) && xaxis - width / 2 <= c.0 <= xaxis + width / 2)
  }

  /** Facing f at c points towards the centre (xaxis, zaxis): west is -x and north is -z. */
  predicate PointsToCentre(f: Facing, c: Cell, xaxis: int, zaxis: int) {
    match f
    case West => c.0 > xaxis
    case East => c.0 < xaxis
    case North => c.1 > zaxis
    case South => c.1 < zaxis
  }

  /**
   * The facing chosen for a window at c: the x tests first, then the far
   * end, else south. On every window of a house at least 2 by 2 it points
   * into the house.
   */
  function WindowFacing(c: Cell, xaxis: int, zaxis: int, width: int, length: int): (f: Facing)
    ensures width >= 2 && length >= 2 && c in MansionWindows(xaxis, zaxis, width, length) ==> PointsToCentre(f, c, xaxis, zaxis)
  {
    if c.0 == xaxis + width / 2 then West
    else if c.0 == xaxis - width / 2 then East
    else if c.1 == zaxis + length / 2 then North
    else South
  }

  /**
   * For a house at least 4 wide and 2 long, the side windows at x + width // 2
   * face west, those at x - width // 2 face east, the far-end windows north
   * and the near-end windows south: each faces away from its own wall into
   * the house.
   */
  lemma WindowFacings(xaxis: int, zaxis: int, width: int, length: int)
    requires width >= 4 && length >= 2
    ensures var ws := MansionWindows(xaxis, zaxis, width, length);
      && (forall i :: 0 <= i < 3 ==> ws[i].0 == xaxis + width / 2 && WindowFacing(ws[i], xaxis, zaxis, width, length) == West)
      && (forall i :: 3 <= i < 6 ==> ws[i].0 == xaxis - width / 2 && WindowFacing(ws[i], xaxis, zaxis, width, length) == East)
      && (forall i :: 6 <= i < 8 ==> ws[i].1 == zaxis + length / 2 && WindowFacing(ws[i], xaxis, zaxis, width, length) == North)
      && (forall i :: 8 <= i < 10 ==> ws[i].1 == zaxis - length / 2 && WindowFacing(ws[i], xaxis, zaxis, width, length) == South)
  {
    assert width / 3 < width / 2;
  }

  /** Every mansion the script builds is at least 13 wide and 19 long, so its windows face as above. */
  lemma MansionWindowFacings(xaxis: int, zaxis: int, width: int, length: int)
    requires 13 <= width <= 19 && 19 <= length <= 27
    ensures var w, l := MakeOdd(width), MakeOdd(length);
      var ws := MansionWindows(xaxis, zaxis, w, l);
      forall i :: 0 <= i < 10 ==> WindowFacing(ws[i], xaxis, zaxis, w, l) == (if i < 3 then West else if i < 6 then East else if i < 8 then North else South)
  {
    MansionDimensions(width, length);
    WindowFacings(xaxis, zaxis, MakeOdd(width), MakeOdd(length));
  }
}
