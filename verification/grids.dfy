/**
 * Height grids: the two-dimensional integer arrays the scripts read from the
 * world's heightmaps, together with the window slices and reductions the
 * site searches take of them.
 */
module Grids {

  /** A row-major grid of block heights. */
  type Grid = seq<seq<int>>

  /** `g` is a rectangular grid of `rows` rows of `cols` cells each. */
  predicate IsGrid(g: Grid, rows: nat, cols: nat) {
    |g| == rows && forall i :: 0 <= i < rows ==> |g[i]| == cols
  }

  /** The cell (r, c) lies inside `g`. */
  predicate InGrid(g: Grid, r: int, c: int) {
    0 <= r < |g| && 0 <= c < |g[r]|
  }

  /** Cell (r, c) of `g`, read as 0 outside the grid (used only where the cell is known to exist). */
  function At(g: Grid, r: int, c: int): (v: int)
    ensures InGrid(g, r, c) ==> v == g[r][c]
  {
    if InGrid(g, r, c) then g[r][c] else 0
  }

  /** The k-by-k slice `g[r:r+k, c:c+k]`. */
  function Window(g: Grid, r: int, c: int, k: nat): (w: Grid)
    ensures IsGrid(w, k, k)
    ensures forall i, j :: 0 <= i < k && 0 <= j < k ==> w[i][j] == At(g, r + i, c + j)
  {
    seq(k, i => seq(k, j => At(g, r + i, c + j)))
  }

  /** Cell-wise difference `a - b` of two grids of the same shape. */
  function Diff(a: Grid, b: Grid, rows: nat, cols: nat): (d: Grid)
    requires IsGrid(a, rows, cols) && IsGrid(b, rows, cols)
    ensures IsGrid(d, rows, cols)
    ensures forall i, j :: 0 <= i < rows && 0 <= j < cols ==> d[i][j] == a[i][j] - b[i][j]
  {
    seq(rows, i requires 0 <= i < rows => seq(cols, j requires 0 <= j < cols => a[i][j] - b[i][j]))
  }

  /** Every cell of `w` is zero (numpy's `np.all(w == 0)`). */
  predicate AllZero(w: Grid) {
    forall i, j :: 0 <= i < |w| && 0 <= j < |w[i]| ==> w[i][j] == 0
  }

  /** No cell of `water` exceeds the cell of `ground` at the same place (the negation of `np.any(water > ground)`). */
  predicate NoneAbove(water: Grid, ground: Grid, k: nat)
    requires IsGrid(water, k, k) && IsGrid(ground, k, k)
  {
    forall i, j :: 0 <= i < k && 0 <= j < k ==> water[i][j] <= ground[i][j]
  }

  /** `v` is the largest cell of `w` (numpy's `np.max`). */
  predicate IsMaxOf(v: int, w: Grid) {
    && (exists i, j :: 0 <= i < |w| && 0 <= j < |w[i]| && w[i][j] == v)
    && (forall i, j :: 0 <= i < |w| && 0 <= j < |w[i]| ==> w[i][j] <= v)
  }

  /** Largest element of a non-empty row. */
  function RowMax(s: seq<int>): (v: int)
    requires |s| > 0
    ensures v in s
    ensures forall j :: 0 <= j < |s| ==> s[j] <= v
  {
    if |s| == 1 then s[0]
    else
      var rest := RowMax(s[1..]);
      assert forall j :: 1 <= j < |s| ==> s[j] == s[1..][j - 1];
      if s[0] >= rest then s[0] else rest
  }

  /** Largest cell of a grid with at least one row, every row non-empty. */
  function GridMax(w: Grid): (v: int)
    requires |w| > 0
    requires forall i :: 0 <= i < |w| ==> |w[i]| > 0
    ensures IsMaxOf(v, w)
  {
    var head := RowMax(w[0]);
    if |w| == 1 then head
    else
      var rest := GridMax(w[1..]);
      assert forall i :: 1 <= i < |w| ==> w[i] == w[1..][i - 1];
      if head >= rest then head else rest
  }

  /** Sum of a row. */
  function RowSum(s: seq<int>): int {
    if |s| == 0 then 0 else s[0] + RowSum(s[1..])
  }

  /** Sum of all cells of a grid (the numerator of numpy's `np.mean`). */
  function GridSum(w: Grid): int {
    if |w| == 0 then 0 else RowSum(w[0]) + GridSum(w[1..])
  }
}
