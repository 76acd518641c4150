/**
 * The flattest-window site searches of the scripts, each an instance of the
 * row-major first-minimum scan over the k-by-k windows of a heightmap.
 *
 * The score of a window is the mean gradient magnitude of its slice
 * (`np.gradient`, `np.sqrt`, `np.mean`): floating point, so it is kept as the
 * parameter `flatness`. What the scripts differ in is the admission test, the
 * behaviour when no window is admitted and what they report.
 */
module FlattestSearch {
  import opened Wrappers
  import opened Grids
  import opened WindowScan

  /** Why a search returns no site. */
  datatype SearchError =
    | SizeTooLarge      // ValueError: the window is larger than the heightmap
    | GradientUndefined // np.gradient raises on a window with fewer than two cells per axis
    | NoDrySurface      // "There is not flat enough surface that is not on water", then exit()
    | MaxValueUnbound   // every window skipped, so `max_value` is read before assignment

  /** What `find_flattest_subarray` returns: the slice, its origin, its score and its highest cell. */
  datatype Flattest = Flattest(subarray: Grid, position: Pos, flatness: real, maxValue: int)

  /** A building site in world coordinates, as `find_best_location` returns it. */
  datatype Site = Site(x: int, z: int, y: int)

  /** Lowest and highest mean window height `find_best_location` of cozy_cottage.py accepts. */
  const MinMeanHeight := 60
  const MaxMeanHeight := 100

  /** The score of the window with origin p. */
  function WindowScore(g: Grid, k: nat, flatness: Grid -> real): Pos -> real {
    (p: Pos) => flatness(Window(g, p.row, p.col, k))
  }

  /** Admission of 2height_maps.py and heightmap.py: the water mask is zero on the whole window. */
  function WaterFree(mask: Grid, k: nat): Pos -> bool {
    (p: Pos) => AllZero(Window(mask, p.row, p.col, k))
  }

  /** Admission of test.py: no cell of the window has water above the ground. */
  function NotFlooded(ground: Grid, water: Grid, k: nat): Pos -> bool {
    (p: Pos) => NoneAbove(Window(water, p.row, p.col, k), Window(ground, p.row, p.col, k), k)
  }

  /** A k-by-k window of this height sum has mean height in [60, 100]. */
  predicate MeanInBand(sum: int, k: nat) {
    MinMeanHeight * k * k <= sum <= MaxMeanHeight * k * k
  }

  /**
   * Admission of cozy_cottage.py: the mean height lies in [60, 100]; for a
   * k-by-k window that is a sum in [60*k*k, 100*k*k].
   */
  function InHeightBand(g: Grid, k: nat): Pos -> bool {
    (p: Pos) => MeanInBand(GridSum(Window(g, p.row, p.col, k)), k)
  }

  /** new_cottage.py admits every window. */
  function AnyWindow(): Pos -> bool {
    (p: Pos) => true
  }

  /** `f` reports the first minimal-score admitted window of `g`, its slice, score and maximum. */
  ghost predicate ReportsFirstMin(g: Grid, k: nat, flatness: Grid -> real, admit: Pos -> bool, rows: nat, cols: nat, f: Flattest)
    requires k <= rows && k <= cols
  {
    && IsFirstMin(WindowScore(g, k, flatness), admit, rows - k + 1, cols - k + 1, End(rows - k + 1), f.position)
    && f.subarray == Window(g, f.position.row, f.position.col, k)
    && f.flatness == flatness(f.subarray)
    && IsMaxOf(f.maxValue, f.subarray)
  }

  /** The report for the chosen origin `p`. */
  function Report(g: Grid, k: nat, flatness: Grid -> real, p: Pos): (f: Flattest)
    requires k >= 1
    ensures f.position == p && f.subarray == Window(g, p.row, p.col, k)
    ensures f.flatness == flatness(f.subarray) && IsMaxOf(f.maxValue, f.subarray)
  {
    var w := Window(g, p.row, p.col, k);
    Flattest(w, p, flatness(w), GridMax(w))
  }

  /** The report of the scan's first minimum reports that minimum. */
  lemma ReportOfFirstMin(g: Grid, k: nat, flatness: Grid -> real, admit: Pos -> bool, rows: nat, cols: nat, p: Pos)
    requires 1 <= k <= rows && k <= cols
    requires IsFirstMin(WindowScore(g, k, flatness), admit, rows - k + 1, cols - k + 1, End(rows - k + 1), p)
    ensures ReportsFirstMin(g, k, flatness, admit, rows, cols, Report(g, k, flatness, p))
  {
  }

  /** No origin is admitted exactly when no window origin (row, col) with row <= rows - k and col <= cols - k is. */
  lemma NoWindowAdmitted(admit: Pos -> bool, rows: nat, cols: nat, k: nat)
    requires k <= rows && k <= cols
    ensures NoneAdmitted(admit, rows - k + 1, cols - k + 1, End(rows - k + 1)) <==>
      forall row, col :: 0 <= row <= rows - k && 0 <= col <= cols - k ==> !admit(Pos(row, col))
  {
    NoneAdmittedAll(admit, rows - k + 1, cols - k + 1);
  }

  /**
   * `find_flattest_subarray` of 2height_maps.py (and, line for line, of
   * heightmap.py): the water mask is MOTION_BLOCKING - OCEAN_FLOOR, a window
   * is admitted only where the mask is zero throughout, and the program
   * exits when no window is admitted.
   */
  function FindFlattestSubarray(g: Grid, motionBlocking: Grid, oceanFloor: Grid, rows: nat, cols: nat, k: nat, flatness: Grid -> real)
    : (r: Result<Flattest, SearchError>)
    requires IsGrid(g, rows, cols) && IsGrid(motionBlocking, rows, cols) && IsGrid(oceanFloor, rows, cols)
    ensures r == Failure(SizeTooLarge) <==> k > rows || k > cols
    ensures r == Failure(GradientUndefined) <==> k <= rows && k <= cols && k < 2
    ensures r == Failure(NoDrySurface) <==>
      && 2 <= k <= rows && k <= cols
      && forall row, col :: 0 <= row <= rows - k && 0 <= col <= cols - k ==>
           !WaterFree(Diff(motionBlocking, oceanFloor, rows, cols), k)(Pos(row, col))
    ensures r.Success? <==>
      && 2 <= k <= rows && k <= cols
      && exists row, col :: 0 <= row <= rows - k && 0 <= col <= cols - k &&
           WaterFree(Diff(motionBlocking, oceanFloor, rows, cols), k)(Pos(row, col))
    ensures r.Success? ==>
      && ReportsFirstMin(g, k, flatness, WaterFree(Diff(motionBlocking, oceanFloor, rows, cols), k), rows, cols, r.value)
      && var p := r.value.position;
      && 0 <= p.row <= rows - k && 0 <= p.col <= cols - k
      && AllZero(Window(Diff(motionBlocking, oceanFloor, rows, cols), p.row, p.col, k))
  {
    if k > rows || k > cols then Failure(SizeTooLarge)
    else if k < 2 then Failure(GradientUndefined)
    else
      var n, m := rows - k + 1, cols - k + 1;
      var admit := WaterFree(Diff(motionBlocking, oceanFloor, rows, cols), k);
      match FirstMin(WindowScore(g, k, flatness), admit, n, m)
      case None =>
        NoWindowAdmitted(admit, rows, cols, k);
        Failure(NoDrySurface)
      case Some(p) =>
        NoWindowAdmitted(admit, rows, cols, k);
        ReportOfFirstMin(g, k, flatness, admit, rows, cols, p);
        Success(Report(g, k, flatness, p))
  }

  /**
   * `find_flattest_subarray` of test.py: a window is skipped when some cell
   * has water above the ground. When every window is skipped, `max_value`
   * is never assigned and the return statement raises.
   */
  function FindFlattestDry(ground: Grid, water: Grid, rows: nat, cols: nat, k: nat, flatness: Grid -> real)
    : (r: Result<Flattest, SearchError>)
    requires IsGrid(ground, rows, cols) && IsGrid(water, rows, cols)
    ensures r == Failure(SizeTooLarge) <==> k > rows || k > cols
    ensures r == Failure(MaxValueUnbound) <==>
      && k <= rows && k <= cols
      && forall row, col :: 0 <= row <= rows - k && 0 <= col <= cols - k ==>
           !NotFlooded(ground, water, k)(Pos(row, col))
    ensures r == Failure(GradientUndefined) <==>
      && k <= rows && k <= cols && k < 2
      && exists row, col :: 0 <= row <= rows - k && 0 <= col <= cols - k && NotFlooded(ground, water, k)(Pos(row, col))
    ensures r.Success? <==>
      && 2 <= k <= rows && k <= cols
      && exists row, col :: 0 <= row <= rows - k && 0 <= col <= cols - k && NotFlooded(ground, water, k)(Pos(row, col))
    ensures r.Success? ==>
      && k >= 2
      && ReportsFirstMin(ground, k, flatness, NotFlooded(ground, water, k), rows, cols, r.value)
  {
    if k > rows || k > cols then Failure(SizeTooLarge)
    else
      var n, m := rows - k + 1, cols - k + 1;
      var admit := NotFlooded(ground, water, k);
      match FirstMin(WindowScore(ground, k, flatness), admit, n, m)
      case None =>
        NoWindowAdmitted(admit, rows, cols, k);
        Failure(MaxValueUnbound)
      case Some(p) =>
        NoWindowAdmitted(admit, rows, cols, k);
        if k < 2 then Failure(GradientUndefined)
        else
          ReportOfFirstMin(ground, k, flatness, admit, rows, cols, p);
          Success(Report(ground, k, flatness, p))
  }

  /**
   * `find_best_location` of new_cottage.py: no admission test; the site is
   * the chosen window's top-left cell, with column as x and row as z.
   */
  function FindBestLocation(g: Grid, rows: nat, cols: nat, k: nat, flatness: Grid -> real, startX: int, startZ: int)
    : (r: Result<Site, SearchError>)
    requires IsGrid(g, rows, cols)
    ensures r == Failure(SizeTooLarge) <==> k > rows || k > cols
    ensures r == Failure(GradientUndefined) <==> k <= rows && k <= cols && k < 2
    ensures r.Success? <==> 2 <= k <= rows && k <= cols
    ensures r.Success? ==>
      var p := Pos(r.value.z - startZ, r.value.x - startX);
      && IsFirstMin(WindowScore(g, k, flatness), AnyWindow(), rows - k + 1, cols - k + 1, End(rows - k + 1), p)
      && r.value.y == g[p.row][p.col]
  {
    if k > rows || k > cols then Failure(SizeTooLarge)
    else if k < 2 then Failure(GradientUndefined)
    else
      var n, m := rows - k + 1, cols - k + 1;
      var best := FirstMin(WindowScore(g, k, flatness), AnyWindow(), n, m);
      assert Visited(Pos(0, 0), n, m, End(n));
      var p := best.GetOr(Pos(0, 0));
      Success(Site(p.col + startX, p.row + startZ, g[p.row][p.col]))
  }

  /**
   * The origin cozy_cottage.py keeps: the first in-band minimum, or (0, 0)
   * when no window is in the band; it is in the band exactly when some
   * window is.
   */
  lemma BandChoice(g: Grid, rows: nat, cols: nat, k: nat, flatness: Grid -> real)
    requires 1 <= k <= rows && k <= cols
    ensures
      var n, m := rows - k + 1, cols - k + 1;
      var p := FirstMin(WindowScore(g, k, flatness), InHeightBand(g, k), n, m).GetOr(Pos(0, 0));
      && 0 <= p.row < n && 0 <= p.col < m
      && (|| IsFirstMin(WindowScore(g, k, flatness), InHeightBand(g, k), n, m, End(n), p)
          || (p == Pos(0, 0) && NoneAdmitted(InHeightBand(g, k), n, m, End(n))))
      && (InHeightBand(g, k)(p) <==> !NoneAdmitted(InHeightBand(g, k), n, m, End(n)))
  {
    var n, m := rows - k + 1, cols - k + 1;
    var best := FirstMin(WindowScore(g, k, flatness), InHeightBand(g, k), n, m);
    var p := best.GetOr(Pos(0, 0));
    assert best.Some? ==> InHeightBand(g, k)(p);
    assert best.None? ==> !InHeightBand(g, k)(p) by {
      assert Visited(Pos(0, 0), n, m, End(n));
    }
  }

  /**
   * `find_best_location` of cozy_cottage.py: windows whose mean height lies
   * outside [60, 100] are skipped, and when every window is skipped the
   * origin silently stays (0, 0).
   */
  function FindBestLocationInBand(g: Grid, rows: nat, cols: nat, k: nat, flatness: Grid -> real, startX: int, startZ: int)
    : (r: Result<Site, SearchError>)
    requires IsGrid(g, rows, cols)
    ensures r == Failure(SizeTooLarge) <==> k > rows || k > cols
    ensures r == Failure(GradientUndefined) <==> k <= rows && k <= cols && k < 2
    ensures r.Success? <==> 2 <= k <= rows && k <= cols
    ensures r.Success? ==>
      var p := Pos(r.value.z - startZ, r.value.x - startX);
      && 0 <= p.row <= rows - k && 0 <= p.col <= cols - k
      && r.value.y == g[p.row][p.col]
      && (|| IsFirstMin(WindowScore(g, k, flatness), InHeightBand(g, k), rows - k + 1, cols - k + 1, End(rows - k + 1), p)
          || (p == Pos(0, 0) && NoneAdmitted(InHeightBand(g, k), rows - k + 1, cols - k + 1, End(rows - k + 1))))
    ensures r.Success? ==>
      (MeanInBand(GridSum(Window(g, r.value.z - startZ, r.value.x - startX, k)), k)
       <==> !NoneAdmitted(InHeightBand(g, k), rows - k + 1, cols - k + 1, End(rows - k + 1)))
  {
    if k > rows || k > cols then Failure(SizeTooLarge)
    else if k < 2 then Failure(GradientUndefined)
    else
      var p := FirstMin(WindowScore(g, k, flatness), InHeightBand(g, k), rows - k + 1, cols - k + 1).GetOr(Pos(0, 0));
      BandChoice(g, rows, cols, k, flatness);
      Success(Site(p.col + startX, p.row + startZ, g[p.row][p.col]))
  }

  /**
   * cozy_cottage.py never chooses a window whose mean height is below 60 or
   * above 100 when some window, say the one at (row, col), is in the band.
   */
  lemma BandSearchAvoidsOutOfBand(g: Grid, rows: nat, cols: nat, k: nat, flatness: Grid -> real, startX: int, startZ: int, row: int, col: int)
    requires IsGrid(g, rows, cols)
    requires FindBestLocationInBand(g, rows, cols, k, flatness, startX, startZ).Success?
    requires 0 <= row <= rows - k && 0 <= col <= cols - k && InHeightBand(g, k)(Pos(row, col))
    ensures
      var s := FindBestLocationInBand(g, rows, cols, k, flatness, startX, startZ).value;
      MeanInBand(GridSum(Window(g, s.z - startZ, s.x - startX, k)), k)
  {
    var n := rows - k + 1;
    assert Visited(Pos(row, col), n, cols - k + 1, End(n));
  }

  /** A block placed by `place_block` of heightmap.py. */
  datatype Block = Block(x: int, y: int, z: int)

  /** The four blocks of one column, from the ground height `h` up to `h + 3`. */
  function ColumnBlocks(x: int, z: int, h: int): seq<Block> {
    [Block(x, h, z), Block(x, h + 1, z), Block(x, h + 2, z), Block(x, h + 3, z)]
  }

  /**
   * The column is read with its offsets swapped: `heights[(local_z, local_x)]`
   * with local_x = position[0] + dx and local_z = position[1] + dz.
   */
  function ColumnHeight(heights: Grid, position: Pos, dx: int, dz: int): int {
    At(heights, position.col + dz, position.row + dx)
  }

  /** `b` is one of the four blocks of a column (dx, dz) of the area. */
  predicate PlacedIn(heights: Grid, position: Pos, area: nat, startX: int, startZ: int, b: Block, dx0: int, dz0: int, dzEnd: int) {
    var dx := b.x - startX - position.row;
    var dz := b.z - startZ - position.col;
    var h := ColumnHeight(heights, position, dx, dz);
    dx0 <= dx < area && dz0 <= dz < dzEnd && h <= b.y < h + 4
  }

  /** The blocks of the columns dz, dz+1, ..., area-1 of row dx. */
  function RowBlocks(heights: Grid, position: Pos, area: nat, startX: int, startZ: int, dx: int, dz: int): (r: seq<Block>)
    requires 0 <= dx < area && 0 <= dz <= area
    ensures |r| == 4 * (area - dz)
    ensures forall b :: b in r <==> b.x == startX + position.row + dx && PlacedIn(heights, position, area, startX, startZ, b, dx, dz, area)
    decreases area - dz
  {
    if dz == area then []
    else
      var column := ColumnBlocks(startX + position.row + dx, startZ + position.col + dz, ColumnHeight(heights, position, dx, dz));
      var rest := RowBlocks(heights, position, area, startX, startZ, dx, dz + 1);
      ColumnThenRest(heights, position, area, startX, startZ, dx, dz, rest);
      column + rest
  }

  /** Column dz followed by the columns after it holds exactly the blocks of row dx from column dz on. */
  lemma ColumnThenRest(heights: Grid, position: Pos, area: nat, startX: int, startZ: int, dx: int, dz: int, rest: seq<Block>)
    requires 0 <= dx < area && 0 <= dz < area
    requires forall b :: b in rest <==> b.x == startX + position.row + dx && PlacedIn(heights, position, area, startX, startZ, b, dx, dz + 1, area)
    ensures
      var column := ColumnBlocks(startX + position.row + dx, startZ + position.col + dz, ColumnHeight(heights, position, dx, dz));
      forall b :: b in column + rest <==> b.x == startX + position.row + dx && PlacedIn(heights, position, area, startX, startZ, b, dx, dz, area)
  {
    var h := ColumnHeight(heights, position, dx, dz);
    var column := ColumnBlocks(startX + position.row + dx, startZ + position.col + dz, h);
    assert forall b :: b in column <==> b.x == startX + position.row + dx && b.z == startZ + position.col + dz && h <= b.y < h + 4;
    forall b: Block | b.x == startX + position.row + dx
      ensures PlacedIn(heights, position, area, startX, startZ, b, dx, dz, area) <==>
        (b.z == startZ + position.col + dz && h <= b.y < h + 4) || PlacedIn(heights, position, area, startX, startZ, b, dx, dz + 1, area)
    {
      assert b.x - startX - position.row == dx;
    }
  }

  /** One more row of `area` columns adds 4 * area blocks. */
  lemma AreaStep(area: int, rows: int)
    ensures 4 * area * rows == 4 * area + 4 * area * (rows - 1)
  {
  }

  /** The blocks of the rows dx, dx+1, ..., area-1. */
  function AreaBlocks(heights: Grid, position: Pos, area: nat, startX: int, startZ: int, dx: int): (r: seq<Block>)
    requires 0 <= dx <= area
    ensures |r| == 4 * area * (area - dx)
    ensures forall b :: b in r <==> PlacedIn(heights, position, area, startX, startZ, b, dx, 0, area)
    decreases area - dx
  {
    if dx == area then []
    else
      var row := RowBlocks(heights, position, area, startX, startZ, dx, 0);
      var rest := AreaBlocks(heights, position, area, startX, startZ, dx + 1);
      AreaStep(area, area - dx);
      RowThenRest(heights, position, area, startX, startZ, dx, row, rest);
      row + rest
  }

  /** Row dx followed by the rows after it holds exactly the blocks of rows dx onwards. */
  lemma RowThenRest(heights: Grid, position: Pos, area: nat, startX: int, startZ: int, dx: int, row: seq<Block>, rest: seq<Block>)
    requires forall b :: b in row <==> b.x == startX + position.row + dx && PlacedIn(heights, position, area, startX, startZ, b, dx, 0, area)
    requires forall b :: b in rest <==> PlacedIn(heights, position, area, startX, startZ, b, dx + 1, 0, area)
    ensures forall b :: b in row + rest <==> PlacedIn(heights, position, area, startX, startZ, b, dx, 0, area)
  {
  }

  /**
   * `place_block` of heightmap.py: four cobblestone blocks, from the ground
   * height up, on every column of the area-by-area square at `position`.
   * The heightmap read raises IndexError when the swapped offsets leave it.
   */
  function PlaceBlock(heights: Grid, rows: nat, cols: nat, position: Pos, area: nat, startX: int, startZ: int): (r: Option<seq<Block>>)
    requires IsGrid(heights, rows, cols) && position.row >= 0 && position.col >= 0
    ensures r.None? <==> area > 0 && (position.col + area > rows || position.row + area > cols)
    ensures r.Some? ==> |r.value| == 4 * area * area
    ensures r.Some? ==> forall b :: b in r.value <==>
      var dx := b.x - startX - position.row;
      var dz := b.z - startZ - position.col;
      && 0 <= dx < area && 0 <= dz < area
      && heights[position.col + dz][position.row + dx] <= b.y < heights[position.col + dz][position.row + dx] + 4
  {
    if area > 0 && (position.col + area > rows || position.row + area > cols) then None
    else Some(AreaBlocks(heights, position, area, startX, startZ, 0))
  }
}
