/**
 * extreme.py, `create_terrain_adaptation_plan`: the footprint median that
 * becomes the base height, the local-peak search of an elevated tower
 * site, and the landscaping and water-feature filters. The terrain grid is
 * indexed `terrain[x][z]`; `water` is the MOTION_BLOCKING - OCEAN_FLOOR
 * difference grid of the same shape.
 */
module AdaptationPlan {
  import opened Wrappers
  import opened Grids
  import opened WindowScan
  import opened Offsets
  import opened Sorting
  import opened HouseStyle

  function Abs(v: int): nat { if v < 0 then -v else v }

  /** `local_radius = max(width, length) // 2 + 5`. */
  function LocalRadius(width: int, length: int): int {
    (if width >= length then width else length) / 2 + 5
  }

  /** The slice terrain[xMin:xMax, zMin:zMax] the plan works on. */
  datatype Area = Area(xMin: int, xMax: int, zMin: int, zMax: int)

  /**
   * The slice bounds: x_min = max(0, site.x - radius), x_max = min(rows,
   * site.x + radius), and likewise for z. The slice is the square of the
   * given radius round the site, clipped to the heightmap.
   */
  function LocalArea(rows: nat, cols: nat, siteX: int, siteZ: int, radius: int): (a: Area)
    ensures 0 <= a.xMin && a.xMax <= rows && 0 <= a.zMin && a.zMax <= cols
    ensures forall x, z :: InArea(a, x, z) <==>
      && 0 <= x < rows && 0 <= z < cols
      && siteX - radius <= x < siteX + radius && siteZ - radius <= z < siteZ + radius
  {
    Area(if siteX - radius > 0 then siteX - radius else 0,
         if siteX + radius < rows then siteX + radius else rows,
         if siteZ - radius > 0 then siteZ - radius else 0,
         if siteZ + radius < cols then siteZ + radius else cols)
  }

  /** World cell (x, z) is inside the slice: the local index x - x_min is within the slice's shape. */
  predicate InArea(a: Area, x: int, z: int) {
    a.xMin <= x < a.xMax && a.zMin <= z < a.zMax
  }

  /** A cell inside the slice is inside the whole heightmap. */
  lemma InAreaInGrid(g: Grid, rows: nat, cols: nat, siteX: int, siteZ: int, radius: int, x: int, z: int)
    requires IsGrid(g, rows, cols)
    requires InArea(LocalArea(rows, cols, siteX, siteZ, radius), x, z)
    ensures InGrid(g, x, z)
  {
  }

  // ---------------------------------------------------------------------
  // Footprint median

  /** The footprint offsets range(-width // 2, width // 2 + 1) by range(-length // 2, length // 2 + 1) whose cell is in the slice. */
  function FootprintCells(a: Area, siteX: int, siteZ: int, width: int, length: int): (r: seq<Cell>)
    ensures forall d :: d in r <==>
      (-width) / 2 <= d.0 <= width / 2 && (-length) / 2 <= d.1 <= length / 2 && InArea(a, siteX + d.0, siteZ + d.1)
  {
    Filter(Box((-width) / 2, width / 2 + 1, (-length) / 2, length / 2 + 1),
      (d: Cell) => InArea(a, siteX + d.0, siteZ + d.1))
  }

  /** `footprint_heights`, in loop order. */
  function FootprintHeights(terrain: Grid, a: Area, siteX: int, siteZ: int, width: int, length: int): (r: seq<int>)
    ensures var ds := FootprintCells(a, siteX, siteZ, width, length);
      |r| == |ds| && forall i :: 0 <= i < |ds| ==> r[i] == At(terrain, siteX + ds[i].0, siteZ + ds[i].1)
  {
    Map(FootprintCells(a, siteX, siteZ, width, length), (d: Cell) => At(terrain, siteX + d.0, siteZ + d.1))
  }

  /**
   * `avg_footprint_height`: int(np.median(footprint_heights)), or the
   * site's y when no footprint cell is in the slice. For an odd count it is
   * the middle sorted height; for an even count, the mean of the two middle
   * heights truncated toward zero. Either way at least half of the
   * footprint heights are at most it and at least half are at least it.
   */
  function BaseHeight(terrain: Grid, a: Area, siteX: int, siteZ: int, siteY: int, width: int, length: int): (b: int)
    ensures var hs := FootprintHeights(terrain, a, siteX, siteZ, width, length);
      && (|hs| == 0 ==> b == siteY)
      && (|hs| > 0 ==> CountLe(hs, b) >= |hs| / 2 && CountGe(hs, b) >= |hs| / 2)
      && (|hs| > 0 ==> IsTruncatedMedian(hs, b))
      && (|hs| % 2 == 1 ==> b in hs)
  {
    var hs := FootprintHeights(terrain, a, siteX, siteZ, width, length);
    if |hs| == 0 then siteY else MedianTruncated(hs)
  }

  // ---------------------------------------------------------------------
  // Foundation mode

  datatype FoundationMode = Standard | Stilts | Embedded

  /**
   * The foundation mode of the plan: stilts on shallow water, and on a
   * waterfront for the platform style; embedded for a split-level house on
   * a hillside and for a tower on an elevated site; standard otherwise.
   */
  function FoundationModeFor(site: SiteType, style: Style): (m: FoundationMode)
    ensures m == Stilts <==> site == ShallowWater || (site == Waterfront && style == Platform)
    ensures m == Embedded <==> (site == Hillside && style == SplitLevel) || (site == Elevated && style == Tower)
    ensures site == Flat || site == Default ==> m == Standard
  {
    if site == ShallowWater || (site == Waterfront && style == Platform) then Stilts
    else if site == Hillside && style == SplitLevel then Embedded
    else if site == Elevated && style == Tower then Embedded
    else Standard
  }

  // ---------------------------------------------------------------------
  // Local peak (elevated site, tower style)

  /** Height at local index (i, j) of the slice. */
  function LocalHeight(terrain: Grid, a: Area, i: int, j: int): int {
    At(terrain, a.xMin + i, a.zMin + j)
  }

  /** Number of local rows and columns of the slice. */
  function ExtentX(a: Area): nat { if a.xMax > a.xMin then a.xMax - a.xMin else 0 }
  function ExtentZ(a: Area): nat { if a.zMax > a.zMin then a.zMax - a.zMin else 0 }

  /** Local (i, j) is an interior cell of the slice at least as high as its four orthogonal neighbours. */
  predicate IsLocalPeak(terrain: Grid, a: Area, i: int, j: int) {
    && 1 <= i < ExtentX(a) - 1 && 1 <= j < ExtentZ(a) - 1
    && LocalHeight(terrain, a, i, j) >= LocalHeight(terrain, a, i - 1, j)
    && LocalHeight(terrain, a, i, j) >= LocalHeight(terrain, a, i + 1, j)
    && LocalHeight(terrain, a, i, j) >= LocalHeight(terrain, a, i, j - 1)
    && LocalHeight(terrain, a, i, j) >= LocalHeight(terrain, a, i, j + 1)
  }

  /** Scan origin p stands for interior cell (p.row + 1, p.col + 1); the descending height sort becomes a minimum of the negated height. */
  function PeakScore(terrain: Grid, a: Area): Pos -> real {
    (p: Pos) => -(LocalHeight(terrain, a, p.row + 1, p.col + 1) as real)
  }

  function PeakAdmit(terrain: Grid, a: Area): Pos -> bool {
    (p: Pos) => IsLocalPeak(terrain, a, p.row + 1, p.col + 1)
  }

  /** A local peak (i, j, height) of the slice. */
  datatype Peak = Peak(i: int, j: int, height: int)

  /**
   * `local_peaks` sorted by height, highest first, and its head. The sort is
   * stable, so among the highest peaks the first in scan order wins. None
   * exactly when the slice has no interior peak.
   */
  function HighestPeak(terrain: Grid, a: Area): (r: Option<Peak>)
    ensures r.None? <==> forall i, j :: !IsLocalPeak(terrain, a, i, j)
    ensures r.Some? ==>
      && IsLocalPeak(terrain, a, r.value.i, r.value.j)
      && r.value.height == LocalHeight(terrain, a, r.value.i, r.value.j)
      && (forall i, j {:trigger IsLocalPeak(terrain, a, i, j)} :: IsLocalPeak(terrain, a, i, j) ==> LocalHeight(terrain, a, i, j) <= r.value.height)
      && (forall i, j {:trigger IsLocalPeak(terrain, a, i, j)} :: IsLocalPeak(terrain, a, i, j) && (i < r.value.i || (i == r.value.i && j < r.value.j)) ==>
            LocalHeight(terrain, a, i, j) < r.value.height)
  {
    var n, m := if ExtentX(a) >= 2 then ExtentX(a) - 2 else 0, if ExtentZ(a) >= 2 then ExtentZ(a) - 2 else 0;
    var score, admit := PeakScore(terrain, a), PeakAdmit(terrain, a);
    var best := FirstMin(score, admit, n, m);
    PeaksAreOrigins(terrain, a, n, m);
    match best
    case None =>
      NoneAdmittedAll(admit, n, m);
      None
    case Some(p) =>
      FirstMinIsHighest(terrain, a, n, m, p);
      Some(Peak(p.row + 1, p.col + 1, LocalHeight(terrain, a, p.row + 1, p.col + 1)))
  }

  /** The first minimum of the negated heights is the first highest peak. */
  lemma FirstMinIsHighest(terrain: Grid, a: Area, n: nat, m: nat, p: Pos)
    requires n == (if ExtentX(a) >= 2 then ExtentX(a) - 2 else 0) && m == (if ExtentZ(a) >= 2 then ExtentZ(a) - 2 else 0)
    requires IsFirstMin(PeakScore(terrain, a), PeakAdmit(terrain, a), n, m, End(n), p)
    ensures IsLocalPeak(terrain, a, p.row + 1, p.col + 1)
    ensures forall i, j {:trigger IsLocalPeak(terrain, a, i, j)} :: IsLocalPeak(terrain, a, i, j) ==>
      LocalHeight(terrain, a, i, j) <= LocalHeight(terrain, a, p.row + 1, p.col + 1)
    ensures forall i, j {:trigger IsLocalPeak(terrain, a, i, j)} :: IsLocalPeak(terrain, a, i, j) && (i < p.row + 1 || (i == p.row + 1 && j < p.col + 1)) ==>
      LocalHeight(terrain, a, i, j) < LocalHeight(terrain, a, p.row + 1, p.col + 1)
  {
    var score, admit := PeakScore(terrain, a), PeakAdmit(terrain, a);
    forall i, j | IsLocalPeak(terrain, a, i, j)
      ensures LocalHeight(terrain, a, i, j) <= LocalHeight(terrain, a, p.row + 1, p.col + 1)
      ensures (i < p.row + 1 || (i == p.row + 1 && j < p.col + 1)) ==>
        LocalHeight(terrain, a, i, j) < LocalHeight(terrain, a, p.row + 1, p.col + 1)
    {
      var q := Pos(i - 1, j - 1);
      PeaksAreOrigins(terrain, a, n, m);
      assert Visited(q, n, m, End(n)) && admit(q);
      assert score(p) <= score(q);
      if i < p.row + 1 || (i == p.row + 1 && j < p.col + 1) {
        assert Before(q, p);
        assert score(p) < score(q);
      }
    }
  }

  /** Every interior peak is the cell of one scan origin. */
  lemma PeaksAreOrigins(terrain: Grid, a: Area, n: nat, m: nat)
    requires n == (if ExtentX(a) >= 2 then ExtentX(a) - 2 else 0) && m == (if ExtentZ(a) >= 2 then ExtentZ(a) - 2 else 0)
    ensures forall i, j {:trigger IsLocalPeak(terrain, a, i, j)} :: IsLocalPeak(terrain, a, i, j) ==>
      Visited(Pos(i - 1, j - 1), n, m, End(n)) && PeakAdmit(terrain, a)(Pos(i - 1, j - 1))
  {
  }

  /**
   * `center_offset` and `base_height` of a tower on an elevated site, when
   * the slice has a peak: the centre moves onto the first highest peak, so
   * base_height is at least every peak's height and above every earlier one.
   */
  function PeakCenter(terrain: Grid, a: Area, siteX: int, siteZ: int): (r: Option<(Cell, int)>)
    ensures r.Some? <==> HighestPeak(terrain, a).Some?
    ensures r.Some? ==>
      var (offset, h) := r.value;
      var pi, pj := offset.0 + siteX - a.xMin, offset.1 + siteZ - a.zMin;
      && pi == HighestPeak(terrain, a).value.i && pj == HighestPeak(terrain, a).value.j
      && IsLocalPeak(terrain, a, pi, pj)
      && h == At(terrain, siteX + offset.0, siteZ + offset.1)
      && (forall i, j {:trigger IsLocalPeak(terrain, a, i, j)} :: IsLocalPeak(terrain, a, i, j) ==> LocalHeight(terrain, a, i, j) <= h)
      && (forall i, j {:trigger IsLocalPeak(terrain, a, i, j)} :: IsLocalPeak(terrain, a, i, j) && (i < pi || (i == pi && j < pj)) ==>
            LocalHeight(terrain, a, i, j) < h)
  {
    match HighestPeak(terrain, a)
    case None => None
    case Some(p) =>
      CenterOnPeak(terrain, a, siteX, siteZ, p);
      Some(((p.i + a.xMin - siteX, p.j + a.zMin - siteZ), p.height))
  }

  /** Moving the centre by the peak's offset from the site lands it on the peak. */
  lemma CenterOnPeak(terrain: Grid, a: Area, siteX: int, siteZ: int, p: Peak)
    requires IsLocalPeak(terrain, a, p.i, p.j) && p.height == LocalHeight(terrain, a, p.i, p.j)
    ensures var offset := (p.i + a.xMin - siteX, p.j + a.zMin - siteZ);
      && IsLocalPeak(terrain, a, offset.0 + siteX - a.xMin, offset.1 + siteZ - a.zMin)
      && p.height == At(terrain, siteX + offset.0, siteZ + offset.1)
  {
    var offset := (p.i + a.xMin - siteX, p.j + a.zMin - siteZ);
    assert offset.0 + siteX - a.xMin == p.i && offset.1 + siteZ - a.zMin == p.j;
    assert siteX + offset.0 == a.xMin + p.i && siteZ + offset.1 == a.zMin + p.j;
  }

  // ---------------------------------------------------------------------
  // Landscaping and water features

  /** Offset d is visited by range(-radius, radius) on both axes. */
  predicate InSquare(d: Cell, radius: int) {
    -radius <= d.0 < radius && -radius <= d.1 < radius
  }

  /** The offsets of the square in loop order, each once. */
  function Square(radius: int): (r: seq<Cell>)
    ensures forall d :: d in r <==> InSquare(d, radius)
    ensures Distinct(r)
  {
    Box(-radius, radius, -radius, radius)
  }

  /**
   * The conditions a landscaping spot (dx, dz) must meet. Such a spot is
   * off the footprint and never under water.
   */
  predicate IsLandscapingSpot(terrain: Grid, water: Grid, a: Area, siteX: int, siteZ: int, width: int, length: int, base: int, d: Cell): (b: bool)
    ensures b ==> !((-width) / 2 <= d.0 <= width / 2 && (-length) / 2 <= d.1 <= length / 2)
    ensures b ==> !IsWaterSpot(water, a, siteX, siteZ, d)
  {
    var x, z := siteX + d.0, siteZ + d.1;
    && InArea(a, x, z)
    && !(Abs(d.0) < width / 2 + 2 && Abs(d.1) < length / 2 + 2)
    && (width / 2 + 2 <= Abs(d.0) <= width / 2 + 10 || length / 2 + 2 <= Abs(d.1) <= length / 2 + 10)
    && At(water, x, z) == 0
    && Abs(At(terrain, x, z) - base) < 3
  }

  /**
   * `landscaping`: the offsets in range(-radius, radius) squared that pass
   * every test, in loop order; none for the platform and tower styles.
   */
  function Landscaping(terrain: Grid, water: Grid, a: Area, siteX: int, siteZ: int, width: int, length: int, base: int, style: Style)
    : (r: seq<Cell>)
    ensures Distinct(r)
    ensures style == Platform || style == Tower ==> r == []
    ensures style != Platform && style != Tower ==> forall d :: d in r <==>
      InSquare(d, LocalRadius(width, length)) && IsLandscapingSpot(terrain, water, a, siteX, siteZ, width, length, base, d)
  {
    if style == Platform || style == Tower then []
    else
      Filter(Square(LocalRadius(width, length)),
        (d: Cell) => IsLandscapingSpot(terrain, water, a, siteX, siteZ, width, length, base, d))
  }

  /** Offset d is inside the slice and under water. */
  predicate IsWaterSpot(water: Grid, a: Area, siteX: int, siteZ: int, d: Cell) {
    InArea(a, siteX + d.0, siteZ + d.1) && At(water, siteX + d.0, siteZ + d.1) > 0
  }

  /** `water_features`: the offsets of the same square whose cell is in the slice and under water; none unless the site is near water. */
  function WaterFeatures(water: Grid, a: Area, siteX: int, siteZ: int, width: int, length: int, nearWater: bool)
    : (r: seq<Cell>)
    ensures Distinct(r)
    ensures !nearWater ==> r == []
    ensures nearWater ==> forall d :: d in r <==>
      InSquare(d, LocalRadius(width, length)) && IsWaterSpot(water, a, siteX, siteZ, d)
  {
    if !nearWater then []
    else Filter(Square(LocalRadius(width, length)), (d: Cell) => IsWaterSpot(water, a, siteX, siteZ, d))
  }

  /** No landscaping spot falls on a footprint cell of the building. */
  lemma LandscapingAvoidsFootprint(terrain: Grid, water: Grid, a: Area, siteX: int, siteZ: int, width: int, length: int, base: int, style: Style, d: Cell)
    requires (-width) / 2 <= d.0 <= width / 2 && (-length) / 2 <= d.1 <= length / 2
    ensures d !in Landscaping(terrain, water, a, siteX, siteZ, width, length, base, style)
  {
  }

  /** A cell is never both a garden spot and a water feature. */
  lemma LandscapingAndWaterDisjoint(terrain: Grid, water: Grid, a: Area, siteX: int, siteZ: int, width: int, length: int, base: int, style: Style, nearWater: bool, d: Cell)
    ensures !(d in Landscaping(terrain, water, a, siteX, siteZ, width, length, base, style)
              && d in WaterFeatures(water, a, siteX, siteZ, width, length, nearWater))
  {
  }

  // ---------------------------------------------------------------------
  // The whole plan

  /** The deterministic entries of the adaptation plan dictionary. */
  datatype Plan = Plan(mode: FoundationMode, baseHeight: int, centerOffset: Option<Cell>, landscaping: seq<Cell>, waterFeatures: seq<Cell>)

  /**
   * `create_terrain_adaptation_plan` without its random and floating-point
   * entries: the slice round the site, the footprint median, the foundation
   * mode, the peak recentring of an elevated tower, and the landscaping and
   * water-feature lists. `water` is the MOTION_BLOCKING_NO_LEAVES minus
   * OCEAN_FLOOR difference map. The landscaping test compares with the
   * footprint median, even where a peak later replaces `base_height`.
   */
  function PlanFor(terrain: Grid, water: Grid, rows: nat, cols: nat, siteX: int, siteZ: int, siteY: int,
                   width: int, length: int, site: SiteType, style: Style, nearWater: bool): (p: Plan)
    ensures p.mode == FoundationModeFor(site, style)
    ensures var a := LocalArea(rows, cols, siteX, siteZ, LocalRadius(width, length));
      && (p.centerOffset.Some? <==> site == Elevated && style == Tower && HighestPeak(terrain, a).Some?)
      && (p.centerOffset.Some? ==>
            var pk := HighestPeak(terrain, a).value;
            && siteX + p.centerOffset.value.0 == a.xMin + pk.i && siteZ + p.centerOffset.value.1 == a.zMin + pk.j
            && p.baseHeight == pk.height)
    ensures var a := LocalArea(rows, cols, siteX, siteZ, LocalRadius(width, length));
      var median := BaseHeight(terrain, a, siteX, siteZ, siteY, width, length);
      && (p.centerOffset.None? ==> p.baseHeight == median)
      && p.landscaping == Landscaping(terrain, water, a, siteX, siteZ, width, length, median, style)
      && p.waterFeatures == WaterFeatures(water, a, siteX, siteZ, width, length, nearWater)
  {
    var a := LocalArea(rows, cols, siteX, siteZ, LocalRadius(width, length));
    var median := BaseHeight(terrain, a, siteX, siteZ, siteY, width, length);
    var peak := if site == Elevated && style == Tower then PeakCenter(terrain, a, siteX, siteZ) else None;
    var base := if peak.Some? then peak.value.1 else median;
    var offset := if peak.Some? then Some(peak.value.0) else None;
    Plan(FoundationModeFor(site, style), base, offset,
         Landscaping(terrain, water, a, siteX, siteZ, width, length, median, style),
         WaterFeatures(water, a, siteX, siteZ, width, length, nearWater))
  }

  /**
   * Every garden spot of the plan is a cell of the slice round the site,
   * off the footprint, dry, and less than 3 blocks from the footprint
   * median that BaseHeight computes for that slice.
   */
  lemma PlanGardensNearMedian(terrain: Grid, water: Grid, rows: nat, cols: nat, siteX: int, siteZ: int, siteY: int,
                              width: int, length: int, site: SiteType, style: Style, nearWater: bool)
    ensures var radius := LocalRadius(width, length);
      var a := LocalArea(rows, cols, siteX, siteZ, radius);
      var median := BaseHeight(terrain, a, siteX, siteZ, siteY, width, length);
      forall d :: d in PlanFor(terrain, water, rows, cols, siteX, siteZ, siteY, width, length, site, style, nearWater).landscaping ==>
           && 0 <= siteX + d.0 < rows && 0 <= siteZ + d.1 < cols
           && siteX - radius <= siteX + d.0 < siteX + radius && siteZ - radius <= siteZ + d.1 < siteZ + radius
           && !((-width) / 2 <= d.0 <= width / 2 && (-length) / 2 <= d.1 <= length / 2)
           && At(water, siteX + d.0, siteZ + d.1) == 0
           && Abs(At(terrain, siteX + d.0, siteZ + d.1) - median) < 3
  {
    var radius := LocalRadius(width, length);
    var median := BaseHeight(terrain, LocalArea(rows, cols, siteX, siteZ, radius), siteX, siteZ, siteY, width, length);
    var p := PlanFor(terrain, water, rows, cols, siteX, siteZ, siteY, width, length, site, style, nearWater);
    forall d | d in p.landscaping
      ensures && 0 <= siteX + d.0 < rows && 0 <= siteZ + d.1 < cols
              && siteX - radius <= siteX + d.0 < siteX + radius && siteZ - radius <= siteZ + d.1 < siteZ + radius
              && !((-width) / 2 <= d.0 <= width / 2 && (-length) / 2 <= d.1 <= length / 2)
              && At(water, siteX + d.0, siteZ + d.1) == 0
              && Abs(At(terrain, siteX + d.0, siteZ + d.1) - median) < 3
    {
      PlanGardenSpot(terrain, water, rows, cols, siteX, siteZ, siteY, width, length, site, style, nearWater, d);
    }
  }

  /** One garden spot of the plan: the pointwise half of PlanGardensNearMedian. */
  lemma PlanGardenSpot(terrain: Grid, water: Grid, rows: nat, cols: nat, siteX: int, siteZ: int, siteY: int,
                       width: int, length: int, site: SiteType, style: Style, nearWater: bool, d: Cell)
    requires d in PlanFor(terrain, water, rows, cols, siteX, siteZ, siteY, width, length, site, style, nearWater).landscaping
    ensures var radius := LocalRadius(width, length);
      var median := BaseHeight(terrain, LocalArea(rows, cols, siteX, siteZ, radius), siteX, siteZ, siteY, width, length);
      && 0 <= siteX + d.0 < rows && 0 <= siteZ + d.1 < cols
      && siteX - radius <= siteX + d.0 < siteX + radius && siteZ - radius <= siteZ + d.1 < siteZ + radius
      && !((-width) / 2 <= d.0 <= width / 2 && (-length) / 2 <= d.1 <= length / 2)
      && At(water, siteX + d.0, siteZ + d.1) == 0
      && Abs(At(terrain, siteX + d.0, siteZ + d.1) - median) < 3
  {
    var radius := LocalRadius(width, length);
    var a := LocalArea(rows, cols, siteX, siteZ, radius);
    var median := BaseHeight(terrain, a, siteX, siteZ, siteY, width, length);
    assert IsLandscapingSpot(terrain, water, a, siteX, siteZ, width, length, median, d);
    assert InArea(a, siteX + d.0, siteZ + d.1);
  }
}
