/**
 * 2.py: the corner-spread site search `find_flat_area` and the wall cells of
 * `build_cottage`. Everything here is integer; the search is the first-minimum
 * scan with a stride of 2 blocks.
 */
module FlatArea {
  import opened Wrappers
  import opened Grids
  import opened WindowScan
  import opened Offsets

  /** Number of values of Python's `range(a, b, 2)`. */
  function Range2Count(a: int, b: int): (n: nat)
    ensures n == 0 <==> b <= a
    ensures forall i: int :: 0 <= i < n <==> 0 <= i && a + 2 * i < b
  {
    if b <= a then 0 else (b - a + 1) / 2
  }

  /** The heights of the four corners of the width-by-length rectangle at (x, z), read as `heights[(x - begin.x, z - begin.z)]`. */
  function CornerHeights(heights: Grid, beginX: int, beginZ: int, x: int, z: int, width: int, length: int): (c: seq<int>)
    ensures |c| == 4
  {
    var i, j := x - beginX, z - beginZ;
    [At(heights, i, j), At(heights, i + width, j), At(heights, i, j + length), At(heights, i + width, j + length)]
  }

  /** Largest of four heights. */
  function Max4(c: seq<int>): (v: int)
    requires |c| == 4
    ensures v in c && forall i :: 0 <= i < 4 ==> c[i] <= v
  {
    var a := if c[0] >= c[1] then c[0] else c[1];
    var b := if c[2] >= c[3] then c[2] else c[3];
    if a >= b then a else b
  }

  /** Smallest of four heights. */
  function Min4(c: seq<int>): (v: int)
    requires |c| == 4
    ensures v in c && forall i :: 0 <= i < 4 ==> v <= c[i]
  {
    var a := if c[0] <= c[1] then c[0] else c[1];
    var b := if c[2] <= c[3] then c[2] else c[3];
    if a <= b then a else b
  }

  /** The "variance" of 2.py: max - min of the four corner heights; zero exactly when the corners are level. */
  function Spread(c: seq<int>): (v: int)
    requires |c| == 4
    ensures v >= 0
    ensures v == 0 <==> c[0] == c[1] == c[2] == c[3]
    ensures forall i, j :: 0 <= i < 4 && 0 <= j < 4 ==> c[i] - c[j] <= v
  {
    Max4(c) - Min4(c)
  }

  /** The world x and z of the scan origin p: begin + 2 * index on each axis. */
  function SiteX(beginX: int, p: Pos): int { beginX + 2 * p.row }
  function SiteZ(beginZ: int, p: Pos): int { beginZ + 2 * p.col }

  /** The score of origin p: the corner spread of its candidate. */
  function CornerScore(heights: Grid, beginX: int, beginZ: int, width: int, length: int): Pos -> real {
    (p: Pos) => Spread(CornerHeights(heights, beginX, beginZ, SiteX(beginX, p), SiteZ(beginZ, p), width, length)) as real
  }

  /** Every candidate of the scan reads its four corners inside the heightmap. */
  lemma CornersInBounds(heights: Grid, beginX: int, beginZ: int, endX: int, endZ: int, width: nat, length: nat, p: Pos)
    requires IsGrid(heights, if endX < beginX then 0 else endX - beginX, if endZ < beginZ then 0 else endZ - beginZ)
    requires 0 <= p.row < Range2Count(beginX, endX - width) && 0 <= p.col < Range2Count(beginZ, endZ - length)
    ensures
      var i, j := SiteX(beginX, p) - beginX, SiteZ(beginZ, p) - beginZ;
      InGrid(heights, i, j) && InGrid(heights, i + width, j) && InGrid(heights, i, j + length) && InGrid(heights, i + width, j + length)
  {
  }

  /** An origin's world coordinates lie in the scanned ranges and give the origin back. */
  lemma SiteOfOrigin(beginX: int, beginZ: int, endX: int, endZ: int, width: nat, length: nat, p: Pos)
    requires 0 <= p.row < Range2Count(beginX, endX - width) && 0 <= p.col < Range2Count(beginZ, endZ - length)
    ensures (SiteX(beginX, p) - beginX) / 2 == p.row && (SiteZ(beginZ, p) - beginZ) / 2 == p.col
    ensures beginX <= SiteX(beginX, p) < endX - width && beginZ <= SiteZ(beginZ, p) < endZ - length
  {
    assert SiteX(beginX, p) - beginX == 2 * p.row;
    assert SiteZ(beginZ, p) - beginZ == 2 * p.col;
  }

  /**
   * (x, y, z) is what 2.py reports for the origin at (x, z): x and z lie on
   * the stride-2 grid inside the scanned ranges, the origin is the first of
   * strictly smallest corner spread, and y is its lowest corner.
   */
  ghost predicate IsFlatAreaSite(heights: Grid, beginX: int, beginZ: int, endX: int, endZ: int, width: nat, length: nat, x: int, y: int, z: int) {
    var p := Pos((x - beginX) / 2, (z - beginZ) / 2);
    && SiteX(beginX, p) == x && SiteZ(beginZ, p) == z
    && beginX <= x < endX - width && beginZ <= z < endZ - length
    && IsFirstMin(CornerScore(heights, beginX, beginZ, width, length), AnyOrigin(),
                  Range2Count(beginX, endX - width), Range2Count(beginZ, endZ - length),
                  End(Range2Count(beginX, endX - width)), p)
    && y == Min4(CornerHeights(heights, beginX, beginZ, x, z, width, length))
  }

  /** The scan's first minimum p, read back as world coordinates, is a flat-area site. */
  lemma OriginIsFlatAreaSite(heights: Grid, beginX: int, beginZ: int, endX: int, endZ: int, width: nat, length: nat, p: Pos)
    requires IsFirstMin(CornerScore(heights, beginX, beginZ, width, length), AnyOrigin(),
                        Range2Count(beginX, endX - width), Range2Count(beginZ, endZ - length),
                        End(Range2Count(beginX, endX - width)), p)
    ensures
      var x, z := SiteX(beginX, p), SiteZ(beginZ, p);
      IsFlatAreaSite(heights, beginX, beginZ, endX, endZ, width, length, x, Min4(CornerHeights(heights, beginX, beginZ, x, z, width, length)), z)
  {
    SiteOfOrigin(beginX, beginZ, endX, endZ, width, length, p);
    assert Pos((SiteX(beginX, p) - beginX) / 2, (SiteZ(beginZ, p) - beginZ) / 2) == p;
  }

  /**
   * `find_flat_area`: scan x over range(begin.x, end.x - width, 2) and, for
   * each, z over range(begin.z, end.z - length, 2); keep the first candidate
   * of strictly smallest corner spread and report (x, lowest corner, z).
   * None exactly when there is no candidate. The heightmap is the world
   * slice of the build rectangle, so it covers end - begin on each axis.
   */
  function FindFlatArea(heights: Grid, beginX: int, beginZ: int, endX: int, endZ: int, width: nat, length: nat)
    : (r: Option<(int, int, int)>)
    requires IsGrid(heights, if endX < beginX then 0 else endX - beginX, if endZ < beginZ then 0 else endZ - beginZ)
    ensures r.None? <==> endX - width <= beginX || endZ - length <= beginZ
    ensures r.Some? ==> IsFlatAreaSite(heights, beginX, beginZ, endX, endZ, width, length, r.value.0, r.value.1, r.value.2)
  {
    var nx, nz := Range2Count(beginX, endX - width), Range2Count(beginZ, endZ - length);
    var score := CornerScore(heights, beginX, beginZ, width, length);
    match FirstMin(score, AnyOrigin(), nx, nz)
    case None =>
      assert nx > 0 && nz > 0 ==> Visited(Pos(0, 0), nx, nz, End(nx));
      None
    case Some(p) =>
      var x, z := SiteX(beginX, p), SiteZ(beginZ, p);
      OriginIsFlatAreaSite(heights, beginX, beginZ, endX, endZ, width, length, p);
      Some((x, Min4(CornerHeights(heights, beginX, beginZ, x, z, width, length)), z))
  }

  /** 2.py admits every candidate. */
  function AnyOrigin(): Pos -> bool {
    (p: Pos) => true
  }

  /** Whether `build_cottage` places a wall block at offset (dx, dz) on layer dy: on the rectangle's border, except the two-high door gap at (width // 2, 0). */
  predicate IsWallCell(dx: int, dz: int, dy: int, width: int, length: int) {
    && !(dy < 2 && dx == width / 2 && dz == 0)
    && (dx == 0 || dx == width - 1 || dz == 0 || dz == length - 1)
  }

  /** The wall cells of layer dy in the order `build_cottage` places them. */
  function WallCells(width: int, length: int, dy: int): (r: seq<Cell>)
    ensures Distinct(r)
    ensures forall c :: c in r <==> 0 <= c.0 < width && 0 <= c.1 < length && IsWallCell(c.0, c.1, dy, width, length)
  {
    Filter(Box(0, width, 0, length), (c: Cell) => IsWallCell(c.0, c.1, dy, width, length))
  }

  /**
   * The wall of a layer is the border of the footprint, less the door gap on
   * the two lowest layers: a cell inside the footprint is a wall cell iff it
   * is on the border and is not the door.
   */
  lemma WallIsBorderLessDoor(width: int, length: int, dy: int, dx: int, dz: int)
    requires 0 <= dx < width && 0 <= dz < length
    ensures (dx, dz) in WallCells(width, length, dy) <==>
      (dx == 0 || dx == width - 1 || dz == 0 || dz == length - 1) && !(dy < 2 && (dx, dz) == (width / 2, 0))
  {
  }

  /** The door cell lies on the front wall, so the gap is the only cell of the border left open. */
  lemma DoorGapOnlyOnLowLayers(width: int, length: int, dy: int)
    requires width >= 1 && length >= 1
    ensures (width / 2, 0) in WallCells(width, length, dy) <==> dy >= 2
  {
  }
}
