/**
 * The position lists of new_cottage.py and cozy_cottage.py: the windows and
 * the door of `add_details`, the fence ring, lanterns and gates of
 * `add_fence`, the entrance path of `add_path`, and the target height that
 * cozy_cottage.py's `level_terrain` levels to. A cottage occupies x in
 * [start.x, start.x + width] and z in [start.z, start.z + length].
 */
module Cottage {
  import opened Grids
  import opened Offsets
  import opened Sorting

  // ---------------------------------------------------------------------
  // add_details: windows and door

  /** The cells (x0, z + o) and (x1, z + o) for each offset o, in that order. */
  function PairsAlongZ(x0: int, x1: int, z: int, offsets: seq<int>): (r: seq<Cell>)
    ensures forall c :: c in r <==> (c.0 == x0 || c.0 == x1) && c.1 - z in offsets
  {
    if |offsets| == 0 then []
    else [(x0, z + offsets[0]), (x1, z + offsets[0])] + PairsAlongZ(x0, x1, z, offsets[1..])
  }

  /** The cells (x + o, z0) and (x + o, z1) for each offset o, in that order. */
  function PairsAlongX(z0: int, z1: int, x: int, offsets: seq<int>): (r: seq<Cell>)
    ensures forall c :: c in r <==> (c.1 == z0 || c.1 == z1) && c.0 - x in offsets
  {
    if |offsets| == 0 then []
    else [(x + offsets[0], z0), (x + offsets[0], z1)] + PairsAlongX(z0, z1, x, offsets[1..])
  }

  /** The offsets 2, 5, 8, ... below `size - 1` at which a wall of that size gets a window. */
  predicate WindowOffset(o: int, size: int) {
    2 <= o < size - 1 && (o - 2) % 3 == 0
  }

  /** range(2, size - 1, 3): the window offsets of a wall, in order. */
  function WindowOffsets(size: int): (r: seq<int>)
    ensures forall o :: o in r <==> WindowOffset(o, size)
  {
    Range(2, size - 1, 3)
  }

  /**
   * `window_positions` of `add_details`: left and right side windows at
   * z offsets range(2, length - 1, 3), then front and back windows at
   * x offsets range(2, width - 1, 3).
   */
  function WindowPositions(startX: int, startZ: int, width: int, length: int): (r: seq<Cell>)
    ensures forall c :: c in r <==>
      || ((c.0 == startX || c.0 == startX + width) && WindowOffset(c.1 - startZ, length))
      || ((c.1 == startZ || c.1 == startZ + length) && WindowOffset(c.0 - startX, width))
  {
    var sides := PairsAlongZ(startX, startX + width, startZ, WindowOffsets(length));
    var ends := PairsAlongX(startZ, startZ + length, startX, WindowOffsets(width));
    assert forall c :: c in sides + ends <==> c in sides || c in ends;
    sides + ends
  }

  /**
   * The door cell (start.x, start.z + length // 2): on the x = start.x wall,
   * the one the side-window loop calls the left wall, halfway along it.
   */
  function Door(startX: int, startZ: int, length: int): (d: Cell)
    ensures d.0 == startX
    ensures length >= 0 ==> 2 * (d.1 - startZ) <= length < 2 * (d.1 - startZ) + 2
    ensures length >= 2 ==> startZ < d.1 < startZ + length
  {
    (startX, startZ + length / 2)
  }

  /** The window positions that get glass panes and a trapdoor: all but the door cell. */
  function GlazedWindows(startX: int, startZ: int, width: int, length: int): (r: seq<Cell>)
    ensures Door(startX, startZ, length) !in r
    ensures forall c :: c in r <==> c in WindowPositions(startX, startZ, width, length) && c != Door(startX, startZ, length)
  {
    Filter(WindowPositions(startX, startZ, width, length), (c: Cell) => c != Door(startX, startZ, length))
  }

  /**
   * The door cell coincides with a window position exactly when half the
   * length is itself a window offset, so the skip in `add_details` matters
   * for lengths such as 16.
   */
  lemma DoorIsWindowIff(startX: int, startZ: int, width: int, length: int)
    ensures Door(startX, startZ, length) in WindowPositions(startX, startZ, width, length) <==> WindowOffset(length / 2, length)
  {
  }

  /**
   * For lengths 4, 5, 10, 11, 16, 17, ... (half the length is 2 more than a
   * multiple of 3) the door cell is a side-window position, and it gets no
   * glass.
   */
  lemma DoorSkippedOnWindowLengths(startX: int, startZ: int, width: int, length: int)
    requires length >= 4 && (length / 2) % 3 == 2
    ensures Door(startX, startZ, length) in WindowPositions(startX, startZ, width, length)
    ensures Door(startX, startZ, length) !in GlazedWindows(startX, startZ, width, length)
  {
    DoorIsWindowIff(startX, startZ, width, length);
    assert WindowOffset(length / 2, length);
  }

  /** The trapdoor facing chosen for window cell c by the if-chain of `add_details`. */
  function TrapdoorFacing(startX: int, startZ: int, width: int, length: int, c: Cell): (f: Facing)
    ensures forall w :: width > 0 && length > 0 && OnWall(startX, startZ, width, length, c, w) ==> f == WallFacing(w)
  {
    if c.1 == startZ then South
    else if c.1 == startZ + length then North
    else if c.0 == startX then East
    else if c.0 == startX + width then West
    else North
  }

  /** The four walls of the cottage. */
  datatype Wall = FrontWall | BackWall | LeftWall | RightWall

  /** Cell c lies strictly between the corners of wall w. */
  predicate OnWall(startX: int, startZ: int, width: int, length: int, c: Cell, w: Wall) {
    match w
    case FrontWall => c.1 == startZ && startX < c.0 < startX + width
    case BackWall => c.1 == startZ + length && startX < c.0 < startX + width
    case LeftWall => c.0 == startX && startZ < c.1 < startZ + length
    case RightWall => c.0 == startX + width && startZ < c.1 < startZ + length
  }

  /** The facing the trapdoor if-chain of `add_details` gives each wall; every one points into the house. */
  function WallFacing(w: Wall): Facing {
    match w
    case FrontWall => South
    case BackWall => North
    case LeftWall => East
    case RightWall => West
  }

  /**
   * Every window lies strictly inside exactly one wall, never at a corner,
   * and its trapdoor gets that wall's facing.
   */
  lemma WindowFacingMatchesWall(startX: int, startZ: int, width: int, length: int, c: Cell)
    requires width > 0 && length > 0
    requires c in WindowPositions(startX, startZ, width, length)
    ensures exists w :: OnWall(startX, startZ, width, length, c, w)
    ensures forall w :: OnWall(startX, startZ, width, length, c, w) ==>
      TrapdoorFacing(startX, startZ, width, length, c) == WallFacing(w)
    ensures forall w, w' :: OnWall(startX, startZ, width, length, c, w) && OnWall(startX, startZ, width, length, c, w') ==> w == w'
  {
    if c.1 == startZ && WindowOffset(c.0 - startX, width) {
      assert OnWall(startX, startZ, width, length, c, FrontWall);
    } else if c.1 == startZ + length && WindowOffset(c.0 - startX, width) {
      assert OnWall(startX, startZ, width, length, c, BackWall);
    } else if c.0 == startX {
      assert OnWall(startX, startZ, width, length, c, LeftWall);
    } else {
      assert OnWall(startX, startZ, width, length, c, RightWall);
    }
  }

  // ---------------------------------------------------------------------
  // add_fence and add_path

  /** Distance from the house to the fence on every side. */
  const FenceMargin := 4

  /** The fence rectangle: x in [start.x - 4, start.x + width + 4], z in [start.z - 4, start.z + length + 4]. */
  function FenceStartX(startX: int): int { startX - FenceMargin }
  function FenceStartZ(startZ: int): int { startZ - FenceMargin }
  function FenceEndX(startX: int, width: int): int { startX + width + FenceMargin }
  function FenceEndZ(startZ: int, length: int): int { startZ + length + FenceMargin }

  /** Cell c is on the border of the rectangle [x0, x1] by [z0, z1]. */
  predicate OnBorder(c: Cell, x0: int, x1: int, z0: int, z1: int) {
    && x0 <= c.0 <= x1 && z0 <= c.1 <= z1
    && (c.0 == x0 || c.0 == x1 || c.1 == z0 || c.1 == z1)
  }

  /**
   * The cells the four fence loops visit, before the bounds test: the
   * front and back rows with their corners, then the left and right
   * columns without them. Each border cell of the fence rectangle is
   * visited exactly once.
   */
  function FenceRing(startX: int, startZ: int, width: nat, length: nat): (r: seq<Cell>)
    ensures Distinct(r)
    ensures forall c :: c in r <==>
      OnBorder(c, FenceStartX(startX), FenceEndX(startX, width), FenceStartZ(startZ), FenceEndZ(startZ, length))
  {
    var x0, x1 := FenceStartX(startX), FenceEndX(startX, width);
    var z0, z1 := FenceStartZ(startZ), FenceEndZ(startZ, length);
    var front, back := Box(x0, x1 + 1, z0, z0 + 1), Box(x0, x1 + 1, z1, z1 + 1);
    var left, right := Column(x0, z0 + 1, z1), Column(x1, z0 + 1, z1);
    DistinctConcat(front, back);
    DistinctConcat(front + back, left);
    DistinctConcat(front + back + left, right);
    front + back + left + right
  }

  /**
   * The fence and gate loops read `heightmap[(z - STARTZ, x - STARTX)]` and
   * skip a cell unless 0 <= x - STARTX < len(heightmap[0]) and
   * 0 <= z - STARTZ < len(heightmap).
   */
  predicate InSliceZX(rows: int, cols: int, originX: int, originZ: int, c: Cell) {
    0 <= c.0 - originX < cols && 0 <= c.1 - originZ < rows
  }

  /** The cells that get a fence post, in the order they are placed. */
  function FencePosts(rows: int, cols: int, originX: int, originZ: int, startX: int, startZ: int, width: nat, length: nat)
    : (r: seq<Cell>)
    ensures Distinct(r)
    ensures forall c :: c in r <==>
      && OnBorder(c, FenceStartX(startX), FenceEndX(startX, width), FenceStartZ(startZ), FenceEndZ(startZ, length))
      && InSliceZX(rows, cols, originX, originZ, c)
  {
    Filter(FenceRing(startX, startZ, width, length), (c: Cell) => InSliceZX(rows, cols, originX, originZ, c))
  }

  /** The height a fence post at cell c stands on. */
  function PostHeight(heightmap: Grid, originX: int, originZ: int, c: Cell): (y: int)
    ensures InGrid(heightmap, c.1 - originZ, c.0 - originX) ==> y == heightmap[c.1 - originZ][c.0 - originX]
  {
    At(heightmap, c.1 - originZ, c.0 - originX)
  }

  /** Every fence post reads its height inside the heightmap. */
  lemma PostsReadInside(heightmap: Grid, rows: nat, cols: nat, originX: int, originZ: int, startX: int, startZ: int, width: nat, length: nat, c: Cell)
    requires IsGrid(heightmap, rows, cols)
    requires c in FencePosts(rows, cols, originX, originZ, startX, startZ, width, length)
    ensures InGrid(heightmap, c.1 - originZ, c.0 - originX)
    ensures PostHeight(heightmap, originX, originZ, c) == heightmap[c.1 - originZ][c.0 - originX]
  {
  }

  /** The lantern cells: posts of the front and back rows at x = fence start or fence end, i.e. the four corners. */
  function Lanterns(rows: int, cols: int, originX: int, originZ: int, startX: int, startZ: int, width: nat, length: nat)
    : (r: seq<Cell>)
    ensures forall c :: c in r <==>
      && (c.0 == FenceStartX(startX) || c.0 == FenceEndX(startX, width))
      && (c.1 == FenceStartZ(startZ) || c.1 == FenceEndZ(startZ, length))
      && InSliceZX(rows, cols, originX, originZ, c)
  {
    var x0, x1 := FenceStartX(startX), FenceEndX(startX, width);
    var z0, z1 := FenceStartZ(startZ), FenceEndZ(startZ, length);
    var rows2 := Box(x0, x1 + 1, z0, z0 + 1) + Box(x0, x1 + 1, z1, z1 + 1);
    Filter(rows2, (c: Cell) => (c.0 == x0 || c.0 == x1) && InSliceZX(rows, cols, originX, originZ, c))
  }

  /** The front and back gate cells, each kept only when it is inside the slice. */
  function Gates(rows: int, cols: int, originX: int, originZ: int, startX: int, startZ: int, width: nat, length: nat)
    : (r: seq<Cell>)
    ensures forall c :: c in r <==>
      c.0 == startX + width / 2 && (c.1 == FenceStartZ(startZ) || c.1 == FenceEndZ(startZ, length))
      && InSliceZX(rows, cols, originX, originZ, c)
  {
    var gx := startX + width / 2;
    Filter([(gx, FenceStartZ(startZ)), (gx, FenceEndZ(startZ, length))],
      (c: Cell) => InSliceZX(rows, cols, originX, originZ, c))
  }

  /** Each gate replaces a post of the front or back fence: it stands on a cell that gets a fence post. */
  lemma GatesArePosts(rows: int, cols: int, originX: int, originZ: int, startX: int, startZ: int, width: nat, length: nat, c: Cell)
    requires c in Gates(rows, cols, originX, originZ, startX, startZ, width, length)
    ensures c in FencePosts(rows, cols, originX, originZ, startX, startZ, width, length)
  {
    assert OnBorder(c, FenceStartX(startX), FenceEndX(startX, width), FenceStartZ(startZ), FenceEndZ(startZ, length));
  }

  /** The path column start.x + width // 2 at row z is inside the slice. */
  predicate PathRowInside(rows: int, cols: int, originX: int, originZ: int, startX: int, width: int, z: int) {
    InSliceZX(rows, cols, originX, originZ, (startX + width / 2, z))
  }

  /**
   * `add_path`: for z in range(fence_z, start.z), when (path_x, z) is
   * inside the slice, two cobblestones at path_x and path_x - 1, where
   * path_x = start.x + width // 2. Only path_x is compared with the slice bounds.
   */
  function PathCells(rows: int, cols: int, originX: int, originZ: int, startX: int, startZ: int, width: int, fenceZ: int)
    : (r: seq<Cell>)
    ensures forall c :: c in r <==>
      var px := startX + width / 2;
      && (c.0 == px || c.0 == px - 1)
      && fenceZ <= c.1 < startZ
      && InSliceZX(rows, cols, originX, originZ, (px, c.1))
    ensures |r| <= 2 * (if startZ <= fenceZ then 0 else startZ - fenceZ)
    ensures (forall z :: fenceZ <= z < startZ ==> PathRowInside(rows, cols, originX, originZ, startX, width, z)) ==>
      |r| == 2 * (if startZ <= fenceZ then 0 else startZ - fenceZ)
    decreases startZ - fenceZ
  {
    var px := startX + width / 2;
    if startZ <= fenceZ then []
    else
      var rest := PathCells(rows, cols, originX, originZ, startX, startZ, width, fenceZ + 1);
      if PathRowInside(rows, cols, originX, originZ, startX, width, fenceZ) then [(px, fenceZ), (px - 1, fenceZ)] + rest
      else rest
  }

  /**
   * With the fence row `add_fence` returns, the path covers z from
   * start.z - 4 to start.z - 1: exactly four rows of two blocks when the
   * path column is inside the slice.
   */
  lemma PathIsFourRows(rows: int, cols: int, originX: int, originZ: int, startX: int, startZ: int, width: int)
    ensures forall c :: c in PathCells(rows, cols, originX, originZ, startX, startZ, width, FenceStartZ(startZ)) ==>
      startZ - 4 <= c.1 <= startZ - 1
    ensures (forall z :: startZ - 4 <= z < startZ ==> PathRowInside(rows, cols, originX, originZ, startX, width, z)) ==>
      |PathCells(rows, cols, originX, originZ, startX, startZ, width, FenceStartZ(startZ))| == 8
  {
  }

  // ---------------------------------------------------------------------
  // level_terrain (cozy_cottage.py)

  /** The half-extents the leveling loops use: range(-(w + 4) // 2, (w + 4) // 2 + 1), Python floor division. */
  function LevelLow(size: int): int { (-(size + 4)) / 2 }
  function LevelHigh(size: int): int { (size + 4) / 2 }

  /** (dx, dz) is on the perimeter the leveling test keeps. */
  predicate OnLevelPerimeter(width: int, length: int, d: Cell) {
    d.0 == LevelLow(width) || d.0 == LevelHigh(width) || d.1 == LevelLow(length) || d.1 == LevelHigh(length)
  }

  /** The offsets the perimeter loop keeps, in loop order. */
  function PerimeterOffsets(width: int, length: int): (r: seq<Cell>)
    ensures Distinct(r)
    ensures forall d :: d in r <==>
      LevelLow(width) <= d.0 <= LevelHigh(width) && LevelLow(length) <= d.1 <= LevelHigh(length)
      && OnLevelPerimeter(width, length, d)
  {
    Filter(Box(LevelLow(width), LevelHigh(width) + 1, LevelLow(length), LevelHigh(length) + 1),
      (d: Cell) => OnLevelPerimeter(width, length, d))
  }

  /** `level_terrain` reads `heights[(x - STARTX, z - STARTZ)]` when 0 <= x - STARTX < len(heights) and 0 <= z - STARTZ < len(heights[0]). */
  predicate InSliceXZ(rows: int, cols: int, originX: int, originZ: int, c: Cell) {
    0 <= c.0 - originX < rows && 0 <= c.1 - originZ < cols
  }

  /** The perimeter offsets whose world cell is inside the slice. */
  function InsidePerimeter(rows: int, cols: int, originX: int, originZ: int, startX: int, startZ: int, width: int, length: int)
    : (r: seq<Cell>)
    ensures forall d :: d in r <==> d in PerimeterOffsets(width, length) && InSliceXZ(rows, cols, originX, originZ, (startX + d.0, startZ + d.1))
  {
    var ps := PerimeterOffsets(width, length);
    var r := Filter(ps, (d: Cell) => InSliceXZ(rows, cols, originX, originZ, (startX + d.0, startZ + d.1)));
    assert forall d :: d in r <==> d in ps && InSliceXZ(rows, cols, originX, originZ, (startX + d.0, startZ + d.1));
    r
  }

  /** `perimeter_heights`: the heights of the inside perimeter cells, in loop order. */
  function PerimeterHeights(heights: Grid, rows: nat, cols: nat, originX: int, originZ: int, startX: int, startZ: int, width: int, length: int)
    : (r: seq<int>)
    requires IsGrid(heights, rows, cols)
    ensures var ds := InsidePerimeter(rows, cols, originX, originZ, startX, startZ, width, length);
      |r| == |ds| &&
      forall i :: 0 <= i < |ds| ==> r[i] == heights[startX + ds[i].0 - originX][startZ + ds[i].1 - originZ]
  {
    var ds := InsidePerimeter(rows, cols, originX, originZ, startX, startZ, width, length);
    assert forall i :: 0 <= i < |ds| ==> ds[i] in ds;
    Map(ds, (d: Cell) => At(heights, startX + d.0 - originX, startZ + d.1 - originZ))
  }

  /**
   * The height `level_terrain` levels to: y itself when no perimeter cell
   * is inside the slice, otherwise sorted(perimeter_heights)[n // 2], a
   * perimeter height with at least n // 2 + 1 heights at most it and at
   * least n - n // 2 heights at least it.
   */
  function LevelTarget(heights: Grid, rows: nat, cols: nat, originX: int, originZ: int, startX: int, startZ: int, y: int, width: int, length: int)
    : (t: int)
    requires IsGrid(heights, rows, cols)
    ensures var hs := PerimeterHeights(heights, rows, cols, originX, originZ, startX, startZ, width, length);
      && (|hs| == 0 ==> t == y)
      && (|hs| > 0 ==> t in hs && CountLe(hs, t) >= |hs| / 2 + 1 && CountGe(hs, t) >= |hs| - |hs| / 2)
  {
    var hs := PerimeterHeights(heights, rows, cols, originX, originZ, startX, startZ, width, length);
    if |hs| == 0 then y else UpperMiddle(hs)
  }

  /** The leveling perimeter lies two blocks outside the footprint: an odd extent reaches one block further on the low side. */
  lemma PerimeterExtent(width: nat)
    ensures LevelHigh(width) == width / 2 + 2
    ensures LevelLow(width) == -LevelHigh(width) - (width % 2)
  {
  }
}
