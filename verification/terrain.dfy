/**
 * The terrain survey both extreme.py and highend.py take around a house:
 * every world position (xaxis + dx, zaxis + dz) with dx in
 * range(-width // 2 - 3, width // 2 + 4) and dz likewise for the length,
 * kept when it falls inside the height map whose corner is (STARTX, STARTZ).
 */
module Terrain {
  import opened Grids
  import opened Offsets

  /** The house centre, its size, and the extent of the height map. */
  datatype Survey = Survey(xaxis: int, zaxis: int, width: int, length: int, startX: int, startZ: int, rows: nat, cols: nat)

  /** d in range(-size // 2 - 3, size // 2 + 4): the footprint padded by three blocks. */
  predicate InPadded(d: int, size: int) {
    (-size) / 2 - 3 <= d < size / 2 + 4
  }

  /** The height-map indices of world position c. */
  function Local(s: Survey, c: Cell): Cell {
    (c.0 - s.startX, c.1 - s.startZ)
  }

  /** World position c lies in the padded footprint and inside the height map. */
  predicate Surveyed(s: Survey, c: Cell) {
    && InPadded(c.0 - s.xaxis, s.width)
    && InPadded(c.1 - s.zaxis, s.length)
    && 0 <= Local(s, c).0 < s.rows
    && 0 <= Local(s, c).1 < s.cols
  }

  /**
   * The nested survey loop that fills a dictionary keyed by world position:
   * exactly the surveyed positions get an entry, and each entry is computed
   * from the height-map indices of its position.
   */
  method SurveyMap<V>(s: Survey, value: Cell -> V) returns (m: map<Cell, V>)
    ensures forall c :: c in m <==> Surveyed(s, c)
    ensures forall c :: c in m ==> m[c] == value(Local(s, c))
  {
    m := map[];
    var x0, x1 := (-s.width) / 2 - 3, s.width / 2 + 4;
    var z0, z1 := (-s.length) / 2 - 3, s.length / 2 + 4;
    var dx := x0;
    while dx < x1
      invariant x0 <= dx && (x0 <= x1 ==> dx <= x1)
      invariant forall c :: c in m <==> Surveyed(s, c) && c.0 - s.xaxis < dx
      invariant forall c :: c in m ==> m[c] == value(Local(s, c))
    {
      var dz := z0;
      while dz < z1
        invariant z0 <= dz && (z0 <= z1 ==> dz <= z1)
        invariant forall c :: c in m <==> Surveyed(s, c) && (c.0 - s.xaxis < dx || (c.0 - s.xaxis == dx && c.1 - s.zaxis < dz))
        invariant forall c :: c in m ==> m[c] == value(Local(s, c))
      {
        var c := (s.xaxis + dx, s.zaxis + dz);
        if 0 <= c.0 - s.startX < s.rows && 0 <= c.1 - s.startZ < s.cols {
          m := m[c := value(Local(s, c))];
        }
        dz := dz + 1;
      }
      dx := dx + 1;
    }
  }

  /** The surveyed positions in loop order (dx outer, dz inner), each once. */
  function SurveyedCells(s: Survey): (r: seq<Cell>)
    ensures forall c :: c in r <==> Surveyed(s, c)
    ensures Distinct(r)
  {
    var box := Box(s.xaxis + (-s.width) / 2 - 3, s.xaxis + s.width / 2 + 4, s.zaxis + (-s.length) / 2 - 3, s.zaxis + s.length / 2 + 4);
    Filter(box, (c: Cell) => Surveyed(s, c))
  }

  /** The height-map value under world position c. */
  function HeightUnder(heights: Grid, s: Survey, c: Cell): int {
    At(heights, Local(s, c).0, Local(s, c).1)
  }
}
