/**
 * extreme.py, `build_foundation`: the terrain-adjustment dictionary, the
 * stilt positions of the stilts mode and the front-to-back tier bands of
 * the embedded mode. Offsets are from the house centre; `-v // k` is
 * `(-v) / k`.
 */
module Foundation {
  import opened Wrappers
  import opened Grids
  import opened Offsets
  import opened Terrain

  // ---------------------------------------------------------------------
  // Adjustments

  /** One entry of the adjustments dictionary. */
  datatype Adjustment = Adjustment(adjustment: int, isWater: bool, origHeight: int)

  /**
   * The adjustments dictionary: one entry per surveyed position, holding
   * the ground height there, how far the floor level y lies above it, and
   * whether the surface is above the ocean floor there (water).
   */
  method Adjustments(heights: Grid, oceanFloor: Grid, s: Survey, y: int) returns (m: map<Cell, Adjustment>)
    requires IsGrid(heights, s.rows, s.cols) && IsGrid(oceanFloor, s.rows, s.cols)
    ensures forall c :: c in m <==> Surveyed(s, c)
    ensures forall c :: c in m ==>
      && m[c].origHeight == HeightUnder(heights, s, c)
      && m[c].adjustment + m[c].origHeight == y
      && (m[c].isWater <==> HeightUnder(heights, s, c) > HeightUnder(oceanFloor, s, c))
  {
    var diff := Diff(heights, oceanFloor, s.rows, s.cols);
    m := SurveyMap(s, (l: Cell) => Adjustment(y - At(heights, l.0, l.1), At(diff, l.0, l.1) > 0, At(heights, l.0, l.1)));
  }

  // ---------------------------------------------------------------------
  // Stilt positions

  /** `max(2, size // 6)`: the stride of the boundary stilts. */
  function BoundaryStep(size: int): (k: int)
    ensures k >= 2 && k >= size / 6
    ensures k == 2 || k == size / 6
  {
    if size / 6 > 2 then size / 6 else 2
  }

  /** Offset c lies on one of the four edges of the footprint. */
  predicate OnFootprintEdge(c: Cell, width: int, length: int) {
    c.0 == (-width) / 2 || c.0 == width / 2 || c.1 == (-length) / 2 || c.1 == length / 2
  }

  /** v is visited by range(-size // 2, size // 2 + 1, max(2, size // 6)). */
  predicate OnBoundaryStride(v: int, size: int) {
    (-size) / 2 <= v <= size / 2 && (v - (-size) / 2) % BoundaryStep(size) == 0
  }

  /**
   * The boundary stilts: the stride grid over the footprint, kept where the
   * offset lies on an edge. Every one lies inside the footprint on an edge;
   * none is listed twice.
   */
  function BoundaryStilts(width: int, length: int): (r: seq<Cell>)
    ensures Distinct(r)
    ensures forall c :: c in r <==> OnBoundaryStride(c.0, width) && OnBoundaryStride(c.1, length) && OnFootprintEdge(c, width, length)
  {
    var xs := Range((-width) / 2, width / 2 + 1, BoundaryStep(width));
    var zs := Range((-length) / 2, length / 2 + 1, BoundaryStep(length));
    IncreasingDistinct(xs);
    IncreasingDistinct(zs);
    Filter(Pairs(xs, zs), (c: Cell) => OnFootprintEdge(c, width, length))
  }

  /** The near corner is always a stilt. */
  lemma NearCornerIsStilt(width: int, length: int)
    requires width >= 0 && length >= 0
    ensures ((-width) / 2, (-length) / 2) in BoundaryStilts(width, length)
  {
    assert 0 % BoundaryStep(width) == 0 && 0 % BoundaryStep(length) == 0;
  }

  /**
   * The far corner is a stilt only when the stride divides both dimensions:
   * the footprint spans exactly `size` blocks from -size // 2 to size // 2.
   */
  lemma FarCornerIsStiltIff(width: int, length: int)
    requires width >= 0 && length >= 0
    ensures (width / 2, length / 2) in BoundaryStilts(width, length)
      <==> width % BoundaryStep(width) == 0 && length % BoundaryStep(length) == 0
  {
    assert width / 2 - (-width) / 2 == width;
    assert length / 2 - (-length) / 2 == length;
  }

  /** For a 13-wide house the stride is 2 from -7, so no stilt stands at dx = 6 and the east corners are missed. */
  lemma Width13MissesEastEdge(length: int)
    ensures BoundaryStep(13) == 2
    ensures forall c :: c in BoundaryStilts(13, length) ==> c.0 != 6
  {
    assert (6 - (-7)) % 2 == 1;
  }

  /** Why the stilt list cannot be produced. */
  datatype StiltError = ZeroStep  // `range(..., 0)` raises ValueError

  /** v is visited by range(-size // 4, size // 4 + 1, size // 4) for a positive step. */
  predicate OnInternalStride(v: int, size: int)
    requires size / 4 > 0
  {
    (-size) / 4 <= v <= size / 4 && (v - (-size) / 4) % (size / 4) == 0
  }

  /** The quarter-stride grid of internal stilts, each offset once. */
  function InternalStilts(width: int, length: int): (r: seq<Cell>)
    requires width / 4 > 0 && length / 4 > 0
    ensures Distinct(r)
    ensures forall c :: c in r <==> OnInternalStride(c.0, width) && OnInternalStride(c.1, length)
  {
    var xs := Range((-width) / 4, width / 4 + 1, width / 4);
    var zs := Range((-length) / 4, length / 4 + 1, length / 4);
    IncreasingDistinct(xs);
    IncreasingDistinct(zs);
    Pairs(xs, zs)
  }

  /**
   * The stilt list of the stilts mode: the boundary stilts, then for a house
   * wider or longer than 10 the quarter-stride grid, each appended only if
   * not yet listed. A house over 10 in one dimension but under 4 in the
   * other has a zero step and `range` raises ValueError.
   */
  function StiltPositions(width: int, length: int): (r: Result<seq<Cell>, StiltError>)
    requires width >= 0 && length >= 0
    ensures r.Failure? <==> (width > 10 || length > 10) && (width < 4 || length < 4)
    ensures r.Success? ==>
      && Distinct(r.value)
      && |r.value| >= |BoundaryStilts(width, length)|
      && r.value[..|BoundaryStilts(width, length)|] == BoundaryStilts(width, length)
    ensures r.Success? ==> forall c :: c in r.value <==>
      || c in BoundaryStilts(width, length)
      || ((width > 10 || length > 10) && OnInternalStride(c.0, width) && OnInternalStride(c.1, length))
  {
    var boundary := BoundaryStilts(width, length);
    if !(width > 10 || length > 10) then Success(boundary)
    else if width / 4 == 0 || length / 4 == 0 then Failure(ZeroStep)
    else Success(AppendNew(boundary, InternalStilts(width, length)))
  }

  // ---------------------------------------------------------------------
  // Tier bands

  /** The start of band t when [lo, lo + span) is cut into T bands: lo + t * span // T. */
  function BandStart(lo: int, span: int, t: int, bands: int): int
    requires bands >= 1
  {
    lo + (t * span) / bands
  }

  /** d lies in band t: BandStart(t) <= d < BandStart(t + 1). */
  predicate InBand(d: int, lo: int, span: int, t: int, bands: int)
    requires bands >= 1
  {
    BandStart(lo, span, t, bands) <= d < BandStart(lo, span, t + 1, bands)
  }

  /** Floor division by a positive number is monotone. */
  lemma DivMono(x: int, y: int, k: int)
    requires k > 0 && x <= y
    ensures x / k <= y / k
  {
    if x / k > y / k {
      MulNonNeg(k, x / k - y / k - 1);
    }
  }

  /** Multiplying by a positive k and floor-dividing by k gives the value back. */
  lemma DivExact(span: int, k: int)
    requires k > 0
    ensures (k * span) / k == span
  {
    var q := (k * span) / k;
    assert k * span == k * q + (k * span) % k;
    assert k * (span - q) == (k * span) % k;
    MulSmall(k, span - q);
  }

  /** Band starts never decrease with t. */
  lemma BandStartMono(lo: int, span: int, t1: int, t2: int, bands: int)
    requires span >= 0 && bands >= 1 && t1 <= t2
    ensures BandStart(lo, span, t1, bands) <= BandStart(lo, span, t2, bands)
  {
    MulNonNeg(t2 - t1, span);
    assert t1 * span <= t2 * span by {
      assert t2 * span - t1 * span == (t2 - t1) * span;
    }
    DivMono(t1 * span, t2 * span, bands);
  }

  /** Two different bands share no value. */
  lemma {:induction false} BandsDisjoint(d: int, lo: int, span: int, t1: int, t2: int, bands: int)
    requires span >= 0 && bands >= 1 && t1 != t2
    requires InBand(d, lo, span, t1, bands)
    ensures !InBand(d, lo, span, t2, bands)
  {
    if t1 < t2 {
      BandStartMono(lo, span, t1 + 1, t2, bands);
    } else {
      BandStartMono(lo, span, t2 + 1, t1, bands);
    }
  }

  /** The bands 0 .. T-1 run from lo to lo + span. */
  lemma BandEnds(lo: int, span: int, bands: int)
    requires bands >= 1
    ensures BandStart(lo, span, 0, bands) == lo
    ensures BandStart(lo, span, bands, bands) == lo + span
  {
    DivExact(span, bands);
    assert bands * span == span * bands;
  }

  /** Searching from band t upward finds the band of d, when d is not below band t's start. */
  lemma {:induction false} BandSearch(d: int, lo: int, span: int, t: int, bands: int) returns (u: int)
    requires span >= 0 && bands >= 1 && 0 <= t < bands
    requires BandStart(lo, span, t, bands) <= d < lo + span
    ensures t <= u < bands && InBand(d, lo, span, u, bands)
    decreases bands - t
  {
    if d < BandStart(lo, span, t + 1, bands) {
      u := t;
    } else if t + 1 == bands {
      BandEnds(lo, span, bands);
      assert false;
    } else {
      u := BandSearch(d, lo, span, t + 1, bands);
    }
  }

  /** Some band among 0 .. T-1 contains d exactly when lo <= d < lo + span. */
  lemma BandsCover(d: int, lo: int, span: int, bands: int)
    requires span >= 0 && bands >= 1
    ensures (exists t :: 0 <= t < bands && InBand(d, lo, span, t, bands)) <==> lo <= d < lo + span
  {
    BandEnds(lo, span, bands);
    if lo <= d < lo + span {
      var u := BandSearch(d, lo, span, 0, bands);
    }
    if exists t :: 0 <= t < bands && InBand(d, lo, span, t, bands) {
      var t :| 0 <= t < bands && InBand(d, lo, span, t, bands);
      BandStartMono(lo, span, 0, t, bands);
      BandStartMono(lo, span, t + 1, bands, bands);
    }
  }

  /** Tier t of the embedded foundation as written: [-L // 2 + t * L // T, -L // 2 + (t + 1) * L // T). */
  predicate InTier(dz: int, length: int, t: int, tiers: int)
    requires tiers >= 1
  {
    InBand(dz, (-length) / 2, length, t, tiers)
  }

  /**
   * As written, the tiers are disjoint and together cover exactly
   * [-L // 2, L // 2): the footprint row dz = L // 2, which the tier floor
   * loop visits, belongs to no tier.
   */
  lemma TiersAsWritten(dz: int, length: int, tiers: int)
    requires length >= 0 && tiers >= 1
    ensures (exists t :: 0 <= t < tiers && InTier(dz, length, t, tiers)) <==> (-length) / 2 <= dz < length / 2
    ensures forall t1, t2 :: 0 <= t1 < t2 < tiers && InTier(dz, length, t1, tiers) ==> !InTier(dz, length, t2, tiers)
  {
    assert (-length) / 2 + length == length / 2;
    BandsCover(dz, (-length) / 2, length, tiers);
    if (-length) / 2 <= dz < length / 2 {
      var t :| 0 <= t < tiers && InBand(dz, (-length) / 2, length, t, tiers);
      assert InTier(dz, length, t, tiers);
    }
    forall t1, t2 | 0 <= t1 < t2 < tiers && InTier(dz, length, t1, tiers)
      ensures !InTier(dz, length, t2, tiers)
    {
      BandsDisjoint(dz, (-length) / 2, length, t1, t2, tiers);
    }
  }

  /** The far footprint row is in no tier. */
  lemma FarRowInNoTier(length: int, tiers: int, t: int)
    requires length >= 0 && tiers >= 1 && 0 <= t < tiers
    ensures !InTier(length / 2, length, t, tiers)
  {
    TiersAsWritten(length / 2, length, tiers);
  }

  /**
   * Tier t cut from the whole footprint, the L + 1 rows from -L // 2 to
   * L // 2: [-L // 2 + t * (L + 1) // T, -L // 2 + (t + 1) * (L + 1) // T).
   */
  predicate InFootprintTier(dz: int, length: int, t: int, tiers: int)
    requires tiers >= 1
  {
    InBand(dz, (-length) / 2, length + 1, t, tiers)
  }

  /** Every footprint row, the far one included, is in exactly one footprint tier. */
  lemma FootprintTiersPartitionRows(dz: int, length: int, tiers: int)
    requires length >= 0 && tiers >= 1
    ensures (exists t :: 0 <= t < tiers && InFootprintTier(dz, length, t, tiers)) <==> (-length) / 2 <= dz <= length / 2
    ensures forall t1, t2 :: 0 <= t1 < t2 < tiers && InFootprintTier(dz, length, t1, tiers) ==> !InFootprintTier(dz, length, t2, tiers)
  {
    assert (-length) / 2 + length + 1 == length / 2 + 1;
    BandsCover(dz, (-length) / 2, length + 1, tiers);
    if (-length) / 2 <= dz <= length / 2 {
      var t :| 0 <= t < tiers && InBand(dz, (-length) / 2, length + 1, t, tiers);
      assert InFootprintTier(dz, length, t, tiers);
    }
    forall t1, t2 | 0 <= t1 < t2 < tiers && InFootprintTier(dz, length, t1, tiers)
      ensures !InFootprintTier(dz, length, t2, tiers)
    {
      BandsDisjoint(dz, (-length) / 2, length + 1, t1, t2, tiers);
    }
  }
}
