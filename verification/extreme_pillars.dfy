/**
 * extreme.py, `build_pillars`: the list of pillar positions under a house
 * on stilts, as offsets from the house centre. The outer dimensions come
 * from the layout's rooms; `-v // 2` is `(-v) / 2`.
 */
module Pillars {
  import opened Wrappers
  import opened Offsets
  import opened HouseLayout
  import opened HouseStyle
  import opened AdaptationPlan

  /** The four corners of the outer box, in the order they are listed. */
  function Corners(ow: int, ol: int): (r: seq<Cell>)
    ensures |r| == 4 && r[0] == ((-ow) / 2, (-ol) / 2)
    ensures forall c :: c in r <==> (c.0 == (-ow) / 2 || c.0 == ow / 2) && (c.1 == (-ol) / 2 || c.1 == ol / 2)
  {
    [((-ow) / 2, (-ol) / 2), ((-ow) / 2, ol / 2), (ow / 2, (-ol) / 2), (ow / 2, ol / 2)]
  }

  /** Mid-span pillars: at x = 0 on both ends when wider than 8, at z = 0 on both sides when longer than 8. */
  function Midspans(ow: int, ol: int): (r: seq<Cell>)
    ensures forall c :: c in r <==>
      || (ow > 8 && c.0 == 0 && (c.1 == (-ol) / 2 || c.1 == ol / 2))
      || (ol > 8 && c.1 == 0 && (c.0 == (-ow) / 2 || c.0 == ow / 2))
  {
    (if ow > 8 then [(0, (-ol) / 2), (0, ol / 2)] else [])
      + (if ol > 8 then [((-ow) / 2, 0), (ow / 2, 0)] else [])
  }

  /** The stride-6 grid over the outer box, used when it is wider or longer than 16. */
  function GridPillars(ow: int, ol: int): (r: seq<Cell>)
    ensures forall c :: c in r <==>
      (ow > 16 || ol > 16)
      && (-ow) / 2 <= c.0 <= ow / 2 && (c.0 - (-ow) / 2) % 6 == 0
      && (-ol) / 2 <= c.1 <= ol / 2 && (c.1 - (-ol) / 2) % 6 == 0
  {
    if ow > 16 || ol > 16 then Pairs(Range((-ow) / 2, ow / 2 + 1, 6), Range((-ol) / 2, ol / 2 + 1, 6))
    else []
  }

  /** For a box at least one block each way, the corners and mid-spans are all different. */
  lemma FixedPillarsDistinct(ow: int, ol: int)
    ensures ow >= 1 && ol >= 1 ==> Distinct(Corners(ow, ol) + Midspans(ow, ol))
  {
    if ow < 1 || ol < 1 {
      return;
    }
    var xl, xh, zl, zh := (-ow) / 2, ow / 2, (-ol) / 2, ol / 2;
    assert xl < 0 <= xh && zl < 0 <= zh;
    var corners := Corners(ow, ol);
    assert Distinct(corners);
    var ends := if ow > 8 then [(0, zl), (0, zh)] else [];
    var sides := if ol > 8 then [(xl, 0), (xh, 0)] else [];
    assert Distinct(ends) && Distinct(sides);
    assert ow > 8 ==> 0 < xh;
    assert ol > 8 ==> 0 < zh;
    DistinctConcat(ends, sides);
    DistinctConcat(corners, ends + sides);
  }

  /**
   * The structural pillars: the corners, the mid-spans, then each grid
   * point not yet listed. The corners come first and always; a grid point
   * is never listed twice.
   */
  function StructuralPillars(ow: int, ol: int): (r: seq<Cell>)
    ensures |r| >= 4 && r[..4] == Corners(ow, ol)
    ensures forall c :: c in r <==> c in Corners(ow, ol) || c in Midspans(ow, ol) || c in GridPillars(ow, ol)
    ensures ow >= 1 && ol >= 1 ==> Distinct(r)
  {
    var corners := Corners(ow, ol);
    var fixed := corners + Midspans(ow, ol);
    var r := AppendNew(fixed, GridPillars(ow, ol));
    assert ow >= 1 && ol >= 1 ==> Distinct(r) by {
      FixedPillarsDistinct(ow, ol);
    }
    assert r[..4] == corners by {
      assert r[..4] == r[..|fixed|][..4] == fixed[..4] == corners;
    }
    r
  }

  /** Why the pillar list cannot be produced. */
  datatype PillarError = MissingCoordinate  // `feature["x"]` on a feature without a single spot raises KeyError

  /**
   * The pillars a special feature asks for: its spot for the stairs down,
   * the four corners of the deck (a deck given as a spot has no corner keys
   * and reads 0 for each), none for any other feature.
   */
  function FeaturePillars(f: Feature): (r: Result<seq<Cell>, PillarError>)
    ensures r.Failure? <==> f.Region? && f.kind == "stairs_down"
    ensures f.kind != "stairs_down" && f.kind != "deck" ==> r == Success([])
    ensures r.Success? && f.kind == "deck" ==> |r.value| == 4
    ensures f.kind == "stairs_down" && f.Spot? ==> r == Success([(f.x, f.z)])
    ensures f.kind == "deck" && f.Region? ==>
      r.Success? && forall c :: c in r.value <==> (c.0 == f.x1 || c.0 == f.x2) && (c.1 == f.z1 || c.1 == f.z2)
  {
    if f.kind == "stairs_down" then
      if f.Spot? then Success([(f.x, f.z)]) else Failure(MissingCoordinate)
    else if f.kind == "deck" then
      if f.Region? then Success([(f.x1, f.z1), (f.x1, f.z2), (f.x2, f.z1), (f.x2, f.z2)])
      else Success([(0, 0), (0, 0), (0, 0), (0, 0)])
    else Success([])
  }

  /** The feature pillars of a layout, in feature order; the first failing feature stops the list. */
  function AllFeaturePillars(features: seq<Feature>): (r: Result<seq<Cell>, PillarError>)
    ensures r.Failure? <==> exists f :: f in features && FeaturePillars(f).Failure?
    ensures r.Success? ==> forall c :: c in r.value <==> exists f :: f in features && c in FeaturePillars(f).value
  {
    if |features| == 0 then Success([])
    else
      var head := FeaturePillars(features[0]);
      var rest := AllFeaturePillars(features[1..]);
      assert forall f :: f in features <==> f == features[0] || f in features[1..];
      if head.Failure? then Failure(head.error)
      else if rest.Failure? then Failure(rest.error)
      else Success(head.value + rest.value)
  }

  /**
   * `build_pillars`: nothing unless the foundation mode is stilts; else the
   * structural pillars followed by the feature pillars.
   */
  function PillarPositions(stilts: bool, ow: int, ol: int, features: seq<Feature>): (r: Result<seq<Cell>, PillarError>)
    ensures !stilts ==> r == Success([])
    ensures stilts ==> (r.Failure? <==> exists f :: f in features && FeaturePillars(f).Failure?)
    ensures stilts && r.Success? ==>
      && |r.value| >= 4 && r.value[..4] == Corners(ow, ol)
      && forall c :: c in r.value <==> c in StructuralPillars(ow, ol) || exists f :: f in features && c in FeaturePillars(f).value
  {
    if !stilts then Success([])
    else
      var structural := StructuralPillars(ow, ol);
      var extra := AllFeaturePillars(features);
      if extra.Failure? then Failure(extra.error)
      else
        assert (structural + extra.value)[..4] == structural[..4];
        Success(structural + extra.value)
  }

  /** Features that are neither stairs nor a deck: furniture, railings and the like. */
  predicate Furnishings(features: seq<Feature>)
  {
    forall f :: f in features ==> f.kind != "stairs_down" && f.kind != "deck"
  }

  /** Features that are neither stairs nor a deck add no pillars. */
  lemma {:induction false} NoFeaturePillars(features: seq<Feature>)
    requires Furnishings(features)
    ensures AllFeaturePillars(features) == Success([])
  {
    if |features| > 0 {
      assert features[0] in features;
      assert forall f :: f in features[1..] ==> f in features;
      NoFeaturePillars(features[1..]);
      assert FeaturePillars(features[0]) == Success([]);
      var empty: seq<Cell> := [];
      assert empty + empty == empty;
    }
  }

  /** A deck, then stairs, then features of other kinds: the deck's four corners and the stairs' spot. */
  lemma DeckThenStairs(fs: seq<Feature>)
    requires |fs| >= 2 && fs[0].Region? && fs[0].kind == "deck" && fs[1].Spot? && fs[1].kind == "stairs_down"
    requires Furnishings(fs[2..])
    ensures AllFeaturePillars(fs)
      == Success([(fs[0].x1, fs[0].z1), (fs[0].x1, fs[0].z2), (fs[0].x2, fs[0].z1), (fs[0].x2, fs[0].z2), (fs[1].x, fs[1].z)])
  {
    var deck := fs[0];
    var corners := [(deck.x1, deck.z1), (deck.x1, deck.z2), (deck.x2, deck.z1), (deck.x2, deck.z2)];
    var foot := [(fs[1].x, fs[1].z)];
    assert fs[1..][1..] == fs[2..];
    StairsThenFurnishings(fs[1..]);
    DeckCorners(deck);
    HeadThenRest(fs, corners, foot);
    assert corners + foot == [corners[0], corners[1], corners[2], corners[3], foot[0]];
  }

  /** The pillars of a deck are its four corners, in the source's order. */
  lemma DeckCorners(deck: Feature)
    requires deck.Region? && deck.kind == "deck"
    ensures FeaturePillars(deck) == Success([(deck.x1, deck.z1), (deck.x1, deck.z2), (deck.x2, deck.z1), (deck.x2, deck.z2)])
  {
  }

  /** Pillars of a non-empty list: the head's, then the rest's. */
  lemma HeadThenRest(fs: seq<Feature>, head: seq<Cell>, rest: seq<Cell>)
    requires |fs| >= 1 && FeaturePillars(fs[0]) == Success(head) && AllFeaturePillars(fs[1..]) == Success(rest)
    ensures AllFeaturePillars(fs) == Success(head + rest)
  {
  }

  /** A stairs spot, then features of other kinds: only the stairs' spot. */
  lemma StairsThenFurnishings(fs: seq<Feature>)
    requires |fs| >= 1 && fs[0].Spot? && fs[0].kind == "stairs_down"
    requires Furnishings(fs[1..])
    ensures AllFeaturePillars(fs) == Success([(fs[0].x, fs[0].z)])
  {
    NoFeaturePillars(fs[1..]);
    var foot := [(fs[0].x, fs[0].z)];
    assert FeaturePillars(fs[0]) == Success(foot);
    assert foot + [] == foot;
  }

  /**
   * Under the platform layout the feature pillars are the four deck corners
   * and the foot of the stairs, all on or west of the platform's west edge.
   */
  lemma PlatformFeaturePillarsWest(pw: int, pl: int)
    ensures var r := AllFeaturePillars(PlatformFeatures(pw, pl));
      && r.Success?
      && |r.value| == 5
      && forall c :: c in r.value ==> c.0 <= (-pw) / 2
  {
    var fs := PlatformFeatures(pw, pl);
    PlatformFurnishings(pw, pl);
    DeckThenStairs(fs);
    var r := AllFeaturePillars(fs).value;
    assert r[0].0 == r[1].0 == (-pw) / 2 - 3 && r[2].0 == r[3].0 == (-pw) / 2 && r[4].0 == (-pw) / 2 - 2;
  }

  /** After the deck and the stairs, the platform's features are neither stairs nor decks. */
  lemma PlatformFurnishings(pw: int, pl: int)
    ensures Furnishings(PlatformFeatures(pw, pl)[2..])
  {
    var fs := PlatformFeatures(pw, pl);
    assert fs[2..] == [fs[2], fs[3], fs[4], fs[5], fs[6], fs[7]];
  }

  /**
   * With the platform's features (the layout's features on success), the
   * stilts list is the structural pillars of the outer box followed by five
   * feature pillars on or west of the platform's west edge.
   */
  lemma PlatformPillars(pw: int, pl: int)
    ensures var r := PillarPositions(true, pw, pl, PlatformFeatures(pw, pl));
      && r.Success?
      && |r.value| == |StructuralPillars(pw, pl)| + 5
      && forall i :: |StructuralPillars(pw, pl)| <= i < |r.value| ==> r.value[i].0 <= (-pw) / 2
  {
    PlatformFeaturePillarsWest(pw, pl);
    FeaturesAfterStructure(pw, pl, PlatformFeatures(pw, pl), (-pw) / 2);
  }

  /** Feature pillars all on or west of x = bound stay so after the structural pillars. */
  lemma FeaturesAfterStructure(ow: int, ol: int, features: seq<Feature>, bound: int)
    requires AllFeaturePillars(features).Success?
    requires forall c :: c in AllFeaturePillars(features).value ==> c.0 <= bound
    ensures var r := PillarPositions(true, ow, ol, features);
      && r.Success?
      && |r.value| == |StructuralPillars(ow, ol)| + |AllFeaturePillars(features).value|
      && forall i :: |StructuralPillars(ow, ol)| <= i < |r.value| ==> r.value[i].0 <= bound
  {
    var structural := StructuralPillars(ow, ol);
    var extra := AllFeaturePillars(features).value;
    var r := PillarPositions(true, ow, ol, features).value;
    assert r == structural + extra;
    forall i | |structural| <= i < |r|
      ensures r[i].0 <= bound
    {
      assert r[i] == extra[i - |structural|];
      assert r[i] in extra;
    }
  }

  /**
   * The plan's foundation mode decides whether there are pillars at all:
   * the pillar list is empty exactly when the site is neither shallow water
   * nor the waterfront of a platform house.
   */
  lemma PillarsOnlyOnStilts(site: SiteType, style: Style, ow: int, ol: int, features: seq<Feature>)
    ensures var stilts := FoundationModeFor(site, style) == Stilts;
      (PillarPositions(stilts, ow, ol, features) == Success([]))
      <==> !(site == ShallowWater || (site == Waterfront && style == Platform))
  {
  }
}
