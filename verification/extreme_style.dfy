/**
 * extreme.py: the biome-to-theme lookup of `get_theme_for_biome` and the
 * style weight table of `choose_building_style`. The weighted random pick
 * that follows the table is not modelled; the table it draws from is.
 */
module HouseStyle {

  /** The six keys of THEMES. */
  datatype Theme = Plains | Forest | Desert | Taiga | Swamp | Savanna

  /** The THEMES key of a theme. */
  function ThemeName(t: Theme): string {
    match t
    case Plains => "plains"
    case Forest => "forest"
    case Desert => "desert"
    case Taiga => "taiga"
    case Swamp => "swamp"
    case Savanna => "savanna"
  }

  /** `biome_map` of `get_theme_for_biome`. */
  const BiomeMap: map<string, Theme> := map[
    "plains" := Plains, "sunflower_plains" := Plains,
    "forest" := Forest, "flower_forest" := Forest, "birch_forest" := Forest, "dark_forest" := Forest,
    "desert" := Desert, "desert_hills" := Desert, "desert_lakes" := Desert,
    "taiga" := Taiga, "taiga_hills" := Taiga, "snowy_taiga" := Taiga,
    "swamp" := Swamp, "swamp_hills" := Swamp,
    "savanna" := Savanna, "savanna_plateau" := Savanna, "shattered_savanna" := Savanna
  ]

  /**
   * `get_theme_for_biome`: the mapped theme, "plains" for any biome the map
   * does not know. A theme other than plains comes only from a listed biome.
   */
  function ThemeForBiome(biome: string): (t: Theme)
    ensures biome in BiomeMap ==> t == BiomeMap[biome]
    ensures biome !in BiomeMap ==> t == Plains
    ensures t != Plains ==> biome in BiomeMap && BiomeMap[biome] == t
  {
    if biome in BiomeMap then BiomeMap[biome] else Plains
  }

  /** Every theme is reached from the biome of its own name, so the lookup is onto the six themes. */
  lemma ThemeNamesMapToThemselves(t: Theme)
    ensures ThemeName(t) in BiomeMap
    ensures ThemeForBiome(ThemeName(t)) == t
  {
  }

  /** Biomes the map does not list fall back to plains. */
  lemma UnknownBiomeIsPlains()
    ensures ThemeForBiome("ocean") == Plains
    ensures ThemeForBiome("minecraft:forest") == Plains
  {
  }

  /** The seven entries of HOUSE_STYLES, in order. */
  datatype Style = CottageStyle | Longhouse | SplitLevel | Compound | Tower | Courtyard | Platform

  /** The position of a style in HOUSE_STYLES (and in the weight dictionary). */
  function StyleIndex(s: Style): (i: nat)
    ensures i < 7
  {
    match s
    case CottageStyle => 0
    case Longhouse => 1
    case SplitLevel => 2
    case Compound => 3
    case Tower => 4
    case Courtyard => 5
    case Platform => 6
  }

  /** The site types `find_building_sites` reports. */
  datatype SiteType = Flat | Hillside | Waterfront | ShallowWater | Elevated | Default

  /** Sum of a weight list. */
  function Sum(w: seq<int>): int {
    if |w| == 0 then 0 else w[0] + Sum(w[1..])
  }

  /** Sum distributes over concatenation. */
  lemma {:induction false} SumConcat(a: seq<int>, b: seq<int>)
    ensures Sum(a + b) == Sum(a) + Sum(b)
  {
    if |a| == 0 {
      assert a + b == b;
    } else {
      assert (a + b)[1..] == a[1..] + b;
      SumConcat(a[1..], b);
    }
  }

  /** Adding k to one entry adds k to the sum. */
  lemma SumUpdate(w: seq<int>, i: nat, k: int)
    requires i < |w|
    ensures Sum(w[i := w[i] + k]) == Sum(w) + k
  {
    assert w == w[..i] + [w[i]] + w[i + 1..];
    assert w[i := w[i] + k] == w[..i] + [w[i] + k] + w[i + 1..];
    SumConcat(w[..i] + [w[i]], w[i + 1..]);
    SumConcat(w[..i], [w[i]]);
    SumConcat(w[..i] + [w[i] + k], w[i + 1..]);
    SumConcat(w[..i], [w[i] + k]);
  }

  /** `style_weights[s] += k`. */
  function Bump(w: seq<int>, s: Style, k: nat): (r: seq<int>)
    requires |w| == 7
    ensures |r| == 7
    ensures Sum(r) == Sum(w) + k
    ensures forall i :: 0 <= i < 7 ==> r[i] >= w[i]
    ensures forall t :: t != s ==> r[StyleIndex(t)] == w[StyleIndex(t)]
  {
    SumUpdate(w, StyleIndex(s), k);
    w[StyleIndex(s) := w[StyleIndex(s)] + k]
  }

  /** The starting weights: cottage 10, every other style 5. */
  const BaseWeights: seq<int> := [10, 5, 5, 5, 5, 5, 5]

  /** The terrain branch of `choose_building_style`. */
  function SiteAdjusted(site: SiteType, w: seq<int>): (r: seq<int>)
    requires |w| == 7
    ensures |r| == 7
    ensures forall i :: 0 <= i < 7 ==> r[i] >= w[i]
    ensures Sum(r) == Sum(w) + SiteBonus(site)
  {
    match site
    case Flat => Bump(Bump(Bump(Bump(w, CottageStyle, 5), Longhouse, 10), Compound, 10), Courtyard, 15)
    case Hillside => Bump(Bump(w, SplitLevel, 20), Compound, 5)
    case Waterfront => Bump(Bump(w, CottageStyle, 5), Platform, 10)
    case ShallowWater => Bump(w, Platform, 25)
    case Elevated => Bump(Bump(w, Tower, 15), SplitLevel, 10)
    case Default => w
  }

  /** The biome branch of `choose_building_style`, which receives the theme name. */
  function ThemeAdjusted(theme: Theme, w: seq<int>): (r: seq<int>)
    requires |w| == 7
    ensures |r| == 7
    ensures forall i :: 0 <= i < 7 ==> r[i] >= w[i]
    ensures Sum(r) == Sum(w) + ThemeBonus(theme)
  {
    match theme
    case Taiga => Bump(Bump(w, CottageStyle, 5), Longhouse, 10)
    case Forest => Bump(Bump(w, CottageStyle, 5), Longhouse, 10)
    case Desert => Bump(Bump(w, Courtyard, 10), Compound, 5)
    case Swamp => Bump(w, Platform, 15)
    case Savanna => Bump(Bump(w, Compound, 10), Tower, 5)
    case Plains => w
  }

  /** Total weight each site type adds: nothing only for the default site, and most for a flat one. */
  function SiteBonus(site: SiteType): (b: nat)
    ensures b == 0 <==> site == Default
    ensures b <= 40 && (b == 40 <==> site == Flat)
  {
    match site
    case Flat => 40
    case Hillside => 25
    case Waterfront => 15
    case ShallowWater => 25
    case Elevated => 25
    case Default => 0
  }

  /** Total weight each theme adds: nothing only for plains. */
  function ThemeBonus(theme: Theme): (b: nat)
    ensures b == 0 <==> theme == Plains
    ensures b <= 15
  {
    match theme
    case Plains => 0
    case _ => 15
  }

  /**
   * The weight table `choose_building_style` draws from, in HOUSE_STYLES
   * order: every weight is at least its base weight (so at least 5), and
   * the total is 40 plus the site's and the theme's fixed bonuses.
   */
  function StyleWeights(site: SiteType, theme: Theme): (w: seq<int>)
    ensures |w| == 7
    ensures forall i :: 0 <= i < 7 ==> w[i] >= BaseWeights[i] >= 5
    ensures Sum(w) == 40 + SiteBonus(site) + ThemeBonus(theme)
    ensures Sum(w) >= 40
  {
    assert Sum(BaseWeights) == 40;
    ThemeAdjusted(theme, SiteAdjusted(site, BaseWeights))
  }

  /** On a flat site in a forest the longhouse gets the largest weight. */
  lemma FlatForestWeights()
    ensures StyleWeights(Flat, Forest) == [20, 25, 5, 15, 5, 20, 5]
  {
  }

  /** Only the terrain and theme branches raise a weight: on a default site in plains the table is the base table. */
  lemma DefaultPlainsIsBase()
    ensures StyleWeights(Default, Plains) == BaseWeights
  {
  }
}
