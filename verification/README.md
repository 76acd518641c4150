# Minecraft procedural settlement scripts — a Dafny model

The repository is a set of Python scripts that pick a building site in a
Minecraft world slice and build a house there through the GDPC editor. This
project models the deterministic core of those scripts:

- The site searches. A row-major scan keeps the first window of strictly
  smallest score; the scripts differ in what they admit:
  - `find_flattest_subarray` of 2height_maps.py and heightmap.py (the code
    is the same) admits water-free windows;
  - `find_flattest_subarray` of test.py admits windows with no water above
    the ground;
  - `find_best_location` of new_cottage.py admits every window;
  - `find_best_location` of cozy_cottage.py admits windows whose mean
    height is in [60, 100];
  - `find_flat_area` of 2.py scores candidates by the spread of their four
    corner heights.
- `place_block` of heightmap.py, and the wall and door cells of
  `build_cottage` in 2.py.
- The position lists of the two cottage scripts:
  - windows, door and trapdoor facings;
  - the fence ring, lanterns and gates;
  - the entrance path;
  - the perimeter median that `level_terrain` levels to.
- extreme.py:
  - the biome-to-theme lookup and the style weight table;
  - the terrain adaptation plan: the footprint median, the foundation mode,
    the local peak, landscaping and water features;
  - the cottage, courtyard and platform layouts and their outer dimensions;
  - the adjustment dictionary, the stilt list and the tier bands of
    `build_foundation`;
  - the pillar list of `build_pillars`.
- highend.py:
  - the terrain-adjustment map and the site height;
  - the lowest ground the foundation reaches;
  - the odd mansion dimensions and the facing of the mansion's windows.

Modelling conventions:

- Heightmaps are `seq<seq<int>>`.
- Python's `-v // k` is floor division of the negated value, written
  `(-v) / k`: Dafny's division by a positive divisor floors the same way.
- A Python exception becomes a `Failure` or `None` result on exactly the
  inputs that raise.
- The gradient-based flatness score is floating point, so it is a function
  parameter. What is proved about the searches holds for every score
  function: which window wins depends on the scores only through their order.

Modules:

- wrappers.dfy: `Option` and `Result`.
- grids.dfy: heightmap windows, sums and maxima.
- scan.dfy: `WindowScan`, the first-minimum scan.
- flattest.dfy: `FlattestSearch`.
- flat_area.dfy: `FlatArea`, for 2.py.
- offsets.dfy: `Offsets`, Python ranges and loop-order cell lists.
- sorting.dfy: `Sorting`, insertion sort and order statistics.
- cottage.dfy: `Cottage`.
- extreme_style.dfy: `HouseStyle`.
- extreme_plan.dfy: `AdaptationPlan`.
- extreme_layout.dfy: `HouseLayout`.
- terrain.dfy: `Terrain`, the survey loop shared by extreme.py and
  highend.py.
- extreme_foundation.dfy: `Foundation`.
- extreme_pillars.dfy: `Pillars`.
- highend.dfy: `Highend`.

Where the code and its description differ, the model follows the code:

- `choose_building_style` is called with the theme name, not the raw biome.
- test.py's "no suitable location" branch can never be reached. When every
  window is skipped, reading `max_value` raises first.
- cozy_cottage.py's search silently keeps origin (0, 0) when no window has
  its mean height in range.

## Model

| member | source | states |
|---|---|---|
| WindowScan.FirstMin | 2height_maps.py:43-65 | None exactly when no origin is admitted. Otherwise it returns an admitted origin whose score is at most every admitted origin's and strictly below every earlier admitted origin's in row-major order. |
| WindowScan.ScanLoops | 2height_maps.py:43-65 | The nested loops with a running best and a strict `<` end with the first minimal admitted origin, the same answer as FirstMin. |
| WindowScan.FirstMinUnique | 2height_maps.py:59-64 | At most one origin has the first-minimum property, so the scores and admissions alone fix the answer. |
| WindowScan.FirstMinInRange | 2height_maps.py:43-44 | The chosen origin lies in range(max_start_row + 1) by range(max_start_col + 1). |
| WindowScan.NoneAdmittedAll | 2height_maps.py:67-69 | The scan admits nothing exactly when every origin of the grid is rejected. |
| FlattestSearch.ReportOfFirstMin | 2height_maps.py:59-71 | The report built for the scan's first minimum states that origin, its slice, its score and the slice's maximum. |
| FlattestSearch.Report | 2height_maps.py:62-65 | The reported slice is the window at the chosen origin, the reported score is that window's score, and `max_value` is a cell of the slice that bounds every other cell. |
| FlattestSearch.FindFlattestSubarray | 2height_maps.py:21-71 | ValueError exactly when the window exceeds a dimension. A gradient error exactly when the window has fewer than two cells per axis. Exit exactly when the window size is valid and every window has water. Success exactly when the window is 2 to the grid's size and some window is water-free, and then it reports the first flattest window whose MOTION_BLOCKING - OCEAN_FLOOR mask is zero throughout. |
| FlattestSearch.FindFlattestDry | test.py:20-62 | ValueError exactly when the window is too large. The unbound-`max_value` error exactly when the window fits and every window has water above the ground. The gradient error exactly when the window fits, some window is dry, and the window is under 2. Success exactly when the window is 2 to the grid's size and some window is dry, and then it reports the first flattest dry window. |
| FlattestSearch.FindBestLocation | new_cottage.py:20-62 | ValueError exactly when the window exceeds a dimension, the gradient error exactly when it fits but is under 2, and success in every other case. The returned (x, z) is (column, row) plus the slice corner of the first flattest window. The y is the height of that window's top-left cell. |
| FlattestSearch.BandChoice | cozy_cottage.py:45-66 | The kept origin is in the origin grid. It is the first in-band minimum, or (0, 0) when no window is in the band, and it is in the band exactly when some window is. |
| FlattestSearch.FindBestLocationInBand | cozy_cottage.py:19-70 | ValueError exactly when the window exceeds a dimension, the gradient error exactly when it fits but is under 2, and success in every other case. The site is either the first flattest window among those with mean height in [60, 100], or (0, 0) when no window qualifies. The chosen window's mean height is in [60, 100] exactly when some window's is. |
| FlattestSearch.BandSearchAvoidsOutOfBand | cozy_cottage.py:49-53 | When the window at some (row, col) qualifies, the chosen window's mean height lies in [60, 100]. |
| FlattestSearch.PlaceBlock | heightmap.py:75-100 | IndexError exactly when the swapped (z, x) heightmap read leaves the map. Otherwise it places 4 * area * area blocks: each block's column lies in the area and its y is one of the four levels from the ground height up. |
| FlatArea.Range2Count | 2.py:21-22 | The count of values of range(a, b, 2): index i is counted exactly when a + 2i < b. |
| FlatArea.Max4 | 2.py:32 | `max(corner_heights)` is one of the corners and bounds all four. |
| FlatArea.Min4 | 2.py:32 | `min(corner_heights)` is one of the corners and is bounded by all four. |
| FlatArea.Spread | 2.py:31-32 | The "variance" is non-negative, bounds every difference of two corners, and is zero exactly when the four corners are level. |
| FlatArea.CornersInBounds | 2.py:21-29 | Every candidate of the stride-2 scan reads its four corners inside the heightmap. |
| FlatArea.SiteOfOrigin | 2.py:20-21 | A scan origin's world (x, z) lies in the scanned ranges, and halving its distance from begin gives the origin back. |
| FlatArea.OriginIsFlatAreaSite | 2.py:20-38 | The first minimum of the scan, read back as (x, lowest corner, z), satisfies every condition on a reported site. |
| FlatArea.FindFlatArea | 2.py:6-38 | None exactly when either range is empty. Otherwise it returns the first candidate of smallest corner spread, its (x, z) on the stride-2 grid, with y the lowest corner. |
| FlatArea.WallCells | 2.py:79-87 | The cells of one wall layer, each once: the border of the footprint, minus the door gap on the two lowest layers. |
| FlatArea.WallIsBorderLessDoor | 2.py:83-86 | A footprint cell is a wall cell exactly when it is on the border and is not the door gap. |
| FlatArea.DoorGapOnlyOnLowLayers | 2.py:83-84 | The door cell (width // 2, 0) is left open exactly on layers 0 and 1. |
| Offsets.Box | extreme.py:1116-1117 | Two nested `range` loops visit every cell of the box, and only those, each once. |
| Offsets.PyRange | extreme.py:1066 | Membership in Python's range(a, b, step) for positive and negative steps, with no value repeated. |
| Offsets.AppendNew | extreme.py:1146-1149 | Appending each candidate not yet listed keeps the list as a prefix, adds exactly the candidates, and never creates a duplicate. |
| Sorting.Sort | cozy_cottage.py:457 | `sort()` returns a sorted permutation of the heights. |
| Sorting.OrderStatistic | cozy_cottage.py:458 | Index k of the sorted list holds an element of the list. At least k + 1 elements are at most it, and at least n - k are at least it. |
| Sorting.SortedAt | cozy_cottage.py:457-458 | In a sorted list, at least k + 1 elements are at most the one at index k, and at least n - k are at least it. |
| Sorting.UpperMiddle | cozy_cottage.py:457-458 | `sorted(hs)[len(hs) // 2]` is an element with at least n // 2 + 1 elements at most it and at least n - n // 2 elements at least it. |
| Sorting.HalfTowardZero | extreme.py:406 | `int(x / 2)` truncates toward zero, bracketed from either side by sign. |
| Sorting.MedianTruncated | extreme.py:406 | `int(np.median(hs))` has at least half the elements at most it and at least half at least it. For an odd count it is the middle sorted element. For an even count it lies between the two middle sorted elements and is their sum halved toward zero. |
| Cottage.WindowPositions | new_cottage.py:221-231 | Window cells are the left and right walls at z offsets 2, 5, 8, ... below length - 1, and the front and back walls at x offsets likewise below width - 1. |
| Cottage.GlazedWindows | new_cottage.py:233-237 | Glazed cells are exactly the window positions other than the door cell. |
| Cottage.Door | new_cottage.py:215-216 | The door is on the x = start.x wall, halfway along it: twice its z offset is length or length - 1, and for a length of at least 2 it is strictly between that wall's corners. |
| Cottage.DoorIsWindowIff | new_cottage.py:214-235 | The door cell is a window position exactly when length // 2 is itself a window offset. |
| Cottage.DoorSkippedOnWindowLengths | new_cottage.py:234-235 | For lengths 4, 5, 10, 11, 16, ... (length // 2 is 2 more than a multiple of 3) the door cell is a window position, and the skip keeps the glass out of the door. |
| Cottage.TrapdoorFacing | new_cottage.py:240-244 | On a house at least 1 by 1, a cell strictly inside one of the four walls gets the facing assigned to that wall, which points into the house. |
| Cottage.WindowFacingMatchesWall | new_cottage.py:239-246 | Every window lies strictly inside exactly one wall. The trapdoor if-chain gives it the facing assigned to that wall, which points into the house. |
| Cottage.FenceRing | new_cottage.py:332-399 | The four fence loops visit each border cell of the rectangle 4 blocks out, and only those, exactly once. |
| Cottage.FencePosts | new_cottage.py:333-399 | A post stands on exactly the border cells whose (z, x) read is inside the heightmap, each once. |
| Cottage.PostsReadInside | new_cottage.py:337-338 | Every post reads its height inside the heightmap. |
| Cottage.Lanterns | new_cottage.py:348-369 | Lanterns go on exactly the fence corners that are inside the heightmap. |
| Cottage.Gates | new_cottage.py:401-417 | The gates are the front and back fence cells at x = start.x + width // 2 that lie inside the map. |
| Cottage.GatesArePosts | new_cottage.py:401-417 | Every gate stands on a cell that also gets a fence post. |
| Cottage.PathCells | new_cottage.py:421-431 | The path has two cobblestones (path_x and path_x - 1) on every row from fence_z to start.z whose path_x cell is inside the map, and nothing else. |
| Cottage.PathIsFourRows | new_cottage.py:419-431 | With the fence row as the start, the path lies in the 4 rows before the house, and is 8 blocks when those rows are inside the map. |
| Cottage.PerimeterOffsets | cozy_cottage.py:439-447 | The leveling loop keeps each offset on the border of its padded rectangle exactly once. |
| Cottage.InsidePerimeter | cozy_cottage.py:448-451 | A perimeter offset is read exactly when its world cell is inside the heightmap. |
| Cottage.PerimeterHeights | cozy_cottage.py:443-451 | `perimeter_heights` holds the height under each inside perimeter cell, in loop order. |
| Cottage.LevelTarget | cozy_cottage.py:453-458 | The target is y when no perimeter cell is inside. Otherwise it is a perimeter height with at least n // 2 + 1 heights at most it and n - n // 2 at least it. |
| Cottage.PerimeterExtent | cozy_cottage.py:439-444 | The leveled perimeter is 2 blocks beyond width // 2 on the high side, and one more on the low side for odd widths. |
| HouseStyle.ThemeForBiome | extreme.py:107-132 | A listed biome yields its entry in the biome table. An unlisted biome yields plains. Any other theme comes from a listed biome mapped to it. |
| HouseStyle.ThemeNamesMapToThemselves | extreme.py:110-127 | Each of the six theme names is itself a listed biome mapping to that theme, so every theme is reachable. |
| HouseStyle.UnknownBiomeIsPlains | extreme.py:131-132 | Biomes the map lacks, such as "ocean" or a namespaced id, fall back to plains. |
| HouseStyle.Bump | extreme.py:303-306 | `+=` on one style raises only that weight, by exactly k, and raises the total by k. |
| HouseStyle.SiteAdjusted | extreme.py:301-321 | The terrain branch never lowers a weight and adds a fixed total per site type. |
| HouseStyle.ThemeAdjusted | extreme.py:323-337 | The biome branch never lowers a weight and adds a fixed total per theme. |
| HouseStyle.SiteBonus | extreme.py:301-321 | The total the terrain branch adds: zero exactly for the default site, and at most 40, which only a flat site reaches. |
| HouseStyle.ThemeBonus | extreme.py:323-337 | The total the biome branch adds: zero exactly for plains, and at most 15. |
| HouseStyle.StyleWeights | extreme.py:291-340 | Every weight is at least its base (10 for the cottage, 5 otherwise), and the total is 40 plus the site's and theme's bonuses, so every style keeps a positive probability. |
| HouseStyle.FlatForestWeights | extreme.py:291-337 | A flat forest site gives the table [20, 25, 5, 15, 5, 20, 5]. |
| HouseStyle.DefaultPlainsIsBase | extreme.py:291-299 | With no matching site or biome branch the table is the base table. |
| AdaptationPlan.LocalArea | extreme.py:368-374 | A cell is in the slice exactly when it is on the heightmap and in the half-open square of the local radius round the site. |
| AdaptationPlan.InAreaInGrid | extreme.py:371-378 | Every cell of the slice is a cell of the whole heightmap. |
| AdaptationPlan.FoundationModeFor | extreme.py:409-427 | Stilts exactly on shallow water or a platform's waterfront. Embedded exactly for a split-level hillside or an elevated tower. Flat and default sites are standard. |
| AdaptationPlan.FootprintCells | extreme.py:398-403 | The footprint offsets kept are exactly those in the footprint whose cell is inside the slice. |
| AdaptationPlan.FootprintHeights | extreme.py:398-404 | `footprint_heights` holds the terrain height at each kept offset, in loop order. |
| AdaptationPlan.BaseHeight | extreme.py:406-407 | The base height is the site's y when no footprint cell is in the slice. Otherwise at least half the footprint heights are at most it and at least half are at least it. For an odd count it is the middle sorted height. For an even count it lies between the two middle sorted heights and is their sum halved toward zero. |
| AdaptationPlan.HighestPeak | extreme.py:429-441 | None exactly when the slice has no interior peak. Otherwise it is an interior peak as high as every peak and strictly higher than every earlier peak, as the stable descending sort picks. |
| AdaptationPlan.FirstMinIsHighest | extreme.py:438-441 | The first minimum of the negated heights over admitted peaks is the first highest peak. |
| AdaptationPlan.PeaksAreOrigins | extreme.py:430-431 | Every interior peak is visited by range(1, n - 1) by range(1, m - 1). |
| AdaptationPlan.PeakCenter | extreme.py:443-445 | None exactly when the slice has no interior peak. Otherwise `center_offset` moves the centre onto the first highest peak that `HighestPeak` picks, and `base_height` is the terrain height there: at least every interior peak's height and strictly above every earlier peak's. |
| AdaptationPlan.CenterOnPeak | extreme.py:443-445 | The offset from the site to a peak leads back to that peak, and the terrain height there is the peak's height. |
| AdaptationPlan.IsLandscapingSpot | extreme.py:474-491 | The tests a garden offset must pass: inside the slice, outside the footprint margin, in the garden ring, dry, and less than 3 blocks from the base height. A spot that passes is off the footprint and is not a water spot. |
| AdaptationPlan.IsWaterSpot | extreme.py:497-506 | The tests a water-feature offset must pass: inside the slice and with water above the ground. |
| AdaptationPlan.Landscaping | extreme.py:469-491 | Empty for the platform and tower styles. Otherwise it lists, each once, exactly the in-slice offsets outside the footprint margin, in the garden ring, dry, and less than 3 blocks from the base height. |
| AdaptationPlan.WaterFeatures | extreme.py:494-506 | Empty unless near water. Otherwise it lists, each once, exactly the in-slice offsets with water. |
| AdaptationPlan.PlanFor | extreme.py:357-509 | The whole plan for one site. The foundation mode is the one for the site type and style. A centre offset exists exactly for a tower on an elevated site whose slice has an interior peak; it moves the centre onto that peak and the base height becomes the peak's height. Otherwise the base height is the footprint median. The gardens are chosen against the footprint median even where a peak replaces the base height, and the water features come from the same slice. |
| AdaptationPlan.PlanGardensNearMedian | extreme.py:404-491 | Every garden spot of the plan is in the slice round the site, off the footprint and dry. It is less than 3 blocks from the footprint median that `BaseHeight` gives for the same slice, even when a peak replaces the plan's base height. |
| AdaptationPlan.LandscapingAvoidsFootprint | extreme.py:480-482 | No landscaping spot lies on the building footprint. |
| AdaptationPlan.LandscapingAndWaterDisjoint | extreme.py:489-506 | No offset is both a landscaping spot and a water feature. |
| HouseLayout.CottageLayout | extreme.py:528-571 | Three rooms, two dividers, three doors of which only the third (west wall, facing east) is the entrance, and seven windows. |
| HouseLayout.CottageRooms | extreme.py:528-534 | Three rooms. The bedroom starts where the main room ends along z and the kitchen where it ends along x. In a cottage at least 3 by 3 every room lies inside the outer walls. |
| HouseLayout.CottageOpeningsFaceInward | extreme.py:544-563 | Every cottage window and the entrance lie on the outer wall and face into the house. |
| HouseLayout.CourtyardLayout | extreme.py:914-1002 | Four wings, five doors of which only the first (south wall) is the entrance, and sixteen windows. |
| HouseLayout.CourtyardRooms | extreme.py:914-958 | Four wings, none of which reaches into the interior of the central courtyard, a third of each dimension. |
| HouseLayout.CourtyardExteriorFacesInward | extreme.py:974-983 | The eight exterior courtyard windows lie on the outer wall and face into the house. |
| HouseLayout.SideOpenings | extreme.py:1066-1070 | A west window on the east edge and an east window on the west edge for each z of the range. |
| HouseLayout.EndOpenings | extreme.py:1072-1076 | A north window on the far end and a south window on the near end for each x of the range. |
| HouseLayout.PlatformWindows | extreme.py:1065-1076 | The platform windows are exactly the edge cells at the range positions, facing into the platform. |
| HouseLayout.PlatformRooms | extreme.py:1009-1037 | The platform and four quarter rooms. Each quarter has a corner at the centre. The quarters lie on the platform and together cover it. |
| HouseLayout.PlatformFeatures | extreme.py:1049-1092 | Eight features. The deck adjoins the platform's west edge and the stairs spot is on the deck. The five furniture spots stand on the platform, and the railing is the platform's outline. |
| HouseLayout.PlatformLayout | extreme.py:1004-1092 | ValueError exactly when a platform dimension // 3 is 0. Otherwise: five rooms, two walls, five doors of which only the last is the entrance, the range windows, and the deck, stairs, furniture and railing features. |
| HouseLayout.PlatformWindowsFaceInward | extreme.py:1066-1076 | Every platform window lies on the platform's edge and faces into it. |
| HouseLayout.MinOf | extreme.py:1094-1096 | `min` over a non-empty room list bounds every room's value from below. |
| HouseLayout.MaxOf | extreme.py:1095-1097 | `max` over a non-empty room list bounds every room's value from above. |
| HouseLayout.MinOfAttained | extreme.py:1094-1096 | The minimum is some room's value, so every common lower bound is at most it. |
| HouseLayout.MaxOfAttained | extreme.py:1095-1097 | The maximum is some room's value, so every common upper bound is at least it. |
| HouseLayout.OuterDimensions | extreme.py:1094-1101 | ValueError exactly for an empty room list. Otherwise it is the span of the rooms' bounding box. |
| HouseLayout.OuterDimensionsOfBoundingRooms | extreme.py:1094-1101 | When four rooms bound all others, the outer size is the span between their edges. |
| HouseLayout.CottageOuterDimensions | extreme.py:1094-1101 | For a cottage at least 3 by 3 the rooms span width - 2 by length - 2. |
| HouseLayout.CourtyardRoomsWithin | extreme.py:926-959 | Every wing lies one block inside the outer walls. |
| HouseLayout.CourtyardOuterDimensions | extreme.py:1094-1101 | The courtyard wings span width - 2 by length - 2. |
| HouseLayout.PlatformOuterDimensions | extreme.py:1094-1101 | The platform rooms span the platform, width - 2 by length - 2. |
| Terrain.SurveyMap | extreme.py:1115-1127 | The nested survey loop gives an entry to exactly the positions in the footprint padded by 3 whose map indices are in range. Each entry is computed from that position's indices. |
| Terrain.SurveyedCells | highend.py:1058-1062 | The survey positions in loop order are exactly the surveyed positions, each once. |
| Foundation.Adjustments | extreme.py:1114-1127 | There is exactly one entry per surveyed position. It holds the ground height there, an adjustment that lifts that height to y, and a water flag set exactly when the surface is above the ocean floor. |
| Foundation.BoundaryStep | extreme.py:1138-1139 | The stride is at least 2 and at least size // 6, and is one of the two. |
| Foundation.BoundaryStilts | extreme.py:1137-1142 | The boundary stilts are exactly the stride-grid offsets on a footprint edge, each once. |
| Foundation.NearCornerIsStilt | extreme.py:1138-1142 | The near corner (-w // 2, -l // 2) is always a stilt. |
| Foundation.FarCornerIsStiltIff | extreme.py:1138-1142 | The far corner is a stilt exactly when the stride divides both dimensions. |
| Foundation.Width13MissesEastEdge | extreme.py:1138-1142 | A 13-wide house gets no stilt on its east edge, whatever its length. |
| Foundation.InternalStilts | extreme.py:1146-1147 | The internal grid is exactly the quarter-stride offsets, each once. |
| Foundation.StiltPositions | extreme.py:1135-1149 | ValueError exactly when the house is over 10 in one dimension and under 4 in the other. Otherwise: the boundary stilts come first, no position repeats, and the internal grid is added only for houses over 10. |
| Foundation.BandsCover | extreme.py:1240-1243 | Cutting a span into T bands by t * span // T covers exactly [lo, lo + span). |
| Foundation.BandsDisjoint | extreme.py:1240-1243 | No offset lies in two different bands. |
| Foundation.TiersAsWritten | extreme.py:1266-1271 | The tiers as written are disjoint and cover exactly [-L // 2, L // 2). |
| Foundation.FarRowInNoTier | extreme.py:1266-1271 | The footprint row dz = L // 2, which the floor loop visits, is in no tier. |
| Foundation.FootprintTiersPartitionRows | extreme.py:1266-1271 | Tiers cut from the L + 1 footprint rows put every row from -L // 2 to L // 2 in exactly one tier. |
| Pillars.GridPillars | extreme.py:2010-2014 | The stride-6 grid exists only for a box over 16 in some dimension, and lists exactly its stride-6 offsets. |
| Pillars.Corners | extreme.py:1993-1998 | Four pillars, the near corner first, at exactly the four combinations of the box's x and z edges. |
| Pillars.Midspans | extreme.py:2000-2007 | The x = 0 pillars on both ends exactly when the box is wider than 8, and the z = 0 pillars on both sides exactly when it is longer than 8. |
| Pillars.FixedPillarsDistinct | extreme.py:1993-2007 | The corners and mid-span pillars of a box at least 1 by 1 are pairwise different. |
| Pillars.StructuralPillars | extreme.py:1990-2014 | The corners come first. The list holds exactly the corners, mid-spans and grid points, with no repeats for a box at least 1 by 1. |
| Pillars.FeaturePillars | extreme.py:2017-2026 | KeyError exactly for a stairs feature without a single spot. A stairs spot gives one pillar at its (x, z). A deck gives four pillars, which are exactly its four corners. Any other feature gives none. |
| Pillars.AllFeaturePillars | extreme.py:2017-2026 | The loop fails exactly when some feature fails. Otherwise it lists exactly the features' pillars. |
| Pillars.PillarPositions | extreme.py:1978-2026 | Nothing unless in stilts mode. Otherwise it fails exactly as the features do, and on success it lists the corners first and exactly the structural and feature pillars. |
| Pillars.NoFeaturePillars | extreme.py:2017-2026 | Features that are neither stairs nor a deck add no pillars. |
| Pillars.DeckThenStairs | extreme.py:2017-2026 | A deck, then a stairs spot, then other features give exactly the deck's four corners and the stairs' spot, in that order. |
| Pillars.PlatformFurnishings | extreme.py:1049-1092 | After the deck and the stairs, none of the platform's features is a stairs or a deck. |
| Pillars.PlatformFeaturePillarsWest | extreme.py:2017-2026 | The platform features give five pillars, all on or west of the platform's west edge. |
| Pillars.PlatformPillars | extreme.py:2016-2026 | For the platform, the list is the structural pillars followed by five feature pillars west of the platform. |
| Pillars.PillarsOnlyOnStilts | extreme.py:1980-1981 | With the plan's mode, the pillar list is empty exactly when the site is neither shallow water nor a platform's waterfront. |
| Highend.AdjustmentMap | highend.py:72-81 | There is exactly one entry per surveyed position, and it lifts that position's ground to the target y. |
| Highend.SumAboveLowest | highend.py:1058-1062 | Some surveyed height times the count is at most the height sum. |
| Highend.SumBelowHighest | highend.py:1058-1062 | Some surveyed height times the count is at least the height sum. |
| Highend.MeanBetweenExtremes | highend.py:1065 | The floor of the mean lies between the lowest and the highest surveyed height. |
| Highend.SiteY | highend.py:1055-1065 | 64 when no position is surveyed. Otherwise y - 1 is the floor of the mean surveyed height (count * (y - 1) <= sum < count * y), so it lies between the lowest and highest surveyed ground. |
| Highend.LowestRaised | highend.py:199-206 | `min_height` is at most y and at most y - adjustment for every positive adjustment in the loop, and equals y or one of those. |
| Highend.FoundationCells | highend.py:201-202 | The foundation loop visits exactly the footprint padded by one block. |
| Highend.MinHeightIsLowestLowGround | highend.py:199-206 | With the adjustment map for y, `min_height` is the lowest surveyed ground below y under the padded footprint, or y when there is none. |
| Highend.MakeOdd | highend.py:1047-1048 | The result is odd, v or v + 1, and unchanged when v is odd. |
| Highend.MansionDimensions | highend.py:1042-1048 | Made odd, the width stays in 13..19 and the length in 19..27. |
| Highend.MansionWindows | highend.py:542-551 | Ten windows, all on the house's outline. In a house at least 4 by 3 no two coincide. |
| Highend.WindowFacing | highend.py:552-564 | On every window of a house at least 2 by 2, the chosen facing points towards the centre: west on the east side, east on the west side, north on the far end, south on the near end. |
| Highend.WindowFacings | highend.py:542-564 | For a house at least 4 by 2, each side window faces away from its own wall, and the end windows face north and south. |
| Highend.MansionWindowFacings | highend.py:552-564 | Every mansion the script builds gets the facings west, west, west, east, east, east, north, north, south, south. |

## Left out

- Editor I/O is not modelled: world-slice loading, block placement, `getBlock` probes, `geo` cuboids and the matplotlib plots. Heightmaps come in as parameters.
- The flatness score (`np.gradient`, `np.sqrt`, `np.mean`) is floating point and is a parameter. Only its failure on windows thinner than two cells is modelled.
- `analyze_terrain` and the site classification of extreme.py use `np.std` and floating thresholds. The site type is an input.
- Randomness is not modelled: `choice`, `randint` and `random()`, the weighted pick of `choose_building_style`, and the random theme and dimensions. The dimension ranges appear as preconditions.
- The longhouse, split-level, compound and tower layouts of `create_house_layout` are not modelled. They are long literal tables, partly random.
- The tier count and tier heights of the embedded mode are floating point (`height_variance // 2`, `height_range / tiers`). Only the tier bands over the footprint are modelled.
- The longhouse rotation uses `np.gradient` and `atan2`, so it is not modelled.
- `foundation_height` and the stilt and pillar columns are block placement, so they are not modelled.
- The standard foundation of extreme.py is not modelled. Its `min_height` indexes the dictionary values with `adj[0]` and raises on every call.
- Bracing, roofs, walls, interiors and gardens of extreme.py and highend.py are block placement, not modelled.
- `tree_positions` and `add_landscaping` of the cottage scripts, and `fantasy_castle.py`, `my_hut.py` and the tutorial, are outside the modelled core.
- heightmap.py's `find_flattest_subarray` is line for line the one of 2height_maps.py, so one function models both.
- The platform layout's `stilt_height` entry, the stairs feature's `"length"` and `"facing": "east"` fields (extreme.py:1058-1062), every room's `"tier"` field and the platform quarters' `"is_sub_room": True` flag (extreme.py:1027-1036) are not modelled. `stilt_height` and the stairs' length come from `foundation_height` and `base_height`, which only size the stilt columns that are placed as blocks. The facing, the tier and the sub-room flag are only copied onto windows or read when blocks are placed. The stairs feature is kept as its kind and position.
- Highend.WindowFacings: the facings are proved for houses at least 4 wide and 2 long. Narrower houses make the `width // 3` and `width // 2` windows coincide, and the script never builds one.
- Foundation.StiltPositions: requires non-negative dimensions. The script always passes positive sizes.
- Foundation.FarCornerIsStiltIff: requires non-negative dimensions, for the same reason.

## Findings

| source | as written | input that shows it | evidently intended | confidence | as-written member | corrected member |
|---|---|---|---|---|---|---|
| extreme.py:1266-1271 | The floor loop visits dz from -L // 2 to L // 2. Its tier test `tier_z_min <= dz < tier_z_max` cuts [-L // 2, -L // 2 + L) into bands, and that range stops one row short of L // 2. | Any length: L = 20 with 2 tiers gives bands [-10, 0) and [0, 10). Row dz = 10 is in neither, so that footprint row gets no floor block (the same bands at lines 1240-1243 leave its foundation unbuilt). | The bands cut the L + 1 footprint rows, so every row gets exactly one tier. | medium, not executed | Foundation.FarRowInNoTier | Foundation.FootprintTiersPartitionRows |
