/**
 * extreme.py, `create_house_layout`: the deterministic cottage, courtyard
 * and platform layouts and the outer dimensions computed from the rooms.
 * Coordinates are offsets from the house centre; every `-v // k` of the
 * source is Python's floor division of the negated value, written
 * `(-v) / k` here.
 */
module HouseLayout {
  import opened Wrappers
  import opened Offsets

  datatype Room = Room(name: string, x1: int, z1: int, x2: int, z2: int)

  /** An interior dividing wall from (x1, z1) to (x2, z2). */
  datatype Partition = Partition(x1: int, z1: int, x2: int, z2: int)

  datatype Doorway = Doorway(x: int, z: int, facing: Facing, isEntrance: bool)

  datatype Opening = Opening(x: int, z: int, facing: Facing)

  /** A special feature: a single spot, or a rectangle such as the deck or the railing. */
  datatype Feature =
    | Spot(kind: string, x: int, z: int)
    | Region(kind: string, x1: int, z1: int, x2: int, z2: int)

  datatype Layout = Layout(rooms: seq<Room>, walls: seq<Partition>, doors: seq<Doorway>, windows: seq<Opening>, features: seq<Feature>)

  /** Why a layout cannot be produced. */
  datatype LayoutError =
    | ZeroRangeStep   // `range(..., 0)` raises ValueError
    | NoRooms         // `min([])` raises ValueError

  /** The door at index k is the only one marked as the main entrance. */
  predicate OnlyEntrance(doors: seq<Doorway>, k: int) {
    forall i :: 0 <= i < |doors| ==> (doors[i].isEntrance <==> i == k)
  }

  /** Opening o is on the rectangle [xLo, xHi] by [zLo, zHi] and faces into it: west on the high-x wall, east on the low-x wall, north on the high-z wall, south on the low-z wall. */
  predicate FacesInward(x: int, z: int, f: Facing, xLo: int, xHi: int, zLo: int, zHi: int) {
    match f
    case West => x == xHi && zLo <= z <= zHi
    case East => x == xLo && zLo <= z <= zHi
    case North => z == zHi && xLo <= x <= xHi
    case South => z == zLo && xLo <= x <= xHi
  }

  /** Every room lies inside the rectangle [xLo, xHi] by [zLo, zHi]. */
  predicate RoomsWithin(rooms: seq<Room>, xLo: int, xHi: int, zLo: int, zHi: int) {
    forall r :: r in rooms ==> xLo <= r.x1 && r.x2 <= xHi && zLo <= r.z1 && r.z2 <= zHi
  }

  // ---------------------------------------------------------------------
  // Cottage

  /** Cell (x, z) lies in room rm, walls included. */
  predicate InRoom(rm: Room, x: int, z: int) {
    rm.x1 <= x <= rm.x2 && rm.z1 <= z <= rm.z2
  }

  /**
   * The cottage's main room, bedroom and kitchen. The bedroom starts where
   * the main room ends along z and the kitchen where it ends along x, and
   * in a cottage at least 3 by 3 every room is inside the outer walls.
   */
  function CottageRooms(width: int, length: int): (r: seq<Room>)
    ensures |r| == 3
    ensures r[1].z1 == r[0].z2 && r[2].x1 == r[0].x2
    ensures width >= 3 && length >= 3 ==>
      RoomsWithin(r, (-width) / 2 + 1, width / 2 - 1, (-length) / 2 + 1, length / 2 - 1)
  {
    [Room("main_room", (-width) / 4, (-length) / 4, width / 4, length / 4),
     Room("bedroom", (-width) / 2 + 1, length / 4, width / 4, length / 2 - 1),
     Room("kitchen", width / 4, (-length) / 2 + 1, width / 2 - 1, length / 4)]
  }

  /** The cottage branch: main room, bedroom and kitchen, two dividers, three doors, seven windows. */
  function CottageLayout(width: int, length: int): (l: Layout)
    ensures l.rooms == CottageRooms(width, length)
    ensures |l.walls| == 2 && |l.doors| == 3 && |l.windows| == 7
    ensures OnlyEntrance(l.doors, 2) && l.doors[2] == Doorway((-width) / 2, 0, East, true)
  {
    var rooms := CottageRooms(width, length);
    var walls := [
      Partition((-width) / 4, length / 4, width / 4, length / 4),
      Partition(width / 4, (-length) / 4, width / 4, length / 4)];
    var doors := [
      Doorway(0, length / 4, North, false),
      Doorway(width / 4, 0, West, false),
      Doorway((-width) / 2, 0, East, true)];
    var windows := [
      Opening(width / 2, (-length) / 3, West),
      Opening(width / 2, length / 3, West),
      Opening((-width) / 2, length / 3, East),
      Opening((-width) / 3, length / 2, North),
      Opening(width / 3, length / 2, North),
      Opening(width / 3, (-length) / 2, South),
      Opening((-width) / 3, (-length) / 2, South)];
    var features := [
      Spot("fireplace", width / 2 - 1, 0),
      Spot("bookshelf", 0, (-length) / 2 + 1),
      Spot("table", width / 3, (-length) / 3)];
    Layout(rooms, walls, doors, windows, features)
  }

  /** Every cottage window and the entrance sit on the outer wall of the footprint and face into the house. */
  lemma CottageOpeningsFaceInward(width: int, length: int)
    requires width >= 0 && length >= 0
    ensures var l := CottageLayout(width, length);
      (forall o :: o in l.windows ==> FacesInward(o.x, o.z, o.facing, (-width) / 2, width / 2, (-length) / 2, length / 2))
      && (forall d :: d in l.doors && d.isEntrance ==> FacesInward(d.x, d.z, d.facing, (-width) / 2, width / 2, (-length) / 2, length / 2))
  {
  }

  // ---------------------------------------------------------------------
  // Courtyard

  /**
   * The four courtyard wings around the open courtyard, a third of each
   * dimension: no wing reaches into the courtyard's interior.
   */
  function CourtyardRooms(width: int, length: int): (r: seq<Room>)
    ensures |r| == 4
    ensures forall i :: 0 <= i < |r| ==>
      || r[i].z1 >= (length / 3) / 2 || r[i].z2 <= (-(length / 3)) / 2
      || r[i].x1 >= (width / 3) / 2 || r[i].x2 <= (-(width / 3)) / 2
  {
    var cw, cl := width / 3, length / 3;
    [Room("north_wing", (-width) / 2 + 1, cl / 2, width / 2 - 1, length / 2 - 1),
     Room("south_wing", (-width) / 2 + 1, (-length) / 2 + 1, width / 2 - 1, (-cl) / 2),
     Room("east_wing", cw / 2, (-cl) / 2, width / 2 - 1, cl / 2),
     Room("west_wing", (-width) / 2 + 1, (-cl) / 2, (-cw) / 2, cl / 2)]
  }

  /** The courtyard branch: four wings around a central courtyard of a third of each dimension. */
  function CourtyardLayout(width: int, length: int): (l: Layout)
    ensures l.rooms == CourtyardRooms(width, length)
    ensures |l.doors| == 5 && |l.windows| == 16
    ensures OnlyEntrance(l.doors, 0) && l.doors[0] == Doorway(0, (-length) / 2, South, true)
  {
    var cw, cl := width / 3, length / 3;
    var rooms := CourtyardRooms(width, length);
    var doors := [
      Doorway(0, (-length) / 2, South, true),
      Doorway(0, (-cl) / 2, North, false),
      Doorway(0, cl / 2, South, false),
      Doorway((-cw) / 2, 0, East, false),
      Doorway(cw / 2, 0, West, false)];
    var windows := [
      Opening(width / 4, length / 2, North),
      Opening((-width) / 4, length / 2, North),
      Opening(width / 4, (-length) / 2, South),
      Opening((-width) / 4, (-length) / 2, South),
      Opening(width / 2, length / 4, West),
      Opening(width / 2, (-length) / 4, West),
      Opening((-width) / 2, length / 4, East),
      Opening((-width) / 2, (-length) / 4, East),
      Opening(width / 4, cl / 2, South),
      Opening((-width) / 4, cl / 2, South),
      Opening(width / 4, (-cl) / 2, North),
      Opening((-width) / 4, (-cl) / 2, North),
      Opening(cw / 2, cl / 4, West),
      Opening(cw / 2, (-cl) / 4, West),
      Opening((-cw) / 2, cl / 4, East),
      Opening((-cw) / 2, (-cl) / 4, East)];
    var features := [
      Region("courtyard", (-cw) / 2, (-cl) / 2, cw / 2, cl / 2),
      Spot("well", 0, 0),
      Spot("garden", cw / 4, (-cl) / 4),
      Spot("garden", (-cw) / 4, cl / 4)];
    Layout(rooms, [], doors, windows, features)
  }

  /** The exterior courtyard windows (the first eight) sit on the outer wall and face into the house. */
  lemma CourtyardExteriorFacesInward(width: int, length: int)
    requires width >= 0 && length >= 0
    ensures var l := CourtyardLayout(width, length);
      forall i :: 0 <= i < 8 ==>
        FacesInward(l.windows[i].x, l.windows[i].z, l.windows[i].facing, (-width) / 2, width / 2, (-length) / 2, length / 2)
  {
  }

  // ---------------------------------------------------------------------
  // Platform

  /** The platform windows on the two long sides: a west and an east window for each z in the range. */
  function SideOpenings(zs: seq<int>, xLo: int, xHi: int): (r: seq<Opening>)
    ensures |r| == 2 * |zs|
    ensures forall o :: o in r <==> o.z in zs && ((o.x == xHi && o.facing == West) || (o.x == xLo && o.facing == East))
  {
    if |zs| == 0 then []
    else [Opening(xHi, zs[0], West), Opening(xLo, zs[0], East)] + SideOpenings(zs[1..], xLo, xHi)
  }

  /** The platform windows on the two ends: a north and a south window for each x in the range. */
  function EndOpenings(xs: seq<int>, zLo: int, zHi: int): (r: seq<Opening>)
    ensures |r| == 2 * |xs|
    ensures forall o :: o in r <==> o.x in xs && ((o.z == zHi && o.facing == North) || (o.z == zLo && o.facing == South))
  {
    if |xs| == 0 then []
    else [Opening(xs[0], zHi, North), Opening(xs[0], zLo, South)] + EndOpenings(xs[1..], zLo, zHi)
  }

  /**
   * The platform's windows: for z in range(-pl // 2 + pl // 6, pl // 2, pl // 3)
   * a west window on the east edge and an east window on the west edge,
   * then for x in range(-pw // 2 + pw // 6, pw // 2, pw // 3) a north window
   * on the far end and a south window on the near end.
   */
  function PlatformWindows(pw: int, pl: int): (r: seq<Opening>)
    requires pw / 3 != 0 && pl / 3 != 0
    ensures forall o :: o in r <==>
      || (o.z in PyRange((-pl) / 2 + pl / 6, pl / 2, pl / 3) && ((o.x == pw / 2 && o.facing == West) || (o.x == (-pw) / 2 && o.facing == East)))
      || (o.x in PyRange((-pw) / 2 + pw / 6, pw / 2, pw / 3) && ((o.z == pl / 2 && o.facing == North) || (o.z == (-pl) / 2 && o.facing == South)))
  {
    SideOpenings(PyRange((-pl) / 2 + pl / 6, pl / 2, pl / 3), (-pw) / 2, pw / 2)
      + EndOpenings(PyRange((-pw) / 2 + pw / 6, pw / 2, pw / 3), (-pl) / 2, pl / 2)
  }

  /**
   * The platform itself and its four quarter rooms: each quarter has a
   * corner at the centre, and together they cover the platform.
   */
  function PlatformRooms(pw: int, pl: int): (r: seq<Room>)
    ensures |r| == 5
    ensures forall i :: 1 <= i < 5 ==> (r[i].x1 == 0 || r[i].x2 == 0) && (r[i].z1 == 0 || r[i].z2 == 0)
    ensures pw >= 0 && pl >= 0 ==> RoomsWithin(r, r[0].x1, r[0].x2, r[0].z1, r[0].z2)
    ensures forall x, z :: InRoom(r[0], x, z) ==> InRoom(r[1], x, z) || InRoom(r[2], x, z) || InRoom(r[3], x, z) || InRoom(r[4], x, z)
  {
    [Room("main_platform", (-pw) / 2, (-pl) / 2, pw / 2, pl / 2),
     Room("northwest_room", (-pw) / 2, 0, 0, pl / 2),
     Room("northeast_room", 0, 0, pw / 2, pl / 2),
     Room("southwest_room", (-pw) / 2, (-pl) / 2, 0, 0),
     Room("southeast_room", 0, (-pl) / 2, pw / 2, 0)]
  }

  /**
   * The deck and stairs on the west side, the furniture spots, and the
   * railing round the platform: the deck adjoins the platform's west edge,
   * the stairs spot is on the deck, the furniture stands on the platform,
   * and the railing is the platform's outline.
   */
  function PlatformFeatures(pw: int, pl: int): (r: seq<Feature>)
    ensures |r| == 8
    ensures r[0].Region? && r[0].x2 == PlatformRooms(pw, pl)[0].x1
    ensures r[1].Spot? && r[0].x1 <= r[1].x <= r[0].x2 && r[0].z1 <= r[1].z <= r[0].z2
    ensures pw >= 1 && pl >= 0 ==> forall i :: 2 <= i < 7 ==>
      r[i].Spot? && InRoom(PlatformRooms(pw, pl)[0], r[i].x, r[i].z)
    ensures var p := PlatformRooms(pw, pl)[0];
      r[7].Region? && r[7].x1 == p.x1 && r[7].x2 == p.x2 && r[7].z1 == p.z1 && r[7].z2 == p.z2
  {
    [Region("deck", (-pw) / 2 - 3, (-pl) / 4 - 2, (-pw) / 2, (-pl) / 4 + 2),
     Spot("stairs_down", (-pw) / 2 - 2, (-pl) / 4),
     Spot("fireplace", pw / 2 - 1, pl / 4),
     Spot("bed", pw / 4, pl / 4),
     Spot("storage", (-pw) / 4, pl / 4),
     Spot("kitchen", (-pw) / 4, (-pl) / 4),
     Spot("table", pw / 4, (-pl) / 4),
     Region("railing", (-pw) / 2, (-pl) / 2, pw / 2, pl / 2)]
  }

  /**
   * The platform branch, on a platform two blocks smaller than the house.
   * Its window loops step by a third of each platform dimension, so a
   * platform dimension of 0, 1 or 2 makes `range` raise ValueError.
   */
  function PlatformLayout(width: int, length: int): (r: Result<Layout, LayoutError>)
    ensures r.Failure? <==> (length - 2) / 3 == 0 || (width - 2) / 3 == 0
    ensures r.Failure? ==> r.error == ZeroRangeStep
    ensures r.Success? ==>
      var l := r.value;
      var pw, pl := width - 2, length - 2;
      && l.rooms == PlatformRooms(pw, pl) && |l.doors| == 5 && |l.walls| == 2
      && OnlyEntrance(l.doors, 4) && l.doors[4] == Doorway((-pw) / 2, (-pl) / 4, East, true)
      && l.windows == PlatformWindows(pw, pl)
      && l.features == PlatformFeatures(pw, pl)
  {
    var pw, pl := width - 2, length - 2;
    if pl / 3 == 0 || pw / 3 == 0 then Failure(ZeroRangeStep)
    else
      var rooms := PlatformRooms(pw, pl);
      var walls := [Partition(0, (-pl) / 2, 0, pl / 2), Partition((-pw) / 2, 0, pw / 2, 0)];
      var doors := [
        Doorway(0, pl / 4, West, false),
        Doorway(0, (-pl) / 4, West, false),
        Doorway(pw / 4, 0, South, false),
        Doorway((-pw) / 4, 0, South, false),
        Doorway((-pw) / 2, (-pl) / 4, East, true)];
      var windows := PlatformWindows(pw, pl);
      var features := PlatformFeatures(pw, pl);
      Success(Layout(rooms, walls, doors, windows, features))
  }

  /** On a platform of positive size every window sits on the platform's edge and faces into it. */
  lemma PlatformWindowsFaceInward(width: int, length: int)
    requires width >= 2 && length >= 2
    requires PlatformLayout(width, length).Success?
    ensures var l := PlatformLayout(width, length).value;
      var pw, pl := width - 2, length - 2;
      forall o :: o in l.windows ==> FacesInward(o.x, o.z, o.facing, (-pw) / 2, pw / 2, (-pl) / 2, pl / 2)
  {
  }

  // ---------------------------------------------------------------------
  // Outer dimensions

  /** The four coordinates of a room's rectangle. */
  datatype Edge = X1 | Z1 | X2 | Z2

  function EdgeOf(r: Room, e: Edge): int {
    match e
    case X1 => r.x1
    case Z1 => r.z1
    case X2 => r.x2
    case Z2 => r.z2
  }

  /** `min(room.<e> for room in rooms)` over a non-empty room list. */
  function MinOf(rooms: seq<Room>, e: Edge): (v: int)
    requires |rooms| > 0
    ensures forall r :: r in rooms ==> v <= EdgeOf(r, e)
  {
    if |rooms| == 1 then EdgeOf(rooms[0], e)
    else
      var rest := MinOf(rooms[1..], e);
      if EdgeOf(rooms[0], e) <= rest then EdgeOf(rooms[0], e) else rest
  }

  /** `max(room.<e> for room in rooms)` over a non-empty room list. */
  function MaxOf(rooms: seq<Room>, e: Edge): (v: int)
    requires |rooms| > 0
    ensures forall r :: r in rooms ==> EdgeOf(r, e) <= v
  {
    if |rooms| == 1 then EdgeOf(rooms[0], e)
    else
      var rest := MaxOf(rooms[1..], e);
      if EdgeOf(rooms[0], e) >= rest then EdgeOf(rooms[0], e) else rest
  }

  /** The minimum is one of the rooms' values, so any common lower bound is at most it. */
  lemma {:induction false} MinOfAttained(rooms: seq<Room>, e: Edge, lo: int)
    requires |rooms| > 0
    requires forall r :: r in rooms ==> lo <= EdgeOf(r, e)
    ensures exists r :: r in rooms && EdgeOf(r, e) == MinOf(rooms, e)
    ensures lo <= MinOf(rooms, e)
  {
    if |rooms| > 1 {
      assert forall r :: r in rooms[1..] ==> r in rooms;
      MinOfAttained(rooms[1..], e, lo);
      var w :| w in rooms[1..] && EdgeOf(w, e) == MinOf(rooms[1..], e);
      assert w in rooms;
    } else {
      assert rooms[0] in rooms;
    }
  }

  /** The maximum is one of the rooms' values, so any common upper bound is at least it. */
  lemma {:induction false} MaxOfAttained(rooms: seq<Room>, e: Edge, hi: int)
    requires |rooms| > 0
    requires forall r :: r in rooms ==> EdgeOf(r, e) <= hi
    ensures exists r :: r in rooms && EdgeOf(r, e) == MaxOf(rooms, e)
    ensures MaxOf(rooms, e) <= hi
  {
    if |rooms| > 1 {
      assert forall r :: r in rooms[1..] ==> r in rooms;
      MaxOfAttained(rooms[1..], e, hi);
      var w :| w in rooms[1..] && EdgeOf(w, e) == MaxOf(rooms[1..], e);
      assert w in rooms;
    } else {
      assert rooms[0] in rooms;
    }
  }

  /**
   * `outer_width` and `outer_length`: the span of the rooms' bounding box.
   * An empty room list makes `min` raise ValueError.
   */
  function OuterDimensions(rooms: seq<Room>): (r: Result<(int, int), LayoutError>)
    ensures r.Failure? <==> |rooms| == 0
    ensures r.Success? ==> r.value == (MaxOf(rooms, X2) - MinOf(rooms, X1), MaxOf(rooms, Z2) - MinOf(rooms, Z1))
  {
    if |rooms| == 0 then Failure(NoRooms)
    else Success((MaxOf(rooms, X2) - MinOf(rooms, X1), MaxOf(rooms, Z2) - MinOf(rooms, Z1)))
  }

  /** When rooms a, b, c and d bound all the others, the outer dimensions are the span from a's x1 to b's x2 and from c's z1 to d's z2. */
  lemma OuterDimensionsOfBoundingRooms(rooms: seq<Room>, a: Room, b: Room, c: Room, d: Room, w: int, l: int)
    requires a in rooms && b in rooms && c in rooms && d in rooms
    requires RoomsWithin(rooms, a.x1, b.x2, c.z1, d.z2)
    requires w == b.x2 - a.x1 && l == d.z2 - c.z1
    ensures OuterDimensions(rooms) == Success((w, l))
  {
    MinOfAttained(rooms, X1, a.x1);
    MaxOfAttained(rooms, X2, b.x2);
    MinOfAttained(rooms, Z1, c.z1);
    MaxOfAttained(rooms, Z2, d.z2);
    assert EdgeOf(a, X1) == a.x1 && EdgeOf(b, X2) == b.x2 && EdgeOf(c, Z1) == c.z1 && EdgeOf(d, Z2) == d.z2;
  }

  /** The floor halves of w and of its negation are w apart. */
  lemma HalvesSpan(w: int)
    ensures w / 2 - (-w) / 2 == w
  {
  }

  /** Floor halves and quarters of a non-negative w, and of its negation, are ordered and span w. */
  lemma Halves(w: int)
    requires w >= 0
    ensures (-w) / 2 <= (-w) / 4 <= 0 <= w / 4 <= w / 2
    ensures w / 2 - (-w) / 2 == w
    ensures w >= 3 ==> (-w) / 2 + 1 <= (-w) / 4 && w / 4 <= w / 2 - 1
    ensures w >= 2 ==> (-w) / 2 + 1 <= (-(w / 3)) / 2 <= 0 <= (w / 3) / 2 <= w / 2 - 1
  {
  }

  /** The cottage's rooms stretch from one block inside the west wall to one block inside the east wall: its outer size is two less than the house's. */
  lemma CottageOuterDimensions(width: int, length: int)
    requires width >= 3 && length >= 3
    ensures OuterDimensions(CottageLayout(width, length).rooms) == Success((width - 2, length - 2))
  {
    var rooms := CottageRooms(width, length);
    var bed, kitchen := rooms[1], rooms[2];
    assert bed in rooms && kitchen in rooms;
    assert RoomsWithin(rooms, bed.x1, kitchen.x2, kitchen.z1, bed.z2) by {
      Halves(width);
      Halves(length);
    }
    assert width - 2 == kitchen.x2 - bed.x1 && length - 2 == bed.z2 - kitchen.z1 by {
      HalvesSpan(width);
      HalvesSpan(length);
    }
    OuterDimensionsOfBoundingRooms(rooms, bed, kitchen, kitchen, bed, width - 2, length - 2);
  }

  /** Every courtyard wing lies between one block inside the west and east walls and one block inside the south and north walls. */
  lemma CourtyardRoomsWithin(width: int, length: int)
    requires width >= 2 && length >= 2
    ensures RoomsWithin(CourtyardRooms(width, length), (-width) / 2 + 1, width / 2 - 1, (-length) / 2 + 1, length / 2 - 1)
  {
    Halves(width);
    Halves(length);
  }

  /** The courtyard wings span x from -width // 2 + 1 to width // 2 - 1, and z likewise. */
  lemma CourtyardOuterDimensions(width: int, length: int)
    requires width >= 2 && length >= 2
    ensures OuterDimensions(CourtyardRooms(width, length)) == Success((width - 2, length - 2))
  {
    var rooms := CourtyardRooms(width, length);
    var north, south := rooms[0], rooms[1];
    assert north in rooms && south in rooms;
    assert RoomsWithin(rooms, north.x1, north.x2, south.z1, north.z2) by {
      CourtyardRoomsWithin(width, length);
    }
    assert width - 2 == north.x2 - north.x1 && length - 2 == north.z2 - south.z1 by {
      HalvesSpan(width);
      HalvesSpan(length);
    }
    OuterDimensionsOfBoundingRooms(rooms, north, north, south, north, width - 2, length - 2);
  }

  /** The platform's main room is the whole platform and holds the four quarter rooms, so the outer size is the platform's, two less than the house's. */
  lemma PlatformOuterDimensions(width: int, length: int)
    requires width >= 2 && length >= 2
    ensures OuterDimensions(PlatformRooms(width - 2, length - 2)) == Success((width - 2, length - 2))
  {
    var pw, pl := width - 2, length - 2;
    var rooms := PlatformRooms(pw, pl);
    assert (-pw) / 2 <= 0 <= pw / 2 && pw / 2 - (-pw) / 2 == pw;
    assert (-pl) / 2 <= 0 <= pl / 2 && pl / 2 - (-pl) / 2 == pl;
    var m := rooms[0];
    assert RoomsWithin(rooms, m.x1, m.x2, m.z1, m.z2);
    OuterDimensionsOfBoundingRooms(rooms, m, m, m, m, pw, pl);
  }
}
