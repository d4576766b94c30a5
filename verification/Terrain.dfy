/** The generator's tile phases up to the landmarks, as loops over the tile array
    and as a closed form; and what the roads connect. */
module Terrain {
  import opened Grid
  import opened Layout

  function FloorTile(p: Params): int {
    if p.biome == Grassland then GRASS else STONE
  }

  // ----- closed form -----

  predicate OnH(q: Point, x0: int, x1: int, y: int) {
    q.y == y && MinInt(x0, x1) <= q.x <= MaxInt(x0, x1)
  }

  predicate OnV(q: Point, y0: int, y1: int, x: int) {
    q.x == x && MinInt(y0, y1) <= q.y <= MaxInt(y0, y1)
  }

  /** The L-shaped corridor from a to b, horizontal leg first or last. */
  predicate OnRoad(a: Point, b: Point, horizontalFirst: bool, q: Point) {
    if horizontalFirst then OnH(q, a.x, b.x, a.y) || OnV(q, a.y, b.y, b.x)
    else OnV(q, a.y, b.y, a.x) || OnH(q, a.x, b.x, b.y)
  }

  /** The coin that bends road i. */
  predicate Bend(rr: Stream, i: nat) {
    IntAt(rr, i, 2).0 < 1
  }

  /** Road i turns at the end of its horizontal leg on an even draw, of its vertical leg on an odd one. */
  lemma RoadByDraw(rr: Stream, i: nat, a: Point, b: Point)
    ensures var corner := if rr(i) % 2 == 0 then Point(b.x, a.y) else Point(a.x, b.y);
      forall q :: OnRoad(a, b, Bend(rr, i), q) <==>
        || (q.y == corner.y && (a.x <= q.x <= b.x || b.x <= q.x <= a.x))
        || (q.x == corner.x && (a.y <= q.y <= b.y || b.y <= q.y <= a.y))
  {
  }

  predicate OnRoadTo(ds: seq<District>, rr: Stream, k: nat, q: Point) {
    exists i | 0 <= i < k && i + 1 < |ds| :: OnRoad(CenterOf(ds[i]), CenterOf(ds[i + 1]), Bend(rr, i), q)
  }

  predicate InDistrictTo(ds: seq<District>, k: nat, q: Point) {
    exists i | 0 <= i < k && i < |ds| :: Inside(ds[i], q)
  }

  /** The tile at q after the border and the first k districts. */
  function Paved(p: Params, ds: seq<District>, k: nat, q: Point): int {
    if !Interior(q, p.width, p.height) then WALL
    else if InDistrictTo(ds, k, q) then FloorTile(p)
    else GRASS
  }

  /** The tile at q after the first k roads as well. */
  function Roaded(p: Params, ds: seq<District>, rr: Stream, k: nat, q: Point): int {
    if !Interior(q, p.width, p.height) then WALL
    else if OnRoadTo(ds, rr, k, q) then STONE
    else Paved(p, ds, |ds|, q)
  }

  /** The tile at q once spawn and gate are set. */
  function BaseTile(p: Params, ds: seq<District>, rr: Stream, spawn: Point, gate: Point, q: Point): int
    requires ds != []
  {
    if q == gate then GATE
    else if q == spawn then FloorTile(p)
    else Roaded(p, ds, rr, |ds| - 1, q)
  }

  function BaseGrid(p: Params, ds: seq<District>, rr: Stream, spawn: Point, gate: Point): Tiles
    requires ds != []
  {
    map q: Point | q in Bounds(p.width, p.height) :: BaseTile(p, ds, rr, spawn, gate, q)
  }

  // ----- the loops -----

  /** The bordered base field. */
  method PaintField(p: Params) returns (tiles: array<int>)
    ensures fresh(tiles) && tiles.Length == p.width * p.height
    ensures forall q: Point | q in Bounds(p.width, p.height) ::
      View(tiles[..], p.width, p.height)[q] == Paved(p, [], 0, q)
  {
    hide View, Bounds, InDistrictTo;
    var w, h := p.width, p.height;
    InBounds(w, h);
    tiles := new int[w * h];
    for y := 0 to h
      invariant fresh(tiles) && tiles.Length == w * h
      invariant forall q: Point | q in Bounds(w, h) && q.y < y :: View(tiles[..], w, h)[q] == FieldTile(p, q)
    {
      for x := 0 to w
        invariant fresh(tiles) && tiles.Length == w * h
        invariant forall q: Point | q in Bounds(w, h) && (q.y < y || (q.y == y && q.x < x)) ::
          View(tiles[..], w, h)[q] == FieldTile(p, q)
      {
        var edge := x == 0 || y == 0 || x == w - 1 || y == h - 1;
        SetTile(tiles, w, h, Point(x, y), if edge then WALL else GRASS);
      }
    }
    forall q: Point | q in Bounds(w, h) ensures FieldTile(p, q) == Paved(p, [], 0, q) { NoDistrictYet(q); }
  }

  function FieldTile(p: Params, q: Point): int {
    if Interior(q, p.width, p.height) then GRASS else WALL
  }

  lemma NoDistrictYet(q: Point)
    ensures !InDistrictTo([], 0, q)
  {
  }

  /** Paint one district's floor. */
  method PaintDistrict(tiles: array<int>, w: nat, h: nat, d: District, floor: int)
    requires tiles.Length == w * h && d.width >= 0 && d.height >= 0
    requires forall q: Point | Inside(d, q) :: In(q, w, h)
    modifies tiles
    ensures forall q: Point | q in Bounds(w, h) ::
      View(tiles[..], w, h)[q] == if Inside(d, q) then floor else old(View(tiles[..], w, h))[q]
  {
    hide View, Bounds;
    ghost var g := View(tiles[..], w, h);
    InBounds(w, h);
    for y := d.y to d.y + d.height
      invariant forall q: Point | q in Bounds(w, h) ::
        View(tiles[..], w, h)[q] == if Inside(d, q) && q.y < y then floor else g[q]
    {
      for x := d.x to d.x + d.width
        invariant forall q: Point | q in Bounds(w, h) ::
          View(tiles[..], w, h)[q] == if Inside(d, q) && (q.y < y || (q.y == y && q.x < x)) then floor else g[q]
      {
        assert Inside(d, Point(x, y));
        SetTile(tiles, w, h, Point(x, y), floor);
      }
    }
  }

  lemma InDistrictStep(ds: seq<District>, k: nat, q: Point)
    requires k < |ds|
    ensures InDistrictTo(ds, k + 1, q) <==> InDistrictTo(ds, k, q) || Inside(ds[k], q)
  {
    hide Inside;
    if Inside(ds[k], q) { assert InDistrictTo(ds, k + 1, q); }
  }

  ghost predicate DistrictsInterior(p: Params, ds: seq<District>) {
    forall i, q: Point | 0 <= i < |ds| && Inside(ds[i], q) :: Interior(q, p.width, p.height)
  }

  ghost predicate Sized(ds: seq<District>) {
    forall i | 0 <= i < |ds| :: ds[i].width >= 3 && ds[i].height >= 3
  }

  /** Paint all district floors. */
  method PaintDistricts(p: Params, tiles: array<int>, ds: seq<District>)
    requires tiles.Length == p.width * p.height && DistrictsInterior(p, ds) && Sized(ds)
    requires forall q: Point | q in Bounds(p.width, p.height) ::
      View(tiles[..], p.width, p.height)[q] == Paved(p, [], 0, q)
    modifies tiles
    ensures forall q: Point | q in Bounds(p.width, p.height) ::
      View(tiles[..], p.width, p.height)[q] == Paved(p, ds, |ds|, q)
  {
    hide View, Bounds, InDistrictTo, Inside;
    var w, h := p.width, p.height;
    forall q: Point ensures Paved(p, [], 0, q) == Paved(p, ds, 0, q) { NoDistrictYet(q); NoneOfZero(ds, q); }
    for i := 0 to |ds|
      invariant forall q: Point | q in Bounds(w, h) :: View(tiles[..], w, h)[q] == Paved(p, ds, i, q)
    {
      forall q: Point | Inside(ds[i], q) ensures In(q, w, h) { assert Interior(q, w, h); }
      PaintDistrict(tiles, w, h, ds[i], FloorTile(p));
      forall q: Point
        ensures Paved(p, ds, i + 1, q) == if Inside(ds[i], q) then FloorTile(p) else Paved(p, ds, i, q)
      {
        InDistrictStep(ds, i, q);
      }
    }
  }

  lemma NoneOfZero(ds: seq<District>, q: Point)
    ensures !InDistrictTo(ds, 0, q)
  {
  }

  /** A carved tile: roads never break a wall. */
  function Carved(onRoad: bool, was: int): int {
    if onRoad && was != WALL then STONE else was
  }

  /** `carveH`: Stone from x0 to x1 in row y, walls excepted. */
  method CarveH(tiles: array<int>, w: nat, h: nat, x0: int, x1: int, y: int)
    requires tiles.Length == w * h && 0 <= x0 < w && 0 <= x1 < w && 0 <= y < h
    modifies tiles
    ensures forall q: Point | q in Bounds(w, h) ::
      View(tiles[..], w, h)[q] == Carved(OnH(q, x0, x1, y), old(View(tiles[..], w, h))[q])
  {
    hide View, Bounds;
    ghost var g := View(tiles[..], w, h);
    InBounds(w, h);
    var a, b := if x0 <= x1 then x0 else x1, if x0 <= x1 then x1 else x0;
    for x := a to b + 1
      invariant forall q: Point | q in Bounds(w, h) ::
        View(tiles[..], w, h)[q] == Carved(OnH(q, x0, x1, y) && q.x < x, g[q])
    {
      var t := GetTile(tiles, w, h, Point(x, y));
      if t != WALL {
        SetTile(tiles, w, h, Point(x, y), STONE);
      }
    }
  }

  /** `carveV`. */
  method CarveV(tiles: array<int>, w: nat, h: nat, y0: int, y1: int, x: int)
    requires tiles.Length == w * h && 0 <= y0 < h && 0 <= y1 < h && 0 <= x < w
    modifies tiles
    ensures forall q: Point | q in Bounds(w, h) ::
      View(tiles[..], w, h)[q] == Carved(OnV(q, y0, y1, x), old(View(tiles[..], w, h))[q])
  {
    hide View, Bounds;
    ghost var g := View(tiles[..], w, h);
    InBounds(w, h);
    var a, b := if y0 <= y1 then y0 else y1, if y0 <= y1 then y1 else y0;
    for y := a to b + 1
      invariant forall q: Point | q in Bounds(w, h) ::
        View(tiles[..], w, h)[q] == Carved(OnV(q, y0, y1, x) && q.y < y, g[q])
    {
      var t := GetTile(tiles, w, h, Point(x, y));
      if t != WALL {
        SetTile(tiles, w, h, Point(x, y), STONE);
      }
    }
  }

  /** One road. */
  method CarveRoad(tiles: array<int>, w: nat, h: nat, a: Point, b: Point, horizontalFirst: bool)
    requires tiles.Length == w * h && In(a, w, h) && In(b, w, h)
    modifies tiles
    ensures forall q: Point | q in Bounds(w, h) ::
      View(tiles[..], w, h)[q] == Carved(OnRoad(a, b, horizontalFirst, q), old(View(tiles[..], w, h))[q])
  {
    hide View, Bounds, OnH, OnV;
    if horizontalFirst {
      CarveH(tiles, w, h, a.x, b.x, a.y);
      CarveV(tiles, w, h, a.y, b.y, b.x);
    } else {
      CarveV(tiles, w, h, a.y, b.y, a.x);
      CarveH(tiles, w, h, a.x, b.x, b.y);
    }
  }

  lemma RoadStep(ds: seq<District>, rr: Stream, k: nat, q: Point)
    requires k + 1 < |ds|
    ensures OnRoadTo(ds, rr, k + 1, q) <==>
      OnRoadTo(ds, rr, k, q) || OnRoad(CenterOf(ds[k]), CenterOf(ds[k + 1]), Bend(rr, k), q)
  {
    hide OnRoad, CenterOf, Bend;
    if OnRoad(CenterOf(ds[k]), CenterOf(ds[k + 1]), Bend(rr, k), q) { assert OnRoadTo(ds, rr, k + 1, q); }
  }

  lemma NoRoadYet(ds: seq<District>, rr: Stream, q: Point)
    ensures !OnRoadTo(ds, rr, 0, q)
  {
  }

  lemma PavedIsKnown(p: Params, ds: seq<District>, k: nat, q: Point)
    ensures Paved(p, ds, k, q) == WALL <==> !Interior(q, p.width, p.height)
  {
  }

  ghost predicate CentersInterior(p: Params, ds: seq<District>) {
    forall i | 0 <= i < |ds| :: Interior(CenterOf(ds[i]), p.width, p.height)
  }

  /** The roads phase. */
  method CarveRoads(p: Params, tiles: array<int>, ds: seq<District>, rr: PhaseRng)
    requires tiles.Length == p.width * p.height && ds != [] && CentersInterior(p, ds) && rr.i == 0
    requires forall q: Point | q in Bounds(p.width, p.height) ::
      View(tiles[..], p.width, p.height)[q] == Paved(p, ds, |ds|, q)
    modifies tiles, rr
    ensures forall q: Point | q in Bounds(p.width, p.height) ::
      View(tiles[..], p.width, p.height)[q] == Roaded(p, ds, rr.stream, |ds| - 1, q)
  {
    hide View, Bounds, InDistrictTo, OnRoadTo, OnRoad, CenterOf;
    var w, h := p.width, p.height;
    forall q: Point ensures Roaded(p, ds, rr.stream, 0, q) == Paved(p, ds, |ds|, q) { NoRoadYet(ds, rr.stream, q); }
    for i := 0 to |ds| - 1
      invariant rr.i == i
      invariant forall q: Point | q in Bounds(w, h) :: View(tiles[..], w, h)[q] == Roaded(p, ds, rr.stream, i, q)
    {
      var a := CenterOf(ds[i]);
      var b := CenterOf(ds[i + 1]);
      var horizontalFirst := rr.Chance(1, 2);
      CarveRoad(tiles, w, h, a, b, horizontalFirst);
      forall q: Point
        ensures Roaded(p, ds, rr.stream, i + 1, q)
          == Carved(OnRoad(a, b, horizontalFirst, q), Roaded(p, ds, rr.stream, i, q))
      {
        RoadStep(ds, rr.stream, i, q);
        PavedIsKnown(p, ds, |ds|, q);
      }
    }
  }

  // ----- what straight legs connect -----

  lemma {:induction false} StraightH(g: Tiles, ok: set<int>, a: Point, b: Point)
    requires a.y == b.y && forall q: Point | OnH(q, a.x, b.x, a.y) :: Open(g, ok, q)
    ensures Connected(g, ok, a, b)
    decreases if a.x < b.x then b.x - a.x else a.x - b.x
  {
    ConnectedSelf(g, ok, a);
    if a != b {
      var next := Point(if a.x < b.x then a.x + 1 else a.x - 1, a.y);
      ConnectedStep(g, ok, a, a, next);
      forall q: Point | OnH(q, next.x, b.x, next.y) ensures OnH(q, a.x, b.x, a.y) { }
      StraightH(g, ok, next, b);
      ConnectedTransitive(g, ok, a, next, b);
    }
  }

  lemma {:induction false} StraightV(g: Tiles, ok: set<int>, a: Point, b: Point)
    requires a.x == b.x && forall q: Point | OnV(q, a.y, b.y, a.x) :: Open(g, ok, q)
    ensures Connected(g, ok, a, b)
    decreases if a.y < b.y then b.y - a.y else a.y - b.y
  {
    ConnectedSelf(g, ok, a);
    if a != b {
      var next := Point(a.x, if a.y < b.y then a.y + 1 else a.y - 1);
      ConnectedStep(g, ok, a, a, next);
      forall q: Point | OnV(q, next.y, b.y, next.x) ensures OnV(q, a.y, b.y, a.x) { }
      StraightV(g, ok, next, b);
      ConnectedTransitive(g, ok, a, next, b);
    }
  }

  /** Either L-shape joins its ends. */
  lemma RoadJoins(g: Tiles, ok: set<int>, a: Point, b: Point, horizontalFirst: bool)
    requires forall q: Point | OnRoad(a, b, horizontalFirst, q) :: Open(g, ok, q)
    ensures Connected(g, ok, a, b)
  {
    if horizontalFirst {
      var corner := Point(b.x, a.y);
      forall q: Point | OnH(q, a.x, corner.x, a.y) ensures OnRoad(a, b, true, q) { }
      forall q: Point | OnV(q, corner.y, b.y, corner.x) ensures OnRoad(a, b, true, q) { }
      StraightH(g, ok, a, corner);
      StraightV(g, ok, corner, b);
      ConnectedTransitive(g, ok, a, corner, b);
    } else {
      var corner := Point(a.x, b.y);
      forall q: Point | OnV(q, a.y, corner.y, a.x) ensures OnRoad(a, b, false, q) { }
      forall q: Point | OnH(q, corner.x, b.x, corner.y) ensures OnRoad(a, b, false, q) { }
      StraightV(g, ok, a, corner);
      StraightH(g, ok, corner, b);
      ConnectedTransitive(g, ok, a, corner, b);
    }
  }

  /** The tiles after the road phase. */
  ghost predicate IsRoadGrid(p: Params, ds: seq<District>, rr: Stream, g: Tiles)
    requires ds != []
  {
    g.Keys == Bounds(p.width, p.height) && forall q | q in g :: g[q] == Roaded(p, ds, rr, |ds| - 1, q)
  }

  lemma RoadIsInterior(w: nat, h: nat, a: Point, b: Point, horizontalFirst: bool, q: Point)
    requires Interior(a, w, h) && Interior(b, w, h) && OnRoad(a, b, horizontalFirst, q)
    ensures Interior(q, w, h)
  {
  }

  lemma NeighbouringCentersJoined(p: Params, ds: seq<District>, rr: Stream, g: Tiles, i: nat)
    requires ds != [] && IsRoadGrid(p, ds, rr, g) && CentersInterior(p, ds) && i + 1 < |ds|
    ensures Connected(g, {STONE}, CenterOf(ds[i]), CenterOf(ds[i + 1]))
  {
    hide CenterOf, OnRoad, Bend;
    InBounds(p.width, p.height);
    var a, b := CenterOf(ds[i]), CenterOf(ds[i + 1]);
    forall q: Point | OnRoad(a, b, Bend(rr, i), q) ensures Open(g, {STONE}, q) {
      RoadIsInterior(p.width, p.height, a, b, Bend(rr, i), q);
      assert OnRoadTo(ds, rr, |ds| - 1, q);
    }
    RoadJoins(g, {STONE}, a, b, Bend(rr, i));
  }

  /** Road connectivity.  After the road phase any two district centres are joined
      by Stone tiles alone, whichever way each road bends. */
  lemma {:induction false} RoadsConnectAllDistricts(p: Params, ds: seq<District>, rr: Stream, g: Tiles, i: nat, j: nat)
    requires ds != [] && IsRoadGrid(p, ds, rr, g) && CentersInterior(p, ds) && i < |ds| && j < |ds| && |ds| >= 2
    ensures Connected(g, {STONE}, CenterOf(ds[i]), CenterOf(ds[j]))
    decreases i > j, j - i
  {
    hide CenterOf, IsRoadGrid;
    if i < j {
      NeighbouringCentersJoined(p, ds, rr, g, i);
      RoadsConnectAllDistricts(p, ds, rr, g, i + 1, j);
      ConnectedTransitive(g, {STONE}, CenterOf(ds[i]), CenterOf(ds[i + 1]), CenterOf(ds[j]));
    } else if j < i {
      RoadsConnectAllDistricts(p, ds, rr, g, j, i);
      ConnectedSymmetric(g, {STONE}, CenterOf(ds[j]), CenterOf(ds[i]));
    } else {
      var k := if i + 1 < |ds| then i else i - 1;
      NeighbouringCentersJoined(p, ds, rr, g, k);
      ConnectedSymmetric(g, {STONE}, CenterOf(ds[k]), CenterOf(ds[k + 1]));
      ConnectedTransitive(g, {STONE}, CenterOf(ds[k]), CenterOf(ds[k + 1]), CenterOf(ds[k]));
      ConnectedTransitive(g, {STONE}, CenterOf(ds[k + 1]), CenterOf(ds[k]), CenterOf(ds[k + 1]));
    }
  }

  /** When every interior tile is walkable, the interior is one walkable region. */
  lemma OpenInteriorIsConnected(g: Tiles, w: nat, h: nat, a: Point, b: Point)
    requires forall q: Point | Interior(q, w, h) :: Open(g, WALKABLE, q)
    requires Interior(a, w, h) && Interior(b, w, h)
    ensures Reachable(g, a, b)
  {
    forall q: Point | OnRoad(a, b, true, q) ensures Open(g, WALKABLE, q) { RoadIsInterior(w, h, a, b, true, q); }
    RoadJoins(g, WALKABLE, a, b, true);
  }
}
