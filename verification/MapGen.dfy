/** The map generator as a whole: every accepted parameter set and every random
    stream gives a valid map in which everything required can be walked to. */
module MapGen {
  import opened Json
  import opened Hashing
  import opened Rng
  import opened Grid
  import opened Layout
  import opened Terrain
  import opened Houses
  import opened Decor
  import opened MapValidation

  // ----- the map the parameters stand for -----

  datatype Streams = Streams(districts: Stream, roads: Stream, decor: Stream)

  function StreamsOf(h: HashFunction, draw: DrawFunction, p: Params): Streams {
    Streams(PhaseStream(h, draw, p, "districts"), PhaseStream(h, draw, p, "roads"), PhaseStream(h, draw, p, "decor"))
  }

  /** The tiles before houses and decor. */
  function BaseOf(p: Params, st: Streams): Tiles
    requires Valid(p)
  {
    BaseGrid(p, Districts(p, st.districts), st.roads, SpawnOf(p, st.districts), GateOf(p, st.districts))
  }

  function ResidentialOf(p: Params, st: Streams): District
    requires Valid(p)
  {
    LandmarkDistricts(p, st.districts);
    Districts(p, st.districts)[ResidentialIndex(Districts(p, st.districts))]
  }

  function PlotPoints(p: Params, st: Streams): seq<Point>
    requires Valid(p)
  {
    PlotsOf(BaseOf(p, st), p.width, p.height, ResidentialOf(p, st), SpawnOf(p, st.districts), GateOf(p, st.districts),
      p.housePlotCount)
  }

  function SiteOf(p: Params, st: Streams): Site
    requires Valid(p)
  {
    var gate := GateOf(p, st.districts);
    Site(p.width, p.height, p.biome == Biome.Azura, SpawnOf(p, st.districts), gate, PlotPoints(p, st),
         AnchorsOf(BaseOf(p, st), gate, PlotPoints(p, st)))
  }

  /** The tiles after k decor attempts. */
  ghost function TilesAfter(p: Params, st: Streams, k: nat): Tiles
    requires Valid(p)
  {
    Attempts(SiteOf(p, st), st.decor, BaseOf(p, st), k).0
  }

  /** A house plot of the map: `H<number>`, one tile, priced by its number. */
  datatype Plot = Plot(number: nat, at: Point, priceGold: nat)

  function NumberPlots(points: seq<Point>): seq<Plot> {
    seq(|points|, i requires 0 <= i < |points| => Plot(i + 1, points[i], 100 * (i + 1)))
  }

  datatype GeneratedMap = GeneratedMap(
    name: string, width: nat, height: nat, spawn: Point, tiles: seq<int>, plots: seq<Plot>)

  /** The map is the one the parameters and streams determine. */
  ghost predicate IsMapOf(p: Params, st: Streams, m: GeneratedMap)
    requires Valid(p)
  {
    && m.name == p.name && m.width == p.width && m.height == p.height && |m.tiles| == p.width * p.height
    && m.spawn == SpawnOf(p, st.districts) && m.plots == NumberPlots(PlotPoints(p, st))
    && AttemptCount(p.width, p.height) >= 0
    && View(m.tiles, p.width, p.height) == TilesAfter(p, st, AttemptCount(p.width, p.height))
  }

  // ----- the base is open -----

  lemma LayoutFacts(p: Params, s: Stream)
    requires Valid(p)
    ensures var ds := Districts(p, s);
      ds != [] && DistrictsInterior(p, ds) && Sized(ds) && CentersInterior(p, ds)
  {
    var ds := Districts(p, s);
    forall i, q: Point | 0 <= i < |ds| && Inside(ds[i], q)
      ensures Interior(q, p.width, p.height)
    {
      DistrictsAreInterior(p, s, i, q);
    }
    forall i | 0 <= i < |ds|
      ensures ds[i].width >= 3 && ds[i].height >= 3 && Interior(CenterOf(ds[i]), p.width, p.height)
    {
      DistrictsInCells(p, s, i);
      CenterInside(p, s, i);
    }
  }

  /** Before decor the whole interior is walkable and the whole border is wall. */
  lemma BaseIsOpen(p: Params, st: Streams)
    requires Valid(p)
    ensures BaseOf(p, st).Keys == Bounds(p.width, p.height)
    ensures forall q: Point | Interior(q, p.width, p.height) :: Open(BaseOf(p, st), WALKABLE, q)
    ensures forall q | q in BaseOf(p, st) && !Interior(q, p.width, p.height) :: BaseOf(p, st)[q] == WALL
    ensures forall q | q in BaseOf(p, st) :: KnownTile(BaseOf(p, st)[q])
    ensures forall q: Point | Open(BaseOf(p, st), WALKABLE, q) :: Interior(q, p.width, p.height)
  {
    SpawnAndGate(p, st.districts);
    InBounds(p.width, p.height);
    hide Districts, SpawnOf, GateOf, OnRoadTo, InDistrictTo;
  }

  lemma AccessExists(p: Params, st: Streams, q: Point)
    requires Valid(p) && Interior(q, p.width, p.height)
    ensures Access(BaseOf(p, st), q).Some?
  {
    BaseIsOpen(p, st);
    hide BaseOf, Open;
    var east, west := Point(q.x + 1, q.y), Point(q.x - 1, q.y);
    var n := Neighbours(q);
    assert n[0] == east && n[1] == west && east in n && west in n;
    FirstOpenSpec(BaseOf(p, st), n);
    var side := if q.x + 1 < p.width - 1 then east else west;
    assert Interior(side, p.width, p.height);
  }

  /** Exactly the asked-for number of plots, on distinct interior tiles off spawn and gate. */
  lemma PlotsAreGood(p: Params, st: Streams)
    requires Valid(p)
    ensures |PlotPoints(p, st)| == p.housePlotCount
    ensures GoodPlots(p.width, p.height, SpawnOf(p, st.districts), GateOf(p, st.districts), p.housePlotCount,
      PlotPoints(p, st))
  {
    BaseIsOpen(p, st);
    LandmarkDistricts(p, st.districts);
    forall q: Point | Inside(ResidentialOf(p, st), q)
      ensures Interior(q, p.width, p.height)
    {
      DistrictsAreInterior(p, st.districts, 1, q);
    }
    hide BaseOf, Open, PlotsOf, SpawnOf, GateOf, ResidentialOf, Districts;
    PlotsComplete(BaseOf(p, st), p.width, p.height, ResidentialOf(p, st), SpawnOf(p, st.districts),
      GateOf(p, st.districts), p.housePlotCount);
  }

  lemma SiteIsReady(p: Params, st: Streams)
    requires Valid(p)
    ensures SiteOf(p, st).Valid() && AnchorsReached(SiteOf(p, st), BaseOf(p, st))
    ensures In(GateOf(p, st.districts), p.width, p.height)
    ensures forall q | q in PlotPoints(p, st) :: In(q, p.width, p.height)
  {
    SpawnAndGate(p, st.districts);
    BaseIsOpen(p, st);
    PlotsAreGood(p, st);
    var g, site := BaseOf(p, st), SiteOf(p, st);
    AnchorsSpec(g, site.gate, site.plots);
    hide BaseOf, Open, SpawnOf, GateOf, PlotPoints, AnchorsOf, Reachable;
    forall a | a in site.anchors ensures Interior(a, p.width, p.height) && Reachable(g, site.spawn, a) {
      OpenInteriorIsConnected(g, p.width, p.height, site.spawn, a);
    }
  }

  // ----- after any number of attempts -----

  /** Decor never cuts anything off: after every attempt the gate, each plot's access
      tile and each plot can be walked to from spawn; protected tiles are as they
      were; the border is wall; every tile is known. */
  lemma EveryAttemptIsSafe(p: Params, st: Streams, k: nat)
    requires Valid(p)
    ensures var g, site := TilesAfter(p, st, k), SiteOf(p, st);
      && g.Keys == Bounds(p.width, p.height)
      && (forall q | q in g && !Interior(q, p.width, p.height) :: g[q] == WALL)
      && (forall q | q in g :: KnownTile(g[q]))
      && (forall q | q in g && site.Protected(q) :: g[q] == BaseOf(p, st)[q])
      && Reachable(g, site.spawn, site.gate)
  {
    var site := SiteOf(p, st);
    SiteIsReady(p, st);
    BaseIsOpen(p, st);
    DecorIsSafe(site, st.decor, BaseOf(p, st), k);
    AnchorsSpec(BaseOf(p, st), site.gate, site.plots);
    hide BaseOf, SiteOf, Attempts, Open, Reachable;
  }

  lemma EveryPlotStaysReachable(p: Params, st: Streams, k: nat, i: nat)
    requires Valid(p) && i < p.housePlotCount
    ensures |PlotPoints(p, st)| == p.housePlotCount && Access(BaseOf(p, st), PlotPoints(p, st)[i]).Some?
    ensures Reachable(TilesAfter(p, st, k), SpawnOf(p, st.districts), PlotPoints(p, st)[i])
    ensures Reachable(TilesAfter(p, st, k), SpawnOf(p, st.districts), Access(BaseOf(p, st), PlotPoints(p, st)[i]).value)
  {
    var site := SiteOf(p, st);
    SiteIsReady(p, st);
    BaseIsOpen(p, st);
    PlotsAreGood(p, st);
    DecorIsSafe(site, st.decor, BaseOf(p, st), k);
    var q := PlotPoints(p, st)[i];
    assert q in PlotPoints(p, st);
    AccessExists(p, st, q);
    hide BaseOf, Attempts, Open, Reachable, Access, PlotPoints, SpawnOf, GateOf;
    PlotStaysReachable(site, BaseOf(p, st), TilesAfter(p, st, k), i);
  }

  // ----- the tiles are determined -----

  lemma PointOf(i: nat, w: nat, h: nat) returns (q: Point)
    requires w > 0 && i < w * h
    ensures In(q, w, h) && Idx(q.x, q.y, w) == i
  {
    q := Point(i % w, i / w);
    assert i == (i / w) * w + i % w;
    assert i / w < h by { if i / w >= h { MulMonotone(h, i / w, w); } }
  }

  lemma ViewDetermines(s: seq<int>, t: seq<int>, w: nat, h: nat)
    requires |s| == |t| == w * h && View(s, w, h) == View(t, w, h) && w > 0
    ensures s == t
  {
    forall i | 0 <= i < |s| ensures s[i] == t[i] {
      var q := PointOf(i, w, h);
      InBounds(w, h);
      assert View(s, w, h)[q] == TileAt(s, w, h, q) && View(t, w, h)[q] == TileAt(t, w, h, q);
    }
  }

  /** Same parameters, same streams: the same map, tile for tile. */
  lemma MapIsDetermined(p: Params, st: Streams, a: GeneratedMap, b: GeneratedMap)
    requires Valid(p) && IsMapOf(p, st, a) && IsMapOf(p, st, b)
    ensures a == b
  {
    hide TilesAfter, PlotPoints, SpawnOf, View;
    ViewDetermines(a.tiles, b.tiles, p.width, p.height);
  }

  // ----- the validator is met -----

  function Raw(m: GeneratedMap): RawMap {
    MapRecord(Whole(m.width), Whole(m.height), Some(LooseTiles(m.tiles)),
      SpawnRecord(Whole(m.spawn.x), Whole(m.spawn.y)))
  }

  function LooseTiles(tiles: seq<int>): seq<Loose> {
    seq(|tiles|, i requires 0 <= i < |tiles| => Whole(tiles[i]))
  }

  lemma ViewKnown(tiles: seq<int>, w: nat, h: nat, i: nat)
    requires |tiles| == w * h && w > 0 && i < |tiles| && forall q | q in View(tiles, w, h) ::
      KnownTile(View(tiles, w, h)[q])
    ensures KnownTile(tiles[i])
  {
    var q := PointOf(i, w, h);
    InBounds(w, h);
    assert View(tiles, w, h)[q] == TileAt(tiles, w, h, q);
  }

  /** The map the parameters determine passes the authored-map validator. */
  lemma MapIsWellFormed(p: Params, st: Streams, m: GeneratedMap)
    requires Valid(p) && IsMapOf(p, st, m)
    ensures WellFormedMap(Raw(m))
  {
    var k := AttemptCount(p.width, p.height);
    var g := TilesAfter(p, st, k);
    var spawn := SpawnOf(p, st.districts);
    EveryAttemptIsSafe(p, st, k);
    SpawnAndGate(p, st.districts);
    ReachableIsOpen(g, spawn, GateOf(p, st.districts));
    InBounds(p.width, p.height);
    IdxBounds(spawn, p.width, p.height);
    assert View(m.tiles, p.width, p.height)[spawn] == TileAt(m.tiles, p.width, p.height, spawn);
    hide TilesAfter, BaseOf, PlotPoints, SpawnOf, GateOf, View, Idx;
    forall t | t in LooseTiles(m.tiles) ensures IsKnownTile(t) {
      var i :| 0 <= i < |m.tiles| && LooseTiles(m.tiles)[i] == t;
      ViewKnown(m.tiles, p.width, p.height, i);
    }
  }

  /** In the finished map the gate tile, every plot and a tile next to every plot
      can be walked to from spawn. */
  lemma MapIsConnected(p: Params, st: Streams, m: GeneratedMap)
    requires Valid(p) && IsMapOf(p, st, m)
    ensures var g := View(m.tiles, m.width, m.height);
      && Reachable(g, m.spawn, GateOf(p, st.districts)) && g[GateOf(p, st.districts)] == GATE
      && |m.plots| == p.housePlotCount
      && forall i | 0 <= i < |m.plots| :: PlotServed(g, m.spawn, m.plots[i])
  {
    var k := AttemptCount(p.width, p.height);
    var g, gate := TilesAfter(p, st, k), GateOf(p, st.districts);
    EveryAttemptIsSafe(p, st, k);
    PlotsAreGood(p, st);
    assert SiteOf(p, st).Protected(gate) && gate in g && g[gate] == GATE
      by { GateTile(p, st); ReachableIsOpen(g, SiteOf(p, st).spawn, gate); }
    hide TilesAfter, BaseOf, View, Reachable, SpawnOf, GateOf, PlotPoints, Access;
    forall i | 0 <= i < |m.plots| ensures PlotServed(g, m.spawn, m.plots[i]) {
      EveryPlotStaysReachable(p, st, k, i);
      AccessIsNextTo(BaseOf(p, st), m.plots[i].at);
    }
  }

  /** The plot and one of its neighbours can be walked to. */
  ghost predicate PlotServed(g: Tiles, spawn: Point, plot: Plot) {
    Reachable(g, spawn, plot.at) && exists a :: Step(plot.at, a) && Reachable(g, spawn, a)
  }

  lemma AccessIsNextTo(g: Tiles, q: Point)
    ensures Access(g, q).Some? ==> Step(q, Access(g, q).value)
  {
    FirstOpenSpec(g, Neighbours(q));
    NeighboursAreSteps(q);
  }

  lemma GateTile(p: Params, st: Streams)
    requires Valid(p)
    ensures GateOf(p, st.districts) in BaseOf(p, st) && BaseOf(p, st)[GateOf(p, st.districts)] == GATE
  {
    SpawnAndGate(p, st.districts);
    BaseIsOpen(p, st);
    InBounds(p.width, p.height);
    hide Districts, SpawnOf, GateOf, OnRoadTo, InDistrictTo;
  }

  // ----- what stands where -----

  /** The streams, by the names of their phases. */
  lemma StreamsByName(h: HashFunction, draw: DrawFunction, p: Params, i: nat)
    ensures StreamsOf(h, draw, p).districts(i) == draw("blake3:" + h(PhaseText(h, p, "districts")), i)
    ensures StreamsOf(h, draw, p).roads(i) == draw("blake3:" + h(PhaseText(h, p, "roads")), i)
    ensures StreamsOf(h, draw, p).decor(i) == draw("blake3:" + h(PhaseText(h, p, "decor")), i)
  {
    hide PhaseSeed, PhaseText;
    PhaseSeedHashesText(h, p, "districts");
    PhaseSeedHashesText(h, p, "roads");
    PhaseSeedHashesText(h, p, "decor");
  }

  /** In the finished map the spawn tile is the floor of the biome: grass in grassland,
      stone elsewhere. */
  lemma SpawnTile(p: Params, st: Streams, m: GeneratedMap)
    requires Valid(p) && IsMapOf(p, st, m)
    ensures var g := View(m.tiles, m.width, m.height);
      m.spawn in g && g[m.spawn] == if p.biome == Grassland then 0 else 1
  {
    var k := AttemptCount(p.width, p.height);
    EveryAttemptIsSafe(p, st, k);
    SpawnAndGate(p, st.districts);
    BaseIsOpen(p, st);
    InBounds(p.width, p.height);
    assert SiteOf(p, st).Protected(m.spawn);
    hide TilesAfter, View, SiteOf, PlotPoints, SpawnOf, GateOf;
  }

  lemma BaseHasNoWater(p: Params, st: Streams)
    requires Valid(p)
    ensures forall q | q in BaseOf(p, st) :: BaseOf(p, st)[q] != WATER
  {
    hide OnRoadTo, InDistrictTo, SpawnOf, GateOf, Districts;
  }

  /** Only Azura has water: elsewhere no attempt ever leaves a water tile. */
  lemma {:induction false} NoWaterOutsideAzura(p: Params, st: Streams, k: nat)
    requires Valid(p) && p.biome != Biome.Azura
    ensures forall q | q in TilesAfter(p, st, k) :: TilesAfter(p, st, k)[q] != WATER
  {
    var site := SiteOf(p, st);
    assert !site.azura;
    hide BaseOf, SiteOf, Attempt;
    if k == 0 {
      BaseHasNoWater(p, st);
    } else {
      NoWaterOutsideAzura(p, st, k - 1);
      var (before, c) := Attempts(site, st.decor, BaseOf(p, st), k - 1);
      assert before == TilesAfter(p, st, k - 1);
      AttemptAddsNoWater(site, st.decor, before, c);
    }
  }

  // ----- the generator -----

  datatype Generation = Generated(map_: GeneratedMap) | Rejected(error: ParamError)

  /** Border, districts, roads, spawn and gate, on a new tile array. */
  method BuildBase(p: Params, ghost st: Streams, dr: PhaseRng, rr: PhaseRng)
    returns (tiles: array<int>, districts: seq<District>, spawn: Point, gate: Point)
    requires Valid(p) && dr.stream == st.districts && rr.stream == st.roads && dr.i == 0 && rr.i == 0 && dr != rr
    modifies dr, rr
    ensures fresh(tiles) && tiles.Length == p.width * p.height
    ensures districts == Districts(p, st.districts)
    ensures spawn == SpawnOf(p, st.districts) && gate == GateOf(p, st.districts)
    ensures View(tiles[..], p.width, p.height) == BaseOf(p, st)
  {
    hide View, Bounds, Districts, OnRoadTo, InDistrictTo, CenterOf;
    var w, h := p.width, p.height;
    tiles := PaintField(p);
    districts := PlaceDistricts(p, dr);
    LayoutFacts(p, st.districts);
    PaintDistricts(p, tiles, districts);
    CarveRoads(p, tiles, districts, rr);
    LandmarkDistricts(p, st.districts);
    SpawnAndGate(p, st.districts);
    spawn := CenterOf(districts[CommonsIndex(districts)]);
    SetTile(tiles, w, h, spawn, FloorTile(p));
    gate := CenterOf(districts[GateIndex(districts)]);
    SetTile(tiles, w, h, gate, GATE);
    InBounds(w, h);
    assert View(tiles[..], w, h).Keys == BaseOf(p, st).Keys;
    forall q | q in BaseOf(p, st) ensures View(tiles[..], w, h)[q] == BaseOf(p, st)[q] { }
  }

  /** The map has the name, the size and the number of plots that were asked for. */
  predicate AsAsked(raw: RawParams, m: GeneratedMap) {
    && m.name == raw.name && raw.width.Finite? && raw.height.Finite?
    && m.width as real == raw.width.value && m.height as real == raw.height.value
    && (forall i | 0 <= i < |m.plots| :: m.plots[i].number == i + 1 && m.plots[i].priceGold == 100 + 100 * i)
    && (raw.housePlotCount.None? ==> |m.plots| == 3)
    && (raw.housePlotCount.Some? ==> CountIs(|m.plots|, raw.housePlotCount.value, 1, 8))
  }

  lemma GeneratedAsAsked(raw: RawParams, st: Streams, m: GeneratedMap)
    requires Normalize(raw).Accepted? && IsMapOf(Normalize(raw).params, st, m)
    ensures AsAsked(raw, m)
  {
    hide TilesAfter, PlotPoints, SpawnOf, View, CountIs;
    AcceptedParams(raw);
    PlotsAreGood(Normalize(raw).params, st);
  }

  /** `generateMap`.  It refuses exactly the parameters `normalize` refuses; neither
      the reachability guard nor the validator ever throws. */
  method GenerateMap(h: HashFunction, draw: DrawFunction, raw: RawParams) returns (r: Generation)
    ensures r.Rejected? <==> Normalize(raw).Refused?
    ensures r.Rejected? ==> r.error == Normalize(raw).error
    ensures r.Generated? ==> var p := Normalize(raw).params; IsMapOf(p, StreamsOf(h, draw, p), r.map_)
    ensures r.Generated? ==> WellFormedMap(Raw(r.map_))
    ensures r.Generated? ==> AsAsked(raw, r.map_)
  {
    hide AsAsked, PhaseStream, Normalize, IsPositiveInteger, View, Bounds, BaseOf, PlotsOf, AnchorsOf, Attempts,
         AnchorsReached, WellFormedMap, SpawnOf, GateOf, Districts;
    var normalized := Normalize(raw);
    if normalized.Refused? {
      return Rejected(normalized.error);
    }
    var p := normalized.params;
    ghost var st := StreamsOf(h, draw, p);
    var width, height := p.width, p.height;
    var dr := new PhaseRng(PhaseStream(h, draw, p, "districts"));
    var rr := new PhaseRng(PhaseStream(h, draw, p, "roads"));
    var tiles, districts, spawn, gate := BuildBase(p, st, dr, rr);

    LandmarkDistricts(p, st.districts);
    var residential := districts[ResidentialIndex(districts)];
    forall q: Point | Inside(residential, q)
      ensures Interior(q, width, height)
    {
      DistrictsAreInterior(p, st.districts, 1, q);
    }
    var plots := PlaceHouses(tiles, width, height, residential, spawn, gate, p.housePlotCount);
    var anchors := FindAnchors(tiles, width, height, gate, plots);
    var site := Site(width, height, p.biome == Biome.Azura, spawn, gate, plots, anchors);
    assert site == SiteOf(p, st);
    SiteIsReady(p, st);
    var er := new PhaseRng(PhaseStream(h, draw, p, "decor"));
    AttemptsNotNegative(width, height);
    var attempts := AttemptCount(width, height);
    Decorate(site, tiles, er, attempts);

    DecorIsSafe(site, st.decor, BaseOf(p, st), attempts);
    var connected := StillConnected(site, tiles);
    if !connected {
      // "required anchors unreachable after generation"
      assert false;
    }
    var m := GeneratedMap(p.name, width, height, spawn, tiles[..], NumberPlots(plots));
    MapIsWellFormed(p, st, m);
    var errors := ValidateMapData(Raw(m));
    if |errors| > 0 {
      // assertValidMapData
      assert false;
    }
    GeneratedAsAsked(raw, st, m);
    r := Generated(m);
  }

  lemma AttemptsNotNegative(w: nat, h: nat)
    requires w >= 2 && h >= 2
    ensures AttemptCount(w, h) >= 0
  {
    assert (w - 2) * (h - 2) >= 0;
  }
}
