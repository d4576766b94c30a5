/** Decor: random obstacles, each kept only if every required place stays reachable. */
module Decor {
  import opened Json
  import opened Grid
  import opened Layout

  // ----- anchors -----

  /** `walkableNeighbor`: the first open neighbour in the order east, west, south, north. */
  function Access(g: Tiles, q: Point): Option<Point> {
    FirstOpen(g, Neighbours(q))
  }

  function FirstOpen(g: Tiles, s: seq<Point>): Option<Point> {
    if s == [] then None else if Open(g, WALKABLE, s[0]) then Some(s[0]) else FirstOpen(g, s[1..])
  }

  method WalkableNeighbor(tiles: array<int>, w: nat, h: nat, q: Point) returns (r: Option<Point>)
    requires tiles.Length == w * h
    ensures r == Access(View(tiles[..], w, h), q)
  {
    hide View, Bounds, Open, WALKABLE;
    ghost var g := View(tiles[..], w, h);
    InBounds(w, h);
    var candidates := Neighbours(q);
    for k := 0 to 4
      invariant FirstOpen(g, candidates[k..]) == FirstOpen(g, candidates)
    {
      assert candidates[k..][1..] == candidates[k + 1..];
      var n := candidates[k];
      if n.x < 0 || n.y < 0 || n.x >= w || n.y >= h {
        OutsideIsClosed(g, w, h, n);
      } else {
        var t := GetTile(tiles, w, h, n);
        OpenTile(g, n);
        if t in WALKABLE {
          return Some(n);
        }
      }
    }
    return None;
  }

  lemma {:induction false} FirstOpenSpec(g: Tiles, s: seq<Point>)
    ensures FirstOpen(g, s).Some? <==> exists p | p in s :: Open(g, WALKABLE, p)
    ensures FirstOpen(g, s).Some? ==> FirstOpen(g, s).value in s && Open(g, WALKABLE, FirstOpen(g, s).value)
  {
    hide Open;
    if s != [] {
      FirstOpenSpec(g, s[1..]);
      assert s == [s[0]] + s[1..];
    }
  }

  /** The gate, then one access tile per plot that has one. */
  function AnchorsOf(g: Tiles, gate: Point, plots: seq<Point>): seq<Point> {
    if plots == [] then [gate]
    else
      var front := AnchorsOf(g, gate, plots[..|plots| - 1]);
      match Access(g, plots[|plots| - 1])
      case None => front
      case Some(a) => front + [a]
  }

  method FindAnchors(tiles: array<int>, w: nat, h: nat, gate: Point, plots: seq<Point>) returns (anchors: seq<Point>)
    requires tiles.Length == w * h
    ensures anchors == AnchorsOf(View(tiles[..], w, h), gate, plots)
  {
    hide View, Access;
    anchors := [gate];
    for i := 0 to |plots|
      invariant anchors == AnchorsOf(View(tiles[..], w, h), gate, plots[..i])
    {
      assert plots[..i + 1][..i] == plots[..i];
      var access := WalkableNeighbor(tiles, w, h, plots[i]);
      if access.Some? {
        anchors := anchors + [access.value];
      }
    }
    assert plots[..|plots|] == plots;
  }

  lemma {:induction false} AnchorsSpec(g: Tiles, gate: Point, plots: seq<Point>)
    ensures gate in AnchorsOf(g, gate, plots)
    ensures forall i | 0 <= i < |plots| && Access(g, plots[i]).Some? ::
      Access(g, plots[i]).value in AnchorsOf(g, gate, plots)
    ensures forall a | a in AnchorsOf(g, gate, plots) :: a == gate || Open(g, WALKABLE, a)
  {
    hide Open;
    if plots != [] {
      var n := |plots| - 1;
      AnchorsSpec(g, gate, plots[..n]);
      FirstOpenSpec(g, Neighbours(plots[n]));
      forall i | 0 <= i < |plots| && Access(g, plots[i]).Some?
        ensures Access(g, plots[i]).value in AnchorsOf(g, gate, plots)
      {
        if i < n { assert plots[..n][i] == plots[i]; }
      }
    }
  }

  // ----- one attempt -----

  /** What the decor phase works on: everything but the tiles. */
  datatype Site = Site(w: nat, h: nat, azura: bool, spawn: Point, gate: Point, plots: seq<Point>, anchors: seq<Point>) {
    predicate Valid() {
      w >= 16 && h >= 16 && In(spawn, w, h) && forall a | a in anchors :: In(a, w, h)
    }

    /** Tiles no obstacle may take. */
    predicate Protected(q: Point) {
      q == spawn || q == gate || q in plots || q in anchors
    }
  }

  ghost predicate AnchorsReached(site: Site, g: Tiles) {
    forall a | a in site.anchors :: Reachable(g, site.spawn, a)
  }

  /** `stillConnected`. */
  method StillConnected(site: Site, tiles: array<int>) returns (r: bool)
    requires site.Valid() && tiles.Length == site.w * site.h
    ensures r <==> AnchorsReached(site, View(tiles[..], site.w, site.h))
  {
    hide View, Reachable;
    var w, h := site.w, site.h;
    var seen := ReachableFrom(tiles, w, h, site.spawn);
    ghost var marks := seen[..];
    for i := 0 to |site.anchors|
      invariant seen.Length == w * h && seen[..] == marks
      invariant forall k | 0 <= k < i :: Reachable(View(tiles[..], w, h), site.spawn, site.anchors[k])
    {
      var a := site.anchors[i];
      IdxBounds(a, w, h);
      assert MarkAt(marks, w, h, a) <==> Reachable(View(tiles[..], w, h), site.spawn, a);
      if !seen[Idx(a.x, a.y, w)] {
        return false;
      }
    }
    return true;
  }

  /** Where attempt drawn from position c lands, and the next position. */
  function Spot(site: Site, er: Stream, c: nat): (Point, nat) {
    var (x, c1) := IntAt(er, c, site.w - 2);
    var (y, c2) := IntAt(er, c1, site.h - 2);
    (Point(1 + x, 1 + y), c2)
  }

  /** Azura gets occasional water; everything else is wall-like cover. */
  function Obstacle(site: Site, er: Stream, c: nat): (int, nat) {
    if site.azura then (if IntAt(er, c, 4).0 < 1 then WATER else WALL, IntAt(er, c, 4).1) else (WALL, c)
  }

  /** One decor attempt: the tiles after it and the next stream position. */
  ghost function Attempt(site: Site, er: Stream, g: Tiles, c: nat): (Tiles, nat) {
    var (q, c1) := Spot(site, er, c);
    if site.Protected(q) || !Open(g, WALKABLE, q) then (g, c1)
    else
      var (obstacle, c2) := Obstacle(site, er, c1);
      (if AnchorsReached(site, g[q := obstacle]) then g[q := obstacle] else g, c2)
  }

  /** The first k attempts. */
  ghost function Attempts(site: Site, er: Stream, g: Tiles, k: nat): (Tiles, nat) {
    if k == 0 then (g, 0)
    else
      var (before, c) := Attempts(site, er, g, k - 1);
      Attempt(site, er, before, c)
  }

  /** `Math.floor(innerArea * 0.08)`. */
  function AttemptCount(w: nat, h: nat): int {
    (w - 2) * (h - 2) * 8 / 100
  }

  /** One attempt for every full twelve and a half interior tiles. */
  lemma AttemptsAreEightPercent(w: nat, h: nat)
    requires w >= 2 && h >= 2
    ensures var n, inner := AttemptCount(w, h), (w - 2) * (h - 2); n as real <= inner as real * 0.08 < n as real + 1.0
  {
    var inner := (w - 2) * (h - 2);
    assert AttemptCount(w, h) == inner * 8 / 100;
  }

  /** `protectedTiles`, by position. */
  ghost predicate ProtectedIs(site: Site, positions: set<int>) {
    forall q: Point | In(q, site.w, site.h) :: Idx(q.x, q.y, site.w) in positions <==> site.Protected(q)
  }

  method ProtectedPositions(site: Site) returns (positions: set<int>)
    requires In(site.spawn, site.w, site.h) && In(site.gate, site.w, site.h)
    requires (forall q | q in site.plots :: In(q, site.w, site.h))
    requires (forall q | q in site.anchors :: In(q, site.w, site.h))
    ensures ProtectedIs(site, positions)
  {
    hide Idx;
    var w := site.w;
    positions := {Idx(site.spawn.x, site.spawn.y, w), Idx(site.gate.x, site.gate.y, w)};
    ghost var points := [site.spawn, site.gate];
    for i := 0 to |site.plots|
      invariant points == [site.spawn, site.gate] + site.plots[..i]
      invariant PositionsOf(positions, w, points)
    {
      positions := positions + {Idx(site.plots[i].x, site.plots[i].y, w)};
      points := points + [site.plots[i]];
    }
    assert points == [site.spawn, site.gate] + site.plots;
    for i := 0 to |site.anchors|
      invariant points == [site.spawn, site.gate] + site.plots + site.anchors[..i]
      invariant PositionsOf(positions, w, points)
    {
      positions := positions + {Idx(site.anchors[i].x, site.anchors[i].y, w)};
      points := points + [site.anchors[i]];
    }
    assert points == [site.spawn, site.gate] + site.plots + site.anchors;
    PositionsMean(site, positions, points);
  }

  ghost predicate PositionsOf(positions: set<int>, w: nat, points: seq<Point>) {
    && (forall q | q in points :: Idx(q.x, q.y, w) in positions)
    && forall i | i in positions :: exists q :: q in points && Idx(q.x, q.y, w) == i
  }

  lemma PositionsMean(site: Site, positions: set<int>, points: seq<Point>)
    requires points == [site.spawn, site.gate] + site.plots + site.anchors && PositionsOf(positions, site.w, points)
    requires forall q | q in points :: In(q, site.w, site.h)
    ensures ProtectedIs(site, positions)
  {
    hide Idx;
    forall q: Point | In(q, site.w, site.h) ensures Idx(q.x, q.y, site.w) in positions <==> site.Protected(q) {
      assert site.Protected(q) <==> q in points;
      if Idx(q.x, q.y, site.w) in positions {
        var r :| r in points && Idx(r.x, r.y, site.w) == Idx(q.x, q.y, site.w);
        IdxInjective(q, r, site.w, site.h);
      }
    }
  }

  /** The body of the decor loop: place, look, roll back if something was cut off. */
  method TryObstacle(site: Site, tiles: array<int>, er: PhaseRng, positions: set<int>)
    requires site.Valid() && tiles.Length == site.w * site.h && ProtectedIs(site, positions)
    modifies tiles, er
    ensures (View(tiles[..], site.w, site.h), er.i)
         == Attempt(site, er.stream, old(View(tiles[..], site.w, site.h)), old(er.i))
  {
    hide View, Bounds, AnchorsReached, WALKABLE, Open, Idx, IntAt;
    var w, h := site.w, site.h;
    ghost var g := View(tiles[..], w, h);
    IntAtBounds(er.stream, er.i, w - 2);
    var dx := er.Int(w - 2);
    IntAtBounds(er.stream, er.i, h - 2);
    var dy := er.Int(h - 2);
    var q := Point(1 + dx, 1 + dy);
    assert q == Spot(site, er.stream, old(er.i)).0;
    if Idx(q.x, q.y, w) in positions {
      return;
    }
    var prev := GetTile(tiles, w, h, q);
    OpenTile(g, q);
    if prev !in WALKABLE {
      return;
    }
    var water := false;
    if site.azura {
      water := er.Chance(1, 4);
    }
    var obstacle := if water then WATER else WALL;
    SetTile(tiles, w, h, q, obstacle);
    var connected := StillConnected(site, tiles);
    if !connected {
      SetTile(tiles, w, h, q, prev);
      assert g[q := obstacle][q := prev] == g;
    }
  }

  lemma IntAtBounds(s: Stream, i: nat, n: int)
    requires n > 0
    ensures 0 <= IntAt(s, i, n).0 < n
  {
  }

  /** The decor phase. */
  method Decorate(site: Site, tiles: array<int>, er: PhaseRng, attempts: int)
    requires site.Valid() && tiles.Length == site.w * site.h && er.i == 0 && attempts >= 0
    requires In(site.gate, site.w, site.h) && forall q | q in site.plots :: In(q, site.w, site.h)
    modifies tiles, er
    ensures View(tiles[..], site.w, site.h)
         == Attempts(site, er.stream, old(View(tiles[..], site.w, site.h)), attempts).0
  {
    hide View, Attempt;
    var positions := ProtectedPositions(site);
    ghost var g := View(tiles[..], site.w, site.h);
    for i := 0 to attempts
      invariant (View(tiles[..], site.w, site.h), er.i) == Attempts(site, er.stream, g, i)
    {
      TryObstacle(site, tiles, er, positions);
    }
  }

  // ----- safety -----

  /** What decor must leave as it found it. */
  ghost predicate Intact(site: Site, g0: Tiles, g: Tiles) {
    && g.Keys == g0.Keys
    && (forall q | q in g0 && !Interior(q, site.w, site.h) :: g[q] == g0[q])
    && (forall q | q in g0 && site.Protected(q) :: g[q] == g0[q])
    && (forall q | q in g0 :: g[q] == g0[q] || g[q] == WALL || g[q] == WATER)
  }

  lemma AttemptIsSafe(site: Site, er: Stream, g0: Tiles, g: Tiles, c: nat)
    requires site.Valid() && Intact(site, g0, g) && AnchorsReached(site, g)
    ensures Intact(site, g0, Attempt(site, er, g, c).0) && AnchorsReached(site, Attempt(site, er, g, c).0)
  {
    hide AnchorsReached, Open, WALKABLE;
    IntAtBounds(er, c, site.w - 2);
    IntAtBounds(er, IntAt(er, c, site.w - 2).1, site.h - 2);
    hide IntAt;
    var q := Spot(site, er, c).0;
    assert Interior(q, site.w, site.h);
    if !site.Protected(q) && Open(g, WALKABLE, q) { OpenIsThere(g, q); }
  }

  lemma OpenIsThere(g: Tiles, q: Point)
    requires Open(g, WALKABLE, q)
    ensures q in g
  {
  }

  /** Decor safety: after any number of attempts, kept or rolled back, protected
      tiles and everything outside the interior are as before, and every anchor is reachable. */
  lemma {:induction false} DecorIsSafe(site: Site, er: Stream, g: Tiles, k: nat)
    requires site.Valid() && AnchorsReached(site, g)
    ensures Intact(site, g, Attempts(site, er, g, k).0) && AnchorsReached(site, Attempts(site, er, g, k).0)
  {
    hide AnchorsReached, Attempt;
    if k > 0 {
      DecorIsSafe(site, er, g, k - 1);
      var (before, c) := Attempts(site, er, g, k - 1);
      AttemptIsSafe(site, er, g, before, c);
    }
  }

  /** A plot whose access tile was found stays reachable itself. */
  lemma PlotStaysReachable(site: Site, g0: Tiles, g: Tiles, i: nat)
    requires i < |site.plots| && site.anchors == AnchorsOf(g0, site.gate, site.plots)
    requires Intact(site, g0, g) && AnchorsReached(site, g)
    requires Open(g0, WALKABLE, site.plots[i]) && Access(g0, site.plots[i]).Some?
    ensures Reachable(g, site.spawn, Access(g0, site.plots[i]).value)
    ensures Reachable(g, site.spawn, site.plots[i])
  {
    var q := site.plots[i];
    var a := Access(g0, q).value;
    AnchorsSpec(g0, site.gate, site.plots);
    FirstOpenSpec(g0, Neighbours(q));
    NeighboursAreSteps(q);
    StepSymmetric(a, q);
    assert site.Protected(q);
    ConnectedStep(g, WALKABLE, site.spawn, a, q);
  }

  // ----- what an attempt does -----

  /** One attempt, by its draws: where it lands, when an obstacle is set there, and which.
      It stays whenever it cuts nothing off; in Azura one in four is water. */
  lemma AttemptByDraws(site: Site, er: Stream, g: Tiles, c: nat)
    requires site.Valid()
    ensures var q := Point(1 + er(c) % (site.w - 2), 1 + er(c + 1) % (site.h - 2));
      var obstacle := if site.azura && er(c + 2) % 4 == 0 then WATER else WALL;
      var free := !site.Protected(q) && Open(g, WALKABLE, q);
      && (free && AnchorsReached(site, g[q := obstacle]) ==> Attempt(site, er, g, c).0 == g[q := obstacle] != g)
      && (!free || !AnchorsReached(site, g[q := obstacle]) ==> Attempt(site, er, g, c).0 == g)
      && Attempt(site, er, g, c).1 == c + 2 + if free && site.azura then 1 else 0
  {
    hide AnchorsReached;
    var q := Spot(site, er, c).0;
    if Open(g, WALKABLE, q) { assert g[q] != WATER && g[q] != WALL; }
  }

  lemma AttemptAddsNoWater(site: Site, er: Stream, g: Tiles, c: nat)
    requires !site.azura && forall q | q in g :: g[q] != WATER
    ensures var after := Attempt(site, er, g, c).0; forall q | q in after :: after[q] != WATER
  {
    hide AnchorsReached, Open, Spot;
  }
}
