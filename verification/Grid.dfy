/** Tiles, points and paths of a rectangular map, and the search that marks what
    can be walked to. */
module Grid {

  const GRASS := 0
  const STONE := 1
  const WALL := 2
  const WATER := 3
  const GATE := 8

  const WALKABLE: set<int> := {0, 1, 5, 6, 7, 8}

  predicate KnownTile(t: int) { 0 <= t <= 8 }

  datatype Point = Point(x: int, y: int)

  predicate In(p: Point, w: nat, h: nat) {
    0 <= p.x < w && 0 <= p.y < h
  }

  /** Row-major position of a point. */
  function Idx(x: int, y: int, w: int): int {
    y * w + x
  }

  lemma IdxBounds(p: Point, w: nat, h: nat)
    requires In(p, w, h)
    ensures 0 <= Idx(p.x, p.y, w) < w * h
  {
    assert 0 <= p.y * w;
    assert (p.y + 1) * w <= h * w by { assert (h - p.y - 1) * w >= 0; }
  }

  lemma IdxInverse(p: Point, w: nat, h: nat)
    requires In(p, w, h)
    ensures Idx(p.x, p.y, w) % w == p.x && (Idx(p.x, p.y, w) - p.x) / w == p.y
  {
    DivModUnique(Idx(p.x, p.y, w), p.y, p.x, w);
    DivModUnique(p.y * w, p.y, 0, w);
  }

  lemma MulMonotone(a: int, b: int, w: int)
    requires a <= b && w >= 0
    ensures a * w <= b * w
  {
    assert (b - a) * w >= 0;
  }

  lemma QuotientBound(a: int, b: int, w: int, i: int)
    requires w > 0 && a * w <= i < b * w + w
    ensures a <= b
  {
    if a > b { MulMonotone(b + 1, a, w); }
  }

  lemma DivModUnique(i: int, q: int, r: int, w: int)
    requires w > 0 && i == q * w + r && 0 <= r < w
    ensures i / w == q && i % w == r
  {
    assert i == (i / w) * w + i % w;
    QuotientBound(i / w, q, w, i);
    QuotientBound(q, i / w, w, i);
  }

  lemma IdxInjective(p: Point, q: Point, w: nat, h: nat)
    requires In(p, w, h) && In(q, w, h) && Idx(p.x, p.y, w) == Idx(q.x, q.y, w)
    ensures p == q
  {
    IdxInverse(p, w, h);
    IdxInverse(q, w, h);
  }

  /** A map's tiles by point. */
  type Tiles = map<Point, int>

  function Bounds(w: nat, h: nat): set<Point> {
    set x, y | 0 <= x < w && 0 <= y < h :: Point(x, y)
  }

  lemma InBounds(w: nat, h: nat)
    ensures forall p: Point :: p in Bounds(w, h) <==> In(p, w, h)
  {
    forall p: Point ensures p in Bounds(w, h) <==> In(p, w, h) {
      assert p == Point(p.x, p.y);
    }
  }

  /** What the row-major list of tiles says. */
  function View(tiles: seq<int>, w: nat, h: nat): (g: Tiles)
    requires |tiles| == w * h
    ensures g.Keys == Bounds(w, h)
  {
    map p: Point | p in Bounds(w, h) :: TileAt(tiles, w, h, p)
  }

  function TileAt(tiles: seq<int>, w: nat, h: nat, p: Point): int
    requires |tiles| == w * h && p in Bounds(w, h)
  {
    InBounds(w, h);
    IdxBounds(p, w, h);
    tiles[Idx(p.x, p.y, w)]
  }

  lemma ViewSet(tiles: seq<int>, w: nat, h: nat, p: Point, t: int)
    requires |tiles| == w * h && In(p, w, h)
    ensures 0 <= Idx(p.x, p.y, w) < w * h
    ensures View(tiles[Idx(p.x, p.y, w) := t], w, h) == View(tiles, w, h)[p := t]
  {
    InBounds(w, h);
    IdxBounds(p, w, h);
    var i := Idx(p.x, p.y, w);
    var a, b := View(tiles[i := t], w, h), View(tiles, w, h)[p := t];
    forall q | q in a ensures a[q] == b[q] {
      IdxBounds(q, w, h);
      if q != p && Idx(q.x, q.y, w) == i { IdxInjective(p, q, w, h); }
    }
  }

  /** `tiles[idx(x, y, width)]`. */
  method GetTile(tiles: array<int>, w: nat, h: nat, p: Point) returns (t: int)
    requires tiles.Length == w * h && In(p, w, h)
    ensures p in View(tiles[..], w, h) && t == View(tiles[..], w, h)[p]
  {
    InBounds(w, h);
    IdxBounds(p, w, h);
    t := tiles[Idx(p.x, p.y, w)];
  }

  /** `tiles[idx(x, y, width)] = t`. */
  method SetTile(tiles: array<int>, w: nat, h: nat, p: Point, t: int)
    requires tiles.Length == w * h && In(p, w, h)
    modifies tiles
    ensures View(tiles[..], w, h) == old(View(tiles[..], w, h))[p := t]
  {
    ViewSet(tiles[..], w, h, p, t);
    ghost var before := tiles[..];
    tiles[Idx(p.x, p.y, w)] := t;
    assert tiles[..] == before[Idx(p.x, p.y, w) := t];
  }

  // ----- paths -----

  /** The points are 4-neighbours. */
  predicate Step(p: Point, q: Point) {
    (p.x == q.x && (q.y == p.y + 1 || q.y == p.y - 1)) || (p.y == q.y && (q.x == p.x + 1 || q.x == p.x - 1))
  }

  predicate Open(g: Tiles, ok: set<int>, p: Point) {
    p in g && g[p] in ok
  }

  ghost predicate IsPath(g: Tiles, ok: set<int>, path: seq<Point>) {
    && path != []
    && (forall i | 0 <= i < |path| :: Open(g, ok, path[i]))
    && (forall i | 0 <= i < |path| - 1 :: Step(path[i], path[i + 1]))
  }

  ghost predicate PathFromTo(g: Tiles, ok: set<int>, path: seq<Point>, a: Point, b: Point) {
    IsPath(g, ok, path) && path[0] == a && path[|path| - 1] == b
  }

  /** b can be reached from a over 4-neighbours through tiles in `ok`. */
  ghost predicate Connected(g: Tiles, ok: set<int>, a: Point, b: Point) {
    exists path :: PathFromTo(g, ok, path, a, b)
  }

  ghost predicate Reachable(g: Tiles, a: Point, b: Point) {
    Connected(g, WALKABLE, a, b)
  }

  lemma ConnectedSelf(g: Tiles, ok: set<int>, a: Point)
    requires Open(g, ok, a)
    ensures Connected(g, ok, a, a)
  {
    assert PathFromTo(g, ok, [a], a, a);
  }

  lemma ConnectedStep(g: Tiles, ok: set<int>, a: Point, b: Point, c: Point)
    requires Connected(g, ok, a, b) && Step(b, c) && Open(g, ok, c)
    ensures Connected(g, ok, a, c)
  {
    hide Step, Open;
    var path :| PathFromTo(g, ok, path, a, b);
    assert PathFromTo(g, ok, path + [c], a, c);
  }

  lemma {:induction false} ConnectedTransitive(g: Tiles, ok: set<int>, a: Point, b: Point, c: Point)
    requires Connected(g, ok, a, b) && Connected(g, ok, b, c)
    ensures Connected(g, ok, a, c)
  {
    hide Step, Open;
    var p :| PathFromTo(g, ok, p, a, b);
    var q :| PathFromTo(g, ok, q, b, c);
    var path := p + q[1..];
    assert path[|path| - 1] == c by { if |q| == 1 { assert path == p; } }
    forall i | 0 <= i < |path| - 1 ensures Step(path[i], path[i + 1]) {
      if i >= |p| { assert path[i] == q[i - |p| + 1] && path[i + 1] == q[i - |p| + 2]; }
      else if i == |p| - 1 { assert path[i] == q[0] && path[i + 1] == q[1]; }
    }
    assert PathFromTo(g, ok, path, a, c);
  }

  lemma StepSymmetric(p: Point, q: Point)
    ensures Step(p, q) <==> Step(q, p)
  {
  }

  lemma ConnectedSymmetric(g: Tiles, ok: set<int>, a: Point, b: Point)
    requires Connected(g, ok, a, b)
    ensures Connected(g, ok, b, a)
  {
    hide Step, Open;
    var p :| PathFromTo(g, ok, p, a, b);
    var n := |p|;
    var q := seq(n, i requires 0 <= i < n => p[n - 1 - i]);
    forall i | 0 <= i < n - 1 ensures Step(q[i], q[i + 1]) {
      StepSymmetric(p[n - 2 - i], p[n - 1 - i]);
      assert Step(p[n - 2 - i], p[n - 2 - i + 1]);
    }
    assert PathFromTo(g, ok, q, b, a);
  }

  /** A set that contains a and is closed under open steps contains all that is connected to a. */
  lemma {:induction false} ClosedContainsPath(g: Tiles, ok: set<int>, marked: set<Point>, path: seq<Point>)
    requires IsPath(g, ok, path) && path[0] in marked
    requires forall p, q | p in marked && Step(p, q) && Open(g, ok, q) :: q in marked
    ensures path[|path| - 1] in marked
  {
    hide Step, Open;
    if |path| > 1 {
      assert Step(path[0], path[1]) && Open(g, ok, path[1]);
      assert IsPath(g, ok, path[1..]) by {
        forall i | 0 <= i < |path[1..]| - 1
          ensures Step(path[1..][i], path[1..][i + 1])
        {
          assert Step(path[i + 1], path[i + 2]);
        }
      }
      ClosedContainsPath(g, ok, marked, path[1..]);
    }
  }

  // ----- the search -----

  /** The marks are set at exactly these points. */
  ghost predicate MarksAre(seen: seq<bool>, w: nat, h: nat, marked: set<Point>)
    requires |seen| == w * h
  {
    && (forall p | p in marked :: In(p, w, h))
    && forall p: Point | In(p, w, h) :: MarkAt(seen, w, h, p) <==> p in marked
  }

  predicate MarkAt(seen: seq<bool>, w: nat, h: nat, p: Point)
    requires |seen| == w * h && In(p, w, h)
  {
    IdxBounds(p, w, h);
    seen[Idx(p.x, p.y, w)]
  }

  lemma MarkOne(seen: seq<bool>, w: nat, h: nat, marked: set<Point>, p: Point)
    requires |seen| == w * h && MarksAre(seen, w, h, marked) && In(p, w, h)
    ensures 0 <= Idx(p.x, p.y, w) < |seen|
    ensures MarksAre(seen[Idx(p.x, p.y, w) := true], w, h, marked + {p})
  {
    IdxBounds(p, w, h);
    var s := seen[Idx(p.x, p.y, w) := true];
    forall q: Point | In(q, w, h) ensures MarkAt(s, w, h, q) <==> q in marked + {p} {
      IdxBounds(q, w, h);
      if Idx(q.x, q.y, w) == Idx(p.x, p.y, w) { IdxInjective(p, q, w, h); }
      assert MarkAt(seen, w, h, q) <==> q in marked;
    }
  }

  /** The stack holds the positions of these points. */
  ghost predicate StackIs(stack: seq<int>, w: nat, pending: seq<Point>) {
    |stack| == |pending| && forall i | 0 <= i < |stack| :: stack[i] == Idx(pending[i].x, pending[i].y, w)
  }

  /** The state of the search: everything marked is reachable, and everything marked
      but not pending has all its open neighbours marked. */
  ghost predicate Searching(g: Tiles, start: Point, marked: set<Point>, pending: seq<Point>) {
    && start in marked
    && (forall p | p in marked :: Reachable(g, start, p))
    && (forall p | p in pending :: p in marked)
    && (forall p, q | p in marked && p !in pending && Step(p, q) && Open(g, WALKABLE, q) :: q in marked)
  }

  function Neighbours(p: Point): (n: seq<Point>)
    ensures |n| == 4
  {
    [Point(p.x + 1, p.y), Point(p.x - 1, p.y), Point(p.x, p.y + 1), Point(p.x, p.y - 1)]
  }

  lemma NeighboursAreSteps(p: Point)
    ensures forall q :: Step(p, q) <==> q in Neighbours(p)
  {
    forall q: Point ensures Step(p, q) <==> q in Neighbours(p) {
      assert q == Point(q.x, q.y);
      var n := Neighbours(p);
      assert q in n <==> q == n[0] || q == n[1] || q == n[2] || q == n[3];
    }
  }

  lemma ReachableIsOpen(g: Tiles, a: Point, b: Point)
    requires Reachable(g, a, b)
    ensures Open(g, WALKABLE, a) && Open(g, WALKABLE, b)
  {
    var path :| PathFromTo(g, WALKABLE, path, a, b);
  }

  /** The state after the first k neighbours of the popped point c were looked at. */
  ghost predicate Scanning(g: Tiles, start: Point, marked: set<Point>, pending: seq<Point>, c: Point, k: nat)
    requires k <= 4
  {
    && c in marked && start in marked
    && (forall p | p in marked :: Reachable(g, start, p))
    && (forall p | p in pending :: p in marked)
    && (forall p, q | p in marked && p !in pending && p != c && Step(p, q) && Open(g, WALKABLE, q) :: q in marked)
    && (forall i | 0 <= i < k && Open(g, WALKABLE, Neighbours(c)[i]) :: Neighbours(c)[i] in marked)
  }

  lemma PopStarts(g: Tiles, start: Point, marked: set<Point>, pending: seq<Point>)
    requires Searching(g, start, marked, pending) && pending != []
    ensures Scanning(g, start, marked, pending[..|pending| - 1], pending[|pending| - 1], 0)
  {
    hide Step, Open, Reachable;
    assert pending == pending[..|pending| - 1] + [pending[|pending| - 1]];
  }

  lemma ScanSkips(g: Tiles, start: Point, marked: set<Point>, pending: seq<Point>, c: Point, k: nat)
    requires k < 4 && Scanning(g, start, marked, pending, c, k)
    requires Open(g, WALKABLE, Neighbours(c)[k]) ==> Neighbours(c)[k] in marked
    ensures Scanning(g, start, marked, pending, c, k + 1)
  {
    hide Step, Open, Reachable, Neighbours;
  }

  lemma ScanMarks(g: Tiles, start: Point, marked: set<Point>, pending: seq<Point>, c: Point, k: nat)
    requires k < 4 && Scanning(g, start, marked, pending, c, k)
    requires Open(g, WALKABLE, Neighbours(c)[k])
    ensures Scanning(g, start, marked + {Neighbours(c)[k]}, pending + [Neighbours(c)[k]], c, k + 1)
  {
    var n := Neighbours(c)[k];
    NeighboursAreSteps(c);
    assert Step(c, n);
    ConnectedStep(g, WALKABLE, start, c, n);
    hide Step, Open, Connected, Neighbours;
    forall p | p in pending + [n] ensures p in marked + {n} { }
  }

  lemma ScanEnds(g: Tiles, start: Point, marked: set<Point>, pending: seq<Point>, c: Point)
    requires Scanning(g, start, marked, pending, c, 4)
    ensures Searching(g, start, marked, pending)
  {
    NeighboursAreSteps(c);
    hide Step, Open, Reachable;
    forall q | Step(c, q) && Open(g, WALKABLE, q) ensures q in marked {
      assert q in Neighbours(c);
    }
  }

  lemma SearchDone(g: Tiles, start: Point, marked: set<Point>)
    requires Searching(g, start, marked, [])
    ensures forall p: Point :: p in marked <==> Reachable(g, start, p)
  {
    hide Step, Open;
    forall p: Point | Reachable(g, start, p) ensures p in marked {
      var path :| PathFromTo(g, WALKABLE, path, start, p);
      ClosedContainsPath(g, WALKABLE, marked, path);
    }
  }

  lemma SearchBegins(g: Tiles, start: Point)
    requires Open(g, WALKABLE, start)
    ensures Searching(g, start, {start}, [start])
  {
    ConnectedSelf(g, WALKABLE, start);
    hide Step, Open;
  }

  lemma UnmarkedShrinks(g: Tiles, marked: set<Point>, p: Point)
    requires p in g && p !in marked
    ensures g.Keys - (marked + {p}) < g.Keys - marked
    ensures |g.Keys - (marked + {p})| < |g.Keys - marked|
  {
    assert g.Keys - marked == (g.Keys - (marked + {p})) + {p};
  }

  /** The arrays say what the ghost state says. */
  ghost predicate Represents(seen: seq<bool>, stack: seq<int>, w: nat, h: nat, marked: set<Point>, pending: seq<Point>)
  {
    && |seen| == w * h && MarksAre(seen, w, h, marked)
    && StackIs(stack, w, pending) && forall p | p in pending :: In(p, w, h)
  }

  lemma PushRepresents(
    seen: seq<bool>, stack: seq<int>, w: nat, h: nat, marked: set<Point>, pending: seq<Point>, n: Point)
    requires Represents(seen, stack, w, h, marked, pending) && In(n, w, h)
    ensures 0 <= Idx(n.x, n.y, w) < |seen| && (seen[Idx(n.x, n.y, w)] <==> n in marked)
    ensures Represents(seen[Idx(n.x, n.y, w) := true], stack + [Idx(n.x, n.y, w)], w, h, marked + {n}, pending + [n])
  {
    MarkOne(seen, w, h, marked, n);
    assert MarkAt(seen, w, h, n) <==> n in marked;
  }

  lemma PopRepresents(seen: seq<bool>, stack: seq<int>, w: nat, h: nat, marked: set<Point>, pending: seq<Point>)
    requires Represents(seen, stack, w, h, marked, pending) && stack != []
    ensures pending != [] && In(pending[|pending| - 1], w, h)
    ensures stack[|stack| - 1] == Idx(pending[|pending| - 1].x, pending[|pending| - 1].y, w)
    ensures Represents(seen, stack[..|stack| - 1], w, h, marked, pending[..|pending| - 1])
  {
    var p := pending[|pending| - 1];
    assert p in pending;
  }

  /** The search's state, arrays and meaning together, after k neighbours of c. */
  ghost predicate MidScan(
    g: Tiles, start: Point, seen: seq<bool>, stack: seq<int>, w: nat, h: nat,
    marked: set<Point>, pending: seq<Point>, c: Point, k: nat)
    requires k <= 4
  {
    Represents(seen, stack, w, h, marked, pending) && Scanning(g, start, marked, pending, c, k)
  }

  /** The body of the neighbour loop: mark and push an open neighbour not seen yet. */
  method VisitNeighbour(
    tiles: array<int>, w: nat, h: nat, seen: array<bool>, stack: seq<int>, n: Point,
    ghost start: Point, ghost marked: set<Point>, ghost pending: seq<Point>, ghost c: Point, ghost k: nat)
    returns (newStack: seq<int>, ghost newMarked: set<Point>, ghost newPending: seq<Point>)
    requires tiles.Length == w * h && seen.Length == w * h && k < 4 && n == Neighbours(c)[k]
    requires MidScan(View(tiles[..], w, h), start, seen[..], stack, w, h, marked, pending, c, k)
    modifies seen
    ensures MidScan(View(tiles[..], w, h), start, seen[..], newStack, w, h, newMarked, newPending, c, k + 1)
    ensures (newMarked == marked && newStack == stack) ||
      |View(tiles[..], w, h).Keys - newMarked| < |View(tiles[..], w, h).Keys - marked|
  {
    hide View, Reachable, Scanning, Open, WALKABLE, Bounds, Idx, Represents, MarkAt, MarksAre, Neighbours;
    ghost var g := View(tiles[..], w, h);
    newStack, newMarked, newPending := stack, marked, pending;
    if n.x < 0 || n.y < 0 || n.x >= w || n.y >= h {
      OutsideIsClosed(g, w, h, n);
      ScanSkips(g, start, marked, pending, c, k);
      return;
    }
    PushRepresents(seen[..], stack, w, h, marked, pending, n);
    var ni := Idx(n.x, n.y, w);
    var tile := GetTile(tiles, w, h, n);
    OpenTile(g, n);
    if seen[ni] || tile !in WALKABLE {
      ScanSkips(g, start, marked, pending, c, k);
      return;
    }
    UnmarkedShrinks(g, marked, n);
    ScanMarks(g, start, marked, pending, c, k);
    ghost var before := seen[..];
    seen[ni] := true;
    assert seen[..] == before[ni := true];
    newStack := stack + [ni];
    newMarked, newPending := marked + {n}, pending + [n];
  }

  /** `reachableFrom`: marks a tile exactly when a 4-neighbour walkable path leads to it. */
  method ReachableFrom(tiles: array<int>, w: nat, h: nat, start: Point) returns (seen: array<bool>)
    requires tiles.Length == w * h && In(start, w, h)
    ensures fresh(seen) && seen.Length == w * h
    ensures forall p: Point | In(p, w, h) :: MarkAt(seen[..], w, h, p) <==> Reachable(View(tiles[..], w, h), start, p)
  {
    hide View, Reachable, Searching, Scanning, Open, WALKABLE, Bounds, Idx, Represents, MarkAt, MarksAre, Neighbours;
    ghost var g := View(tiles[..], w, h);
    InBounds(w, h);
    seen := new bool[w * h](_ => false);
    NothingMarked(seen[..], w, h);
    var startTile := GetTile(tiles, w, h, start);
    if startTile !in WALKABLE {
      ClosedStart(g, start);
      MarksMean(seen[..], w, h, {});
      return;
    }
    StartRepresents(seen[..], w, h);
    PushRepresents(seen[..], [], w, h, {}, [], start);
    var stack := [Idx(start.x, start.y, w)];
    ghost var blank := seen[..];
    seen[Idx(start.x, start.y, w)] := true;
    assert seen[..] == blank[Idx(start.x, start.y, w) := true];
    assert [] + stack == stack && {} + {start} == {start} && [] + [start] == [start];
    ghost var marked, pending := {start}, [start];
    OpenTile(g, start);
    SearchBegins(g, start);
    while |stack| > 0
      invariant seen.Length == w * h
      invariant Represents(seen[..], stack, w, h, marked, pending)
      invariant Searching(g, start, marked, pending)
      decreases |g.Keys - marked|, |stack|
    {
      PopRepresents(seen[..], stack, w, h, marked, pending);
      PopStarts(g, start, marked, pending);
      var c := stack[|stack| - 1];
      ghost var cp := pending[|pending| - 1];
      ghost var unmarked, depth := |g.Keys - marked|, |stack|;
      stack := stack[..|stack| - 1];
      pending := pending[..|pending| - 1];
      IdxInverse(cp, w, h);
      var cx := c % w;
      var cy := (c - cx) / w;
      assert Point(cx, cy) == cp;
      var neigh := Neighbours(Point(cx, cy));
      for k := 0 to 4
        invariant seen.Length == w * h
        invariant MidScan(g, start, seen[..], stack, w, h, marked, pending, cp, k)
        invariant |g.Keys - marked| < unmarked || (|g.Keys - marked| == unmarked && |stack| < depth)
      {
        stack, marked, pending := VisitNeighbour(tiles, w, h, seen, stack, neigh[k], start, marked, pending, cp, k);
      }
      ScanEnds(g, start, marked, pending, cp);
    }
    EndRepresents(seen[..], stack, w, h, marked, pending);
    SearchDone(g, start, marked);
    MarksMean(seen[..], w, h, marked);
  }

  lemma StartRepresents(seen: seq<bool>, w: nat, h: nat)
    requires |seen| == w * h && MarksAre(seen, w, h, {})
    ensures Represents(seen, [], w, h, {}, [])
  {
  }

  lemma EndRepresents(seen: seq<bool>, stack: seq<int>, w: nat, h: nat, marked: set<Point>, pending: seq<Point>)
    requires Represents(seen, stack, w, h, marked, pending) && stack == []
    ensures pending == [] && MarksAre(seen, w, h, marked)
  {
  }

  lemma MarksMean(seen: seq<bool>, w: nat, h: nat, marked: set<Point>)
    requires |seen| == w * h && MarksAre(seen, w, h, marked)
    ensures forall p: Point | In(p, w, h) :: MarkAt(seen, w, h, p) <==> p in marked
  {
  }

  lemma NothingMarked(seen: seq<bool>, w: nat, h: nat)
    requires |seen| == w * h && forall i | 0 <= i < |seen| :: !seen[i]
    ensures MarksAre(seen, w, h, {})
  {
    forall p: Point | In(p, w, h) ensures !MarkAt(seen, w, h, p) { IdxBounds(p, w, h); }
  }

  lemma ClosedStart(g: Tiles, start: Point)
    requires start in g && g[start] !in WALKABLE
    ensures forall p: Point :: !Reachable(g, start, p)
  {
    forall p: Point ensures !Reachable(g, start, p) {
      if Reachable(g, start, p) { ReachableIsOpen(g, start, p); }
    }
  }

  lemma OpenTile(g: Tiles, p: Point)
    requires p in g
    ensures Open(g, WALKABLE, p) <==> g[p] in WALKABLE
  {
  }

  lemma OutsideIsClosed(g: Tiles, w: nat, h: nat, p: Point)
    requires g.Keys == Bounds(w, h) && !In(p, w, h)
    ensures !Open(g, WALKABLE, p)
  {
    InBounds(w, h);
  }
}
