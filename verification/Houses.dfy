/** House plots: a coarse grid inside the residential district, then any free
    interior tile, until the asked-for number is placed. */
module Houses {
  import opened Sorting
  import opened Grid
  import opened Layout

  // ----- the two scans -----

  /** The coarse scan from (px, py) on, with these plots placed so far. */
  function Coarse(res: District, spawn: Point, gate: Point, n: nat, px: int, py: int, plots: seq<Point>): seq<Point>
    decreases res.y + res.height - 1 - py, res.x + res.width - 1 - px
  {
    if |plots| >= n || py >= res.y + res.height - 1 then plots
    else if px >= res.x + res.width - 1 then Coarse(res, spawn, gate, n, res.x + 1, py + 2, plots)
    else
      var q := Point(px, py);
      Coarse(res, spawn, gate, n, px + 2, py, if q == spawn || q == gate then plots else plots + [q])
  }

  /** The fallback scan over interior tiles from (x, y) on. */
  function Fine(
    g: Tiles, w: nat, h: nat, spawn: Point, gate: Point, n: nat, x: int, y: int, plots: seq<Point>): seq<Point>
    decreases h - 1 - y, w - 1 - x
  {
    if |plots| >= n || y >= h - 1 then plots
    else if x >= w - 1 then Fine(g, w, h, spawn, gate, n, 1, y + 1, plots)
    else
      var q := Point(x, y);
      Fine(g, w, h, spawn, gate, n, x + 1, y,
        if q in plots || q == spawn || q == gate || !Open(g, WALKABLE, q) then plots else plots + [q])
  }

  function PlotsOf(g: Tiles, w: nat, h: nat, res: District, spawn: Point, gate: Point, n: nat): seq<Point> {
    Fine(g, w, h, spawn, gate, n, 1, 1, Coarse(res, spawn, gate, n, res.x + 1, res.y + 1, []))
  }

  /** `taken` holds the positions of the plots. */
  ghost predicate TakenIs(taken: set<int>, w: nat, h: nat, plots: seq<Point>) {
    && (forall q | q in plots :: In(q, w, h))
    && forall q: Point | In(q, w, h) :: Idx(q.x, q.y, w) in taken <==> q in plots
  }

  lemma TakeOne(taken: set<int>, w: nat, h: nat, plots: seq<Point>, q: Point)
    requires TakenIs(taken, w, h, plots) && In(q, w, h)
    ensures TakenIs(taken + {Idx(q.x, q.y, w)}, w, h, plots + [q])
    ensures Idx(q.x, q.y, w) in taken <==> q in plots
  {
    forall r: Point | In(r, w, h) ensures Idx(r.x, r.y, w) in taken + {Idx(q.x, q.y, w)} <==> r in plots + [q] {
      if Idx(r.x, r.y, w) == Idx(q.x, q.y, w) { IdxInjective(r, q, w, h); }
    }
  }

  /** The houses phase; the phase has a stream of its own but draws nothing from it. */
  method PlaceHouses(tiles: array<int>, w: nat, h: nat, res: District, spawn: Point, gate: Point, n: nat)
    returns (plots: seq<Point>)
    requires tiles.Length == w * h
    requires forall q: Point | Inside(res, q) :: Interior(q, w, h)
    ensures plots == PlotsOf(View(tiles[..], w, h), w, h, res, spawn, gate, n)
  {
    hide View, Bounds, Open, WALKABLE, Idx;
    ghost var g := View(tiles[..], w, h);
    var startX, startY := res.x + 1, res.y + 1;
    var taken: set<int> := {};
    plots := [];
    var py := startY;
    while py < res.y + res.height - 1 && |plots| < n
      invariant py >= startY && TakenIs(taken, w, h, plots)
      invariant Coarse(res, spawn, gate, n, startX, py, plots) == Coarse(res, spawn, gate, n, startX, startY, [])
      decreases res.y + res.height - 1 - py
    {
      var px := startX;
      while px < res.x + res.width - 1 && |plots| < n
        invariant px >= startX && TakenIs(taken, w, h, plots)
        invariant Coarse(res, spawn, gate, n, px, py, plots) == Coarse(res, spawn, gate, n, startX, startY, [])
        decreases res.x + res.width - 1 - px
      {
        if !((px == spawn.x && py == spawn.y) || (px == gate.x && py == gate.y)) {
          assert Inside(res, Point(px, py));
          TakeOne(taken, w, h, plots, Point(px, py));
          taken := taken + {Idx(px, py, w)};
          plots := plots + [Point(px, py)];
        }
        px := px + 2;
      }
      py := py + 2;
    }
    assert Fine(g, w, h, spawn, gate, n, 1, 1, plots) == PlotsOf(g, w, h, res, spawn, gate, n);
    var y := 1;
    while y < h - 1 && |plots| < n
      invariant y >= 1 && TakenIs(taken, w, h, plots)
      invariant Fine(g, w, h, spawn, gate, n, 1, y, plots) == PlotsOf(g, w, h, res, spawn, gate, n)
      decreases h - 1 - y
    {
      var x := 1;
      while x < w - 1 && |plots| < n
        invariant x >= 1 && TakenIs(taken, w, h, plots)
        invariant Fine(g, w, h, spawn, gate, n, x, y, plots) == PlotsOf(g, w, h, res, spawn, gate, n)
        decreases w - 1 - x
      {
        var q := Point(x, y);
        TakeOne(taken, w, h, plots, q);
        var i := Idx(x, y, w);
        var t := GetTile(tiles, w, h, q);
        OpenTile(g, q);
        if i !in taken && q != spawn && q != gate && t in WALKABLE {
          taken := taken + {i};
          plots := plots + [q];
        }
        x := x + 1;
      }
      y := y + 1;
    }
  }

  // ----- what the scans guarantee -----

  /** Plots on the coarse grid that come before (px, py) in scan order. */
  ghost predicate CoarseSoFar(res: District, spawn: Point, gate: Point, n: nat, px: int, py: int, plots: seq<Point>) {
    && |plots| <= n && Distinct(plots)
    && forall q | q in plots :: Inside(res, q) && q != spawn && q != gate && (q.y < py || (q.y == py && q.x < px))
  }

  lemma DistinctSnoc<T>(s: seq<T>, x: T)
    requires Distinct(s) && x !in s
    ensures Distinct(s + [x])
  {
  }

  lemma {:induction false} CoarseGood(
    res: District, spawn: Point, gate: Point, n: nat, px: int, py: int, plots: seq<Point>)
    requires CoarseSoFar(res, spawn, gate, n, px, py, plots) && px > res.x && py > res.y
    ensures var r := Coarse(res, spawn, gate, n, px, py, plots);
      |r| <= n && Distinct(r) && forall q | q in r :: Inside(res, q) && q != spawn && q != gate
    decreases res.y + res.height - 1 - py, res.x + res.width - 1 - px
  {
    if |plots| >= n || py >= res.y + res.height - 1 {
    } else if px >= res.x + res.width - 1 {
      CoarseGood(res, spawn, gate, n, res.x + 1, py + 2, plots);
    } else {
      var q := Point(px, py);
      var next := if q == spawn || q == gate then plots else plots + [q];
      if q != spawn && q != gate { DistinctSnoc(plots, q); }
      assert CoarseSoFar(res, spawn, gate, n, px + 2, py, next);
      CoarseGood(res, spawn, gate, n, px + 2, py, next);
    }
  }

  /** Good plots: no more than n, distinct, interior, off spawn and gate. */
  ghost predicate GoodPlots(w: nat, h: nat, spawn: Point, gate: Point, n: nat, plots: seq<Point>) {
    && |plots| <= n && Distinct(plots)
    && forall q | q in plots :: Interior(q, w, h) && q != spawn && q != gate
  }

  /** Interior points the fallback scan still has to look at. */
  predicate Ahead(q: Point, x: int, y: int) {
    q.y > y || (q.y == y && q.x >= x)
  }

  lemma {:induction false} FineGood(
    g: Tiles, w: nat, h: nat, spawn: Point, gate: Point, n: nat, x: int, y: int, plots: seq<Point>)
    requires GoodPlots(w, h, spawn, gate, n, plots) && x >= 1 && y >= 1
    ensures var r := Fine(g, w, h, spawn, gate, n, x, y, plots);
      && GoodPlots(w, h, spawn, gate, n, r)
      && (forall q | q in plots :: q in r)
      && (|r| < n ==> forall q: Point | Interior(q, w, h) && Open(g, WALKABLE, q) && Ahead(q, x, y) ::
        q in r || q == spawn || q == gate)
    decreases h - 1 - y, w - 1 - x
  {
    hide Open;
    if |plots| >= n || y >= h - 1 {
    } else if x >= w - 1 {
      FineGood(g, w, h, spawn, gate, n, 1, y + 1, plots);
    } else {
      var q := Point(x, y);
      var skip := q in plots || q == spawn || q == gate || !Open(g, WALKABLE, q);
      var next := if skip then plots else plots + [q];
      if !skip { DistinctSnoc(plots, q); }
      assert forall r | r in plots :: r in next;
      FineGood(g, w, h, spawn, gate, n, x + 1, y, next);
    }
  }

  /** The first `n` tiles of the first interior row. */
  function RowPoints(n: nat): set<Point> {
    if n == 0 then {} else RowPoints(n - 1) + {Point(n, 1)}
  }

  lemma {:induction false} RowPointsSpec(n: nat)
    ensures |RowPoints(n)| == n
    ensures forall q | q in RowPoints(n) :: q.y == 1 && 1 <= q.x <= n
  {
    if n > 0 { RowPointsSpec(n - 1); }
  }

  lemma {:induction false} ElementsBounded(s: seq<Point>)
    ensures |set q | q in s| <= |s|
  {
    if s != [] {
      var front := s[..|s| - 1];
      ElementsBounded(front);
      assert (set q | q in s) == (set q | q in front) + {s[|s| - 1]};
    }
  }

  lemma SubsetBound(a: set<Point>, b: set<Point>)
    requires a <= b
    ensures |a| <= |b|
  {
    assert b == a + (b - a);
  }

  /** With an open interior the fallback never runs out: the first interior row
      alone has more tiles than plots, spawn and gate together. */
  lemma PlotsComplete(g: Tiles, w: nat, h: nat, res: District, spawn: Point, gate: Point, n: nat)
    requires w >= 16 && h >= 16 && n <= 8
    requires forall q: Point | Inside(res, q) :: Interior(q, w, h)
    requires forall q: Point | Interior(q, w, h) :: Open(g, WALKABLE, q)
    ensures var plots := PlotsOf(g, w, h, res, spawn, gate, n);
      |plots| == n && GoodPlots(w, h, spawn, gate, n, plots)
  {
    hide Open, Fine, Coarse, GoodPlots;
    var coarse := Coarse(res, spawn, gate, n, res.x + 1, res.y + 1, []);
    CoarseGood(res, spawn, gate, n, res.x + 1, res.y + 1, []);
    CoarseIsGood(w, h, res, spawn, gate, n, coarse);
    FineGood(g, w, h, spawn, gate, n, 1, 1, coarse);
    var plots := PlotsOf(g, w, h, res, spawn, gate, n);
    if |plots| < n {
      forall q: Point | Interior(q, w, h) ensures q in plots || q == spawn || q == gate { assert Ahead(q, 1, 1); }
    }
    FirstRowIsTooLong(w, h, spawn, gate, plots);
    GoodIsBounded(w, h, spawn, gate, n, plots);
  }

  lemma GoodIsBounded(w: nat, h: nat, spawn: Point, gate: Point, n: nat, plots: seq<Point>)
    requires GoodPlots(w, h, spawn, gate, n, plots)
    ensures |plots| <= n
  {
  }

  lemma CoarseIsGood(w: nat, h: nat, res: District, spawn: Point, gate: Point, n: nat, plots: seq<Point>)
    requires |plots| <= n && Distinct(plots) && forall q | q in plots :: Inside(res, q) && q != spawn && q != gate
    requires forall q: Point | Inside(res, q) :: Interior(q, w, h)
    ensures GoodPlots(w, h, spawn, gate, n, plots)
  {
    hide Inside;
  }

  /** Fewer than 12 plots cannot fill the interior, not even its first row. */
  lemma FirstRowIsTooLong(w: nat, h: nat, spawn: Point, gate: Point, plots: seq<Point>)
    requires w >= 16 && h >= 16
    ensures |plots| < 12 ==> exists q: Point :: Interior(q, w, h) && q !in plots && q != spawn && q != gate
  {
    if |plots| < 12 {
      RowPointsSpec(14);
      var q := NotCovered(RowPoints(14), plots, spawn, gate);
      assert Interior(q, w, h);
    }
  }

  lemma NotCovered(row: set<Point>, plots: seq<Point>, spawn: Point, gate: Point) returns (q: Point)
    requires |row| > |plots| + 2
    ensures q in row && q !in plots && q != spawn && q != gate
  {
    ElementsBounded(plots);
    var listed := set p | p in plots;
    var covered := listed + {spawn, gate};
    assert |covered| <= |listed| + 2 by { SubsetBound({spawn, gate} - listed, {spawn, gate}); }
    assert !(row <= covered) by { if row <= covered { SubsetBound(row, covered); } }
    q :| q in row && q !in covered;
  }

  // ----- the residential district comes first -----

  /** Every second tile inside the district's rim, off spawn and gate. */
  predicate IsLot(res: District, spawn: Point, gate: Point, q: Point) {
    && res.x < q.x < res.x + res.width - 1 && res.y < q.y < res.y + res.height - 1
    && (q.x - res.x) % 2 == 1 && (q.y - res.y) % 2 == 1 && q != spawn && q != gate
  }

  lemma {:induction false} CoarseTakesLots(
    res: District, spawn: Point, gate: Point, n: nat, px: int, py: int, plots: seq<Point>)
    requires px > res.x && py > res.y && (px - res.x) % 2 == 1 && (py - res.y) % 2 == 1
    requires forall q | q in plots :: IsLot(res, spawn, gate, q)
    ensures var r := Coarse(res, spawn, gate, n, px, py, plots);
      && (forall q | q in plots :: q in r) && (forall q | q in r :: IsLot(res, spawn, gate, q))
      && (|r| < n ==> forall q: Point | IsLot(res, spawn, gate, q) && Ahead(q, px, py) :: q in r)
    decreases res.y + res.height - 1 - py, res.x + res.width - 1 - px
  {
    if |plots| >= n || py >= res.y + res.height - 1 {
    } else if px >= res.x + res.width - 1 {
      CoarseTakesLots(res, spawn, gate, n, res.x + 1, py + 2, plots);
      forall q: Point | IsLot(res, spawn, gate, q) && Ahead(q, px, py) ensures Ahead(q, res.x + 1, py + 2) {
        assert q.y != py + 1;
      }
    } else {
      var q := Point(px, py);
      var next := if q == spawn || q == gate then plots else plots + [q];
      CoarseTakesLots(res, spawn, gate, n, px + 2, py, next);
      assert forall p | p in plots :: p in next;
      forall p: Point | IsLot(res, spawn, gate, p) && Ahead(p, px, py) && p != q ensures Ahead(p, px + 2, py) {
        assert p.y == py ==> p.x != px + 1;
      }
    }
  }

  lemma {:induction false} FineKeepsFront(
    g: Tiles, w: nat, h: nat, spawn: Point, gate: Point, n: nat, x: int, y: int, plots: seq<Point>)
    ensures plots <= Fine(g, w, h, spawn, gate, n, x, y, plots)
    decreases h - 1 - y, w - 1 - x
  {
    hide Open;
    if |plots| >= n || y >= h - 1 {
    } else if x >= w - 1 {
      FineKeepsFront(g, w, h, spawn, gate, n, 1, y + 1, plots);
    } else {
      var q := Point(x, y);
      var skip := q in plots || q == spawn || q == gate || !Open(g, WALKABLE, q);
      FineKeepsFront(g, w, h, spawn, gate, n, x + 1, y, if skip then plots else plots + [q]);
    }
  }

  /** Plots fill the lots of the residential district first: a beginning of the list lies
      on lots, and only when it holds every lot do others follow. */
  lemma ResidentialComesFirst(
    g: Tiles, w: nat, h: nat, res: District, spawn: Point, gate: Point, n: nat) returns (k: nat)
    ensures var plots := PlotsOf(g, w, h, res, spawn, gate, n);
      && k <= |plots| && (forall q | q in plots[..k] :: IsLot(res, spawn, gate, q))
      && (k < n ==> forall q: Point | IsLot(res, spawn, gate, q) :: q in plots[..k])
  {
    hide Coarse, Fine, IsLot;
    var coarse := Coarse(res, spawn, gate, n, res.x + 1, res.y + 1, []);
    CoarseTakesLots(res, spawn, gate, n, res.x + 1, res.y + 1, []);
    FineKeepsFront(g, w, h, spawn, gate, n, 1, 1, coarse);
    k := |coarse|;
    assert PlotsOf(g, w, h, res, spawn, gate, n)[..k] == coarse;
    forall q: Point | IsLot(res, spawn, gate, q)
      ensures Ahead(q, res.x + 1, res.y + 1)
    {
      LotIsInside(res, spawn, gate, q);
    }
  }

  lemma LotIsInside(res: District, spawn: Point, gate: Point, q: Point)
    requires IsLot(res, spawn, gate, q)
    ensures Ahead(q, res.x + 1, res.y + 1)
  {
  }
}
