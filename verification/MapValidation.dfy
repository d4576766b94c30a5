/** The validator authored and generated maps must pass. */
module MapValidation {
  import opened Json
  import opened Grid

  /** A value that should be an integer: it is one, or it is something else or missing. */
  datatype Loose = Whole(n: int) | NotWhole

  datatype RawSpawn = NoSpawn | SpawnRecord(x: Loose, y: Loose)

  datatype RawMap = NotARecord | MapRecord(width: Loose, height: Loose, tiles: Option<seq<Loose>>, spawn: RawSpawn)

  datatype MapError =
    | MAP_NOT_AN_OBJECT | WIDTH_NOT_POSITIVE | HEIGHT_NOT_POSITIVE | TILES_NOT_AN_ARRAY | WRONG_TILE_COUNT
    | UNKNOWN_TILE(index: nat) | SPAWN_NOT_AN_OBJECT | SPAWN_X | SPAWN_Y | SPAWN_OUTSIDE | SPAWN_NOT_WALKABLE

  predicate Positive(v: Loose) {
    v.Whole? && v.n > 0
  }

  predicate IsKnownTile(v: Loose) {
    v.Whole? && KnownTile(v.n)
  }

  /** A map with positive sizes, one known tile per cell, and a walkable spawn inside. */
  predicate WellFormedMap(m: RawMap) {
    && m.MapRecord? && Positive(m.width) && Positive(m.height) && m.tiles.Some?
    && |m.tiles.value| == m.width.n * m.height.n
    && (forall t | t in m.tiles.value :: t.Whole? && 0 <= t.n <= 8)
    && m.spawn.SpawnRecord? && m.spawn.x.Whole? && m.spawn.y.Whole?
    && In(Point(m.spawn.x.n, m.spawn.y.n), m.width.n, m.height.n)
    && SpawnWalkable(m.tiles.value, m.width.n, m.height.n, m.spawn.x.n, m.spawn.y.n)
  }

  predicate SpawnWalkable(tiles: seq<Loose>, w: nat, h: nat, x: int, y: int)
    requires |tiles| == w * h && In(Point(x, y), w, h)
  {
    IdxBounds(Point(x, y), w, h);
    tiles[Idx(x, y, w)].Whole? && tiles[Idx(x, y, w)].n in {0, 1, 5, 6, 7, 8}
  }

  // ----- the errors, in the order they are pushed -----

  function When(bad: bool, error: MapError): seq<MapError> {
    if bad then [error] else []
  }

  function TileErrors(tiles: seq<Loose>): seq<MapError> {
    if tiles == [] then []
    else
      var last := |tiles| - 1;
      TileErrors(tiles[..last]) + When(!IsKnownTile(tiles[last]), UNKNOWN_TILE(last))
  }

  function SizeErrors(width: Loose, height: Loose, tiles: Option<seq<Loose>>): seq<MapError> {
    When(!Positive(width), WIDTH_NOT_POSITIVE) + When(!Positive(height), HEIGHT_NOT_POSITIVE)
      + When(tiles.None?, TILES_NOT_AN_ARRAY)
  }

  function FieldErrors(width: Loose, height: Loose, tiles: Option<seq<Loose>>): seq<MapError> {
    if Positive(width) && Positive(height) && tiles.Some?
    then When(|tiles.value| != width.n * height.n, WRONG_TILE_COUNT) + TileErrors(tiles.value)
    else []
  }

  function SpawnErrors(width: Loose, height: Loose, tiles: Option<seq<Loose>>, spawn: RawSpawn): seq<MapError> {
    match spawn
    case NoSpawn => [SPAWN_NOT_AN_OBJECT]
    case SpawnRecord(x, y) =>
      When(!x.Whole?, SPAWN_X) + When(!y.Whole?, SPAWN_Y)
      + (if !(x.Whole? && y.Whole? && Positive(width) && Positive(height)) then []
         else if !In(Point(x.n, y.n), width.n, height.n) then [SPAWN_OUTSIDE]
         else if tiles.Some? && |tiles.value| == width.n * height.n
         then When(!SpawnWalkable(tiles.value, width.n, height.n, x.n, y.n), SPAWN_NOT_WALKABLE)
         else [])
  }

  function MapErrors(m: RawMap): seq<MapError> {
    match m
    case NotARecord => [MAP_NOT_AN_OBJECT]
    case MapRecord(width, height, tiles, spawn) =>
      SizeErrors(width, height, tiles) + FieldErrors(width, height, tiles) + SpawnErrors(width, height, tiles, spawn)
  }

  /** `validateMapData`. */
  method ValidateMapData(m: RawMap) returns (errors: seq<MapError>)
    ensures errors == MapErrors(m)
    ensures errors == [] <==> WellFormedMap(m)
  {
    NoErrorsIffWellFormed(m);
    hide WellFormedMap, SizeErrors, FieldErrors, SpawnErrors;
    if m.NotARecord? {
      return [MAP_NOT_AN_OBJECT];
    }
    var sizeErrors := CheckSize(m.width, m.height, m.tiles);
    var fieldErrors := CheckField(m.width, m.height, m.tiles);
    var spawnErrors := CheckSpawn(m);
    return sizeErrors + fieldErrors + spawnErrors;
  }

  /** The three type checks. */
  method CheckSize(width: Loose, height: Loose, tiles: Option<seq<Loose>>) returns (errors: seq<MapError>)
    ensures errors == SizeErrors(width, height, tiles)
  {
    errors := [];
    if !Positive(width) {
      errors := errors + [WIDTH_NOT_POSITIVE];
    }
    if !Positive(height) {
      errors := errors + [HEIGHT_NOT_POSITIVE];
    }
    if tiles.None? {
      errors := errors + [TILES_NOT_AN_ARRAY];
    }
  }

  /** The tile block. */
  method CheckField(width: Loose, height: Loose, tiles: Option<seq<Loose>>) returns (errors: seq<MapError>)
    ensures errors == FieldErrors(width, height, tiles)
  {
    errors := [];
    if Positive(width) && Positive(height) && tiles.Some? {
      if |tiles.value| != width.n * height.n {
        errors := errors + [WRONG_TILE_COUNT];
      }
      var unknown := UnknownTiles(tiles.value);
      errors := errors + unknown;
    }
  }

  /** The spawn block. */
  method CheckSpawn(m: RawMap) returns (errors: seq<MapError>)
    requires m.MapRecord?
    ensures errors == SpawnErrors(m.width, m.height, m.tiles, m.spawn)
  {
    hide SpawnWalkable;
    errors := [];
    match m.spawn
    case NoSpawn =>
      errors := errors + [SPAWN_NOT_AN_OBJECT];
    case SpawnRecord(x, y) =>
      if !x.Whole? {
        errors := errors + [SPAWN_X];
      }
      if !y.Whole? {
        errors := errors + [SPAWN_Y];
      }
      if x.Whole? && y.Whole? && Positive(m.width) && Positive(m.height) {
        var w, h := m.width.n, m.height.n;
        if x.n < 0 || y.n < 0 || x.n >= w || y.n >= h {
          errors := errors + [SPAWN_OUTSIDE];
        } else if m.tiles.Some? && |m.tiles.value| == w * h {
          if !SpawnWalkable(m.tiles.value, w, h, x.n, y.n) {
            errors := errors + [SPAWN_NOT_WALKABLE];
          }
        }
      }
  }

  method UnknownTiles(tiles: seq<Loose>) returns (errors: seq<MapError>)
    ensures errors == TileErrors(tiles)
  {
    hide IsKnownTile;
    errors := [];
    for i := 0 to |tiles|
      invariant errors == TileErrors(tiles[..i])
    {
      assert tiles[..i + 1][..i] == tiles[..i];
      if !IsKnownTile(tiles[i]) {
        errors := errors + [UNKNOWN_TILE(i)];
      }
    }
    assert tiles[..|tiles|] == tiles;
  }

  /** An unknown-tile error is given for exactly the positions of unknown tiles. */
  lemma {:induction false} TileErrorsAreTheBadPositions(tiles: seq<Loose>)
    ensures forall e | e in TileErrors(tiles) :: e.UNKNOWN_TILE? && e.index < |tiles|
    ensures forall i | 0 <= i < |tiles| :: UNKNOWN_TILE(i) in TileErrors(tiles) <==> !IsKnownTile(tiles[i])
    ensures TileErrors(tiles) == [] <==> forall t | t in tiles :: IsKnownTile(t)
  {
    hide IsKnownTile;
    if tiles != [] {
      var last := |tiles| - 1;
      TileErrorsAreTheBadPositions(tiles[..last]);
      assert tiles == tiles[..last] + [tiles[last]];
      var e := When(!IsKnownTile(tiles[last]), UNKNOWN_TILE(last));
      forall i | 0 <= i < |tiles| ensures UNKNOWN_TILE(i) in TileErrors(tiles) <==> !IsKnownTile(tiles[i]) {
        assert UNKNOWN_TILE(i) in TileErrors(tiles)
          <==> UNKNOWN_TILE(i) in TileErrors(tiles[..last]) || UNKNOWN_TILE(i) in e;
        if i < last { assert tiles[..last][i] == tiles[i]; }
      }
    }
  }

  /** No error is given exactly for the well-formed maps. */
  lemma NoErrorsIffWellFormed(m: RawMap)
    ensures MapErrors(m) == [] <==> WellFormedMap(m)
  {
    assert forall t :: IsKnownTile(t) <==> t.Whole? && 0 <= t.n <= 8;
    hide SpawnWalkable, IsKnownTile;
    if m.MapRecord? {
      NoneOfThree(SizeErrors(m.width, m.height, m.tiles), FieldErrors(m.width, m.height, m.tiles),
                  SpawnErrors(m.width, m.height, m.tiles, m.spawn));
      NoneOfThree(When(!Positive(m.width), WIDTH_NOT_POSITIVE), When(!Positive(m.height), HEIGHT_NOT_POSITIVE),
                  When(m.tiles.None?, TILES_NOT_AN_ARRAY));
      if m.tiles.Some? {
        TileErrorsAreTheBadPositions(m.tiles.value);
        if Positive(m.width) && Positive(m.height) {
          NoneOfThree(When(|m.tiles.value| != m.width.n * m.height.n, WRONG_TILE_COUNT), TileErrors(m.tiles.value), []);
        }
      }
    }
  }

  lemma NoneOfThree(a: seq<MapError>, b: seq<MapError>, c: seq<MapError>)
    ensures a + b + c == [] <==> a == [] && b == [] && c == []
    ensures a + b + [] == a + b
  {
    assert |a + b + c| == |a| + |b| + |c|;
  }

  predicate SizesGiven(m: RawMap)
    requires m.MapRecord?
  {
    m.width.Whole? && m.width.n > 0 && m.height.Whole? && m.height.n > 0
  }

  predicate SpawnPlaced(m: RawMap)
    requires m.MapRecord?
  {
    m.spawn.SpawnRecord? && m.spawn.x.Whole? && m.spawn.y.Whole?
  }

  lemma SizeErrorsSay(m: RawMap)
    requires m.MapRecord?
    ensures forall e :: e in SizeErrors(m.width, m.height, m.tiles) <==>
      || (e == WIDTH_NOT_POSITIVE && !(m.width.Whole? && m.width.n > 0))
      || (e == HEIGHT_NOT_POSITIVE && !(m.height.Whole? && m.height.n > 0))
      || (e == TILES_NOT_AN_ARRAY && m.tiles.None?)
  {
  }

  lemma FieldErrorsSay(m: RawMap)
    requires m.MapRecord?
    ensures forall e: MapError | !e.UNKNOWN_TILE? :: e in FieldErrors(m.width, m.height, m.tiles) <==>
      e == WRONG_TILE_COUNT && SizesGiven(m) && m.tiles.Some? && |m.tiles.value| != m.width.n * m.height.n
  {
    if m.tiles.Some? { TileErrorsOnly(m.tiles.value); }
    hide TileErrors;
  }

  lemma SpawnErrorsSay(m: RawMap)
    requires m.MapRecord?
    ensures forall e | e != SPAWN_NOT_WALKABLE :: e in SpawnErrors(m.width, m.height, m.tiles, m.spawn) <==>
      || (e == SPAWN_NOT_AN_OBJECT && m.spawn.NoSpawn?)
      || (e == SPAWN_X && m.spawn.SpawnRecord? && !m.spawn.x.Whole?)
      || (e == SPAWN_Y && m.spawn.SpawnRecord? && !m.spawn.y.Whole?)
      || (e == SPAWN_OUTSIDE && SizesGiven(m) && SpawnPlaced(m)
          && !(0 <= m.spawn.x.n < m.width.n && 0 <= m.spawn.y.n < m.height.n))
  {
    hide SpawnWalkable;
  }

  /** Which error says what, for a record. */
  lemma ErrorsSay(m: RawMap)
    requires m.MapRecord?
    ensures var e := MapErrors(m);
      && (WIDTH_NOT_POSITIVE in e <==> !(m.width.Whole? && m.width.n > 0))
      && (HEIGHT_NOT_POSITIVE in e <==> !(m.height.Whole? && m.height.n > 0))
      && (TILES_NOT_AN_ARRAY in e <==> m.tiles.None?)
      && (WRONG_TILE_COUNT in e <==> SizesGiven(m) && m.tiles.Some? && |m.tiles.value| != m.width.n * m.height.n)
      && (SPAWN_NOT_AN_OBJECT in e <==> m.spawn.NoSpawn?)
      && (SPAWN_X in e <==> m.spawn.SpawnRecord? && !m.spawn.x.Whole?)
      && (SPAWN_Y in e <==> m.spawn.SpawnRecord? && !m.spawn.y.Whole?)
      && (SPAWN_OUTSIDE in e <==>
            SizesGiven(m) && SpawnPlaced(m) && !(0 <= m.spawn.x.n < m.width.n && 0 <= m.spawn.y.n < m.height.n))
  {
    hide SizeErrors, FieldErrors, SpawnErrors, SizesGiven, SpawnPlaced;
    SizeErrorsSay(m);
    FieldErrorsSay(m);
    SpawnErrorsSay(m);
  }

  lemma {:induction false} TileErrorsOnly(tiles: seq<Loose>)
    ensures forall e | e in TileErrors(tiles) :: e.UNKNOWN_TILE?
  {
    hide IsKnownTile;
    if tiles != [] { TileErrorsOnly(tiles[..|tiles| - 1]); }
  }
}
