/** The generator's parameters, its random streams, and where districts and roads go. */
module Layout {
  import opened Json
  import opened CanonicalText
  import opened Hashing
  import opened Rng
  import opened Grid

  datatype Biome = Azura | Grassland | Stonehold

  /** A JavaScript number, rounding aside. */
  datatype Number = Finite(value: real) | Infinite(positive: bool) | NotANumber

  type Amount = n: Number | !n.NotANumber? witness Finite(0.0)

  /** Parameters as given: any numbers, any biome name. */
  datatype RawParams = RawParams(
    name: string, seed: string, width: Number, height: Number,
    housePlotCount: Option<Amount>, districtCount: Option<Amount>, biome: Option<string>)

  datatype Params = Params(
    name: string, seed: string, width: nat, height: nat, housePlotCount: nat, districtCount: nat, biome: Biome)

  datatype ParamError = NAME_REQUIRED | SEED_REQUIRED | BAD_WIDTH | BAD_HEIGHT | TOO_SMALL

  datatype Normalized = Accepted(params: Params) | Refused(error: ParamError)

  // ----- normalization -----

  predicate IsPositiveInteger(x: Number) {
    x.Finite? && x.value.Floor as real == x.value && x.value > 0.0
  }

  function ClampInt(v: Amount, lo: int, hi: int): int {
    match v
    case Finite(x) => if x.Floor < lo then lo else if x.Floor > hi then hi else x.Floor
    case Infinite(positive) => if positive then hi else lo
  }

  function DefaultDistrictCount(innerArea: int): int {
    if innerArea < 700 then 3 else if innerArea < 1300 then 4 else if innerArea < 2200 then 5 else 6
  }

  function BiomeOf(name: Option<string>): Biome {
    if name == Some("grassland") then Grassland else if name == Some("stonehold") then Stonehold else Azura
  }

  predicate Valid(p: Params) {
    p.width >= 16 && p.height >= 16 && 3 <= p.districtCount <= 6 && 1 <= p.housePlotCount <= 8
  }

  /** `normalize`. */
  function Normalize(raw: RawParams): (n: Normalized)
    ensures n.Accepted? ==> Valid(n.params)
    ensures n.Accepted? <==>
      && raw.name != "" && raw.seed != "" && IsPositiveInteger(raw.width) && IsPositiveInteger(raw.height)
      && raw.width.value >= 16.0 && raw.height.value >= 16.0
  {
    if raw.name == "" then Refused(NAME_REQUIRED)
    else if raw.seed == "" then Refused(SEED_REQUIRED)
    else if !IsPositiveInteger(raw.width) then Refused(BAD_WIDTH)
    else if !IsPositiveInteger(raw.height) then Refused(BAD_HEIGHT)
    else if raw.width.value < 16.0 || raw.height.value < 16.0 then Refused(TOO_SMALL)
    else
      var width, height := raw.width.value.Floor, raw.height.value.Floor;
      var innerArea := (width - 2) * (height - 2);
      var districts := if raw.districtCount.Some? then raw.districtCount.value
        else Finite(DefaultDistrictCount(innerArea) as real);
      var houses := if raw.housePlotCount.Some? then raw.housePlotCount.value else Finite(3.0);
      Accepted(Params(raw.name, raw.seed, width, height, ClampInt(houses, 1, 8), ClampInt(districts, 3, 6),
        BiomeOf(raw.biome)))
  }

  /** A count as asked for: kept, its fraction dropped, inside the bounds, else the bound it passes. */
  predicate CountIs(n: nat, asked: Amount, lo: nat, hi: nat) {
    match asked
    case Finite(x) =>
      if x < lo as real then n == lo
      else if x >= hi as real then n == hi
      else n as real <= x < n as real + 1.0
    case Infinite(positive) => n == if positive then hi else lo
  }

  /** An accepted request keeps its name, seed and size, and what it leaves out is filled
      in: three houses, districts by the area inside the border, and Azura. */
  lemma AcceptedParams(raw: RawParams)
    requires Normalize(raw).Accepted?
    ensures var p := Normalize(raw).params;
      && p.name == raw.name && p.seed == raw.seed
      && p.width as real == raw.width.value && p.height as real == raw.height.value
      && (raw.housePlotCount.None? ==> p.housePlotCount == 3)
      && (raw.housePlotCount.Some? ==> CountIs(p.housePlotCount, raw.housePlotCount.value, 1, 8))
      && (raw.districtCount.Some? ==> CountIs(p.districtCount, raw.districtCount.value, 3, 6))
      && (raw.districtCount.None? ==>
            var inner := (p.width - 2) * (p.height - 2);
            && (p.districtCount == 3 <==> inner < 700) && (p.districtCount == 4 <==> 700 <= inner < 1300)
            && (p.districtCount == 5 <==> 1300 <= inner < 2200) && (p.districtCount == 6 <==> 2200 <= inner))
      && (p.biome == Grassland <==> raw.biome == Some("grassland"))
      && (p.biome == Stonehold <==> raw.biome == Some("stonehold"))
      && (raw.biome in {None, Some("azura")} ==> p.biome == Azura)
  {
    assert "grassland" != "stonehold" by { assert "grassland"[0] != "stonehold"[0]; }
    assert "azura"[0] != "grassland"[0] && "azura"[0] != "stonehold"[0];
  }

  // ----- streams -----

  type Stream = nat -> u32

  const MAPGEN_EVENT_DOMAIN := "akalynth:mapgen:v1"

  function BiomeName(b: Biome): string {
    match b
    case Azura => "azura"
    case Grassland => "grassland"
    case Stonehold => "stonehold"
  }

  function ParamsJson(p: Params): Json {
    Obj(map["name" := Str(p.name), "seed" := Str(p.seed), "width" := Num(NatText(p.width)),
      "height" := Num(NatText(p.height)),
            "housePlotCount" := Num(NatText(p.housePlotCount)), "districtCount" := Num(NatText(p.districtCount)),
            "biome" := Str(BiomeName(p.biome))])
  }

  /** The seed of one phase's stream. */
  function PhaseSeed(h: HashFunction, p: Params, phase: string): string {
    RngDeriveSeedV2(h, p.seed, p.name, MAPGEN_EVENT_DOMAIN + ":" + phase, RngCommit(h, Print(true, ParamsJson(p))))
  }

  function PhaseStream(h: HashFunction, draw: DrawFunction, p: Params, phase: string): Stream {
    var seed := PhaseSeed(h, p, phase);
    (i: nat) => draw(seed, i)
  }

  /** The text of a phase's seed: seed, name, domain with the phase, and a commitment to
      all parameters. */
  function PhaseText(h: HashFunction, p: Params, phase: string): string {
    "akalynth:rng:v2:derive\0" + p.seed + p.name + ("akalynth:mapgen:v1:" + phase)
      + ("blake3:" + h("akalynth:rng:commit:v1\0" + Print(true, ParamsJson(p))))
  }

  lemma PhaseSeedHashesText(h: HashFunction, p: Params, phase: string)
    ensures PhaseSeed(h, p, phase) == "blake3:" + h(PhaseText(h, p, phase))
  {
    hide Print, ParamsJson;
    assert "akalynth:mapgen:v1" + ":" + phase == "akalynth:mapgen:v1:" + phase;
    assert RNG_DERIVE_DOMAIN_V2 + p.seed + p.name + (MAPGEN_EVENT_DOMAIN + ":" + phase)
      + RngCommit(h, Print(true, ParamsJson(p)))
      == PhaseText(h, p, phase);
  }

  lemma {:induction false} NatTextInjective(n: nat, m: nat)
    requires NatText(n) == NatText(m)
    ensures n == m
  {
    NatTextLast(n);
    NatTextLast(m);
    if n >= 10 && m >= 10 { NatTextInjective(n / 10, m / 10); }
  }

  lemma NatTextLast(n: nat)
    ensures var t := NatText(n);
      && |t| >= 1 && t[|t| - 1] as int == '0' as int + n % 10
      && (n < 10 <==> |t| == 1) && (n >= 10 ==> t[..|t| - 1] == NatText(n / 10))
  {
  }

  lemma ParamsJsonBinds(p: Params, q: Params)
    requires ParamsJson(p) == ParamsJson(q)
    ensures p == q
  {
    var f, g := ParamsJson(p).fields, ParamsJson(q).fields;
    assert f["name"] == g["name"] && f["seed"] == g["seed"] && f["biome"] == g["biome"];
    assert f["width"] == g["width"] && f["height"] == g["height"];
    assert f["housePlotCount"] == g["housePlotCount"] && f["districtCount"] == g["districtCount"];
    hide ParamsJson;
    NatTextInjective(p.width, q.width);
    NatTextInjective(p.height, q.height);
    NatTextInjective(p.housePlotCount, q.housePlotCount);
    NatTextInjective(p.districtCount, q.districtCount);
    BiomeNamesDiffer(p.biome, q.biome);
  }

  lemma BiomeNamesDiffer(a: Biome, b: Biome)
    ensures BiomeName(a) == BiomeName(b) <==> a == b
  {
    assert "azura"[0] != "grassland"[0] && "azura"[0] != "stonehold"[0] && "grassland"[0] != "stonehold"[0];
  }

  /** No two phases, and no two parameter sets, share a stream's seed, unless the hash
      collides or its digests differ in length. */
  lemma PhaseSeedBinds(h: HashFunction, p: Params, phase: string, q: Params, phase': string)
    requires |h("akalynth:rng:commit:v1\0" + Print(true, ParamsJson(p)))|
          == |h("akalynth:rng:commit:v1\0" + Print(true, ParamsJson(q)))|
    requires CollisionFree(h, {
      PhaseText(h, p, phase), PhaseText(h, q, phase'),
      "akalynth:rng:commit:v1\0" + Print(true, ParamsJson(p)), "akalynth:rng:commit:v1\0" + Print(true, ParamsJson(q))})
    ensures PhaseSeed(h, p, phase) == PhaseSeed(h, q, phase') <==> p == q && phase == phase'
  {
    hide Print, ParamsJson, PhaseSeed;
    PhaseSeedHashesText(h, p, phase);
    PhaseSeedHashesText(h, q, phase');
    if PhaseSeed(h, p, phase) == PhaseSeed(h, q, phase') {
      LiteralRest("blake3:", h(PhaseText(h, p, phase)), h(PhaseText(h, q, phase')));
      assert PhaseText(h, p, phase) == PhaseText(h, q, phase');
      var a, b := "akalynth:rng:commit:v1\0" + Print(true, ParamsJson(p)), "akalynth:rng:commit:v1\0"
        + Print(true, ParamsJson(q));
      SameEnding("akalynth:rng:v2:derive\0" + p.seed + p.name + ("akalynth:mapgen:v1:" + phase), "blake3:", h(a),
                 "akalynth:rng:v2:derive\0" + q.seed + q.name + ("akalynth:mapgen:v1:" + phase'), "blake3:", h(b));
      hide PhaseText;
      LiteralRest("akalynth:rng:commit:v1\0", Print(true, ParamsJson(p)), Print(true, ParamsJson(q)));
      ParamsWellFormed(p);
      ParamsWellFormed(q);
      PrintInjective(true, ParamsJson(p), ParamsJson(q));
      ParamsJsonBinds(p, q);
      LiteralRest("akalynth:rng:v2:derive\0" + p.seed + p.name, "akalynth:mapgen:v1:" + phase,
        "akalynth:mapgen:v1:" + phase');
      LiteralRest("akalynth:mapgen:v1:", phase, phase');
    }
  }

  /** Texts that end in digests of one length have equal digests, and equal texts before them. */
  lemma SameEnding(a: string, open: string, x: string, b: string, open': string, y: string)
    requires a + (open + x) == b + (open' + y) && |x| == |y| && open == open'
    ensures x == y && a == b
  {
    var s, t := a + (open + x), b + (open' + y);
    assert |a| == |b|;
    assert a == s[..|a|] && b == t[..|b|] && x == s[|a| + |open|..] && y == t[|b| + |open|..];
  }

  lemma ParamsWellFormed(p: Params)
    ensures WellFormed(ParamsJson(p))
  {
  }

  /** Uniform integer in [0, n) from position i, and the next position. */
  function IntAt(s: Stream, i: nat, n: int): (r: (int, nat))
    ensures 0 <= r.0 && (n > 0 ==> r.0 < n) && (n <= 0 ==> r.0 == 0)
  {
    if n <= 0 then (0, i) else (s(i) % n, i + 1)
  }

  /** Uniform integer in [min, max]. */
  function RangeAt(s: Stream, i: nat, min: int, max: int): (r: (int, nat))
    ensures min <= r.0 && (min <= max ==> r.0 <= max)
  {
    if max <= min then (min, i) else (min + IntAt(s, i, max - min + 1).0, i + 1)
  }

  /** `PhaseRng`: a stream and a position in it. */
  class PhaseRng {
    const stream: Stream
    var i: nat

    constructor (stream: Stream)
      ensures this.stream == stream && i == 0
    {
      this.stream := stream;
      i := 0;
    }

    method U32() returns (r: u32)
      modifies this
      ensures r == stream(old(i)) && i == old(i) + 1
    {
      r := stream(i);
      i := i + 1;
    }

    method Int(n: int) returns (r: int)
      modifies this
      ensures (r, i) == IntAt(stream, old(i), n)
    {
      if n <= 0 {
        return 0;
      }
      var u := U32();
      r := u % n;
    }

    method Range(min: int, max: int) returns (r: int)
      modifies this
      ensures (r, i) == RangeAt(stream, old(i), min, max)
    {
      if max <= min {
        return min;
      }
      var k := Int(max - min + 1);
      r := min + k;
    }

    method Chance(num: int, den: int) returns (r: bool)
      modifies this
      ensures r == (IntAt(stream, old(i), den).0 < num) && i == IntAt(stream, old(i), den).1
    {
      var k := Int(den);
      r := k < num;
    }
  }

  // ----- districts -----

  datatype Kind = Commons | Residential | GateKind | Harbor | Market

  datatype District = District(id: nat, kind: Kind, x: int, y: int, width: int, height: int)

  function MaxInt(a: int, b: int): int { if a < b then b else a }
  function MinInt(a: int, b: int): int { if a < b then a else b }

  /** `Math.ceil(Math.sqrt(n))`: the least c with c * c >= n. */
  function CeilSqrt(n: nat): nat {
    CeilSqrtFrom(n, 0)
  }

  function CeilSqrtFrom(n: nat, c: nat): nat
    decreases n - c
  {
    if c >= n || c * c >= n then c else CeilSqrtFrom(n, c + 1)
  }

  function Cols(p: Params): nat { CeilSqrt(p.districtCount) }

  function Rows(p: Params): nat
    requires Cols(p) > 0
  {
    (p.districtCount + Cols(p) - 1) / Cols(p)
  }

  lemma GridShape(p: Params)
    requires Valid(p)
    ensures Cols(p) == if p.districtCount <= 4 then 2 else 3
    ensures Rows(p) == 2
  {
    var n := p.districtCount;
    assert CeilSqrtFrom(n, 0) == CeilSqrtFrom(n, 1) == CeilSqrtFrom(n, 2);
    assert n > 4 ==> CeilSqrtFrom(n, 2) == CeilSqrtFrom(n, 3);
  }

  function CellW(p: Params): int
    requires Valid(p)
  {
    GridShape(p);
    (p.width - 2) / Cols(p)
  }

  function CellH(p: Params): int
    requires Valid(p)
  {
    GridShape(p);
    (p.height - 2) / Rows(p)
  }

  function KindPick(k: int): Kind {
    if k == 0 then Harbor else if k == 1 then Market else Commons
  }

  /** District number i, drawn from position c of the stream, and the next position. */
  function DistrictAt(p: Params, s: Stream, i: nat, c: nat): (District, nat)
    requires Valid(p)
  {
    GridShape(p);
    var col, row := i % Cols(p), i / Cols(p);
    var cellX, cellY := 1 + col * CellW(p), 1 + row * CellH(p);
    var maxW, maxH := MaxInt(3, CellW(p) - 2), MaxInt(3, CellH(p) - 2);
    var (dw, c1) := RangeAt(s, c, MinInt(3, maxW), maxW);
    var (dh, c2) := RangeAt(s, c1, MinInt(3, maxH), maxH);
    var (ox, c3) := IntAt(s, c2, MaxInt(1, maxW - dw + 1));
    var (oy, c4) := IntAt(s, c3, MaxInt(1, maxH - dh + 1));
    var (kind, c5) :=
      if i == 1 then (Residential, c4)
      else if i == p.districtCount - 1 then (GateKind, c4)
      else if i > 1 then (KindPick(IntAt(s, c4, 3).0), IntAt(s, c4, 3).1)
      else (Commons, c4);
    (District(i, kind, cellX + 1 + ox, cellY + 1 + oy, dw, dh), c5)
  }

  /** District i by its draws: two for its size, two for its place in the cell, and a fifth
      for the kind of those between the second and the last. */
  lemma DistrictByDraws(p: Params, s: Stream, i: nat, c: nat)
    requires Valid(p)
    ensures var cols := if p.districtCount <= 4 then 2 else 3;
      var cellW, cellH := (p.width - 2) / cols, (p.height - 2) / 2;
      var maxW, maxH := MaxInt(3, cellW - 2), MaxInt(3, cellH - 2);
      var (d, next) := DistrictAt(p, s, i, c);
      var c' := c + (if maxW > 3 then 1 else 0) + (if maxH > 3 then 1 else 0);
      && d.id == i
      && d.width == (if maxW > 3 then 3 + s(c) % (maxW - 2) else 3)
      && d.height == (if maxH > 3 then 3 + s(if maxW > 3 then c + 1 else c) % (maxH - 2) else 3)
      && d.x == 2 + i % cols * cellW + s(c') % MaxInt(1, maxW - d.width + 1)
      && d.y == 2 + i / cols * cellH + s(c' + 1) % MaxInt(1, maxH - d.height + 1)
      && next == c' + 2 + (if 1 < i && i != p.districtCount - 1 then 1 else 0)
      && (1 < i && i != p.districtCount - 1 ==>
            && (d.kind == Harbor <==> s(c' + 2) % 3 == 0) && (d.kind == Market <==> s(c' + 2) % 3 == 1)
            && (d.kind == Commons <==> s(c' + 2) % 3 == 2))
  {
    GridShape(p);
    hide Cols, Rows;
    CellsAreLarge(p);
    var cols := if p.districtCount <= 4 then 2 else 3;
    assert CellW(p) == (p.width - 2) / cols && CellH(p) == (p.height - 2) / 2;
  }

  /** The first n districts. */
  function DistrictsTo(p: Params, s: Stream, n: nat): (r: (seq<District>, nat))
    requires Valid(p)
    ensures |r.0| == n
  {
    if n == 0 then ([], 0)
    else
      var (front, c) := DistrictsTo(p, s, n - 1);
      var (d, c') := DistrictAt(p, s, n - 1, c);
      (front + [d], c')
  }

  function Districts(p: Params, s: Stream): (ds: seq<District>)
    requires Valid(p)
    ensures |ds| == p.districtCount
  {
    DistrictsTo(p, s, p.districtCount).0
  }

  /** One turn of the districts phase. */
  method PlaceDistrict(p: Params, dr: PhaseRng, i: nat, cols: nat, cellW: int, cellH: int) returns (d: District)
    requires Valid(p) && cols == Cols(p) && cols > 0 && cellW == CellW(p) && cellH == CellH(p)
    modifies dr
    ensures (d, dr.i) == DistrictAt(p, dr.stream, i, old(dr.i))
  {
    hide Cols, CellW, CellH, IntAt, RangeAt;
    var col := i % cols;
    var row := i / cols;
    var cellX := 1 + col * cellW;
    var cellY := 1 + row * cellH;
    var maxW := MaxInt(3, cellW - 2);
    var maxH := MaxInt(3, cellH - 2);
    var dw := dr.Range(MinInt(3, maxW), maxW);
    var dh := dr.Range(MinInt(3, maxH), maxH);
    var ox := dr.Int(MaxInt(1, maxW - dw + 1));
    var dx := cellX + 1 + ox;
    var oy := dr.Int(MaxInt(1, maxH - dh + 1));
    var dy := cellY + 1 + oy;
    var kind := Commons;
    if i == 1 {
      kind := Residential;
    } else if i == p.districtCount - 1 {
      kind := GateKind;
    } else if i > 1 {
      var k := dr.Int(3);
      kind := KindPick(k);
    }
    d := District(i, kind, dx, dy, dw, dh);
  }

  /** The districts phase. */
  method PlaceDistricts(p: Params, dr: PhaseRng) returns (districts: seq<District>)
    requires Valid(p) && dr.i == 0
    modifies dr
    ensures districts == Districts(p, dr.stream)
  {
    hide DistrictAt;
    GridShape(p);
    var cols := Cols(p);
    var rows := (p.districtCount + cols - 1) / cols;
    var cellW := (p.width - 2) / cols;
    var cellH := (p.height - 2) / rows;
    districts := [];
    for i := 0 to p.districtCount
      invariant (districts, dr.i) == DistrictsTo(p, dr.stream, i)
    {
      var d := PlaceDistrict(p, dr, i, cols, cellW, cellH);
      districts := districts + [d];
    }
  }

  // ----- layout arithmetic -----

  /** Column and row of district i's cell. */
  function ColOf(p: Params, i: nat): nat
    requires Valid(p)
  {
    GridShape(p);
    i % Cols(p)
  }

  function RowOf(p: Params, i: nat): nat
    requires Valid(p)
  {
    GridShape(p);
    i / Cols(p)
  }

  lemma {:induction false} DistrictIsDrawn(p: Params, s: Stream, n: nat, i: nat)
    requires Valid(p) && i < n
    ensures DistrictsTo(p, s, n).0[i] == DistrictAt(p, s, i, DistrictsTo(p, s, i).1).0
  {
    hide DistrictAt;
    if i < n - 1 { DistrictIsDrawn(p, s, n - 1, i); }
  }

  /** A district lies in its cell, one tile in from the cell's upper left, at least 3 by 3. */
  ghost predicate InCell(p: Params, d: District, i: nat)
    requires Valid(p)
  {
    && d.id == i && d.width >= 3 && d.height >= 3
    && 2 + ColOf(p, i) * CellW(p) <= d.x && d.x + d.width <= 1 + (ColOf(p, i) + 1) * CellW(p)
    && 2 + RowOf(p, i) * CellH(p) <= d.y && d.y + d.height <= 1 + (RowOf(p, i) + 1) * CellH(p)
  }

  lemma CellsAreLarge(p: Params)
    requires Valid(p)
    ensures CellW(p) >= 4 && CellH(p) >= 7
    ensures Cols(p) > 0 && Cols(p) * CellW(p) <= p.width - 2 && 2 * CellH(p) <= p.height - 2
  {
    GridShape(p);
  }

  lemma DistrictInCell(p: Params, s: Stream, i: nat, c: nat)
    requires Valid(p) && i < p.districtCount
    ensures InCell(p, DistrictAt(p, s, i, c).0, i)
  {
    CellsAreLarge(p);
    var cw, ch := CellW(p), CellH(p);
    assert (ColOf(p, i) + 1) * cw == ColOf(p, i) * cw + cw;
    assert (RowOf(p, i) + 1) * ch == RowOf(p, i) * ch + ch;
    hide CellW, CellH, Cols;
  }

  /** District i of the layout. */
  lemma DistrictsInCells(p: Params, s: Stream, i: nat)
    requires Valid(p) && i < p.districtCount
    ensures InCell(p, Districts(p, s)[i], i)
    ensures Districts(p, s)[i].kind ==
      if i == 0 then Commons else if i == 1 then Residential else if i == p.districtCount - 1 then GateKind
      else Districts(p, s)[i].kind
    ensures 1 < i < p.districtCount - 1 ==> Districts(p, s)[i].kind in {Harbor, Market, Commons}
  {
    DistrictIsDrawn(p, s, p.districtCount, i);
    DistrictInCell(p, s, i, DistrictsTo(p, s, i).1);
  }

  predicate Inside(d: District, q: Point) {
    d.x <= q.x < d.x + d.width && d.y <= q.y < d.y + d.height
  }

  /** At least one free column or row lies between the two. */
  predicate Separated(a: District, b: District) {
    a.x + a.width < b.x || b.x + b.width < a.x || a.y + a.height < b.y || b.y + b.height < a.y
  }

  predicate Interior(q: Point, w: nat, h: nat) {
    1 <= q.x < w - 1 && 1 <= q.y < h - 1
  }

  lemma CellPosition(p: Params, i: nat)
    requires Valid(p) && i < p.districtCount
    ensures 0 <= ColOf(p, i) < Cols(p) && 0 <= RowOf(p, i) < 2
    ensures (ColOf(p, i) + 1) * CellW(p) <= p.width - 2 && (RowOf(p, i) + 1) * CellH(p) <= p.height - 2
  {
    GridShape(p);
    CellsAreLarge(p);
    MulMonotone(ColOf(p, i) + 1, Cols(p), CellW(p));
    MulMonotone(RowOf(p, i) + 1, 2, CellH(p));
  }

  lemma ProductsNotNegative(a: int, b: int)
    requires a >= 0 && b >= 0
    ensures a * b >= 0
  {
  }

  /** Districts lie strictly inside the border. */
  lemma DistrictsAreInterior(p: Params, s: Stream, i: nat, q: Point)
    requires Valid(p) && i < p.districtCount && Inside(Districts(p, s)[i], q)
    ensures Interior(q, p.width, p.height)
  {
    hide ColOf, RowOf, CellW, CellH, Districts, Cols;
    DistrictsInCells(p, s, i);
    CellPosition(p, i);
    CellsAreLarge(p);
    ProductsNotNegative(ColOf(p, i), CellW(p));
    ProductsNotNegative(RowOf(p, i), CellH(p));
  }

  lemma DifferentCells(p: Params, i: nat, j: nat)
    requires Valid(p) && i < p.districtCount && j < p.districtCount && i != j
    ensures ColOf(p, i) != ColOf(p, j) || RowOf(p, i) != RowOf(p, j)
  {
    GridShape(p);
    assert i == RowOf(p, i) * Cols(p) + ColOf(p, i);
    assert j == RowOf(p, j) * Cols(p) + ColOf(p, j);
  }

  /** Any two districts have a free column or row between them. */
  lemma DistrictsAreSeparated(p: Params, s: Stream, i: nat, j: nat)
    requires Valid(p) && i < p.districtCount && j < p.districtCount && i != j
    ensures Separated(Districts(p, s)[i], Districts(p, s)[j])
  {
    DistrictsInCells(p, s, i);
    DistrictsInCells(p, s, j);
    DifferentCells(p, i, j);
    CellsAreLarge(p);
    var cw, ch := CellW(p), CellH(p);
    var ci, cj, ri, rj := ColOf(p, i), ColOf(p, j), RowOf(p, i), RowOf(p, j);
    if ci < cj { MulMonotone(ci + 1, cj, cw); }
    if cj < ci { MulMonotone(cj + 1, ci, cw); }
    if ri < rj { MulMonotone(ri + 1, rj, ch); }
    if rj < ri { MulMonotone(rj + 1, ri, ch); }
    hide ColOf, RowOf, CellW, CellH, Districts, Cols;
  }

  // ----- landmarks -----

  /** `centerOf`. */
  function CenterOf(d: District): Point {
    Point(d.x + d.width / 2, d.y + d.height / 2)
  }

  /** The centre leaves as many columns and rows before it as after it, or one more. */
  lemma CentreIsMiddle(d: District)
    ensures var c := CenterOf(d);
      && 0 <= (c.x - d.x) - (d.x + d.width - 1 - c.x) <= 1 && 0 <= (c.y - d.y) - (d.y + d.height - 1 - c.y) <= 1
  {
  }

  /** Index of the first district of a kind, or the default. */
  function FirstOf(ds: seq<District>, kind: Kind, default: nat): nat {
    FirstFrom(ds, kind, default, 0)
  }

  function FirstFrom(ds: seq<District>, kind: Kind, default: nat, i: nat): nat
    decreases |ds| - i
  {
    if i >= |ds| then default else if ds[i].kind == kind then i else FirstFrom(ds, kind, default, i + 1)
  }

  lemma {:induction false} FirstIs(ds: seq<District>, kind: Kind, default: nat, i: nat, k: nat)
    requires i <= k < |ds| && ds[k].kind == kind && forall j | i <= j < k :: ds[j].kind != kind
    ensures FirstFrom(ds, kind, default, i) == k
    decreases k - i
  {
    if i < k { FirstIs(ds, kind, default, i + 1, k); }
  }

  function CommonsIndex(ds: seq<District>): nat { FirstOf(ds, Commons, 0) }
  function ResidentialIndex(ds: seq<District>): nat { FirstOf(ds, Residential, 1) }
  function GateIndex(ds: seq<District>): nat
    requires ds != []
  {
    FirstOf(ds, GateKind, |ds| - 1)
  }

  /** There is exactly one gate district and one residential district: the last and
      the second; the spawn's is the first. */
  lemma LandmarkDistricts(p: Params, s: Stream)
    requires Valid(p)
    ensures var ds := Districts(p, s);
      && CommonsIndex(ds) == 0 && ResidentialIndex(ds) == 1 && GateIndex(ds) == p.districtCount - 1
      && (forall i | 0 <= i < |ds| :: ds[i].kind == GateKind <==> i == |ds| - 1)
      && (forall i | 0 <= i < |ds| :: ds[i].kind == Residential <==> i == 1)
  {
    var ds := Districts(p, s);
    forall i | 0 <= i < |ds|
      ensures ds[i].kind == GateKind <==> i == |ds| - 1
      ensures ds[i].kind == Residential <==> i == 1
      ensures i == 0 ==> ds[i].kind == Commons
    {
      DistrictsInCells(p, s, i);
    }
    FirstIs(ds, Commons, 0, 0, 0);
    FirstIs(ds, Residential, 1, 0, 1);
    FirstIs(ds, GateKind, |ds| - 1, 0, |ds| - 1);
  }

  function SpawnOf(p: Params, s: Stream): Point
    requires Valid(p)
  {
    LandmarkDistricts(p, s);
    CenterOf(Districts(p, s)[CommonsIndex(Districts(p, s))])
  }

  function GateOf(p: Params, s: Stream): Point
    requires Valid(p)
  {
    LandmarkDistricts(p, s);
    CenterOf(Districts(p, s)[GateIndex(Districts(p, s))])
  }

  lemma CenterInside(p: Params, s: Stream, i: nat)
    requires Valid(p) && i < p.districtCount
    ensures Inside(Districts(p, s)[i], CenterOf(Districts(p, s)[i]))
    ensures Interior(CenterOf(Districts(p, s)[i]), p.width, p.height)
  {
    DistrictsInCells(p, s, i);
    DistrictsAreInterior(p, s, i, CenterOf(Districts(p, s)[i]));
  }

  /** Spawn and gate are different interior points. */
  lemma SpawnAndGate(p: Params, s: Stream)
    requires Valid(p)
    ensures Interior(SpawnOf(p, s), p.width, p.height) && Interior(GateOf(p, s), p.width, p.height)
    ensures SpawnOf(p, s) != GateOf(p, s)
  {
    LandmarkDistricts(p, s);
    CenterInside(p, s, 0);
    CenterInside(p, s, p.districtCount - 1);
    DistrictsAreSeparated(p, s, 0, p.districtCount - 1);
  }
}
