/** Death-drop selection: how many items drop, which are exempt, and the weighted
    top-K draw over the rest. */
module DropPolicy {
  import opened Json
  import opened Sorting
  import opened Rng

  /** Real arithmetic the code takes from its platform: `exp`, the w-th root
      (`Math.pow(u, 1 / w)`) and the value of a JSON number. */
  datatype Arithmetic = Arithmetic(exp: real -> real, root: (real, real) -> real, value: string -> real)

  datatype Policy = Policy(
    baseDropRatio: real, minDrop: int, maxDrop: Option<int>,
    repBias: real, stackBias: real, protectedSlots: int)

  const ROOKGUARD := Policy(0.0, 0, Some(0), 0.0, 0.0, 999)
  const AZURA := Policy(0.6, 1, None, 0.15, 0.1, 0)

  /** `DROP_POLICY[map]` for its own names. */
  function PolicyFor(mapName: string): Option<Policy> {
    if mapName == "Rookguard" then Some(ROOKGUARD)
    else if mapName == "Azura" then Some(AZURA)
    else None
  }

  /** The names every JavaScript object inherits: under them the lookup finds a value,
      but none of the fields of a policy. */
  const INHERITED: set<string> := {
    "constructor", "__defineGetter__", "__defineSetter__", "hasOwnProperty", "__lookupGetter__", "__lookupSetter__",
    "isPrototypeOf", "propertyIsEnumerable", "toString", "valueOf", "__proto__", "toLocaleString"}

  /** The lookup finds something: a policy, or an inherited value. */
  predicate Found(mapName: string) {
    PolicyFor(mapName).Some? || mapName in INHERITED
  }

  /** A number as JavaScript computes it: NaN compares false with everything. */
  datatype Quantity = Number(n: int) | NaN {
    predicate AtMost(m: int) { Number? && n <= m }
    predicate AtLeast(m: int) { Number? && n >= m }
  }

  datatype Item = Item(id: string, itemType: string, meta: Option<Fields>, slot: Option<Json>)

  type HeatMap = map<string, real>

  // ----- weights -----

  function BaseWeight(itemType: string): real {
    if itemType == "mark_token" then 0.5 else 1.0
  }

  predicate IsLegendary(item: Item) {
    item.meta.Some? && "legendary" in item.meta.value && Truthy(item.meta.value["legendary"])
  }

  function NumberIn(fields: Fields, key: string): Option<string> {
    if key in fields && fields[key].Num? then Some(fields[key].text) else None
  }

  function Tier(a: Arithmetic, item: Item): real
    requires item.meta.Some?
  {
    match NumberIn(item.meta.value, "legendary_tier")
    case Some(text) => a.value(text)
    case None => 1.0
  }

  /** Heat from the lookup, else from the server's table, else 0. */
  function HeatOf(id: string, lookup: HeatMap, ambient: HeatMap): real {
    if id in lookup then lookup[id] else if id in ambient then ambient[id] else 0.0
  }

  function LegendaryMultiplier(a: Arithmetic, tier: real, heat: real): real {
    1.0 + 1.25 * tier + 3.0 * (1.0 - a.exp(-heat / 6.0))
  }

  function ItemWeight(a: Arithmetic, item: Item, lookup: HeatMap, ambient: HeatMap): real {
    if IsLegendary(item)
    then BaseWeight(item.itemType) * LegendaryMultiplier(a, Tier(a, item), HeatOf(item.id, lookup, ambient))
    else BaseWeight(item.itemType)
  }

  // ----- how many -----

  function Max(x: int, y: int): int { if x < y then y else x }
  function Min(x: int, y: int): int { if x < y then x else y }

  function Clamp01(x: real): real {
    if x < 0.0 then 0.0 else if x > 1.0 then 1.0 else x
  }

  function Clamp(x: int, min: int, max: int): int {
    Max(min, Min(max, x))
  }

  function Negative(x: real): real {
    if x < 0.0 then -x else 0.0
  }

  /** A curve from 0 towards 1. */
  function Saturation(a: Arithmetic, x: real, scale: real): real
    requires scale > 0.0
  {
    1.0 - a.exp(-x / scale)
  }

  function ReputationTerm(a: Arithmetic, reputation: real, p: Policy): real {
    p.repBias * Saturation(a, Negative(reputation), 5.0)
  }

  function StackTerm(a: Arithmetic, n: int, p: Policy): real {
    p.stackBias * Saturation(a, Max(0, n - 3) as real, 4.0)
  }

  function DropRatio(a: Arithmetic, n: int, reputation: real, p: Policy): real {
    Clamp01(p.baseDropRatio + ReputationTerm(a, reputation, p) + StackTerm(a, n, p))
  }

  /** `Math.round`. */
  function Round(x: real): int {
    (x + 0.5).Floor
  }

  function CountFor(ratio: real, n: int, p: Policy): int {
    Min(Clamp(Round(ratio * n as real), p.minDrop, p.maxDrop.GetOr(n)), Max(0, n - p.protectedSlots))
  }

  /** `computeDropCount`. */
  function DropCount(a: Arithmetic, n: int, reputation: real, p: Policy): int {
    if n <= 0 then 0 else CountFor(DropRatio(a, n, reputation, p), n, p)
  }

  // ----- which -----

  function Filter<T>(keep: T -> bool, s: seq<T>): seq<T> {
    if s == [] then [] else (if keep(s[0]) then [s[0]] else []) + Filter(keep, s[1..])
  }

  function Ids(items: seq<Item>): seq<string> {
    seq(|items|, i requires 0 <= i < |items| => items[i].id)
  }

  function IdSet(items: seq<Item>): set<string> {
    set i | 0 <= i < |items| :: items[i].id
  }

  predicate Protected(item: Item) {
    item.slot == Some(Str("protected"))
  }

  function Without(items: seq<Item>, ids: set<string>): seq<Item> {
    Filter((item: Item) => item.id !in ids, items)
  }

  /** Items whose id no protected item carries. */
  function Candidates(items: seq<Item>): seq<Item> {
    Without(items, IdSet(Filter((item: Item) => Protected(item), items)))
  }

  /** The ids the policy keeps: the lightest `protectedSlots` candidates. */
  function LightestIds(weight: Item -> real, items: seq<Item>, slots: int): set<string>
    requires 0 < slots < |items|
  {
    var sorted := Sort((x: Item, y: Item) => weight(x) <= weight(y), items);
    SortPermutes((x: Item, y: Item) => weight(x) <= weight(y), items);
    IdSet(sorted[..slots])
  }

  function Exposed(weight: Item -> real, items: seq<Item>, slots: int): seq<Item> {
    if 0 < slots < |items| then Without(items, LightestIds(weight, items, slots)) else items
  }

  datatype Keyed = Keyed(id: string, key: real)

  /** `rngU32ToUnitFloat`. */
  function UnitFloat(u: u32): (r: real)
    ensures 0.0 < r <= 1.0
  {
    if u == 0 then 1.0 / 4294967295.0 else u as real / 4294967295.0
  }

  function KeyOf(a: Arithmetic, draw: DrawFunction, weight: Item -> real, seed: string, item: Item, i: nat): Keyed {
    Keyed(item.id, a.root(UnitFloat(draw(seed, i)), weight(item)))
  }

  function Keys(a: Arithmetic, draw: DrawFunction, weight: Item -> real, seed: string, items: seq<Item>): seq<Keyed> {
    seq(|items|, i requires 0 <= i < |items| => KeyOf(a, draw, weight, seed, items[i], i))
  }

  const HIGHER_FIRST: (Keyed, Keyed) -> bool := (x: Keyed, y: Keyed) => x.key >= y.key

  function KeyedIds(s: seq<Keyed>): seq<string> {
    seq(|s|, i requires 0 <= i < |s| => s[i].id)
  }

  function TopIds(keyed: seq<Keyed>, k: nat): seq<string>
    requires k <= |keyed|
  {
    SortPermutes(HIGHER_FIRST, keyed);
    KeyedIds(Sort(HIGHER_FIRST, keyed)[..k])
  }

  /** The dropped ids and the draws consumed for them. */
  function Select(
    a: Arithmetic, draw: DrawFunction, weight: Item -> real, items: seq<Item>, k: int, seed: string,
    slots: int): (seq<string>, seq<u32>)
  {
    if k <= 0 then ([], [])
    else if k >= |Candidates(items)| then (Ids(Candidates(items)), [])
    else
      var exposed := Exposed(weight, Candidates(items), slots);
      if k >= |exposed| then (Ids(exposed), [])
      else (TopIds(Keys(a, draw, weight, seed, exposed), k), DrawsTo(draw, seed, |exposed|))
  }

  /** The selection for any count and slots.  Without a number of slots the policy keeps
      nothing back; without a count every candidate is drawn for and none is dropped. */
  function SelectAny(
    a: Arithmetic, draw: DrawFunction, weight: Item -> real, items: seq<Item>, k: Quantity, seed: string,
    slots: Quantity)
    : (seq<string>, seq<u32>)
  {
    var kept := if slots.Number? then slots.n else 0;
    match k
    case Number(n) => Select(a, draw, weight, items, n, seed, kept)
    case NaN =>
      var exposed := Exposed(weight, Candidates(items), kept);
      ([], DrawsTo(draw, seed, |exposed|))
  }

  /** The first n draws of a seed. */
  function DrawsTo(draw: DrawFunction, seed: string, n: nat): seq<u32> {
    seq(n, i requires 0 <= i < n => draw(seed, i))
  }

  /** `selectItemsToDrop`, with the draws it pushes. */
  method SelectItemsToDrop(
    a: Arithmetic, draw: DrawFunction, items: seq<Item>, k: Quantity, seed: string, slots: Quantity,
    lookup: HeatMap, ambient: HeatMap)
    returns (dropped: seq<string>, rngOut: seq<u32>)
    ensures (dropped, rngOut)
         == SelectAny(a, draw, (item: Item) => ItemWeight(a, item, lookup, ambient), items, k, seed, slots)
  {
    hide ItemWeight, Sort, Filter, UnitFloat;
    var weight := (item: Item) => ItemWeight(a, item, lookup, ambient);
    rngOut := [];
    NothingToDrop(a, draw, weight, items, k, seed, slots);
    if k.AtMost(0) || |items| == 0 {
      return [], [];
    }
    var candidates := Candidates(items);
    if |candidates| == 0 {
      assert Ids(candidates) == [];
      return [], [];
    }
    if k.AtLeast(|candidates|) {
      return Ids(candidates), [];
    }
    if slots.AtLeast(1) && slots.AtMost(|candidates| - 1) {
      candidates := Without(candidates, LightestIds(weight, candidates, slots.n));
    }
    if |candidates| == 0 {
      assert candidates == [] && Ids(candidates) == [] && DrawsTo(draw, seed, 0) == [];
      return [], [];
    }
    if k.AtLeast(|candidates|) {
      return Ids(candidates), [];
    }
    var keyed: seq<Keyed> := [];
    for i := 0 to |candidates|
      invariant keyed == Keys(a, draw, weight, seed, candidates)[..i]
      invariant rngOut == DrawsTo(draw, seed, i)
    {
      var u := draw(seed, i);
      rngOut := rngOut + [u];
      keyed := keyed + [Keyed(candidates[i].id, a.root(UnitFloat(u), weight(candidates[i])))];
    }
    assert keyed == Keys(a, draw, weight, seed, candidates);
    SortPermutes(HIGHER_FIRST, keyed);
    keyed := Sort(HIGHER_FIRST, keyed);
    assert KeyedIds(keyed[..0]) == [];
    dropped := KeyedIds(keyed[..if k.Number? then k.n else 0]);
  }

  lemma NothingToDrop(
    a: Arithmetic, draw: DrawFunction, weight: Item -> real, items: seq<Item>, k: Quantity, seed: string,
    slots: Quantity)
    ensures k.AtMost(0) || |Candidates(items)| == 0 ==> SelectAny(a, draw, weight, items, k, seed, slots) == ([], [])
    ensures |items| == 0 ==> |Candidates(items)| == 0
  {
    hide ItemWeight, Sort;
    if |Candidates(items)| == 0 {
      assert Candidates(items) == [] && Ids(Candidates(items)) == [];
      var kept := if slots.Number? then slots.n else 0;
      assert Exposed(weight, Candidates(items), kept) == [] && DrawsTo(draw, seed, 0) == [];
    }
  }

  datatype Drops = Drops(dropped: seq<string>, kept: seq<string>, dropCount: Quantity)

  function KeptIds(items: seq<Item>, dropped: seq<string>): seq<string> {
    Filter((id: string) => id !in dropped, Ids(items))
  }

  /** Count and slots under the policy found for a map; None when nothing is found. */
  function Terms(a: Arithmetic, n: int, reputation: real, mapName: string): Option<(Quantity, Quantity)> {
    match PolicyFor(mapName)
    case Some(p) => Some((Number(DropCount(a, n, reputation, p)), Number(p.protectedSlots)))
    case None => if Found(mapName) then Some((NaN, NaN)) else None
  }

  /** What `computeDeathDrops` returns; None when it throws, which is when a
      non-empty inventory dies on a map under which no policy is found. */
  function DeathDrops(
    a: Arithmetic, draw: DrawFunction, items: seq<Item>, mapName: string, reputation: real, seed: string,
    lookup: HeatMap, ambient: HeatMap): Option<Drops>
  {
    if items == [] then Some(Drops([], [], Number(0)))
    else match Terms(a, |items|, reputation, mapName)
      case None => None
      case Some((count, slots)) =>
        var weight := (item: Item) => ItemWeight(a, item, lookup, ambient);
        var dropped := SelectAny(a, draw, weight, items, count, seed, slots).0;
        Some(Drops(dropped, KeptIds(items, dropped), count))
  }

  /** The draws made for it. */
  function DeathDraws(
    a: Arithmetic, draw: DrawFunction, items: seq<Item>, mapName: string, reputation: real, seed: string,
    lookup: HeatMap, ambient: HeatMap): seq<u32>
  {
    if items == [] then []
    else match Terms(a, |items|, reputation, mapName)
      case None => []
      case Some((count, slots)) =>
        SelectAny(a, draw, (item: Item) => ItemWeight(a, item, lookup, ambient), items, count, seed, slots).1
  }

  /** `computeDeathDrops`. */
  method ComputeDeathDrops(
    a: Arithmetic, draw: DrawFunction, items: seq<Item>, mapName: string, reputation: real, seed: string,
    lookup: HeatMap, ambient: HeatMap) returns (r: Option<Drops>, rngOut: seq<u32>)
    ensures r == DeathDrops(a, draw, items, mapName, reputation, seed, lookup, ambient)
    ensures rngOut == DeathDraws(a, draw, items, mapName, reputation, seed, lookup, ambient)
  {
    hide ItemWeight, SelectAny, DropCount, KeptIds, INHERITED;
    rngOut := [];
    if |items| == 0 {
      return Some(Drops([], [], Number(0))), [];
    }
    var policy := PolicyFor(mapName);
    if !Found(mapName) {
      return None, [];
    }
    var count, slots := NaN, NaN;
    if policy.Some? {
      count := Number(DropCount(a, |items|, reputation, policy.value));
      slots := Number(policy.value.protectedSlots);
    }
    var dropped: seq<string>;
    dropped, rngOut := SelectItemsToDrop(a, draw, items, count, seed, slots, lookup, ambient);
    r := Some(Drops(dropped, KeptIds(items, dropped), count));
  }

  /** A map named like an inherited property: nothing drops and everything is kept,
      whatever the reputation and the weights. */
  lemma InheritedNameDropsNothing(
    a: Arithmetic, draw: DrawFunction, items: seq<Item>, mapName: string, reputation: real, seed: string,
    lookup: HeatMap, ambient: HeatMap)
    requires mapName in INHERITED
    ensures var r := DeathDrops(a, draw, items, mapName, reputation, seed, lookup, ambient);
      r.Some? && r.value.dropped == [] && r.value.kept == Ids(items)
  {
    hide Exposed, Candidates, ItemWeight;
    if items == [] {
      assert Ids(items) == [];
    } else {
      KeepAll(Ids(items));
    }
  }

  lemma {:induction false} KeepAll(s: seq<string>)
    ensures Filter((id: string) => id !in [], s) == s
  {
    if s != [] {
      KeepAll(s[1..]);
      assert s == [s[0]] + s[1..];
    }
  }
}
