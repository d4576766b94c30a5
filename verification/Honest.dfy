/** The honest prover: receipt and chronicle as the fixture generator builds them, and the
    proof that the offline verifier judges them "verified". */
module Honest {
  import opened Json
  import opened CanonicalText
  import opened Hashing
  import opened Sorting
  import opened Rng
  import opened ChronicleChain
  import opened SignedLines
  import opened Writer
  import opened WriterTheorems
  import opened VerifyOutcome
  import opened VerifyV2
  import opened Verifier
  import DropTheorems
  import LogLines
  import DropPolicy
  import LogTool

  /** One kill: who, where, with what, and the secret committed before it. */
  datatype Kill = Kill(
    killer: string, target: string, mapName: string, position: Json, reputation: string,
    inventory: seq<Item>, secret: string)

  /** Parts of the receipt the verifier does not interpret. */
  datatype Envelope = Envelope(
    sequence: string, timestamp: string, prevHash: string, commitSeq: string, commitHash: string)

  // ----- the drop -----

  function Did(target: string): string {
    if |DID_PREFIX| <= |target| && target[..|DID_PREFIX|] == DID_PREFIX then target else DID_PREFIX + target
  }

  /** `combatResolvedBase`. */
  function CombatBase(k: Kill): Json {
    Obj(map["actor_id" := Str(k.killer), "action" := Str("combat_resolved"),
            "inputs" := Obj(map["target_player_id" := Str(k.target), "map" := Str(k.mapName),
                                "position" := k.position, "outcome" := Str("kill")]),
            "result" := Str("ok")])
  }

  function SeedHash(h: HashFunction, k: Kill): string {
    Prefixed(h, Print(true, CombatBase(k)))
  }

  function Commit(h: HashFunction, k: Kill): string {
    RngCommitV1(h, V1_COMMIT_DOMAIN, Did(k.target), k.secret)
  }

  function KillSeed(h: HashFunction, k: Kill): string {
    RngDeriveSeedV2(h, k.secret, k.mapName, V1_COMMIT_DOMAIN, SeedHash(h, k))
  }

  /** The prover's own selection, with the heat table of the process it runs in. */
  function ProverDrops(w: World, proverHeat: DropPolicy.HeatMap, k: Kill): Option<DropPolicy.Drops> {
    DropPolicy.DeathDrops(w.a, w.draw, k.inventory, k.mapName, w.a.value(k.reputation), KillSeed(w.h, k),
                          HeatLookup(w.a, k.inventory), proverHeat)
  }

  /** The draws the selection consumed. */
  function ProverDraws(w: World, proverHeat: DropPolicy.HeatMap, k: Kill): seq<u32> {
    DropPolicy.DeathDraws(w.a, w.draw, k.inventory, k.mapName, w.a.value(k.reputation), KillSeed(w.h, k),
                          HeatLookup(w.a, k.inventory), proverHeat)
  }

  /** One element of the proof's item list: only a legendary item keeps its meta. */
  function ProofItem(item: Item): Json {
    var core := map["item_id" := Str(item.id), "item_type" := Str(item.itemType)];
    Obj(if DropPolicy.IsLegendary(item) then core["meta" := Obj(ProofMeta(item.meta.value))] else core)
  }

  function ProofMeta(meta: Fields): Fields {
    map["legendary" := Bool(true),
        "legendary_tier" := Num(DropPolicy.NumberIn(meta, "legendary_tier").GetOr("1")),
        "heat" := Num(DropPolicy.NumberIn(meta, "heat").GetOr("0"))]
  }

  function ProofItems(items: seq<Item>): seq<Json> {
    seq(|items|, i requires 0 <= i < |items| => ProofItem(items[i]))
  }

  function DrawList(draws: seq<u32>): Json {
    Arr(seq(|draws|, i requires 0 <= i < |draws| => Num(NatText(draws[i]))))
  }

  function IdList(ids: seq<string>): Json {
    Arr(seq(|ids|, i requires 0 <= i < |ids| => Str(ids[i])))
  }

  // ----- the receipt -----

  function ProofInputs(k: Kill): Fields {
    map["items" := Arr(ProofItems(k.inventory)), "reputation" := Num(k.reputation),
        "map" := Str(k.mapName), "protected_item_id" := Null]
  }

  /** `buildProof`. */
  function BuildProof(w: World, proverHeat: DropPolicy.HeatMap, k: Kill, env: Envelope): Fields {
    map["version" := Num("2"), "scheme" := Str("precommit_reveal_v2"), "outcome_type" := Str("loot_drop"),
        "precommit_ref" := Obj(map["chronicle_seq" := Num(env.commitSeq), "chronicle_hash" := Str(env.commitHash),
                                   "commit" := Str(Commit(w.h, k))]),
        "event_preimage_hash" := Str(SeedHash(w.h, k)), "event_domain" := Str(V1_COMMIT_DOMAIN),
        "world_id" := Str(k.mapName), "rng_out" := DrawList(ProverDraws(w, proverHeat, k)),
        "derivation" := Obj(map["algorithm" := Str("rngDeriveSeedV2->rngDrawU32Legacy/selectItemsToDrop@v2"),
                                "inputs" := Obj(ProofInputs(k))])]
  }

  function ReceiptInputs(w: World, k: Kill, dropped: seq<string>, proof: Fields): Fields {
    map["target_player_id" := Str(k.target), "map" := Str(k.mapName), "position" := k.position,
      "outcome" := Str("kill"),
        "dropped_item_ids" := IdList(dropped), "drop_seed_hash" := Str(SeedHash(w.h, k)),
        "protected_item_id" := Null, "rng_proof" := Obj(proof)]
  }

  function ReceiptBody(w: World, k: Kill, env: Envelope, inputs: Fields): Fields {
    map["sequence" := Num(env.sequence), "timestamp" := Str(env.timestamp), "prev_hash" := Str(env.prevHash),
        "actor_id" := Str(k.killer), "action" := Str("combat_resolved"), "inputs" := Obj(inputs), "result" := Str("ok"),
        "inputs_hash" := Str(Prefixed(w.h, Print(true, Obj(inputs)))),
        "outputs_hash" := Str(Prefixed(w.h, Print(true, Str("ok"))))]
  }

  /** `buildReceipt`, signed. */
  function BuildReceipt(
    w: World, sign: string -> string, k: Kill, env: Envelope, dropped: seq<string>, proof: Fields): Fields
  {
    var body := ReceiptBody(w, k, env, ReceiptInputs(w, k, dropped, proof));
    var eventHash := Prefixed(w.h, Print(true, Obj(body)));
    body["event_hash" := Str(eventHash)]["signature" := Str(sign(Message(env.prevHash, eventHash)))]
  }

  // ----- the chronicle events -----

  predicate IsCommitEvent(h: HashFunction, k: Kill, s: EventSpec) {
    && s.eventType == "rng_commit" && s.actor == Did(k.target)
    && s.payload == map["rng_domain" := Str(V1_COMMIT_DOMAIN), "rng_commit" := Str(Commit(h, k))]
  }

  predicate IsRevealEvent(h: HashFunction, k: Kill, s: EventSpec) {
    && s.eventType == "rng_reveal" && s.actor == Did(k.target)
    && s.payload == map["rng_domain" := Str(V1_COMMIT_DOMAIN), "rng_commit" := Str(Commit(h, k)),
      "rng_reveal" := Str(k.secret)]
  }

  /** The death event; what else its payload records does not matter. */
  predicate IsDeathEvent(h: HashFunction, k: Kill, s: EventSpec) {
    && s.eventType == "death" && s.actor == Did(k.target)
    && Get(s.payload, "drop_seed_hash") == Some(Str(SeedHash(h, k)))
  }

  /** The event would be found by the verifier's search for this victim. */
  predicate Competes(s: EventSpec, eventType: string, victim: string) {
    && s.eventType == eventType && s.actor == victim
    && Get(s.payload, "rng_domain") == Some(Str(V1_COMMIT_DOMAIN)) && NonEmpty(Get(s.payload, eventType))
  }

  /** Commit, death and reveal in this order among any other events, none of which competes with them. */
  ghost predicate History(h: HashFunction, k: Kill, specs: seq<EventSpec>, c: nat, d: nat, r: nat) {
    && c < d < r < |specs|
    && IsCommitEvent(h, k, specs[c]) && IsDeathEvent(h, k, specs[d]) && IsRevealEvent(h, k, specs[r])
    && (forall i | 0 <= i < c :: !Competes(specs[i], "rng_commit", Did(k.target)))
    && (forall i | 0 <= i < r :: !Competes(specs[i], "rng_reveal", Did(k.target)))
    && (forall i | 0 <= i < |specs| && i != d :: !IsDeathEvent(h, k, specs[i]))
  }

  function CommitEvent(h: HashFunction, k: Kill): EventSpec {
    EventSpec("rng_commit", Did(k.target), "101",
      map["rng_domain" := Str(V1_COMMIT_DOMAIN), "rng_commit" := Str(Commit(h, k))])
  }

  function DeathEvent(h: HashFunction, k: Kill): EventSpec {
    EventSpec("death", Did(k.target), "102", map["drop_seed_hash" := Str(SeedHash(h, k))])
  }

  function PublishEvent(h: HashFunction, k: Kill): EventSpec {
    EventSpec("rng_reveal", Did(k.target), "103",
      map["rng_domain" := Str(V1_COMMIT_DOMAIN), "rng_commit" := Str(Commit(h, k)), "rng_reveal" := Str(k.secret)])
  }

  /** Every kill has a history: commit, death, reveal and nothing else. */
  lemma PlainHistory(h: HashFunction, k: Kill)
    ensures History(h, k, [CommitEvent(h, k), DeathEvent(h, k), PublishEvent(h, k)], 0, 1, 2)
  {
    hide Commit, SeedHash, Did;
    var specs := [CommitEvent(h, k), DeathEvent(h, k), PublishEvent(h, k)];
    assert specs[0].eventType == "rng_commit" && specs[1].eventType == "death" && specs[2].eventType == "rng_reveal";
  }

  /** What the proof can carry of the inventory is all the selection used.  Item ids may repeat. */
  ghost predicate Provable(w: World, proverHeat: DropPolicy.HeatMap, k: Kill) {
    && k.secret != "" && k.target != "" && k.mapName != "" && DropPolicy.Found(k.mapName)
    && (forall x | x in k.inventory :: !DropPolicy.Protected(x))
    && LookupsAgree(w.a, proverHeat, k.inventory)
    && w.a.value("1") == 1.0
  }

  /** Under the id of every legendary item, the prover looks up the heat that the proof's items give. */
  ghost predicate LookupsAgree(a: DropPolicy.Arithmetic, proverHeat: DropPolicy.HeatMap, items: seq<Item>) {
    forall x | x in items && DropPolicy.IsLegendary(x) ::
      DropPolicy.HeatOf(x.id, HeatLookup(a, items), proverHeat)
        == DropPolicy.HeatOf(x.id, HeatLookup(a, ReadBackAll(items)), map[])
  }

  /** The item's heat is a number in its meta, or the prover knows none and uses 0. */
  predicate HeatRecorded(a: DropPolicy.Arithmetic, proverHeat: DropPolicy.HeatMap, x: Item) {
    HeatIn(x).Some? || (DropPolicy.HeatOf(x.id, map[], proverHeat) == 0.0 && a.value("0") == 0.0)
  }

  // ----- the drop derives -----

  lemma {:induction false} HeatLookupAt(a: DropPolicy.Arithmetic, items: seq<Item>, i: nat)
    requires i < |items| && Distinct(DropPolicy.Ids(items))
    ensures items[i].id in HeatLookup(a, items) <==> HeatIn(items[i]).Some?
    ensures HeatIn(items[i]).Some? ==> HeatLookup(a, items)[items[i].id] == a.value(HeatIn(items[i]).value)
  {
    hide HeatIn;
    var n := |items| - 1;
    var front := items[..n];
    assert DropPolicy.Ids(front) == DropPolicy.Ids(items)[..n];
    if i < n {
      HeatLookupAt(a, front, i);
      assert DropPolicy.Ids(items)[i] != DropPolicy.Ids(items)[n];
    } else {
      forall j | 0 <= j < n ensures front[j].id != items[n].id {
        assert DropPolicy.Ids(items)[j] != DropPolicy.Ids(items)[n];
      }
      NotListedNoHeat(a, front, items[n].id);
    }
  }

  lemma {:induction false} NotListedNoHeat(a: DropPolicy.Arithmetic, items: seq<Item>, id: string)
    requires forall i | 0 <= i < |items| :: items[i].id != id
    ensures id !in HeatLookup(a, items)
  {
    if items != [] { NotListedNoHeat(a, items[..|items| - 1], id); }
  }

  /** The item the verifier reads back from the proof. */
  function ReadBack(item: Item): Item {
    DropPolicy.Item(item.id, item.itemType,
      if DropPolicy.IsLegendary(item) then Some(ProofMeta(item.meta.value)) else None, None)
  }

  function ReadBackAll(items: seq<Item>): seq<Item> {
    seq(|items|, i requires 0 <= i < |items| => ReadBack(items[i]))
  }

  lemma ProofItemReadsBack(item: Item)
    ensures AsItem(ProofItem(item)) == Some(ReadBack(item))
  {
  }

  lemma ProofItemsReadBack(items: seq<Item>)
    ensures AreItems(Some(Arr(ProofItems(items)))) && ItemsOf(Arr(ProofItems(items))) == ReadBackAll(items)
  {
    hide AsItem, ProofItem, ReadBack;
    forall i | 0 <= i < |items|
      ensures AsItem(ProofItems(items)[i]) == Some(ReadBack(items[i]))
    {
      ProofItemReadsBack(items[i]);
    }
  }

  lemma ReadBackFacts(item: Item)
    ensures DropPolicy.IsLegendary(ReadBack(item)) == DropPolicy.IsLegendary(item)
    ensures !DropPolicy.Protected(ReadBack(item))
    ensures HeatIn(ReadBack(item)) == if DropPolicy.IsLegendary(item) then Some(HeatIn(item).GetOr("0")) else None
    ensures DropPolicy.IsLegendary(item) ==>
      DropPolicy.NumberIn(ReadBack(item).meta.value, "legendary_tier") ==
        Some(DropPolicy.NumberIn(item.meta.value, "legendary_tier").GetOr("1"))
  {
  }

  /** Every legendary item is in the lookup the verifier builds. */
  lemma {:induction false} LegendaryIsListed(a: DropPolicy.Arithmetic, items: seq<Item>, x: Item)
    requires x in items && DropPolicy.IsLegendary(x)
    ensures x.id in HeatLookup(a, ReadBackAll(items))
  {
    hide HeatIn, DropPolicy.IsLegendary, ReadBack;
    var n := |items| - 1;
    assert ReadBackAll(items)[..n] == ReadBackAll(items[..n]) && ReadBackAll(items)[n] == ReadBack(items[n]);
    ReadBackFacts(items[n]);
    assert ReadBack(items[n]).id == items[n].id by { ReadBackId(items[n]); }
    if items[n] != x {
      assert items == items[..n] + [items[n]];
      LegendaryIsListed(a, items[..n], x);
    }
  }

  lemma ReadBackId(item: Item)
    ensures ReadBack(item).id == item.id && ReadBack(item).itemType == item.itemType
  {
  }

  // ----- when the lookups agree -----

  /** With distinct ids and recorded heats they do. */
  lemma DistinctIdsAgree(a: DropPolicy.Arithmetic, proverHeat: DropPolicy.HeatMap, items: seq<Item>)
    requires Distinct(DropPolicy.Ids(items))
    requires forall x | x in items && DropPolicy.IsLegendary(x) :: HeatRecorded(a, proverHeat, x)
    ensures LookupsAgree(a, proverHeat, items)
  {
    hide HeatIn, DropPolicy.IsLegendary, ReadBack, HeatLookup;
    var back := ReadBackAll(items);
    forall i | 0 <= i < |items| ensures back[i].id == items[i].id { ReadBackId(items[i]); }
    assert DropPolicy.Ids(back) == DropPolicy.Ids(items);
    forall x | x in items && DropPolicy.IsLegendary(x)
      ensures DropPolicy.HeatOf(x.id, HeatLookup(a, items), proverHeat)
        == DropPolicy.HeatOf(x.id, HeatLookup(a, back), map[])
    {
      var i :| 0 <= i < |items| && items[i] == x;
      HeatLookupAt(a, items, i);
      HeatLookupAt(a, back, i);
      ReadBackFacts(items[i]);
    }
  }

  /** The heats under an id are those of legendary items, and every such item has one. */
  predicate HeatsAreLegendary(items: seq<Item>, id: string) {
    forall x | x in items && x.id == id :: DropPolicy.IsLegendary(x) == HeatIn(x).Some?
  }

  lemma {:induction false} SameLookupUnder(a: DropPolicy.Arithmetic, items: seq<Item>, id: string)
    requires HeatsAreLegendary(items, id)
    ensures id in HeatLookup(a, items) <==> id in HeatLookup(a, ReadBackAll(items))
    ensures id in HeatLookup(a, items) ==> HeatLookup(a, items)[id] == HeatLookup(a, ReadBackAll(items))[id]
  {
    hide HeatIn, DropPolicy.IsLegendary, ReadBack;
    if items != [] {
      var n := |items| - 1;
      assert ReadBackAll(items)[..n] == ReadBackAll(items[..n]) && ReadBackAll(items)[n] == ReadBack(items[n]);
      ReadBackFacts(items[n]);
      ReadBackId(items[n]);
      assert items[n] in items;
      SameLookupUnder(a, items[..n], id);
    }
  }

  /** With repeated ids they do when every legendary item has a numeric heat and no
      other item with a heat shares its id. */
  lemma NumericHeatsAgree(a: DropPolicy.Arithmetic, proverHeat: DropPolicy.HeatMap, items: seq<Item>)
    requires forall x | x in items && DropPolicy.IsLegendary(x) :: HeatsAreLegendary(items, x.id)
    ensures LookupsAgree(a, proverHeat, items)
  {
    hide HeatIn, DropPolicy.IsLegendary, ReadBack, HeatLookup, HeatsAreLegendary;
    forall x | x in items && DropPolicy.IsLegendary(x)
      ensures DropPolicy.HeatOf(x.id, HeatLookup(a, items), proverHeat)
           == DropPolicy.HeatOf(x.id, HeatLookup(a, ReadBackAll(items)), map[])
    {
      SameLookupUnder(a, items, x.id);
      LegendaryIsListed(a, items, x);
    }
  }

  /** A legendary item and a heated torch under one id. */
  function SharedId(): seq<Item> {
    [DropPolicy.Item("a", "unknown", Some(map["legendary" := Bool(true), "heat" := Num("5")]), None),
     DropPolicy.Item("a", "torch", Some(map["heat" := Num("9")]), None)]
  }

  /** There the prover looks up the torch's heat and the verifier the legendary item's. */
  lemma SharedIdPartsTheLookups(a: DropPolicy.Arithmetic, proverHeat: DropPolicy.HeatMap)
    ensures DropPolicy.HeatOf("a", HeatLookup(a, SharedId()), proverHeat) == a.value("9")
    ensures DropPolicy.HeatOf("a", HeatLookup(a, ReadBackAll(SharedId())), map[]) == a.value("5")
    ensures LookupsAgree(a, proverHeat, SharedId()) <==> a.value("9") == a.value("5")
  {
    var items := SharedId();
    var back := ReadBackAll(items);
    assert items[..1] == [items[0]] && items[..1][..0] == [] && back[..1] == [back[0]] && back[..1][..0] == [];
    assert HeatLookup(a, items[..1]) == map["a" := a.value("5")];
    assert HeatLookup(a, back[..1]) == map["a" := a.value("5")];
    assert HeatLookup(a, back) == HeatLookup(a, back[..1]);
    assert items[0] in items && DropPolicy.IsLegendary(items[0]);
  }

  // ----- the weights and the drops -----

  lemma LegendaryWeights(w: World, proverHeat: DropPolicy.HeatMap, items: seq<Item>, i: nat)
    requires i < |items| && DropPolicy.IsLegendary(items[i]) && w.a.value("1") == 1.0
    ensures var x, back := items[i], ReadBackAll(items);
      var base, tier := DropPolicy.BaseWeight(x.itemType), DropPolicy.Tier(w.a, x);
      && DropPolicy.ItemWeight(w.a, x, HeatLookup(w.a, items), proverHeat)
         == base * DropPolicy.LegendaryMultiplier(w.a, tier,
           DropPolicy.HeatOf(x.id, HeatLookup(w.a, items), proverHeat))
      && DropPolicy.ItemWeight(w.a, back[i], HeatLookup(w.a, back), w.ambient)
         == base * DropPolicy.LegendaryMultiplier(w.a, tier, DropPolicy.HeatOf(x.id, HeatLookup(w.a, back), map[]))
  {
    hide HeatIn, DropPolicy.IsLegendary, DropPolicy.LegendaryMultiplier, HeatLookup, DropPolicy.NumberIn,
         ReadBack, DropPolicy.BaseWeight;
    assert items[i] in items;
    ReadBackFacts(items[i]);
    ReadBackId(items[i]);
    LegendaryIsListed(w.a, items, items[i]);
    SameTier(w.a, items[i]);
  }

  lemma SameTier(a: DropPolicy.Arithmetic, x: Item)
    requires DropPolicy.IsLegendary(x) && a.value("1") == 1.0
    ensures x.meta.Some? && ReadBack(x).meta.Some? && DropPolicy.Tier(a, ReadBack(x)) == DropPolicy.Tier(a, x)
  {
  }

  /** The verifier weighs the item it reads back exactly as the prover weighed the original. */
  lemma SameWeight(w: World, proverHeat: DropPolicy.HeatMap, k: Kill, i: nat)
    requires LookupsAgree(w.a, proverHeat, k.inventory) && w.a.value("1") == 1.0 && i < |k.inventory|
    ensures DropPolicy.ItemWeight(w.a, k.inventory[i], HeatLookup(w.a, k.inventory), proverHeat)
         == DropPolicy.ItemWeight(w.a, ReadBackAll(k.inventory)[i], HeatLookup(w.a, ReadBackAll(k.inventory)),
           w.ambient)
  {
    hide HeatIn, DropPolicy.IsLegendary, DropPolicy.LegendaryMultiplier, HeatLookup, ReadBack,
         DropPolicy.BaseWeight, DropPolicy.HeatOf;
    var x := k.inventory[i];
    assert x in k.inventory;
    if DropPolicy.IsLegendary(x) {
      LegendaryWeights(w, proverHeat, k.inventory, i);
    } else {
      ReadBackFacts(x);
      ReadBackId(x);
    }
  }

  /** Agreement of the lookups is exact: when no two heats have the same exponential,
      all weights agree if and only if the lookups do. */
  lemma SameWeightsIffLookupsAgree(w: World, proverHeat: DropPolicy.HeatMap, k: Kill)
    requires w.a.value("1") == 1.0 && forall x, y :: w.a.exp(x) == w.a.exp(y) ==> x == y
    ensures LookupsAgree(w.a, proverHeat, k.inventory) <==>
      forall i | 0 <= i < |k.inventory| ::
        DropPolicy.ItemWeight(w.a, k.inventory[i], HeatLookup(w.a, k.inventory), proverHeat)
        == DropPolicy.ItemWeight(w.a, ReadBackAll(k.inventory)[i], HeatLookup(w.a, ReadBackAll(k.inventory)), w.ambient)
  {
    hide HeatIn, DropPolicy.IsLegendary, DropPolicy.LegendaryMultiplier, HeatLookup, ReadBack,
         DropPolicy.BaseWeight, DropPolicy.HeatOf, DropPolicy.ItemWeight;
    var items := k.inventory;
    if LookupsAgree(w.a, proverHeat, items) {
      forall i | 0 <= i < |items|
        ensures DropPolicy.ItemWeight(w.a, items[i], HeatLookup(w.a, items), proverHeat)
             == DropPolicy.ItemWeight(w.a, ReadBackAll(items)[i], HeatLookup(w.a, ReadBackAll(items)), w.ambient)
      {
        SameWeight(w, proverHeat, k, i);
      }
    } else {
      var x :| x in items && DropPolicy.IsLegendary(x)
        && DropPolicy.HeatOf(x.id, HeatLookup(w.a, items), proverHeat)
           != DropPolicy.HeatOf(x.id, HeatLookup(w.a, ReadBackAll(items)), map[]);
      var i :| 0 <= i < |items| && items[i] == x;
      LegendaryWeights(w, proverHeat, items, i);
      SameTier(w.a, x);
      BasePositive(x.itemType);
      HeatsShowInWeights(w.a, DropPolicy.BaseWeight(x.itemType), DropPolicy.Tier(w.a, x),
                         DropPolicy.HeatOf(x.id, HeatLookup(w.a, items), proverHeat),
                         DropPolicy.HeatOf(x.id, HeatLookup(w.a, ReadBackAll(items)), map[]));
    }
  }

  lemma BasePositive(itemType: string)
    ensures DropPolicy.BaseWeight(itemType) > 0.0
  {
  }

  lemma HeatsShowInWeights(a: DropPolicy.Arithmetic, base: real, tier: real, heat: real, other: real)
    requires base > 0.0 && heat != other && forall x, y :: a.exp(x) == a.exp(y) ==> x == y
    ensures base * DropPolicy.LegendaryMultiplier(a, tier, heat)
      != base * DropPolicy.LegendaryMultiplier(a, tier, other)
  {
    assert -heat / 6.0 != -other / 6.0;
    var x, y := DropPolicy.LegendaryMultiplier(a, tier, heat), DropPolicy.LegendaryMultiplier(a, tier, other);
    assert x != y;
    assert base * x - base * y == base * (x - y);
  }

  lemma SameDrops(w: World, proverHeat: DropPolicy.HeatMap, k: Kill)
    requires Provable(w, proverHeat, k)
    ensures DropPolicy.DeathDrops(w.a, w.draw, ReadBackAll(k.inventory), k.mapName, w.a.value(k.reputation),
      KillSeed(w.h, k),
                                  HeatLookup(w.a, ReadBackAll(k.inventory)), w.ambient)
         == ProverDrops(w, proverHeat, k)
  {
    hide DropPolicy.DeathDrops, DropPolicy.ItemWeight, HeatLookup, DropPolicy.Protected,
         DropPolicy.IsLegendary, LookupsAgree, ReadBack;
    var items, back := k.inventory, ReadBackAll(k.inventory);
    var la, lb := HeatLookup(w.a, items), HeatLookup(w.a, back);
    forall i | 0 <= i < |items|
      ensures DropPolicy.ItemWeight(w.a, items[i], la, proverHeat) == DropPolicy.ItemWeight(w.a, back[i], lb, w.ambient)
      ensures items[i].id == back[i].id && DropPolicy.Protected(items[i]) == DropPolicy.Protected(back[i])
    {
      SameWeight(w, proverHeat, k, i);
      ReadBackFacts(items[i]);
      ReadBackId(items[i]);
      assert items[i] in items;
    }
    DropTheorems.AlikeDrops(w.a, w.draw, items, back, k.mapName, w.a.value(k.reputation), KillSeed(w.h, k), la,
      proverHeat, lb, w.ambient);
  }

  lemma ProverDropsExist(w: World, proverHeat: DropPolicy.HeatMap, k: Kill)
    requires Provable(w, proverHeat, k)
    ensures ProverDrops(w, proverHeat, k).Some?
  {
    hide DropPolicy.DropCount, DropPolicy.Select, DropPolicy.ItemWeight;
  }

  /** The draws listed in the proof are the indexed draws of the derived seed. */
  lemma DrawListMatches(w: World, proverHeat: DropPolicy.HeatMap, k: Kill)
    ensures DrawsMatch(w.draw, KillSeed(w.h, k), DrawList(ProverDraws(w, proverHeat, k)).items)
  {
    hide DropPolicy.Candidates, DropPolicy.Exposed, DropPolicy.Keys, DropPolicy.TopIds, DropPolicy.DropCount,
         DropPolicy.ItemWeight, NatText, KillSeed;
  }

  // ----- reading the receipt -----

  lemma ReadInputs(w: World, k: Kill, dropped: seq<string>, proof: Fields)
    ensures var f := ReceiptInputs(w, k, dropped, proof);
      && ShapeOk(Some(Obj(f))) && Get(f, "rng_proof") == Some(Obj(proof))
      && Get(f, "target_player_id") == Some(Str(k.target)) && Get(f, "map") == Some(Str(k.mapName))
      && Get(f, "position") == Some(k.position) && Get(f, "outcome") == Some(Str("kill"))
      && Get(f, "drop_seed_hash") == Some(Str(SeedHash(w.h, k)))
      && Get(f, "dropped_item_ids") == Some(IdList(dropped))
  {
  }

  lemma ReadReceipt(w: World, sign: string -> string, k: Kill, env: Envelope, dropped: seq<string>, proof: Fields)
    ensures var f := BuildReceipt(w, sign, k, env, dropped, proof);
      && Get(f, "action") == Some(Str("combat_resolved")) && Get(f, "actor_id") == Some(Str(k.killer))
      && Get(f, "inputs") == Some(Obj(ReceiptInputs(w, k, dropped, proof)))
      && Get(f, "prev_hash") == Some(Str(env.prevHash))
      && (exists eventHash :: eventHash != "" && Get(f, "event_hash") == Some(Str(eventHash))
            && Get(f, "signature") == Some(Str(sign(Message(env.prevHash, eventHash)))))
  {
    hide ReceiptInputs, Print;
    var body := ReceiptBody(w, k, env, ReceiptInputs(w, k, dropped, proof));
    var eventHash := Prefixed(w.h, Print(true, Obj(body)));
    assert eventHash != "";
    assert Get(BuildReceipt(w, sign, k, env, dropped, proof), "event_hash") == Some(Str(eventHash));
  }

  lemma ReadProof(w: World, proverHeat: DropPolicy.HeatMap, k: Kill, env: Envelope)
    ensures var p := BuildProof(w, proverHeat, k, env);
      && Get(p, "version") == Some(Num("2")) && IsLootDrop(p) && RefCommit(p) == Some(Str(Commit(w.h, k)))
      && Preimage(p) == Some(Str(SeedHash(w.h, k))) && Get(p, "event_domain") == Some(Str(V1_COMMIT_DOMAIN))
      && Get(p, "world_id") == Some(Str(k.mapName))
      && Get(p, "rng_out") == Some(DrawList(ProverDraws(w, proverHeat, k)))
      && DerivationInputs(p) == Some(Obj(ProofInputs(k)))
  {
    hide ProverDraws, Commit, SeedHash, ProofInputs, DrawList;
  }

  lemma BaseObjectIs(k: Kill, receipt: Fields, inp: Fields)
    requires Get(receipt, "actor_id") == Some(Str(k.killer))
    requires Get(inp, "target_player_id") == Some(Str(k.target)) && Get(inp, "map") == Some(Str(k.mapName))
    requires Get(inp, "position") == Some(k.position) && Get(inp, "outcome") == Some(Str("kill"))
    ensures BaseObject(receipt, inp) == CombatBase(k)
  {
    var inputs := Put(Put(Put(Put(map[], "target_player_id", Get(inp, "target_player_id")),
      "map", Get(inp, "map")), "position", Get(inp, "position")), "outcome", Get(inp, "outcome"));
    assert inputs == map["target_player_id" := Str(k.target), "map" := Str(k.mapName), "position" := k.position,
      "outcome" := Str("kill")];
  }

  // ----- the slice -----

  lemma EntriesAreLog(c: Config, specs: seq<EventSpec>)
    ensures AllEntries(RunJson(c, specs)) && EntriesOf(RunJson(c, specs)) == Log(c, FRESH, specs)
  {
    hide EntryJson, AsEntry, IsEntry, Log;
    var log := Log(c, FRESH, specs);
    forall i | 0 <= i < |log|
      ensures IsEntry(RunJson(c, specs)[i]) && AsEntry(RunJson(c, specs)[i]) == log[i]
    {
      EntryRoundTrip(log[i]);
    }
  }

  lemma WrittenMatches(h: HashFunction, k: Kill, c: Config, spec: EventSpec, heads: Heads, eventType: string)
    requires eventType == "rng_commit" || eventType == "rng_reveal"
    ensures var e := Written(c, spec, heads);
      && (IsDeath(e, SeedHash(h, k), Did(k.target)) <==> IsDeathEvent(h, k, spec))
      && (IsRngEvent(e, eventType, Did(k.target)) <==> Competes(spec, eventType, Did(k.target)))
      && (Get(spec.payload, eventType).Some? && spec.payload[eventType].Str? ==>
        GetString(e.payload, eventType) == Some(spec.payload[eventType].s))
  {
    WrittenHeader(c, spec, heads);
    WrittenPayload(c, spec, heads);
    hide Written, SeedHash, Did;
  }

  /** The verifier finds in the written log exactly the three events of the history. */
  lemma HistoryShows(w: World, k: Kill, c: Config, specs: seq<EventSpec>, i: nat, d: nat, r: nat)
    requires w.h == c.h && History(w.h, k, specs, i, d, r) && k.secret != ""
    ensures AllEntries(RunJson(c, specs)) && ShowsOrder(w, RunJson(c, specs), SeedHash(w.h, k), Did(k.target), i, d, r)
    ensures CommitAt(EntriesOf(RunJson(c, specs))[i]) == Commit(w.h, k)
    ensures SecretAt(EntriesOf(RunJson(c, specs))[r]) == k.secret
  {
    hide Written, EntryJson, SeedHash, Did, IsDeath, IsRngEvent, RunJson, Log, LinkedSlice, Commit,
         UniqueDeath, FirstRngEvent, CommitAt, SecretAt;
    WriterIsGloballyLinked(c, specs);
    UnpinnedIsLinked(c.h, RunJson(c, specs));
    EntriesAreLog(c, specs);
    HistoryFound(w.h, k, c, specs, i, d, r);
    HistoryValues(w.h, k, c, specs, i, d, r);
    assert |EntriesOf(RunJson(c, specs))| == |RunJson(c, specs)|;
    assert |Log(c, FRESH, specs)| == |specs| by { RunLength(c, FRESH, specs); }
  }

  lemma HistoryFound(h: HashFunction, k: Kill, c: Config, specs: seq<EventSpec>, i: nat, d: nat, r: nat)
    requires h == c.h && History(h, k, specs, i, d, r) && k.secret != ""
    ensures var entries := Log(c, FRESH, specs);
      && UniqueDeath(entries, SeedHash(h, k), Did(k.target), d)
      && FirstRngEvent(entries, "rng_commit", Did(k.target), i)
      && FirstRngEvent(entries, "rng_reveal", Did(k.target), r)
  {
    hide Written, SeedHash, Did, IsDeath, IsRngEvent, Log, Commit, IsDeathEvent;
    var entries := Log(c, FRESH, specs);
    assert |entries| == |specs| by { RunLength(c, FRESH, specs); }
    var victim := Did(k.target);
    forall p | 0 <= p < |specs|
      ensures IsDeath(entries[p], SeedHash(h, k), victim) <==> IsDeathEvent(h, k, specs[p])
      ensures IsRngEvent(entries[p], "rng_commit", victim) <==> Competes(specs[p], "rng_commit", victim)
      ensures IsRngEvent(entries[p], "rng_reveal", victim) <==> Competes(specs[p], "rng_reveal", victim)
    {
      RunAt(c, FRESH, specs, p);
      WrittenMatches(h, k, c, specs[p], FinalHeads(c, FRESH, specs[..p]), "rng_commit");
      WrittenMatches(h, k, c, specs[p], FinalHeads(c, FRESH, specs[..p]), "rng_reveal");
    }
    EventsCompete(h, k, specs[i], specs[r]);
    hide Competes;
  }

  lemma EventsCompete(h: HashFunction, k: Kill, commit: EventSpec, published: EventSpec)
    requires IsCommitEvent(h, k, commit) && IsRevealEvent(h, k, published) && k.secret != ""
    ensures Competes(commit, "rng_commit", Did(k.target)) && Competes(published, "rng_reveal", Did(k.target))
    ensures Get(commit.payload, "rng_commit") == Some(Str(Commit(h, k)))
    ensures Get(published.payload, "rng_reveal") == Some(Str(k.secret))
  {
    CommitIsNotEmpty(h, k);
    hide Commit, Did;
  }

  lemma HistoryValues(h: HashFunction, k: Kill, c: Config, specs: seq<EventSpec>, i: nat, d: nat, r: nat)
    requires h == c.h && History(h, k, specs, i, d, r) && k.secret != ""
    ensures |Log(c, FRESH, specs)| == |specs|
    ensures CommitAt(Log(c, FRESH, specs)[i]) == Commit(h, k) && SecretAt(Log(c, FRESH, specs)[r]) == k.secret
  {
    hide Written, SeedHash, Did, IsDeath, IsRngEvent, Log, Commit;
    RunAt(c, FRESH, specs, i);
    RunAt(c, FRESH, specs, r);
    EventsCompete(h, k, specs[i], specs[r]);
    WrittenMatches(h, k, c, specs[i], FinalHeads(c, FRESH, specs[..i]), "rng_commit");
    WrittenMatches(h, k, c, specs[r], FinalHeads(c, FRESH, specs[..r]), "rng_reveal");
  }

  lemma UnpinnedIsLinked(h: HashFunction, slice: seq<Json>)
    requires LinkedSlice(h, slice, Some(GENESIS))
    ensures LinkedSlice(h, slice, None)
  {
    hide GlobalLink;
  }

  lemma CommitIsNotEmpty(h: HashFunction, k: Kill)
    ensures Commit(h, k) != ""
  {
    hide Print;
  }

  // ----- completeness -----

  /** What the honest prover hands out for a kill. */
  function HonestReceipt(w: World, proverHeat: DropPolicy.HeatMap, c: Config, k: Kill, env: Envelope): Json
    requires ProverDrops(w, proverHeat, k).Some?
  {
    Obj(BuildReceipt(w, c.sign, k, env, ProverDrops(w, proverHeat, k).value.dropped, BuildProof(w, proverHeat, k, env)))
  }

  lemma DidOf(inp: Fields, target: string)
    requires Get(inp, "target_player_id") == Some(Str(target)) && target != ""
    ensures VictimDid(inp) == Some(Did(target))
  {
  }

  lemma SeedDerives(w: World, proverHeat: DropPolicy.HeatMap, k: Kill, env: Envelope)
    requires k.mapName != ""
    ensures DerivedSeed(w, BuildProof(w, proverHeat, k, env), k.secret) == Some(KillSeed(w.h, k))
  {
    ReadProof(w, proverHeat, k, env);
    SeedHashIsNotEmpty(w.h, k);
    hide BuildProof, SeedHash, RngDeriveSeedV2;
  }

  lemma SeedHashIsNotEmpty(h: HashFunction, k: Kill)
    ensures SeedHash(h, k) != ""
  {
    hide Print;
  }

  lemma ReadProofInputs(k: Kill)
    ensures var f := ProofInputs(k);
      && Get(f, "items") == Some(Arr(ProofItems(k.inventory))) && Get(f, "reputation") == Some(Num(k.reputation))
      && Get(f, "map") == Some(Str(k.mapName))
  {
  }

  lemma DropsDerive(w: World, proverHeat: DropPolicy.HeatMap, k: Kill, env: Envelope, inp: Fields)
    requires Provable(w, proverHeat, k) && ProverDrops(w, proverHeat, k).Some?
    requires Get(inp, "dropped_item_ids") == Some(IdList(ProverDrops(w, proverHeat, k).value.dropped))
    ensures DerivationOf(w, inp, BuildProof(w, proverHeat, k, env), k.secret) == Derives
  {
    hide BuildProof, ProverDrops, ProofInputs, ReadBackAll, ProofItems, AreItems, ItemsOf,
         DropPolicy.DeathDrops, HeatLookup, KillSeed, DerivedSeed;
    ReadProof(w, proverHeat, k, env);
    ReadProofInputs(k);
    ProofItemsReadBack(k.inventory);
    SameDrops(w, proverHeat, k);
    SeedDerives(w, proverHeat, k, env);
    var dropped := ProverDrops(w, proverHeat, k).value.dropped;
    assert Recomputed(w, ReadBackAll(k.inventory), k.mapName, k.reputation, KillSeed(w.h, k)) == Some(dropped);
    assert SameIds(dropped, IdList(dropped).items);
  }

  lemma HonestBinding(w: World, proverHeat: DropPolicy.HeatMap, k: Kill, env: Envelope, inp: Fields)
    requires Get(inp, "target_player_id") == Some(Str(k.target)) && k.target != ""
    ensures BindingOk(w, inp, BuildProof(w, proverHeat, k, env), Material(Some(Commit(w.h, k)), k.secret))
  {
    ReadProof(w, proverHeat, k, env);
    DidOf(inp, k.target);
    hide BuildProof, VictimDid, RefCommit, Did, RngCommitV1;
  }

  lemma HonestDraws(w: World, proverHeat: DropPolicy.HeatMap, k: Kill, env: Envelope)
    requires k.mapName != ""
    ensures DrawsOk(w, BuildProof(w, proverHeat, k, env), k.secret)
  {
    ReadProof(w, proverHeat, k, env);
    SeedDerives(w, proverHeat, k, env);
    DrawListMatches(w, proverHeat, k);
    hide BuildProof, DerivedSeed, KillSeed, ProverDraws, DrawsMatch;
  }

  lemma HonestSignature(w: World, c: Config, k: Kill, env: Envelope, dropped: seq<string>, proof: Fields, key: string)
    requires KeyMatches(w.ed, c, key) && env.prevHash != "" && (forall m :: c.sign(m) != "")
    ensures ReceiptSigned(w, BuildReceipt(w, c.sign, k, env, dropped, proof), key)
  {
    ReadReceipt(w, c.sign, k, env, dropped, proof);
    hide BuildReceipt;
  }

  /** Honest completeness.  Whatever the inventory, reputation, map and secret, and
      whatever else the chronicle records, the honestly written receipt and log
      are all the evidence "verified" asks for. */
  lemma HonestReceiptIsVerified(
    w: World, proverHeat: DropPolicy.HeatMap, c: Config, k: Kill, env: Envelope,
    specs: seq<EventSpec>, i: nat, d: nat, r: nat, ctx: Context)
    requires w.h == c.h && Provable(w, proverHeat, k) && History(w.h, k, specs, i, d, r)
    requires ctx.chronicle == RunJson(c, specs) && Given(ctx.signingKey) && KeyMatches(w.ed, c, ctx.signingKey.value)
    requires env.prevHash != "" && forall m :: c.sign(m) != ""
    ensures ProverDrops(w, proverHeat, k).Some?
    ensures Evidence(w, HonestReceipt(w, proverHeat, c, k, env), ctx)
  {
    hide RunJson, ProverDrops, ReceiptInputs, BuildProof, BuildReceipt, History, Did, SeedHash, BindingOk,
         DrawsOk, DerivationOf, ReceiptSigned, ShowsOrder, AllSigned, IsLootDrop, VictimDid, BaseObject,
         CommitAt, SecretAt, Commit, UsableKey;
    ProverDropsExist(w, proverHeat, k);
    var proof := BuildProof(w, proverHeat, k, env);
    var dropped := ProverDrops(w, proverHeat, k).value.dropped;
    var inp := ReceiptInputs(w, k, dropped, proof);
    var receipt := BuildReceipt(w, c.sign, k, env, dropped, proof);
    ReadProof(w, proverHeat, k, env);
    ReadInputs(w, k, dropped, proof);
    ReadReceipt(w, c.sign, k, env, dropped, proof);
    assert IsV2Drop(Obj(receipt)) && InputsOf(Obj(receipt)) == inp && ProofOf(Obj(receipt)) == proof;
    BaseObjectIs(k, receipt, inp);
    assert PreimageOk(w, receipt, inp, proof) by { BasePrinted(w.h, k, receipt, inp); }
    DidOf(inp, k.target);
    HistoryShows(w, k, c, specs, i, d, r);
    EntriesAreLog(c, specs);
    WriterIsSigned(w.ed, c, specs, ctx.signingKey.value);
    assert Authentic(w, ctx);
    HonestSignature(w, c, k, env, dropped, proof, ctx.signingKey.value);
    HonestBinding(w, proverHeat, k, env, inp);
    HonestDraws(w, proverHeat, k, env);
    DropsDerive(w, proverHeat, k, env, inp);
    SeedHashIsNotEmpty(w.h, k);
    assert OrderedBy(w, ctx, SeedHash(w.h, k), Did(k.target), i, d, r, Commit(w.h, k), k.secret);
    assert Anchors(w, inp, proof, ctx, i, d, r, Commit(w.h, k), k.secret);
  }

  /** The two verifiers part ways on the same history: the log that makes the
      receipt "verified" holds the published reveal, and with it the log tool
      rejects the lines of that log. */
  lemma HonestLogIsRejectedByTool(env: LogTool.Env, k: Kill, c: Config, specs: seq<EventSpec>, i: nat, d: nat, r: nat)
    requires env.h == c.h && History(c.h, k, specs, i, d, r)
    requires LogLines.Hex(c) && LogLines.ReadsBack(env.parse, LogLines.BareJson(c, specs))
    requires forall j | j in RunJson(c, specs) :: NoCollisionOnReveal(c.h, j)
    ensures !LogTool.Passes(env, LogLines.WriterLines(c, specs))
  {
    hide RunJson, LogTool.Passes, Commit, SpecOk, NoCollisionOnReveal, LogLines.WriterLines,
         LogLines.ReadsBack, LogLines.Hex;
    LogLines.ToolPassesExactly(env, c, specs);
    assert specs[r].eventType == "rng_reveal";
  }

  lemma BasePrinted(h: HashFunction, k: Kill, receipt: Fields, inp: Fields)
    requires BaseObject(receipt, inp) == CombatBase(k)
    ensures BaseHash(h, receipt, inp) == SeedHash(h, k) && SeedHash(h, k) != ""
  {
    hide Print, BaseObject, CombatBase;
  }
}
