/** "verified" in plain facts: what must stand in the fields of the receipt and of the
    slice, said without any function of the verifier. */
module VerifiedFacts {
  import opened Json
  import opened CanonicalText
  import opened Hashing
  import opened Rng
  import opened ChronicleChain
  import opened SignedLines
  import opened VerifyOutcome
  import opened VerifyV2
  import opened Verifier
  import opened LogFacts
  import DropPolicy

  /** What the facts speak of: the victim, the places of commit, death and reveal in the
      slice, the two recorded texts, and the parts of the seed. */
  datatype Story = Story(
    did: string, commitAt: nat, deathAt: nat, revealAt: nat, commit: string, secret: string,
    world: string, domain: string, preimage: string)
  {
    function Seed(h: HashFunction): string {
      Prefixed(h, "akalynth:rng:v2:derive\0" + secret + world + domain + preimage)
    }
  }

  // ----- the slice -----

  ghost predicate EventIs(entry: Json, eventType: string, actor: string) {
    entry.Obj? && Get(entry.fields, "event_type") == Some(Str(eventType))
      && Get(entry.fields, "actor") == Some(Str(actor))
  }

  /** A commit or reveal of the victim for drops, with a text under its own name. */
  ghost predicate Draws(entry: Json, eventType: string, did: string) {
    && EventIs(entry, eventType, did) && Get(PayloadOf(entry), "rng_domain") == Some(Str("death_drop:v1"))
    && exists text :: text != "" && Get(PayloadOf(entry), eventType) == Some(Str(text))
  }

  ghost predicate Dies(entry: Json, did: string, preimage: string) {
    EventIs(entry, "death", did) && Get(PayloadOf(entry), "drop_seed_hash") == Some(Str(preimage))
  }

  /** First commit, only death and first reveal stand in this order, with these texts. */
  ghost predicate InOrder(slice: seq<Json>, x: Story) {
    && x.commitAt < x.deathAt < x.revealAt < |slice|
    && (forall i | 0 <= i < |slice| :: Dies(slice[i], x.did, x.preimage) <==> i == x.deathAt)
    && Draws(slice[x.commitAt], "rng_commit", x.did)
    && (forall i | 0 <= i < x.commitAt :: !Draws(slice[i], "rng_commit", x.did))
    && Draws(slice[x.revealAt], "rng_reveal", x.did)
    && (forall i | 0 <= i < x.revealAt :: !Draws(slice[i], "rng_reveal", x.did))
    && Get(PayloadOf(slice[x.commitAt]), "rng_commit") == Some(Str(x.commit))
    && Get(PayloadOf(slice[x.revealAt]), "rng_reveal") == Some(Str(x.secret))
  }

  lemma EventFields(entry: Json, did: string, preimage: string)
    requires IsEntry(entry)
    ensures IsDeath(AsEntry(entry), preimage, did) <==> Dies(entry, did, preimage)
    ensures IsRngEvent(AsEntry(entry), "rng_commit", did) <==> Draws(entry, "rng_commit", did)
    ensures IsRngEvent(AsEntry(entry), "rng_reveal", did) <==> Draws(entry, "rng_reveal", did)
    ensures AsEntry(entry).payload == PayloadOf(entry)
  {
  }

  lemma OrderInFields(w: World, slice: seq<Json>, x: Story)
    requires slice != [] && LinkedSlice(w.h, slice, None) && AllEntries(slice)
    ensures InOrder(slice, x) <==>
      && ShowsOrder(w, slice, x.preimage, x.did, x.commitAt, x.deathAt, x.revealAt)
      && CommitAt(EntriesOf(slice)[x.commitAt]) == x.commit && SecretAt(EntriesOf(slice)[x.revealAt]) == x.secret
  {
    hide LinkedSlice, IsEntry, AsEntry, IsDeath, IsRngEvent, Dies, Draws;
    forall i | 0 <= i < |slice|
      ensures IsDeath(EntriesOf(slice)[i], x.preimage, x.did) <==> Dies(slice[i], x.did, x.preimage)
      ensures IsRngEvent(EntriesOf(slice)[i], "rng_commit", x.did) <==> Draws(slice[i], "rng_commit", x.did)
      ensures IsRngEvent(EntriesOf(slice)[i], "rng_reveal", x.did) <==> Draws(slice[i], "rng_reveal", x.did)
      ensures EntriesOf(slice)[i].payload == PayloadOf(slice[i])
    {
      EventFields(slice[i], x.did, x.preimage);
    }
    if x.commitAt < x.deathAt < x.revealAt < |slice| {
      TextsInFields(slice[x.commitAt], slice[x.revealAt], EntriesOf(slice)[x.commitAt], EntriesOf(slice)[x.revealAt],
        x);
    }
    hide AllEntries, CommitAt, SecretAt;
  }

  lemma TextsInFields(commit: Json, secret: Json, c: Entry, r: Entry, x: Story)
    requires c.payload == PayloadOf(commit) && r.payload == PayloadOf(secret)
    ensures Draws(commit, "rng_commit", x.did) ==>
      (CommitAt(c) == x.commit <==> Get(PayloadOf(commit), "rng_commit") == Some(Str(x.commit)))
    ensures Draws(secret, "rng_reveal", x.did) ==>
      (SecretAt(r) == x.secret <==> Get(PayloadOf(secret), "rng_reveal") == Some(Str(x.secret)))
  {
  }

  // ----- the lines -----

  predicate HasLineFields(entry: Json) {
    && entry.Obj? && HasText(entry.fields, "line_prev_hash") && HasText(entry.fields, "line_event_hash")
    && HasText(entry.fields, "signature") && HasText(entry.fields, "canonical_json")
  }

  function WholeLine(entry: Json): string
    requires HasLineFields(entry)
  {
    var f := entry.fields;
    f["line_prev_hash"].s + "|" + f["line_event_hash"].s + "|" + f["signature"].s + "|" + f["canonical_json"].s
  }

  /** The line of entry i hashes its JSON, names the line before it, and is signed. */
  predicate LineChecks(h: HashFunction, ed: Ed25519, slice: seq<Json>, i: nat, key: string)
    requires i < |slice|
  {
    && HasLineFields(slice[i])
    && var f := slice[i].fields;
    && f["line_event_hash"].s == h(f["canonical_json"].s)
    && (if i == 0 then f["line_prev_hash"].s == "genesis"
        else HasLineFields(slice[i - 1]) && f["line_prev_hash"].s == h(WholeLine(slice[i - 1])))
    && ed.isKey(key) && ed.verifies(f["line_prev_hash"].s + "|" + f["line_event_hash"].s, f["signature"].s, key)
  }

  lemma LineInFields(entry: Json)
    requires IsEntry(entry)
    ensures var e := AsEntry(entry);
      && (HasLine(e) <==> HasLineFields(entry))
      && (HasLine(e) ==>
            && e.line.prevHash.value == entry.fields["line_prev_hash"].s
            && e.line.eventHash.value == entry.fields["line_event_hash"].s
            && e.line.signature.value == entry.fields["signature"].s
            && e.line.canonicalJson.value == entry.fields["canonical_json"].s && LineText(e) == WholeLine(entry))
  {
  }

  lemma SignedInFields(h: HashFunction, ed: Ed25519, slice: seq<Json>, i: nat, key: string)
    requires AllEntries(slice) && i < |slice|
    ensures SignedAt(h, ed, EntriesOf(slice), i, key) <==> LineChecks(h, ed, slice, i, key)
  {
    LineInFields(slice[i]);
    if i > 0 { LineInFields(slice[i - 1]); }
    hide IsEntry, AsEntry, HasLine, HasLineFields, WholeLine, LineText;
  }

  // ----- the receipt -----

  /** The victim's actor name: the target, under the prefix of the names. */
  ghost predicate Victim(inp: Fields, did: string) {
    exists target :: target != "" && Get(inp, "target_player_id") == Some(Str(target))
      && did == if "did:akalynth:" <= target then target else "did:akalynth:" + target
  }

  lemma VictimInFields(inp: Fields, did: string)
    ensures Victim(inp, did) <==> VictimDid(inp) == Some(did)
  {
    if Victim(inp, did) {
      var target :| target != "" && Get(inp, "target_player_id") == Some(Str(target))
        && did == if "did:akalynth:" <= target then target else "did:akalynth:" + target;
      assert "did:akalynth:" <= target <==> |DID_PREFIX| <= |target| && target[..|DID_PREFIX|] == DID_PREFIX;
    }
    if VictimDid(inp) == Some(did) {
      var target := inp["target_player_id"].s;
      assert "did:akalynth:" <= target <==> |DID_PREFIX| <= |target| && target[..|DID_PREFIX|] == DID_PREFIX;
      assert Get(inp, "target_player_id") == Some(Str(target));
    }
  }

  /** What the seed hash is of: who killed whom, where, and how it ended. */
  function KillOf(receipt: Fields, inp: Fields): Json
    requires "target_player_id" in inp && "map" in inp && "position" in inp && "outcome" in inp
  {
    var fields := map["action" := Str("combat_resolved"), "result" := Str("ok"),
      "inputs" := Obj(map["target_player_id" := inp["target_player_id"], "map" := inp["map"],
                          "position" := inp["position"], "outcome" := inp["outcome"]])];
    Obj(if "actor_id" in receipt then fields["actor_id" := receipt["actor_id"]] else fields)
  }

  ghost predicate NamesKill(h: HashFunction, receipt: Fields, inp: Fields, proof: Fields, preimage: string)
    requires "target_player_id" in inp && "map" in inp && "position" in inp && "outcome" in inp
  {
    && preimage == "blake3:" + h(Print(true, KillOf(receipt, inp)))
    && Get(proof, "event_preimage_hash") == Some(Str(preimage)) && Get(inp, "drop_seed_hash") == Some(Str(preimage))
  }

  lemma KillInFields(h: HashFunction, receipt: Fields, inp: Fields, proof: Fields, preimage: string)
    requires "target_player_id" in inp && "map" in inp && "position" in inp && "outcome" in inp
    ensures NamesKill(h, receipt, inp, proof, preimage)
      <==> BindsBase(h, receipt, inp, Preimage(proof)) && Preimage(proof) == Some(Str(preimage))
  {
    assert BaseObject(receipt, inp) == KillOf(receipt, inp);
    hide Print, BaseObject, KillOf;
  }

  /** Both recorded commitments are the commitment to the revealed secret. */
  ghost predicate Opens(h: HashFunction, proof: Fields, x: Story) {
    && x.commit == "blake3:" + h("akalynth:rng:commit:v1\0" + Print(true, Obj(map[
         "v" := Num("1"), "domain" := Str(x.domain), "actor" := Str(x.did), "reveal" := Str(x.secret)])))
    && "precommit_ref" in proof && proof["precommit_ref"].Obj?
    && Get(proof["precommit_ref"].fields, "commit") == Some(Str(x.commit))
  }

  lemma OpeningInFields(w: World, inp: Fields, proof: Fields, x: Story)
    requires VictimDid(inp) == Some(x.did) && Get(proof, "event_domain") == Some(Str(x.domain)) && x.domain != ""
    requires x.commit != ""
    ensures Opens(w.h, proof, x) <==> BindingOk(w, inp, proof, Material(Some(x.commit), x.secret))
  {
    hide Print, VictimDid;
  }

  /** The parts of the seed stand in the proof, and each recorded draw is the one at its
      place in the stream of the seed. */
  ghost predicate Drawn(w: World, proof: Fields, x: Story) {
    && x.world != "" && Get(proof, "world_id") == Some(Str(x.world))
    && x.domain != "" && Get(proof, "event_domain") == Some(Str(x.domain))
    && "rng_out" in proof && proof["rng_out"].Arr?
    && forall i | 0 <= i < |proof["rng_out"].items| :: proof["rng_out"].items[i] == Num(NatText(w.draw(x.Seed(w.h), i)))
  }

  lemma DrawsInFields(w: World, proof: Fields, x: Story)
    requires Preimage(proof) == Some(Str(x.preimage)) && x.preimage != ""
    ensures Drawn(w, proof, x) ==>
      DrawsOk(w, proof, x.secret) && DerivedSeed(w, proof, x.secret) == Some(x.Seed(w.h))
    ensures DrawsOk(w, proof, x.secret) ==>
      && HasText(proof, "world_id") && HasText(proof, "event_domain")
      && Drawn(w, proof, x.(world := proof["world_id"].s, domain := proof["event_domain"].s))
  {
    hide NatText;
    assert RNG_DERIVE_DOMAIN_V2 == "akalynth:rng:v2:derive\0";
  }

  /** An element of the proof's list is this item. */
  ghost predicate Lists(j: Json, item: Item) {
    && j.Obj? && Get(j.fields, "item_id") == Some(Str(item.id))
    && Get(j.fields, "item_type") == Some(Str(item.itemType))
    && item.slot == Get(j.fields, "slot")
    && item.meta == if "meta" in j.fields && j.fields["meta"].Obj? then Some(j.fields["meta"].fields) else None
  }

  /** The recorded ids are what these items drop under the listed map and reputation. */
  ghost predicate DropsFrom(w: World, inp: Fields, inputs: Fields, seed: string, items: seq<Item>) {
    && "reputation" in inputs && inputs["reputation"].Num? && "map" in inputs && inputs["map"].Str?
    && var drops := DropPolicy.DeathDrops(w.a, w.draw, items, inputs["map"].s, w.a.value(inputs["reputation"].text),
      seed,
                                          HeatLookup(w.a, items), w.ambient);
    && drops.Some? && "dropped_item_ids" in inp && inp["dropped_item_ids"].Arr?
    && var recorded := inp["dropped_item_ids"].items;
    && |recorded| == |drops.value.dropped| && forall i | 0 <= i < |recorded| ::
      recorded[i] == Str(drops.value.dropped[i])
  }

  /** The inputs of the derivation. */
  ghost predicate DerivesFrom(proof: Fields, inputs: Fields) {
    && "derivation" in proof && proof["derivation"].Obj?
    && Get(proof["derivation"].fields, "inputs") == Some(Obj(inputs))
  }

  ghost predicate ListsAll(raw: Option<Json>, items: seq<Item>) {
    && raw.Some? && raw.value.Arr? && |raw.value.items| == |items|
    && forall i | 0 <= i < |items| :: Lists(raw.value.items[i], items[i])
  }

  ghost predicate DropsAs(w: World, inp: Fields, proof: Fields, seed: string, items: seq<Item>) {
    exists inputs ::
      DerivesFrom(proof, inputs) && ListsAll(Get(inputs, "items"), items) && DropsFrom(w, inp, inputs, seed, items)
  }

  lemma ItemInFields(j: Json, item: Item)
    ensures Lists(j, item) <==> AsItem(j) == Some(item)
  {
  }

  lemma ListInFields(raw: Option<Json>, items: seq<Item>)
    ensures AreItems(raw) && ItemsOf(raw.value) == items <==> ListsAll(raw, items)
  {
    hide AsItem, Lists;
    if raw.Some? && raw.value.Arr? {
      var list := raw.value.items;
      forall i | 0 <= i < |items| && i < |list|
        ensures Lists(list[i], items[i]) <==> AsItem(list[i]) == Some(items[i])
      {
        ItemInFields(list[i], items[i]);
      }
      if ListsAll(raw, items) {
        assert forall i | 0 <= i < |items| :: AsItem(list[i]) == Some(items[i]);
        forall j | j in list ensures AsItem(j).Some? {
          var i :| 0 <= i < |list| && list[i] == j;
        }
      }
    }
  }

  lemma OutcomeInFields(w: World, inp: Fields, inputs: Fields, seed: string, items: seq<Item>)
    ensures DerivationFrom(w, inp, inputs, items, seed) == Derives <==> DropsFrom(w, inp, inputs, seed, items)
  {
    hide DropPolicy.DeathDrops, HeatLookup;
  }

  lemma DropsInFields(w: World, inp: Fields, proof: Fields, secret: string, seed: string, items: seq<Item>)
    requires DerivedSeed(w, proof, secret) == Some(seed)
    ensures DropsAs(w, inp, proof, seed, items) ==> DerivationOf(w, inp, proof, secret) == Derives
  {
    hide DropsFrom, DerivationFrom, ListsAll, AreItems, ItemsOf, DerivedSeed;
    if DropsAs(w, inp, proof, seed, items) {
      var inputs :| DerivesFrom(proof, inputs) && ListsAll(Get(inputs, "items"), items)
        && DropsFrom(w, inp, inputs, seed, items);
      ListInFields(Get(inputs, "items"), items);
      OutcomeInFields(w, inp, inputs, seed, items);
      assert DerivationInputs(proof) == Some(Obj(inputs));
      ItemsAreArray(Get(inputs, "items"));
    }
  }

  lemma DerivationInFields(
    w: World, inp: Fields, proof: Fields, secret: string, seed: string) returns (items: seq<Item>)
    requires DerivedSeed(w, proof, secret) == Some(seed) && DerivationOf(w, inp, proof, secret) == Derives
    ensures DropsAs(w, inp, proof, seed, items)
  {
    hide DropsFrom, DerivationFrom, ListsAll, AreItems, ItemsOf, DerivedSeed;
    var inputs := DerivationInputs(proof).value.fields;
    ItemsAreArray(Get(inputs, "items"));
    items := ItemsOf(inputs["items"]);
    ListInFields(Get(inputs, "items"), items);
    OutcomeInFields(w, inp, inputs, seed, items);
    assert DerivesFrom(proof, inputs);
  }

  lemma ItemsAreArray(raw: Option<Json>)
    requires AreItems(raw)
    ensures raw.Some? && raw.value.Arr?
  {
  }

  /** The receipt's signature covers its two recorded hashes. */
  ghost predicate SignedBy(w: World, receipt: Fields, key: string) {
    exists prev, event, signature ::
      && prev != "" && event != "" && signature != "" && Get(receipt, "prev_hash") == Some(Str(prev))
      && Get(receipt, "event_hash") == Some(Str(event)) && Get(receipt, "signature") == Some(Str(signature))
      && w.ed.isKey(key) && w.ed.verifies(prev + "|" + event, signature, key)
  }

  lemma SignatureInFields(w: World, receipt: Fields, key: string)
    ensures SignedBy(w, receipt, key) <==> ReceiptSigned(w, receipt, key)
  {
    if ReceiptSigned(w, receipt, key) {
      assert Get(receipt, "prev_hash") == Some(Str(receipt["prev_hash"].s));
    }
  }

  /** A combat receipt with the six inputs and a version-2 proof of a loot drop. */
  ghost predicate IsDrop(receipt: Fields) {
    && Get(receipt, "action") == Some(Str("combat_resolved")) && "inputs" in receipt && receipt["inputs"].Obj?
    && var inp := receipt["inputs"].fields;
    && {"target_player_id", "map", "position", "outcome", "dropped_item_ids", "drop_seed_hash"} <= inp.Keys
    && HasProof(inp) && Get(inp["rng_proof"].fields, "version") == Some(Num("2"))
    && Get(inp["rng_proof"].fields, "outcome_type") == Some(Str("loot_drop"))
  }

  predicate HasProof(inp: Fields) {
    "rng_proof" in inp && inp["rng_proof"].Obj?
  }

  lemma DropInFields(receipt: Fields)
    ensures IsDrop(receipt) <==> IsV2Drop(Obj(receipt))
    ensures IsDrop(receipt) ==>
      && "inputs" in receipt && receipt["inputs"].Obj? && HasProof(receipt["inputs"].fields)
      && InputsOf(Obj(receipt)) == receipt["inputs"].fields
      && ProofOf(Obj(receipt)) == receipt["inputs"].fields["rng_proof"].fields
      && {"target_player_id", "map", "position", "outcome"} <= receipt["inputs"].fields.Keys
  {
  }

  /** Every fact "verified" stands for. */
  ghost predicate Told(w: World, receipt: Fields, ctx: Context, x: Story, items: seq<Item>) {
    && IsDrop(receipt)
    && var inp := receipt["inputs"].fields; var proof := inp["rng_proof"].fields;
    && Victim(inp, x.did) && NamesKill(w.h, receipt, inp, proof, x.preimage)
    && GloballyLinked(w.h, ctx.chronicle, None) && InOrder(ctx.chronicle, x)
    && ctx.signingKey.Some? && ctx.signingKey.value != "" && w.ed.isKey(ctx.signingKey.value)
    && (forall i | 0 <= i < |ctx.chronicle| :: LineChecks(w.h, w.ed, ctx.chronicle, i, ctx.signingKey.value))
    && SignedBy(w, receipt, ctx.signingKey.value)
    && Opens(w.h, proof, x) && Drawn(w, proof, x) && DropsAs(w, inp, proof, x.Seed(w.h), items)
  }

  lemma AuthenticInFields(w: World, ctx: Context)
    requires AllEntries(ctx.chronicle)
    ensures Authentic(w, ctx) <==>
      && ctx.signingKey.Some? && ctx.signingKey.value != "" && w.ed.isKey(ctx.signingKey.value)
      && forall i | 0 <= i < |ctx.chronicle| :: LineChecks(w.h, w.ed, ctx.chronicle, i, ctx.signingKey.value)
  {
    hide SignedAt, LineChecks, AllEntries, AsEntry;
    if Given(ctx.signingKey) {
      forall i | 0 <= i < |ctx.chronicle|
        ensures SignedAt(w.h, w.ed, EntriesOf(ctx.chronicle), i, ctx.signingKey.value)
          <==> LineChecks(w.h, w.ed, ctx.chronicle, i, ctx.signingKey.value)
      {
        SignedInFields(w.h, w.ed, ctx.chronicle, i, ctx.signingKey.value);
      }
    }
  }

  lemma ToldIsEvidence(w: World, receipt: Fields, ctx: Context, x: Story, items: seq<Item>)
    requires Told(w, receipt, ctx, x, items)
    ensures Evidence(w, Obj(receipt), ctx)
  {
    hide IsDrop, IsV2Drop, InputsOf, ProofOf, Victim, VictimDid, NamesKill, BindsBase, LinkedSlice,
         GloballyLinked, AllEntries, InOrder, ShowsOrder, LineChecks, SignedBy, ReceiptSigned, Opens,
         BindingOk, Drawn, DrawsOk, DropsAs, DerivationOf, Authentic, CommitAt, SecretAt, Preimage,
         DerivedSeed;
    DropInFields(receipt);
    var inp := receipt["inputs"].fields;
    var proof := inp["rng_proof"].fields;
    VictimInFields(inp, x.did);
    SliceInFields(w.h, ctx.chronicle, None);
    LinkedAreEntries(w.h, ctx.chronicle);
    OrderIsThere(ctx.chronicle, x);
    KillInFields(w.h, receipt, inp, proof, x.preimage);
    PreimageIsGiven(w.h, receipt, inp, Preimage(proof));
    OrderInFields(w, ctx.chronicle, x);
    AuthenticInFields(w, ctx);
    SignatureInFields(w, receipt, ctx.signingKey.value);
    DrawsInFields(w, proof, x);
    DrawnDomain(w, proof, x);
    OpenedIsGiven(w.h, proof, x);
    OpeningInFields(w, inp, proof, x);
    DropsInFields(w, inp, proof, x.secret, x.Seed(w.h), items);
    assert OrderedBy(w, ctx, x.preimage, x.did, x.commitAt, x.deathAt, x.revealAt, x.commit, x.secret);
    assert Anchors(w, inp, proof, ctx, x.commitAt, x.deathAt, x.revealAt, x.commit, x.secret);
  }

  lemma OrderIsThere(slice: seq<Json>, x: Story)
    requires InOrder(slice, x)
    ensures slice != []
  {
    hide Dies, Draws;
  }

  lemma DrawnDomain(w: World, proof: Fields, x: Story)
    requires Drawn(w, proof, x)
    ensures Get(proof, "event_domain") == Some(Str(x.domain)) && x.domain != ""
  {
  }

  lemma OpenedIsGiven(h: HashFunction, proof: Fields, x: Story)
    requires Opens(h, proof, x)
    ensures x.commit != ""
  {
    hide Print;
  }

  lemma EvidenceIsTold(w: World, receipt: Fields, ctx: Context) returns (x: Story, items: seq<Item>)
    requires Evidence(w, Obj(receipt), ctx)
    ensures Told(w, receipt, ctx, x, items)
  {
    hide IsDrop, IsV2Drop, InputsOf, ProofOf, Victim, VictimDid, NamesKill, BindsBase, LinkedSlice,
         GloballyLinked, AllEntries, InOrder, ShowsOrder, LineChecks, SignedBy, ReceiptSigned, Opens,
         BindingOk, Drawn, DrawsOk, DropsAs, DerivationOf, Authentic, CommitAt, SecretAt, Preimage,
         DerivedSeed;
    DropInFields(receipt);
    var inp := receipt["inputs"].fields;
    var proof := inp["rng_proof"].fields;
    var c, d, r, commit, secret :| Anchors(w, inp, proof, ctx, c, d, r, commit, secret);
    var did, preimage := VictimDid(inp).value, Preimage(proof).value.s;
    var bare := Story(did, c, d, r, commit, secret, "", "", preimage);
    DrawsInFields(w, proof, bare);
    x := bare.(world := proof["world_id"].s, domain := proof["event_domain"].s);
    assert x.secret == secret && x.preimage == preimage && x.did == did;
    DrawsInFields(w, proof, x);
    DrawnDomain(w, proof, x);
    VictimInFields(inp, did);
    KillInFields(w.h, receipt, inp, proof, preimage);
    SliceIsLinked(w, ctx, preimage, did, c, d, r);
    SliceInFields(w.h, ctx.chronicle, None);
    OrderInFields(w, ctx.chronicle, x);
    AuthenticInFields(w, ctx);
    SignatureInFields(w, receipt, ctx.signingKey.value);
    CommitIsGiven(ctx.chronicle, x);
    OpeningInFields(w, inp, proof, x);
    items := DerivationInFields(w, inp, proof, secret, x.Seed(w.h));
  }

  lemma SliceIsLinked(w: World, ctx: Context, preimage: string, did: string, c: nat, d: nat, r: nat)
    requires ShowsOrder(w, ctx.chronicle, preimage, did, c, d, r)
    ensures ctx.chronicle != [] && LinkedSlice(w.h, ctx.chronicle, None)
  {
    hide LinkedSlice, UniqueDeath, FirstRngEvent;
  }

  lemma CommitIsGiven(slice: seq<Json>, x: Story)
    requires InOrder(slice, x)
    ensures x.commit != ""
  {
    hide Dies, PayloadOf, EventIs;
  }

  /** The verdict in facts: the evidence behind "verified" is there if and only if the
      receipt and the slice tell one story. */
  lemma VerifiedIffTold(w: World, receipt: Fields, ctx: Context)
    ensures Evidence(w, Obj(receipt), ctx) <==> exists x, items :: Told(w, receipt, ctx, x, items)
  {
    hide Told, Evidence;
    if Evidence(w, Obj(receipt), ctx) {
      var x, items := EvidenceIsTold(w, receipt, ctx);
    }
    forall x, items | Told(w, receipt, ctx, x, items) ensures Evidence(w, Obj(receipt), ctx) {
      ToldIsEvidence(w, receipt, ctx, x, items);
    }
  }
}
