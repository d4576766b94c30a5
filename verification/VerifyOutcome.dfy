/** The offline verifier of death-drop receipts: from a receipt and what the
    caller supplies about the chronicle to a status and the reasons for it. */
module VerifyOutcome {
  import opened Json
  import opened CanonicalText
  import opened Hashing
  import opened Rng
  import opened ChronicleChain
  import opened SignedLines
  import DropPolicy

  type Item = DropPolicy.Item

  /** Everything the verifier computes with: hashing, draws, arithmetic, signatures,
      and the heat table of the process it happens to run in. */
  datatype World = World(
    h: HashFunction, draw: DrawFunction, a: DropPolicy.Arithmetic, ed: Ed25519, ambient: DropPolicy.HeatMap)

  datatype CheckStatus = Pass | Fail | NotChecked | Unsupported

  datatype FinalStatus = Verified | RngConsistent | ReplayConsistent | Failed | UnsupportedOutcome

  datatype Code =
    | RECEIPT_NOT_OBJECT | UNSUPPORTED_OUTCOME_TYPE
    | RECEIPT_SIGNATURE_NOT_CHECKED | CHRONICLE_INCLUSION_NOT_CHECKED | PRECOMMIT_NOT_PROVEN | MISSING_INPUTS
    | MISSING_INPUTS_OBJECT | MISSING_TARGET_PLAYER_ID | MISSING_MAP | MISSING_POSITION | MISSING_OUTCOME
    | MISSING_DROPPED_ITEM_IDS | MISSING_DROP_SEED_HASH
    | SEED_BINDING_FAIL | OUTCOME_MISMATCH
    | MISSING_RNG_COMMIT | MISSING_RNG_SEED | MISSING_RNG_OUTPUT | COMMIT_MISMATCH | RNG_OUTPUT_MISMATCH
    | MISSING_RNG_PROOF | MISSING_RECEIPT_BODY_HASH | RECEIPT_BODY_HASH_MISMATCH | MISSING_RNG_REVEAL_SEED
    | LEGACY_PRECOMMIT_UNBOUND | COMMITTED_NOT_OPENED | INVENTORY_COMMIT_MISMATCH
    | MISSING_EVENT_PREIMAGE_HASH | EVENT_PREIMAGE_HASH_MISMATCH | PRECOMMIT_MISSING
    | ORDERING_NOT_CHAIN_PROVEN | CHRONICLE_CHAIN_BROKEN | OUTCOME_EVENT_NOT_FOUND | PRECOMMIT_NOT_FOUND
    | PRECOMMIT_OUT_OF_ORDER | REVEAL_NOT_PUBLISHED | SLICE_SIGNATURE_INVALID | SLICE_NOT_AUTHENTICATED
    | PRECOMMIT_COMMIT_MISMATCH | RECEIPT_SIGNATURE_FIELDS_MISSING | RECEIPT_SIGNATURE_INVALID
    | RECEIPT_SIGNATURE_LEGACY_AUTH_KEY

  datatype Result = Result(
    shapeValid: bool, authenticity: CheckStatus, inclusion: CheckStatus, commitReveal: CheckStatus,
    derivation: CheckStatus, anchoring: CheckStatus, final: FinalStatus, reasons: seq<Code>)

  /** The verifier returns a result, or throws: the drop policy has no entry for the map. */
  datatype Outcome = Returned(result: Result) | Threw

  datatype Opening = Opening(salt: string, items: seq<Item>)

  /** Optional material from the caller; an empty chronicle counts as none. */
  datatype Context = Context(
    chronicle: seq<Json>, revealSeed: Option<string>, authKey: Option<string>, signingKey: Option<string>,
    opening: Option<Opening>)

  // ----- small guards -----

  /** `isStringNonEmpty`. */
  predicate NonEmpty(v: Option<Json>) {
    v.Some? && v.value.Str? && v.value.s != ""
  }

  predicate Given(v: Option<string>) {
    v.Some? && v.value != ""
  }

  predicate IsObject(v: Option<Json>) {
    v.Some? && v.value.Obj?
  }

  predicate IsArray(v: Option<Json>) {
    v.Some? && v.value.Arr?
  }

  predicate IsNumber(v: Option<Json>) {
    v.Some? && v.value.Num?
  }

  predicate IsString(v: Option<Json>) {
    v.Some? && v.value.Str?
  }

  // ----- the receipt's base hash -----

  /** The object the server hashed to seed the drop; absent fields are left out. */
  function BaseObject(receipt: Fields, inp: Fields): Json {
    var inputs := Put(Put(Put(Put(map[], "target_player_id", Get(inp, "target_player_id")),
      "map", Get(inp, "map")), "position", Get(inp, "position")), "outcome", Get(inp, "outcome"));
    Obj(Put(map["action" := Str("combat_resolved"), "inputs" := Obj(inputs), "result" := Str("ok")],
            "actor_id", Get(receipt, "actor_id")))
  }

  function BaseHash(h: HashFunction, receipt: Fields, inp: Fields): string {
    Prefixed(h, Print(true, BaseObject(receipt, inp)))
  }

  /** The named hash is the base hash, and the seed the receipt recorded. */
  predicate BindsBase(h: HashFunction, receipt: Fields, inp: Fields, hash: Option<Json>) {
    NonEmpty(hash) && BaseHash(h, receipt, inp) == hash.value.s && hash == Get(inp, "drop_seed_hash")
  }

  // ----- items -----

  /** One element of the receipt's item list, as `reconstructItemsForDrop` reads it. */
  function AsItem(j: Json): Option<Item> {
    if j.Obj? && GetString(j.fields, "item_id").Some? && GetString(j.fields, "item_type").Some? then
      Some(DropPolicy.Item(j.fields["item_id"].s, j.fields["item_type"].s,
        if IsObject(Get(j.fields, "meta")) then Some(j.fields["meta"].fields) else None,
        Get(j.fields, "slot")))
    else None
  }

  predicate AreItems(raw: Option<Json>) {
    IsArray(raw) && forall j | j in raw.value.items :: AsItem(j).Some?
  }

  function ItemsOf(raw: Json): (items: seq<Item>)
    requires AreItems(Some(raw))
  {
    seq(|raw.items|, i requires 0 <= i < |raw.items| => AsItem(raw.items[i]).value)
  }

  /** `reconstructItemsForDrop`. */
  method ReconstructItems(raw: Option<Json>) returns (items: Option<seq<Item>>)
    ensures items.Some? <==> AreItems(raw)
    ensures items.Some? ==> items.value == ItemsOf(raw.value)
  {
    if !IsArray(raw) {
      return None;
    }
    var list := raw.value.items;
    var out: seq<Item> := [];
    for i := 0 to |list|
      invariant |out| == i
      invariant forall k | 0 <= k < i :: AsItem(list[k]) == Some(out[k])
    {
      var item := AsItem(list[i]);
      if item.None? {
        return None;
      }
      out := out + [item.value];
    }
    items := Some(out);
    assert out == ItemsOf(raw.value);
  }

  function HeatIn(item: Item): Option<string> {
    if item.meta.Some? then DropPolicy.NumberIn(item.meta.value, "heat") else None
  }

  /** The heat each item carries in its meta; a later item wins over an earlier one with the same id. */
  function HeatLookup(a: DropPolicy.Arithmetic, items: seq<Item>): DropPolicy.HeatMap {
    if items == [] then map[]
    else
      var front, last := HeatLookup(a, items[..|items| - 1]), items[|items| - 1];
      if HeatIn(last).Some? then front[last.id := a.value(HeatIn(last).value)] else front
  }

  /** `buildHeatLookup`. */
  method BuildHeatLookup(a: DropPolicy.Arithmetic, items: seq<Item>) returns (m: DropPolicy.HeatMap)
    ensures m == HeatLookup(a, items)
  {
    m := map[];
    for i := 0 to |items|
      invariant m == HeatLookup(a, items[..i])
    {
      assert items[..i + 1][..i] == items[..i];
      var heat := HeatIn(items[i]);
      if heat.Some? {
        m := m[items[i].id := a.value(heat.value)];
      }
    }
    assert items[..|items|] == items;
  }

  /** The dropped ids recomputed from a seed; None when the computation throws. */
  function Recomputed(
    w: World, items: seq<Item>, mapName: string, reputation: string, seed: string): Option<seq<string>>
  {
    match DropPolicy.DeathDrops(w.a, w.draw, items, mapName, w.a.value(reputation), seed, HeatLookup(w.a, items),
      w.ambient)
    case None => None
    case Some(d) => Some(d.dropped)
  }

  predicate SameIds(ids: seq<string>, recorded: seq<Json>) {
    |ids| == |recorded| && forall i | 0 <= i < |ids| :: recorded[i] == Str(ids[i])
  }

  method Recompute(w: World, items: seq<Item>, mapName: string, reputation: string, seed: string)
    returns (ids: Option<seq<string>>)
    ensures ids == Recomputed(w, items, mapName, reputation, seed)
  {
    hide DropPolicy.DeathDrops;
    var lookup := BuildHeatLookup(w.a, items);
    var drops, rngOut :=
      DropPolicy.ComputeDeathDrops(w.a, w.draw, items, mapName, w.a.value(reputation), seed, lookup, w.ambient);
    ids := if drops.Some? then Some(drops.value.dropped) else None;
  }

  // ----- searching the slice -----

  const V1_COMMIT_DOMAIN := "death_drop:v1"

  predicate IsDeath(e: Entry, preimage: string, victim: string) {
    e.eventType == "death" && e.actor == victim && Get(e.payload, "drop_seed_hash") == Some(Str(preimage))
  }

  predicate IsRngEvent(e: Entry, eventType: string, victim: string) {
    && e.eventType == eventType && e.actor == victim
    && Get(e.payload, "rng_domain") == Some(Str(V1_COMMIT_DOMAIN)) && NonEmpty(Get(e.payload, eventType))
  }

  /** Exactly one death event of this outcome, at position d. */
  ghost predicate UniqueDeath(entries: seq<Entry>, preimage: string, victim: string, d: nat) {
    d < |entries| && forall i | 0 <= i < |entries| :: IsDeath(entries[i], preimage, victim) <==> i == d
  }

  ghost predicate FirstRngEvent(entries: seq<Entry>, eventType: string, victim: string, i: nat) {
    && i < |entries| && IsRngEvent(entries[i], eventType, victim)
    && forall k | 0 <= k < i :: !IsRngEvent(entries[k], eventType, victim)
  }

  ghost predicate NoRngEvent(entries: seq<Entry>, eventType: string, victim: string) {
    forall k | 0 <= k < |entries| :: !IsRngEvent(entries[k], eventType, victim)
  }

  /** `findDeathEventIndex`; -2 stands for more than one match. */
  method FindDeathEventIndex(entries: seq<Entry>, preimage: string, victim: string) returns (found: int)
    ensures found >= 0 <==> exists d :: UniqueDeath(entries, preimage, victim, d)
    ensures found >= 0 ==> UniqueDeath(entries, preimage, victim, found)
    ensures found == -1 <==> forall k | 0 <= k < |entries| :: !IsDeath(entries[k], preimage, victim)
    ensures found >= -2
  {
    hide IsDeath;
    found := -1;
    for i := 0 to |entries|
      invariant -1 <= found < i
      invariant found >= 0 ==> IsDeath(entries[found], preimage, victim)
      invariant forall k | 0 <= k < i && k != found :: !IsDeath(entries[k], preimage, victim)
    {
      if IsDeath(entries[i], preimage, victim) {
        if found != -1 {
          assert forall d: nat :: UniqueDeath(entries, preimage, victim, d) ==> d == found && d == i;
          return -2;
        }
        found := i;
      }
    }
    if found >= 0 { assert UniqueDeath(entries, preimage, victim, found); }
    forall d: nat | UniqueDeath(entries, preimage, victim, d) ensures found >= 0 {
      assert IsDeath(entries[d], preimage, victim);
    }
  }

  /** `findRngEventIndex`; the field looked at has the event type's own name. */
  method FindRngEventIndex(entries: seq<Entry>, eventType: string, victim: string) returns (found: int)
    ensures found >= 0 ==> FirstRngEvent(entries, eventType, victim, found)
    ensures found < 0 <==> NoRngEvent(entries, eventType, victim)
  {
    hide IsRngEvent;
    for i := 0 to |entries|
      invariant forall k | 0 <= k < i :: !IsRngEvent(entries[k], eventType, victim)
    {
      if IsRngEvent(entries[i], eventType, victim) {
        return i;
      }
    }
    return -1;
  }

  // ----- what the slice shows -----

  predicate AllEntries(slice: seq<Json>) {
    forall j | j in slice :: IsEntry(j)
  }

  function EntriesOf(slice: seq<Json>): seq<Entry>
    requires AllEntries(slice)
  {
    seq(|slice|, i requires 0 <= i < |slice| => AsEntry(slice[i]))
  }

  /** The slice's contribution to the verdict. */
  datatype View =
    | NoSlice
    | Refuted(why: Code)
    | Pending
    | Ordered(authenticated: bool, commit: string, secret: string)

  /** The slice is hash-linked and shows commit, death and reveal of the victim, in that order. */
  ghost predicate ShowsOrder(w: World, slice: seq<Json>, preimage: string, victim: string, c: nat, d: nat, r: nat) {
    && slice != [] && LinkedSlice(w.h, slice, None) && AllEntries(slice)
    && var entries := EntriesOf(slice);
       && UniqueDeath(entries, preimage, victim, d)
       && FirstRngEvent(entries, "rng_commit", victim, c)
       && FirstRngEvent(entries, "rng_reveal", victim, r)
       && c < d < r
  }

  /** Linked, with commit before death, and no reveal published yet. */
  ghost predicate ShowsPending(w: World, slice: seq<Json>, preimage: string, victim: string) {
    && slice != [] && LinkedSlice(w.h, slice, None) && AllEntries(slice)
    && var entries := EntriesOf(slice);
       && NoRngEvent(entries, "rng_reveal", victim)
       && exists c, d ::
            c < d && UniqueDeath(entries, preimage, victim, d) && FirstRngEvent(entries, "rng_commit", victim, c)
  }

  /** The lines authenticate under the signing key the caller gave. */
  ghost predicate Authentic(w: World, ctx: Context)
    requires AllEntries(ctx.chronicle)
  {
    && Given(ctx.signingKey) && UsableKey(w.ed, ctx.signingKey.value)
    && AllSigned(w.h, w.ed, EntriesOf(ctx.chronicle), ctx.signingKey.value)
  }

  /** Some line is there in full but does not check under a usable key. */
  ghost predicate Tampered(w: World, ctx: Context)
    requires AllEntries(ctx.chronicle)
  {
    && Given(ctx.signingKey) && UsableKey(w.ed, ctx.signingKey.value)
    && var entries := EntriesOf(ctx.chronicle);
       exists i :: LineFails(w, entries, i, ctx.signingKey.value)
  }

  ghost predicate LineFails(w: World, entries: seq<Entry>, i: nat, key: string) {
    && i < |entries| && AllSigned(w.h, w.ed, entries[..i], key)
    && HasLine(entries[i]) && !SignedAt(w.h, w.ed, entries, i, key)
  }

  function CommitAt(e: Entry): string {
    GetString(e.payload, "rng_commit").GetOr("")
  }

  function SecretAt(e: Entry): string {
    GetString(e.payload, "rng_reveal").GetOr("")
  }

  /** What each reason against a slice says about it. */
  ghost predicate WhyRefuted(w: World, ctx: Context, preimage: Option<Json>, victim: Option<string>, why: Code) {
    if why == CHRONICLE_CHAIN_BROKEN then !LinkedSlice(w.h, ctx.chronicle, None)
    else
      && LinkedSlice(w.h, ctx.chronicle, None) && AllEntries(ctx.chronicle)
      && if !NonEmpty(preimage) || victim.None? then why == OUTCOME_EVENT_NOT_FOUND
         else WhyNoOrder(w, ctx, preimage.value.s, victim.value, why)
  }

  ghost predicate WhyNoOrder(w: World, ctx: Context, preimage: string, victim: string, why: Code)
    requires AllEntries(ctx.chronicle)
  {
    var entries := EntriesOf(ctx.chronicle);
    match why
    case OUTCOME_EVENT_NOT_FOUND => forall d: nat :: !UniqueDeath(entries, preimage, victim, d)
    case PRECOMMIT_NOT_FOUND =>
      NoRngEvent(entries, "rng_commit", victim) && exists d: nat :: UniqueDeath(entries, preimage, victim, d)
    case PRECOMMIT_OUT_OF_ORDER => exists c: nat, d: nat :: OutOfOrder(entries, preimage, victim, c, d)
    case SLICE_SIGNATURE_INVALID =>
      Tampered(w, ctx) && exists c, d, r :: ShowsOrder(w, ctx.chronicle, preimage, victim, c, d, r)
    case _ => false
  }

  /** Commit and death are there, but the commit is not before the death or a reveal is not after it. */
  ghost predicate OutOfOrder(entries: seq<Entry>, preimage: string, victim: string, c: nat, d: nat) {
    && UniqueDeath(entries, preimage, victim, d) && FirstRngEvent(entries, "rng_commit", victim, c)
    && (c < d ==> exists r: nat :: FirstRngEvent(entries, "rng_reveal", victim, r) && r <= d)
  }

  /** The view says exactly what the slice shows. */
  ghost predicate ViewIs(w: World, ctx: Context, preimage: Option<Json>, victim: Option<string>, view: View) {
    match view
    case NoSlice => ctx.chronicle == []
    case Pending =>
      NonEmpty(preimage) && victim.Some? && ShowsPending(w, ctx.chronicle, preimage.value.s, victim.value)
    case Ordered(authenticated, commit, secret) =>
      && NonEmpty(preimage) && victim.Some? && AllEntries(ctx.chronicle)
      && (exists c, d, r :: OrderedBy(w, ctx, preimage.value.s, victim.value, c, d, r, commit, secret))
      && (authenticated <==> Authentic(w, ctx)) && !Tampered(w, ctx)
    case Refuted(why) =>
      && ctx.chronicle != [] && WhyRefuted(w, ctx, preimage, victim, why)
      && (NonEmpty(preimage) && victim.Some? ==>
            && !ShowsPending(w, ctx.chronicle, preimage.value.s, victim.value)
            && (forall c, d, r :: ShowsOrder(w, ctx.chronicle, preimage.value.s, victim.value, c, d, r) ==>
              Tampered(w, ctx)))
  }

  ghost predicate OrderedBy(
    w: World, ctx: Context, preimage: string, victim: string, c: nat, d: nat, r: nat, commit: string, secret: string)
  {
    && ShowsOrder(w, ctx.chronicle, preimage, victim, c, d, r)
    && commit == CommitAt(EntriesOf(ctx.chronicle)[c]) && secret == SecretAt(EntriesOf(ctx.chronicle)[r])
  }

  /** The slice part of the v2 check: link check, search, order, authentication. */
  method CheckSlice(w: World, ctx: Context, preimage: Option<Json>, victim: Option<string>) returns (view: View)
    ensures ViewIs(w, ctx, preimage, victim, view)
  {
    hide Sound, LinkedSlice, ShowsOrder, ShowsPending, Tampered, WhyNoOrder;
    if ctx.chronicle == [] {
      return NoSlice;
    }
    var slice := ctx.chronicle;
    var chain := VerifyGlobalChainSlice(w.h, slice, None);
    if chain.Broken? {
      BrokenShowsNothing(w, ctx);
      return Refuted(CHRONICLE_CHAIN_BROKEN);
    }
    LinkedAreEntries(w.h, slice);
    if victim.None? || !NonEmpty(preimage) {
      return Refuted(OUTCOME_EVENT_NOT_FOUND);
    }
    hide ViewIs;
    view := CheckOrder(w, ctx, preimage, victim);
  }

  lemma BrokenShowsNothing(w: World, ctx: Context)
    requires !LinkedSlice(w.h, ctx.chronicle, None)
    ensures forall preimage, victim :: !ShowsPending(w, ctx.chronicle, preimage, victim)
    ensures forall preimage, victim, c, d, r :: !ShowsOrder(w, ctx.chronicle, preimage, victim, c, d, r)
  {
    hide LinkedSlice;
  }

  /** Search and order in a linked slice, then its authentication. */
  method CheckOrder(w: World, ctx: Context, preimage: Option<Json>, victim: Option<string>) returns (view: View)
    requires ctx.chronicle != [] && LinkedSlice(w.h, ctx.chronicle, None) && AllEntries(ctx.chronicle)
    requires NonEmpty(preimage) && victim.Some?
    ensures ViewIs(w, ctx, preimage, victim, view)
  {
    hide Sound, AsEntry, IsDeath, IsRngEvent, LinkedSlice, AllSigned, SignedAt, HasLine, UsableKey, CommitAt, SecretAt,
         FirstRngEvent, UniqueDeath, NoRngEvent, WhyRefuted, AllEntries, EntriesOf, ViewIs;
    var entries := EntriesOf(ctx.chronicle);
    var did, pre := victim.value, preimage.value.s;
    var deathPos := FindDeathEventIndex(entries, pre, did);
    var commitPos := FindRngEventIndex(entries, "rng_commit", did);
    var revealPos := FindRngEventIndex(entries, "rng_reveal", did);
    if deathPos < 0 {
      RefutedBy(w, ctx, preimage, victim, OUTCOME_EVENT_NOT_FOUND);
      return Refuted(OUTCOME_EVENT_NOT_FOUND);
    }
    if commitPos < 0 {
      NoneIsNotFirst(entries, "rng_commit", did);
      RefutedBy(w, ctx, preimage, victim, PRECOMMIT_NOT_FOUND);
      return Refuted(PRECOMMIT_NOT_FOUND);
    }
    PositionsUnique(entries, pre, did, commitPos, deathPos, revealPos);
    if revealPos < 0 {
      if !(commitPos < deathPos) {
        assert OutOfOrder(entries, pre, did, commitPos, deathPos);
        RefutedBy(w, ctx, preimage, victim, PRECOMMIT_OUT_OF_ORDER);
        return Refuted(PRECOMMIT_OUT_OF_ORDER);
      }
      assert ShowsPending(w, ctx.chronicle, pre, did);
      PendingView(w, ctx, preimage, victim);
      return Pending;
    }
    NotBoth(entries, "rng_reveal", did, revealPos);
    if !(commitPos < deathPos && deathPos < revealPos) {
      assert OutOfOrder(entries, pre, did, commitPos, deathPos);
      RefutedBy(w, ctx, preimage, victim, PRECOMMIT_OUT_OF_ORDER);
      return Refuted(PRECOMMIT_OUT_OF_ORDER);
    }
    assert ShowsOrder(w, ctx.chronicle, pre, did, commitPos, deathPos, revealPos);
    var commit, secret := CommitAt(entries[commitPos]), SecretAt(entries[revealPos]);
    view := AuthenticateOrder(w, ctx, preimage, victim, commitPos, deathPos, revealPos, commit, secret);
  }

  /** The third step: what the line signatures say about a slice in order. */
  method AuthenticateOrder(
    w: World, ctx: Context, preimage: Option<Json>, victim: Option<string>,
    ghost c: nat, ghost d: nat, ghost r: nat, commit: string, secret: string)
    returns (view: View)
    requires NonEmpty(preimage) && victim.Some? && AllEntries(ctx.chronicle)
    requires OrderedBy(w, ctx, preimage.value.s, victim.value, c, d, r, commit, secret)
    ensures ViewIs(w, ctx, preimage, victim, view)
  {
    hide AllSigned, SignedAt, HasLine, UsableKey, CommitAt, SecretAt, AllEntries, EntriesOf, FirstRngEvent,
         UniqueDeath, NoRngEvent, LinkedSlice;
    if !Given(ctx.signingKey) {
      return Ordered(false, commit, secret);
    }
    var auth := VerifySignedChainSlice(w.h, w.ed, EntriesOf(ctx.chronicle), ctx.signingKey.value);
    AuthMeans(w, ctx, auth);
    hide Tampered, Authentic;
    match auth
    case Authenticated => return Ordered(true, commit, secret);
    case SignatureInvalid(_) =>
      NotPending(w, ctx.chronicle, preimage.value.s, victim.value, c, d, r);
      return Refuted(SLICE_SIGNATURE_INVALID);
    case NotAuthenticated(_) => return Ordered(false, commit, secret);
  }

  lemma NotPending(w: World, slice: seq<Json>, preimage: string, victim: string, c: nat, d: nat, r: nat)
    requires ShowsOrder(w, slice, preimage, victim, c, d, r)
    ensures !ShowsPending(w, slice, preimage, victim)
  {
    hide AsEntry, IsRngEvent, IsDeath, LinkedSlice;
    NotBoth(EntriesOf(slice), "rng_reveal", victim, r);
  }

  lemma PendingView(w: World, ctx: Context, preimage: Option<Json>, victim: Option<string>)
    requires NonEmpty(preimage) && victim.Some? && ShowsPending(w, ctx.chronicle, preimage.value.s, victim.value)
    ensures ViewIs(w, ctx, preimage, victim, Pending)
  {
    hide ShowsPending;
  }

  lemma RefutedBy(w: World, ctx: Context, preimage: Option<Json>, victim: Option<string>, why: Code)
    requires ctx.chronicle != [] && LinkedSlice(w.h, ctx.chronicle, None) && AllEntries(ctx.chronicle)
    requires NonEmpty(preimage) && victim.Some? && why != CHRONICLE_CHAIN_BROKEN
    requires WhyNoOrder(w, ctx, preimage.value.s, victim.value, why)
    requires !ShowsPending(w, ctx.chronicle, preimage.value.s, victim.value)
    requires forall c, d, r :: ShowsOrder(w, ctx.chronicle, preimage.value.s, victim.value, c, d, r) ==>
      Tampered(w, ctx)
    ensures ViewIs(w, ctx, preimage, victim, Refuted(why))
  {
    hide LinkedSlice, AllEntries, WhyNoOrder, ShowsPending, ShowsOrder, Tampered;
  }

  lemma LinkedAreEntries(h: HashFunction, slice: seq<Json>)
    requires LinkedSlice(h, slice, None)
    ensures AllEntries(slice)
  {
    forall j | j in slice ensures IsEntry(j) {
      var i :| 0 <= i < |slice| && slice[i] == j;
      assert GlobalLinks(h, slice)[i].Link?;
    }
  }

  lemma NoneIsNotFirst(entries: seq<Entry>, eventType: string, victim: string)
    requires NoRngEvent(entries, eventType, victim)
    ensures forall i: nat :: !FirstRngEvent(entries, eventType, victim, i)
  {
    hide IsRngEvent;
  }

  lemma NotBoth(entries: seq<Entry>, eventType: string, victim: string, i: nat)
    requires FirstRngEvent(entries, eventType, victim, i)
    ensures !NoRngEvent(entries, eventType, victim)
  {
    hide IsRngEvent;
  }

  lemma PositionsUnique(entries: seq<Entry>, preimage: string, victim: string, c: int, d: int, r: int)
    requires c >= 0 ==> FirstRngEvent(entries, "rng_commit", victim, c)
    requires d >= 0 ==> UniqueDeath(entries, preimage, victim, d)
    requires r >= 0 ==> FirstRngEvent(entries, "rng_reveal", victim, r)
    requires r < 0 ==> NoRngEvent(entries, "rng_reveal", victim)
    ensures c < |entries| && d < |entries| && r < |entries|
    ensures c >= 0 ==> forall i: nat :: FirstRngEvent(entries, "rng_commit", victim, i) ==> i == c
    ensures d >= 0 ==> forall i: nat :: UniqueDeath(entries, preimage, victim, i) ==> i == d
    ensures forall i: nat :: FirstRngEvent(entries, "rng_reveal", victim, i) ==> i == r
  {
    hide IsRngEvent, IsDeath;
    forall i: nat | d >= 0 && UniqueDeath(entries, preimage, victim, i) ensures i == d {
      assert IsDeath(entries[i], preimage, victim);
    }
    forall i: nat | FirstRngEvent(entries, "rng_reveal", victim, i) ensures i == r {
      if r < 0 { NoneIsNotFirst(entries, "rng_reveal", victim); }
    }
  }

  lemma AuthMeans(w: World, ctx: Context, auth: SliceAuth)
    requires AllEntries(ctx.chronicle) && Given(ctx.signingKey)
    requires var entries, key := EntriesOf(ctx.chronicle), ctx.signingKey.value;
      && (auth.Authenticated? <==> UsableKey(w.ed, key) && AllSigned(w.h, w.ed, entries, key))
      && (auth.NotAuthenticated? && auth.at.None? <==> !UsableKey(w.ed, key))
      && (auth.NotAuthenticated? && auth.at.Some? ==>
            auth.at.value < |entries| && AllSigned(w.h, w.ed, entries[..auth.at.value], key)
              && !HasLine(entries[auth.at.value]))
      && (auth.SignatureInvalid? ==>
            && auth.index < |entries| && AllSigned(w.h, w.ed, entries[..auth.index], key)
            && HasLine(entries[auth.index]) && !SignedAt(w.h, w.ed, entries, auth.index, key))
    ensures auth.Authenticated? <==> Authentic(w, ctx)
    ensures auth.SignatureInvalid? <==> Tampered(w, ctx)
  {
    hide AsEntry, HasLine, LineSigned, UsableKey;
    var entries, key := EntriesOf(ctx.chronicle), ctx.signingKey.value;
    match auth
    case SignatureInvalid(i) =>
      assert LineFails(w, entries, i, key);
    case Authenticated =>
    case NotAuthenticated(at) =>
      if at.Some? {
        forall i: nat ensures !LineFails(w, entries, i, key) { FirstFailure(w, entries, i, at.value, key); }
      }
  }

  /** When the first line without material comes before any bad line, no line fails. */
  lemma FirstFailure(w: World, entries: seq<Entry>, i: nat, at: nat, key: string)
    requires at < |entries| && AllSigned(w.h, w.ed, entries[..at], key) && !HasLine(entries[at])
    ensures !LineFails(w, entries, i, key)
  {
    hide HasLine, LineSigned;
    if i < at {
      assert SignedAt(w.h, w.ed, entries[..at], i, key);
    } else if at < i < |entries| {
      NoLineNotSigned(w, entries[..i], at, key);
    }
  }

  lemma NoLineNotSigned(w: World, entries: seq<Entry>, i: nat, key: string)
    requires i < |entries| && !HasLine(entries[i])
    ensures !SignedAt(w.h, w.ed, entries, i, key)
  {
  }
}
