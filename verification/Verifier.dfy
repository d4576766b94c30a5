/** The entry point of the offline verifier, the receipts without a v2 proof, and
    the exact meaning of "verified". */
module Verifier {
  import opened Json
  import opened Hashing
  import opened Rng
  import opened ChronicleChain
  import opened SignedLines
  import opened VerifyOutcome
  import opened VerifyV2
  import DropPolicy

  // ----- the immediate commit/reveal triple -----

  predicate TripleOk(w: World, commit: Option<Json>, seed: Option<Json>, rngOut: Option<Json>) {
    && NonEmpty(commit) && NonEmpty(seed) && IsArray(rngOut)
    && RngCommit(w.h, seed.value.s) == commit.value.s && DrawsMatch(w.draw, seed.value.s, rngOut.value.items)
  }

  function TripleNotes(w: World, commit: Option<Json>, seed: Option<Json>, rngOut: Option<Json>): seq<Code> {
    if !NonEmpty(commit) || !NonEmpty(seed) || !IsArray(rngOut) then (
      Note(!NonEmpty(commit), MISSING_RNG_COMMIT) + Note(!NonEmpty(seed), MISSING_RNG_SEED)
        + Note(!IsArray(rngOut), MISSING_RNG_OUTPUT))
    else (
      Note(RngCommit(w.h, seed.value.s) != commit.value.s, COMMIT_MISMATCH)
      + Note(!DrawsMatch(w.draw, seed.value.s, rngOut.value.items), RNG_OUTPUT_MISMATCH))
  }

  /** `rngDrawU32Legacy` against a list, stopping at the first difference. */
  method CheckDrawList(w: World, seed: string, outs: seq<Json>) returns (ok: bool)
    ensures ok <==> DrawsMatch(w.draw, seed, outs)
  {
    hide NatText;
    for i := 0 to |outs|
      invariant forall k | 0 <= k < i :: outs[k] == Num(NatText(w.draw(seed, k)))
    {
      if outs[i] != Num(NatText(w.draw(seed, i))) {
        return false;
      }
    }
    return true;
  }

  /** `verifyRngCommitReveal`. */
  method VerifyRngCommitReveal(w: World, commit: Option<Json>, seed: Option<Json>, rngOut: Option<Json>)
    returns (status: CheckStatus, reasons: seq<Code>)
    ensures status == if TripleOk(w, commit, seed, rngOut) then Pass else Fail
    ensures reasons == TripleNotes(w, commit, seed, rngOut)
  {
    hide RngCommit, DrawsMatch;
    reasons := [];
    if !NonEmpty(commit) {
      reasons := reasons + [MISSING_RNG_COMMIT];
    }
    if !NonEmpty(seed) {
      reasons := reasons + [MISSING_RNG_SEED];
    }
    if !IsArray(rngOut) {
      reasons := reasons + [MISSING_RNG_OUTPUT];
    }
    if |reasons| > 0 {
      return Fail, reasons;
    }
    if RngCommit(w.h, seed.value.s) != commit.value.s {
      reasons := reasons + [COMMIT_MISMATCH];
    }
    var drawn := CheckDrawList(w, seed.value.s, rngOut.value.items);
    if !drawn {
      reasons := reasons + [RNG_OUTPUT_MISMATCH];
    }
    status := if |reasons| == 0 then Pass else Fail;
  }

  // ----- proofs contained in the receipt (version other than 2) -----

  /** Commit binding and draws from the revealed seed; a deferred v1 commitment cannot be checked offline. */
  function V1CommitReveal(w: World, proof: Fields): CheckStatus {
    var seed, outs, commit := Get(proof, "reveal_seed"), Get(proof, "rng_out"), Get(proof, "rng_commit");
    if !NonEmpty(seed) || !IsArray(outs) || !DrawsMatch(w.draw, seed.value.s, outs.value.items) then Fail
    else if !NonEmpty(commit) then Pass
    else if Get(proof, "rng_commit_scheme") == Some(Str("death_drop:v1")) then Unsupported
    else if RngCommit(w.h, seed.value.s) == commit.value.s then Pass
    else Fail
  }

  function ItemsJson(items: seq<Item>): Json {
    Arr(seq(|items|, i requires 0 <= i < |items| => ItemJson(items[i])))
  }

  function ItemJson(item: Item): Json {
    var core: Fields := map["item_id" := Str(item.id), "item_type" := Str(item.itemType)];
    var meta := if item.meta.Some? then Some(Obj(item.meta.value)) else None;
    Obj(Put(Put(core, "meta", meta), "slot", item.slot))
  }

  datatype V1Derivation = V1Status(status: CheckStatus) | V1Throws

  function V1Of(d: Derivation): V1Derivation {
    match d
    case Derives => V1Status(Pass)
    case Mismatch => V1Status(Fail)
    case Throws => V1Throws
  }

  /** The outcome from the listed items, or from a committed inventory that the caller opens. */
  function V1DerivationOf(w: World, inp: Fields, proof: Fields, ctx: Context): V1Derivation {
    var seed := Get(proof, "reveal_seed");
    if !IsObject(DerivationInputs(proof)) then V1Status(Fail)
    else
      var inputs := DerivationInputs(proof).value.fields;
      if "items" in inputs then
        if !AreItems(Get(inputs, "items")) || !IsString(seed) then V1Status(Fail)
        else V1Of(DerivationFrom(w, inp, inputs, ItemsOf(inputs["items"]), seed.value.s))
      else if "inventory_commit" in inputs then
        if ctx.opening.None? then V1Status(Unsupported)
        else
          var opening := ctx.opening.value;
          if Get(inputs, "inventory_commit") != Some(Str(InventoryCommit(w.h, opening.salt, ItemsJson(opening.items))))
            || !IsString(seed)
          then V1Status(Fail)
          else V1Of(DerivationFrom(w, inp, inputs, opening.items, seed.value.s))
      else V1Status(Fail)
  }

  function V1StatusOf(bodyOk: bool, commitReveal: CheckStatus, derivation: CheckStatus): FinalStatus {
    if !bodyOk || commitReveal == Fail || derivation == Fail then Failed
    else if commitReveal == Pass && (derivation == Pass || derivation == Unsupported) then RngConsistent
    else ReplayConsistent
  }

  function V1CommitNotes(w: World, proof: Fields): seq<Code> {
    var seed, outs, commit := Get(proof, "reveal_seed"), Get(proof, "rng_out"), Get(proof, "rng_commit");
    if !NonEmpty(seed) || !IsArray(outs) then
      Note(!NonEmpty(seed), MISSING_RNG_REVEAL_SEED) + Note(!IsArray(outs), MISSING_RNG_OUTPUT)
    else (
      (if !NonEmpty(commit) then []
       else if Get(proof, "rng_commit_scheme") == Some(Str("death_drop:v1")) then [LEGACY_PRECOMMIT_UNBOUND]
       else Note(RngCommit(w.h, seed.value.s) != commit.value.s, COMMIT_MISMATCH))
      + Note(!DrawsMatch(w.draw, seed.value.s, outs.value.items), RNG_OUTPUT_MISMATCH))
  }

  /** The one reason a derivation that did not pass is given. */
  function V1DerivationNotes(w: World, inp: Fields, proof: Fields, ctx: Context): seq<Code> {
    match V1DerivationOf(w, inp, proof, ctx)
    case V1Status(Unsupported) => [COMMITTED_NOT_OPENED]
    case V1Status(Fail) => [if OpensWrongly(w, proof, ctx) then INVENTORY_COMMIT_MISMATCH else OUTCOME_MISMATCH]
    case _ => []
  }

  /** The proof commits to an inventory and the caller opens another one. */
  predicate OpensWrongly(w: World, proof: Fields, ctx: Context) {
    && IsObject(DerivationInputs(proof)) && ctx.opening.Some?
    && var inputs := DerivationInputs(proof).value.fields;
    && "items" !in inputs && "inventory_commit" in inputs
    && inputs["inventory_commit"] != Str(InventoryCommit(w.h, ctx.opening.value.salt,
      ItemsJson(ctx.opening.value.items)))
  }

  /** The reasons every receipt without a v2 proof carries. */
  const CEILING := [RECEIPT_SIGNATURE_NOT_CHECKED, CHRONICLE_INCLUSION_NOT_CHECKED, PRECOMMIT_NOT_PROVEN]

  function BodyNotes(w: World, receipt: Fields, inp: Fields, proof: Fields): seq<Code> {
    var bodyHash := Get(proof, "receipt_body_hash");
    if !NonEmpty(bodyHash) then [MISSING_RECEIPT_BODY_HASH]
      else Note(!BindsBase(w.h, receipt, inp, bodyHash), RECEIPT_BODY_HASH_MISMATCH)
  }

  /** The whole answer to a version-1 proof. */
  function V1Outcome(w: World, receipt: Fields, inp: Fields, ctx: Context): Outcome
    requires "rng_proof" in inp
  {
    if !inp["rng_proof"].Obj? then
      Returned(Result(true, NotChecked, NotChecked, Fail, Fail, Fail, Failed, CEILING + [MISSING_RNG_PROOF]))
    else
      var proof := inp["rng_proof"].fields;
      if !IsLootDrop(proof) then
        Returned(Result(true, NotChecked, NotChecked, Unsupported, Unsupported, Fail, UnsupportedOutcome,
          CEILING + [UNSUPPORTED_OUTCOME_TYPE]))
      else match V1DerivationOf(w, inp, proof, ctx)
        case V1Throws => Threw
        case V1Status(derivation) =>
          var commitReveal := V1CommitReveal(w, proof);
          var bodyOk := BindsBase(w.h, receipt, inp, Get(proof, "receipt_body_hash"));
          Returned(Result(true, NotChecked, NotChecked, commitReveal, derivation, Fail,
            V1StatusOf(bodyOk, commitReveal, derivation),
            CEILING + BodyNotes(w, receipt, inp, proof) + V1CommitNotes(w, proof)
              + V1DerivationNotes(w, inp, proof, ctx)))
  }

  method CheckV1CommitReveal(w: World, proof: Fields) returns (status: CheckStatus, reasons: seq<Code>)
    ensures status == V1CommitReveal(w, proof) && reasons == V1CommitNotes(w, proof)
  {
    hide DrawsMatch, RngCommit;
    var seed, outs, commit := Get(proof, "reveal_seed"), Get(proof, "rng_out"), Get(proof, "rng_commit");
    status, reasons := Pass, [];
    if !NonEmpty(seed) {
      reasons := reasons + [MISSING_RNG_REVEAL_SEED];
      status := Fail;
    }
    if !IsArray(outs) {
      reasons := reasons + [MISSING_RNG_OUTPUT];
      status := Fail;
    }
    if status != Fail {
      if NonEmpty(commit) {
        if Get(proof, "rng_commit_scheme") == Some(Str("death_drop:v1")) {
          reasons := reasons + [LEGACY_PRECOMMIT_UNBOUND];
          status := Unsupported;
        } else if RngCommit(w.h, seed.value.s) != commit.value.s {
          reasons := reasons + [COMMIT_MISMATCH];
          status := Fail;
        }
      }
      var drawn := CheckDrawList(w, seed.value.s, outs.value.items);
      if !drawn {
        reasons := reasons + [RNG_OUTPUT_MISMATCH];
        status := Fail;
      }
    }
  }

  method CheckV1Derivation(
    w: World, inp: Fields, proof: Fields, ctx: Context) returns (d: V1Derivation, reasons: seq<Code>)
    ensures d == V1DerivationOf(w, inp, proof, ctx) && reasons == V1DerivationNotes(w, inp, proof, ctx)
  {
    hide DerivationFrom, InventoryCommit, ItemsJson, AsItem;
    d, reasons := V1Status(Pass), [];
    var seed := Get(proof, "reveal_seed");
    if !IsObject(DerivationInputs(proof)) {
      return V1Status(Fail), [OUTCOME_MISMATCH];
    }
    var inputs := DerivationInputs(proof).value.fields;
    if "items" in inputs {
      var items := ReconstructItems(Get(inputs, "items"));
      if items.None? || !IsString(seed) {
        return V1Status(Fail), [OUTCOME_MISMATCH];
      }
      var outcome := CheckOutcome(w, inp, inputs, items.value, seed.value.s);
      return V1Of(outcome), if outcome == Mismatch then [OUTCOME_MISMATCH] else [];
    } else if "inventory_commit" in inputs {
      if ctx.opening.None? {
        return V1Status(Unsupported), [COMMITTED_NOT_OPENED];
      }
      var opening := ctx.opening.value;
      if Get(inputs, "inventory_commit") != Some(Str(InventoryCommit(w.h, opening.salt, ItemsJson(opening.items)))) {
        return V1Status(Fail), [INVENTORY_COMMIT_MISMATCH];
      }
      if !IsString(seed) {
        return V1Status(Fail), [OUTCOME_MISMATCH];
      }
      var outcome := CheckOutcome(w, inp, inputs, opening.items, seed.value.s);
      return V1Of(outcome), if outcome == Mismatch then [OUTCOME_MISMATCH] else [];
    }
    return V1Status(Fail), [OUTCOME_MISMATCH];
  }

  /** `verifyReceiptRngProof`. */
  method VerifyReceiptRngProof(w: World, receipt: Fields, inp: Fields, ctx: Context) returns (o: Outcome)
    requires "rng_proof" in inp
    ensures o == V1Outcome(w, receipt, inp, ctx)
  {
    hide BindsBase, V1CommitReveal, V1DerivationOf, V1CommitNotes, V1DerivationNotes, IsLootDrop;
    var reasons := CEILING;
    if !inp["rng_proof"].Obj? {
      return Returned(Result(true, NotChecked, NotChecked, Fail, Fail, Fail, Failed, reasons + [MISSING_RNG_PROOF]));
    }
    var proof := inp["rng_proof"].fields;
    if !IsLootDrop(proof) {
      return Returned(Result(true, NotChecked, NotChecked, Unsupported, Unsupported, Fail, UnsupportedOutcome,
        reasons + [UNSUPPORTED_OUTCOME_TYPE]));
    }
    var bodyHash := Get(proof, "receipt_body_hash");
    var bodyOk := false;
    NotBound(w.h, receipt, inp, bodyHash);
    if !NonEmpty(bodyHash) {
      reasons := reasons + [MISSING_RECEIPT_BODY_HASH];
    } else {
      bodyOk := BindsBase(w.h, receipt, inp, bodyHash);
      if !bodyOk {
        reasons := reasons + [RECEIPT_BODY_HASH_MISMATCH];
      }
    }
    assert reasons == CEILING + BodyNotes(w, receipt, inp, proof);
    hide BodyNotes;
    var commitReveal, more := CheckV1CommitReveal(w, proof);
    reasons := reasons + more;
    var derivation, rest := CheckV1Derivation(w, inp, proof, ctx);
    if derivation.V1Throws? {
      return Threw;
    }
    reasons := reasons + rest;
    var hardFail := !bodyOk || commitReveal == Fail || derivation.status == Fail;
    var final := ReplayConsistent;
    if hardFail {
      final := Failed;
    } else if commitReveal == Pass && derivation.status == Pass {
      final := RngConsistent;
    } else if commitReveal == Pass && derivation.status == Unsupported {
      final := RngConsistent;
    }
    o := Returned(Result(true, NotChecked, NotChecked, commitReveal, derivation.status, Fail, final, reasons));
  }

  /** A version-1 proof is never "verified", and "rng_consistent" takes a bound body,
      an opened commitment and, unless the inventory stays closed, the derived drops. */
  lemma V1Ceiling(w: World, receipt: Fields, inp: Fields, ctx: Context)
    requires "rng_proof" in inp && V1Outcome(w, receipt, inp, ctx).Returned?
    ensures var r := V1Outcome(w, receipt, inp, ctx).result;
      && r.final != Verified && r.anchoring == Fail && r.reasons != []
      && (r.final == RngConsistent <==>
            && inp["rng_proof"].Obj? && IsLootDrop(inp["rng_proof"].fields)
            && BindsBase(w.h, receipt, inp, Get(inp["rng_proof"].fields, "receipt_body_hash"))
            && V1CommitReveal(w, inp["rng_proof"].fields) == Pass
            && V1DerivationOf(w, inp, inp["rng_proof"].fields, ctx) in {V1Status(Pass), V1Status(Unsupported)})
  {
    hide BindsBase, V1DerivationOf, IsLootDrop, V1CommitReveal;
    assert |CEILING| == 3;
    if inp["rng_proof"].Obj? && IsLootDrop(inp["rng_proof"].fields) {
      V1Statuses(w, inp, inp["rng_proof"].fields, ctx);
    }
  }

  lemma V1Statuses(w: World, inp: Fields, proof: Fields, ctx: Context)
    ensures V1DerivationOf(w, inp, proof, ctx) in {V1Throws, V1Status(Pass), V1Status(Fail), V1Status(Unsupported)}
  {
    hide DerivationFrom, InventoryCommit, ItemsJson;
  }

  // ----- combat receipts -----

  /** The six inputs a combat receipt must carry. */
  predicate ShapeOk(inputs: Option<Json>) {
    && IsObject(inputs)
    && var f := inputs.value.fields;
       && "target_player_id" in f && "map" in f && "position" in f && "outcome" in f
       && "dropped_item_ids" in f && "drop_seed_hash" in f
  }

  function ShapeNotes(inputs: Option<Json>): seq<Code> {
    if !IsObject(inputs) then [MISSING_INPUTS_OBJECT]
    else
      var f := inputs.value.fields;
      Note("target_player_id" !in f, MISSING_TARGET_PLAYER_ID) + Note("map" !in f, MISSING_MAP)
      + Note("position" !in f, MISSING_POSITION) + Note("outcome" !in f, MISSING_OUTCOME)
      + Note("dropped_item_ids" !in f, MISSING_DROPPED_ITEM_IDS) + Note("drop_seed_hash" !in f, MISSING_DROP_SEED_HASH)
  }

  method ShapeReasons(inputs: Option<Json>) returns (reasons: seq<Code>)
    ensures reasons == ShapeNotes(inputs)
  {
    if !IsObject(inputs) {
      return [MISSING_INPUTS_OBJECT];
    }
    var f := inputs.value.fields;
    reasons := Note("target_player_id" !in f, MISSING_TARGET_PLAYER_ID);
    reasons := reasons + Note("map" !in f, MISSING_MAP);
    reasons := reasons + Note("position" !in f, MISSING_POSITION);
    reasons := reasons + Note("outcome" !in f, MISSING_OUTCOME);
    reasons := reasons + Note("dropped_item_ids" !in f, MISSING_DROPPED_ITEM_IDS);
    reasons := reasons + Note("drop_seed_hash" !in f, MISSING_DROP_SEED_HASH);
  }

  lemma NoShapeNotes(inputs: Option<Json>)
    ensures ShapeNotes(inputs) == [] <==> ShapeOk(inputs)
  {
    if IsObject(inputs) {
      var f := inputs.value.fields;
      assert |ShapeNotes(inputs)| ==
        |Note("target_player_id" !in f, MISSING_TARGET_PLAYER_ID)| + |Note("map" !in f, MISSING_MAP)|
        + |Note("position" !in f, MISSING_POSITION)| + |Note("outcome" !in f, MISSING_OUTCOME)|
        + |Note("dropped_item_ids" !in f, MISSING_DROPPED_ITEM_IDS)|
          + |Note("drop_seed_hash" !in f, MISSING_DROP_SEED_HASH)|;
    }
  }

  predicate HasV2Proof(inp: Fields) {
    IsObject(Get(inp, "rng_proof")) && Get(inp["rng_proof"].fields, "version") == Some(Num("2"))
  }

  /** The receipt is a combat receipt of the right shape with a v2 proof of a loot drop. */
  predicate IsV2Drop(receipt: Json) {
    && receipt.Obj? && Get(receipt.fields, "action") == Some(Str("combat_resolved"))
    && ShapeOk(Get(receipt.fields, "inputs")) && HasV2Proof(InputsOf(receipt)) && IsLootDrop(ProofOf(receipt))
  }

  function InputsOf(receipt: Json): Fields
    requires receipt.Obj? && ShapeOk(Get(receipt.fields, "inputs"))
  {
    receipt.fields["inputs"].fields
  }

  function ProofOf(receipt: Json): Fields
    requires receipt.Obj? && ShapeOk(Get(receipt.fields, "inputs")) && HasV2Proof(InputsOf(receipt))
  {
    InputsOf(receipt)["rng_proof"].fields
  }

  /** Everything "verified" vouches for. */
  ghost predicate Evidence(w: World, receipt: Json, ctx: Context) {
    && IsV2Drop(receipt)
    && V2Evidence(w, receipt.fields, InputsOf(receipt), ProofOf(receipt), ctx)
  }

  ghost predicate V2Evidence(w: World, receipt: Fields, inp: Fields, proof: Fields, ctx: Context) {
    && PreimageOk(w, receipt, inp, proof)
    && VictimDid(inp).Some?
    && AllEntries(ctx.chronicle) && Authentic(w, ctx)
    && ReceiptSigned(w, receipt, ctx.signingKey.value)
    && exists c, d, r, commit, secret :: Anchors(w, inp, proof, ctx, c, d, r, commit, secret)
  }

  /** Commit, death and reveal stand in order in the slice; the secret opens the
      commitment; draws and dropped items follow from it. */
  ghost predicate Anchors(
    w: World, inp: Fields, proof: Fields, ctx: Context, c: nat, d: nat, r: nat, commit: string, secret: string)
    requires VictimDid(inp).Some?
  {
    && NonEmpty(Preimage(proof))
    && OrderedBy(w, ctx, Preimage(proof).value.s, VictimDid(inp).value, c, d, r, commit, secret)
    && BindingOk(w, inp, proof, Material(Some(commit), secret))
    && DrawsOk(w, proof, secret) && DerivationOf(w, inp, proof, secret) == Derives
  }

  lemma AuthenticIsNotTampered(w: World, ctx: Context)
    requires AllEntries(ctx.chronicle) && Authentic(w, ctx)
    ensures !Tampered(w, ctx)
  {
    hide SignedAt, HasLine, UsableKey, AsEntry;
    var entries, key := EntriesOf(ctx.chronicle), ctx.signingKey.value;
    forall i: nat ensures !LineFails(w, entries, i, key) {
      if i < |entries| { assert SignedAt(w.h, w.ed, entries, i, key); }
    }
  }

  /** What a slice shows is unique. */
  lemma OrderUnique(
    w: World, ctx: Context, preimage: string, victim: string,
    c: nat, d: nat, r: nat, commit: string, secret: string, c': nat, d': nat, r': nat, commit': string, secret': string)
    requires OrderedBy(w, ctx, preimage, victim, c, d, r, commit, secret)
    requires OrderedBy(w, ctx, preimage, victim, c', d', r', commit', secret')
    ensures c == c' && d == d' && r == r' && commit == commit' && secret == secret'
  {
    hide AsEntry, LinkedSlice, CommitAt, SecretAt, IsDeath, IsRngEvent;
    PositionsUnique(EntriesOf(ctx.chronicle), preimage, victim, c, d, r);
  }

  lemma EvidenceFixesView(
    w: World, ctx: Context, preimage: Option<Json>, victim: Option<string>, view: View,
    c: nat, d: nat, r: nat, commit: string, secret: string)
    requires ViewIs(w, ctx, preimage, victim, view) && NonEmpty(preimage) && victim.Some?
    requires AllEntries(ctx.chronicle) && Authentic(w, ctx)
    requires OrderedBy(w, ctx, preimage.value.s, victim.value, c, d, r, commit, secret)
    ensures view == Ordered(true, commit, secret)
  {
    hide AsEntry, LinkedSlice, CommitAt, SecretAt, IsDeath, IsRngEvent, FirstRngEvent, UniqueDeath,
         NoRngEvent, Authentic, Tampered;
    AuthenticIsNotTampered(w, ctx);
    NotBoth(EntriesOf(ctx.chronicle), "rng_reveal", victim.value, r);
    assert ShowsOrder(w, ctx.chronicle, preimage.value.s, victim.value, c, d, r);
    if view.Ordered? {
      var c', d', r' :| OrderedBy(w, ctx, preimage.value.s, victim.value, c', d', r', view.commit, view.secret);
      OrderUnique(w, ctx, preimage.value.s, victim.value, c, d, r, commit, secret, c', d', r', view.commit,
        view.secret);
    }
  }

  /** The ladder reaches "verified" on exactly the evidence listed. */
  lemma VerifiedIsExact(w: World, receipt: Fields, inp: Fields, proof: Fields, ctx: Context, view: View)
    requires ViewIs(w, ctx, Preimage(proof), VictimDid(inp), view)
    ensures StatusOf(w, receipt, inp, proof, ctx, view) == Verified <==> V2Evidence(w, receipt, inp, proof, ctx)
    ensures V2Evidence(w, receipt, inp, proof, ctx) ==> !ThrowsOn(w, inp, proof, ctx, view)
  {
    hide OrderedBy, BindingOk, DrawsOk, DerivationOf, ReceiptSigned, BindsBase, VictimDid, AllEntries,
         AllSigned, UsableKey, Tampered, ShowsOrder, ShowsPending;
    PreimageIsGiven(w.h, receipt, inp, Preimage(proof));
    if V2Evidence(w, receipt, inp, proof, ctx) {
      var c, d, r, commit, secret :| Anchors(w, inp, proof, ctx, c, d, r, commit, secret);
      EvidenceFixesView(w, ctx, Preimage(proof), VictimDid(inp), view, c, d, r, commit, secret);
    }
    if StatusOf(w, receipt, inp, proof, ctx, view) == Verified {
      var c, d, r :| OrderedBy(w, ctx, Preimage(proof).value.s, VictimDid(inp).value, c, d, r, view.commit,
        view.secret);
      assert Anchors(w, inp, proof, ctx, c, d, r, view.commit, view.secret);
    }
  }

  lemma PreimageIsGiven(h: HashFunction, receipt: Fields, inp: Fields, hash: Option<Json>)
    ensures BindsBase(h, receipt, inp, hash) ==> NonEmpty(hash)
  {
  }

  /** What a receipt without a proof can reach: its seed binding and, if recorded, the commit/reveal triple. */
  function PlainResult(w: World, receipt: Fields, inp: Fields): Result {
    var commit, seed, outs := Get(receipt, "rng_commit"), Get(receipt, "rng_reveal"), Get(receipt, "rng_out");
    var bound := Get(inp, "drop_seed_hash") == Some(Str(BaseHash(w.h, receipt, inp)));
    var whole := commit.Some? && seed.Some? && outs.Some?;
    var commitReveal := if !whole then Unsupported else if TripleOk(w, commit, seed, outs) then Pass else Fail;
    Result(true, NotChecked, NotChecked, commitReveal, Unsupported, Fail,
      if !bound || commitReveal == Fail then Failed else if commitReveal == Pass then RngConsistent
        else ReplayConsistent,
      CEILING + [MISSING_INPUTS] + (if bound then [] else [SEED_BINDING_FAIL, OUTCOME_MISMATCH])
      + (if whole then TripleNotes(w, commit, seed, outs) else [MISSING_RNG_COMMIT]))
  }

  /** `verifyCombatResolved`.  `view` is what the slice shows, for a v2 proof. */
  method VerifyCombatResolved(w: World, receipt: Fields, ctx: Context) returns (o: Outcome, ghost view: View)
    ensures o == CombatOutcome(w, receipt, ctx, view)
    ensures HasV2Drop(receipt) ==>
      var inp := receipt["inputs"].fields;
      ViewIs(w, ctx, Preimage(inp["rng_proof"].fields), VictimDid(inp), view)
    ensures !ShapeOk(Get(receipt, "inputs")) ==> o.Returned? && o.result.final == Failed
    ensures ShapeOk(Get(receipt, "inputs")) && "rng_proof" !in receipt["inputs"].fields ==>
      o == Returned(PlainResult(w, receipt, receipt["inputs"].fields))
  {
    hide BaseHash, TripleOk, ResultOf, ThrowsOn, V1Outcome, TripleNotes, ShapeNotes, ShapeOk, IsLootDrop,
         HasV2Proof, ViewIs;
    view := NoSlice;
    var reasons := CEILING + [MISSING_INPUTS];
    var inputs := Get(receipt, "inputs");
    var shapeReasons := ShapeReasons(inputs);
    NoShapeNotes(inputs);
    if |shapeReasons| > 0 {
      return Returned(Result(false, NotChecked, NotChecked, Unsupported, Unsupported, Fail, Failed,
        reasons + shapeReasons)), view;
    }
    ShapeIsObject(inputs);
    var inp := inputs.value.fields;
    V2ProofIsThere(inp);
    if "rng_proof" in inp {
      if HasV2Proof(inp) {
        o, view := VerifyReceiptRngProofV2(w, receipt, inp, inp["rng_proof"].fields, ctx);
        return;
      }
      o := VerifyReceiptRngProof(w, receipt, inp, ctx);
      return;
    }
    var seedBindingOk := Get(inp, "drop_seed_hash") == Some(Str(BaseHash(w.h, receipt, inp)));
    if !seedBindingOk {
      reasons := reasons + [SEED_BINDING_FAIL, OUTCOME_MISMATCH];
    }
    var commitReveal := Unsupported;
    if "rng_commit" in receipt && "rng_reveal" in receipt && "rng_out" in receipt {
      var more;
      commitReveal, more := VerifyRngCommitReveal(w, Get(receipt, "rng_commit"), Get(receipt, "rng_reveal"),
        Get(receipt, "rng_out"));
      reasons := reasons + more;
    } else {
      reasons := reasons + [MISSING_RNG_COMMIT];
    }
    var final := ReplayConsistent;
    if !seedBindingOk || commitReveal == Fail {
      final := Failed;
    } else if commitReveal == Pass {
      final := RngConsistent;
    }
    o := Returned(Result(true, NotChecked, NotChecked, commitReveal, Unsupported, Fail, final, reasons));
  }

  lemma ShapeIsObject(inputs: Option<Json>)
    ensures ShapeOk(inputs) ==> IsObject(inputs)
  {
  }

  lemma V2ProofIsThere(inp: Fields)
    ensures HasV2Proof(inp) ==> IsObject(Get(inp, "rng_proof"))
  {
  }

  predicate HasV2Drop(receipt: Fields) {
    && ShapeOk(Get(receipt, "inputs")) && HasV2Proof(receipt["inputs"].fields)
    && IsLootDrop(receipt["inputs"].fields["rng_proof"].fields)
  }

  /** The whole answer to a combat receipt, given what the slice shows. */
  function CombatOutcome(w: World, receipt: Fields, ctx: Context, view: View): Outcome {
    var inputs := Get(receipt, "inputs");
    if !ShapeOk(inputs) then
      Returned(Result(false, NotChecked, NotChecked, Unsupported, Unsupported, Fail, Failed,
        CEILING + [MISSING_INPUTS] + ShapeNotes(inputs)))
    else
      var inp := inputs.value.fields;
      if "rng_proof" !in inp then Returned(PlainResult(w, receipt, inp))
      else if !HasV2Proof(inp) then V1Outcome(w, receipt, inp, ctx)
      else
        var proof := inp["rng_proof"].fields;
        if !IsLootDrop(proof) then Returned(UNSUPPORTED_RESULT)
        else if ThrowsOn(w, inp, proof, ctx, view) then Threw
        else Returned(ResultOf(w, receipt, inp, proof, ctx, view))
  }

  /** Of all answers to a combat receipt, exactly those on full evidence are
      "verified", exactly those without a reason, and then every check has passed. */
  lemma CombatVerifiedIff(w: World, receipt: Fields, ctx: Context, view: View)
    requires HasV2Drop(receipt) ==>
      var inp := receipt["inputs"].fields;
      ViewIs(w, ctx, Preimage(inp["rng_proof"].fields), VictimDid(inp), view)
    ensures var o := CombatOutcome(w, receipt, ctx, view);
      && (o.Returned? && o.result.final == Verified <==>
            HasV2Drop(receipt) && V2Evidence(w, receipt, receipt["inputs"].fields,
              receipt["inputs"].fields["rng_proof"].fields, ctx))
      && (o.Returned? ==> (o.result.final == Verified <==> o.result.reasons == []))
      && (o.Returned? && o.result.final == Verified ==>
        o.result == Result(true, Pass, Pass, Pass, Pass, Pass, Verified, []))
  {
    hide V2Evidence, ViewIs, ThrowsOn, ResultOf, V1Outcome, TripleOk, BaseHash, IsLootDrop;
    if ShapeOk(Get(receipt, "inputs")) {
      var inp := receipt["inputs"].fields;
      if HasV2Drop(receipt) {
        var proof := inp["rng_proof"].fields;
        VerifiedIsExact(w, receipt, inp, proof, ctx, view);
        VerifiedIsClean(w, receipt, inp, proof, ctx, view);
        ResultStatus(w, receipt, inp, proof, ctx, view);
      } else if "rng_proof" in inp && !HasV2Proof(inp) && V1Outcome(w, receipt, inp, ctx).Returned? {
        V1Ceiling(w, receipt, inp, ctx);
      }
    }
  }

  lemma ResultStatus(w: World, receipt: Fields, inp: Fields, proof: Fields, ctx: Context, view: View)
    ensures ResultOf(w, receipt, inp, proof, ctx, view).final == StatusOf(w, receipt, inp, proof, ctx, view)
  {
  }

  // ----- receipts the verifier does not answer -----

  /** A version-1 proof whose listed or opened items are dropped on a map without a drop policy. */
  predicate V1NamesUnknownMap(w: World, inp: Fields, proof: Fields, ctx: Context) {
    && IsObject(DerivationInputs(proof)) && IsString(Get(proof, "reveal_seed"))
    && var inputs := DerivationInputs(proof).value.fields;
    if "items" in inputs then AreItems(Get(inputs, "items")) && NamesUnknownMap(inp, inputs, ItemsOf(inputs["items"]))
    else
      && "inventory_commit" in inputs && ctx.opening.Some? && !OpensWrongly(w, proof, ctx)
      && NamesUnknownMap(inp, inputs, ctx.opening.value.items)
  }

  lemma V1ThrowsIff(w: World, inp: Fields, proof: Fields, ctx: Context)
    ensures V1DerivationOf(w, inp, proof, ctx) == V1Throws <==> V1NamesUnknownMap(w, inp, proof, ctx)
  {
    hide NamesUnknownMap, DerivationFrom, AsItem, InventoryCommit, ItemsJson;
    if IsObject(DerivationInputs(proof)) && IsString(Get(proof, "reveal_seed")) {
      var inputs, seed := DerivationInputs(proof).value.fields, proof["reveal_seed"].s;
      if AreItems(Get(inputs, "items")) { DerivationThrowsIff(w, inp, inputs, ItemsOf(inputs["items"]), seed); }
      if ctx.opening.Some? { DerivationThrowsIff(w, inp, inputs, ctx.opening.value.items, seed); }
    }
  }

  /** A combat receipt of the right shape, with a proof of a loot drop that lists (or
      opens to) items and names a map without a drop policy; for a v2 proof, with a
      secret at hand. */
  ghost predicate Unanswerable(w: World, receipt: Fields, ctx: Context) {
    && ShapeOk(Get(receipt, "inputs"))
    && var inp := receipt["inputs"].fields;
    && IsObject(Get(inp, "rng_proof"))
    && var proof := inp["rng_proof"].fields;
    && IsLootDrop(proof)
    && if HasV2Proof(inp) then V2NamesUnknownMap(inp, proof) && SecretAtHand(w, inp, proof, ctx)
       else V1NamesUnknownMap(w, inp, proof, ctx)
  }

  /** Of all combat receipts, exactly these make the verifier throw. */
  lemma CombatThrowsIff(w: World, receipt: Fields, ctx: Context, view: View)
    requires HasV2Drop(receipt) ==>
      var inp := receipt["inputs"].fields;
      ViewIs(w, ctx, Preimage(inp["rng_proof"].fields), VictimDid(inp), view)
    ensures CombatOutcome(w, receipt, ctx, view).Threw? <==> Unanswerable(w, receipt, ctx)
  {
    hide ViewIs, ResultOf, PlainResult, V1NamesUnknownMap, V2NamesUnknownMap, SecretAtHand, V1DerivationOf,
         DerivationOf, IsLootDrop;
    if ShapeOk(Get(receipt, "inputs")) {
      var inp := receipt["inputs"].fields;
      if IsObject(Get(inp, "rng_proof")) {
        var proof := inp["rng_proof"].fields;
        V1ThrowsIff(w, inp, proof, ctx);
        if HasV2Drop(receipt) {
          MaterialIffSecretAtHand(w, inp, proof, ctx, view);
          if MaterialOf(view, ctx).Some? { ThrowsOnUnknownMap(w, inp, proof, MaterialOf(view, ctx).value.secret); }
        }
      }
    }
  }

  /** One torch dropped at a place called "Nowhere". */
  function StrayInputs(): Fields {
    map["target_player_id" := Str("victim"), "map" := Str("Nowhere"), "position" := Null, "outcome" := Str("kill"),
        "dropped_item_ids" := Arr([]), "drop_seed_hash" := Str("seed"), "rng_proof" := Obj(StrayProof())]
  }

  function StrayProof(): Fields {
    map["version" := Num("2"), "outcome_type" := Str("loot_drop"), "event_preimage_hash" := Str("seed"),
        "event_domain" := Str("death_drop:v1"), "world_id" := Str("Nowhere"),
        "derivation" := Obj(map["inputs" := Obj(StrayDerivation())])]
  }

  function StrayDerivation(): Fields {
    map["items" := Arr([Obj(map["item_id" := Str("item-1"), "item_type" := Str("torch")])]),
        "reputation" := Num("0"), "map" := Str("Nowhere")]
  }

  function StrayReceipt(): Fields {
    map["action" := Str("combat_resolved"), "inputs" := Obj(StrayInputs())]
  }

  /** The verifier throws on this receipt, given any secret. */
  lemma StrayReceiptThrows(w: World)
    ensures IsCombat(Obj(StrayReceipt()))
    ensures Unanswerable(w, StrayReceipt(), Context([], Some("secret"), None, None, None))
  {
    hide StrayDerivation, DropPolicy.Found, NamesUnknownMap, AreItems, ItemsOf;
    var f := StrayDerivation();
    StrayNamesUnknownMap();
    assert V2NamesUnknownMap(StrayInputs(), StrayProof());
  }

  lemma StrayNamesUnknownMap()
    ensures var f := StrayDerivation();
      AreItems(Get(f, "items")) && NamesUnknownMap(StrayInputs(), f, ItemsOf(f["items"]))
  {
    NowhereIsNotFound();
    hide DropPolicy.Found, StrayProof;
    var f := StrayDerivation();
    assert AsItem(f["items"].items[0]).Some?;
    assert ItemsOf(f["items"]) != [];
  }

  lemma NowhereIsNotFound()
    ensures !DropPolicy.Found("Nowhere")
  {
    assert "Nowhere"[0] == 'N';
  }

  /** `verifyOutcomeFromReceipt`.  A receipt is judged "verified" exactly on the
      evidence, and exactly when no reason is given against it. */
  method VerifyOutcomeFromReceipt(w: World, receipt: Json, ctx: Context) returns (o: Outcome, ghost view: View)
    ensures o.Returned? && o.result.final == Verified <==> Evidence(w, receipt, ctx)
    ensures o.Returned? ==> (o.result.final == Verified <==> o.result.reasons == [])
    ensures o.Returned? && o.result.final == Verified ==>
      o.result == Result(true, Pass, Pass, Pass, Pass, Pass, Verified, [])
    ensures o.Threw? <==> IsCombat(receipt) && Unanswerable(w, receipt.fields, ctx)
    ensures IsCombat(receipt) ==> o == CombatOutcome(w, receipt.fields, ctx, view)
    ensures !IsCombat(receipt) ==>
      o == Returned(if receipt.Obj? then Unjudged(UnsupportedOutcome, UNSUPPORTED_OUTCOME_TYPE)
        else Unjudged(Failed, RECEIPT_NOT_OBJECT))
  {
    hide V2Evidence, CombatOutcome, Unanswerable;
    view := NoSlice;
    if !receipt.Obj? {
      return Returned(Unjudged(Failed, RECEIPT_NOT_OBJECT)), view;
    }
    if Get(receipt.fields, "action") == Some(Str("combat_resolved")) {
      o, view := VerifyCombatResolved(w, receipt.fields, ctx);
      CombatVerifiedIff(w, receipt.fields, ctx, view);
      CombatThrowsIff(w, receipt.fields, ctx, view);
      return;
    }
    return Returned(Unjudged(UnsupportedOutcome, UNSUPPORTED_OUTCOME_TYPE)), view;
  }

  predicate IsCombat(receipt: Json) {
    receipt.Obj? && Get(receipt.fields, "action") == Some(Str("combat_resolved"))
  }

  function Unjudged(final: FinalStatus, why: Code): Result {
    Result(false, NotChecked, NotChecked, Unsupported, Unsupported, Fail, final, [why])
  }
}
