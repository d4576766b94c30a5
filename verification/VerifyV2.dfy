/** The v2 verifier: a receipt whose drop is anchored to a commitment in the
    chronicle, and exactly what each status means. */
module VerifyV2 {
  import opened Json
  import opened Hashing
  import opened Rng
  import opened ChronicleChain
  import opened SignedLines
  import opened VerifyOutcome
  import DropPolicy

  // ----- what the checks look at -----

  const DID_PREFIX := "did:akalynth:"

  /** The victim's chronicle actor: the target id, qualified if it is bare. */
  function VictimDid(inp: Fields): Option<string> {
    var v := Get(inp, "target_player_id");
    if !NonEmpty(v) then None
    else if |DID_PREFIX| <= |v.value.s| && v.value.s[..|DID_PREFIX|] == DID_PREFIX then Some(v.value.s)
    else Some(DID_PREFIX + v.value.s)
  }

  function Preimage(proof: Fields): Option<Json> {
    Get(proof, "event_preimage_hash")
  }

  predicate PreimageOk(w: World, receipt: Fields, inp: Fields, proof: Fields) {
    BindsBase(w.h, receipt, inp, Preimage(proof))
  }

  function RefCommit(proof: Fields): Option<Json> {
    if IsObject(Get(proof, "precommit_ref")) then Get(proof["precommit_ref"].fields, "commit") else None
  }

  /** The secret the binding and the derivation are checked against, and the commitment recorded with it. */
  datatype Material = Material(sliceCommit: Option<string>, secret: string)

  function MaterialOf(view: View, ctx: Context): Option<Material> {
    match view
    case NoSlice => if Given(ctx.revealSeed) then Some(Material(None, ctx.revealSeed.value)) else None
    case Ordered(_, commit, secret) => Some(Material(Some(commit), secret))
    case _ => None
  }

  function EventDomain(proof: Fields): string {
    if NonEmpty(Get(proof, "event_domain")) then proof["event_domain"].s else V1_COMMIT_DOMAIN
  }

  /** The secret opens the commitment the proof names, and the one the chronicle recorded. */
  predicate BindingOk(w: World, inp: Fields, proof: Fields, m: Material) {
    && VictimDid(inp).Some?
    && var expected := RngCommitV1(w.h, EventDomain(proof), VictimDid(inp).value, m.secret);
       && RefCommit(proof) == Some(Str(expected))
       && (Given(m.sliceCommit) ==> expected == m.sliceCommit.value)
  }

  function DerivedSeed(w: World, proof: Fields, secret: string): Option<string> {
    var worldId, domain, pre := Get(proof, "world_id"), Get(proof, "event_domain"), Preimage(proof);
    if NonEmpty(worldId) && NonEmpty(domain) && NonEmpty(pre)
    then Some(RngDeriveSeedV2(w.h, secret, worldId.value.s, domain.value.s, pre.value.s))
    else None
  }

  predicate DrawsOk(w: World, proof: Fields, secret: string) {
    && DerivedSeed(w, proof, secret).Some? && IsArray(Get(proof, "rng_out"))
    && DrawsMatch(w.draw, DerivedSeed(w, proof, secret).value, proof["rng_out"].items)
  }

  datatype Derivation = Derives | Mismatch | Throws

  function DerivationInputs(proof: Fields): Option<Json> {
    if IsObject(Get(proof, "derivation")) then Get(proof["derivation"].fields, "inputs") else None
  }

  /** Recomputing the dropped items from the recorded inputs and a seed. */
  function DerivationFrom(w: World, inp: Fields, inputs: Fields, items: seq<Item>, seed: string): Derivation {
    if !IsNumber(Get(inputs, "reputation")) || !IsString(Get(inputs, "map"))
      || !IsArray(Get(inp, "dropped_item_ids")) then Mismatch
    else match Recomputed(w, items, inputs["map"].s, inputs["reputation"].text, seed)
      case None => Throws
      case Some(ids) => if SameIds(ids, inp["dropped_item_ids"].items) then Derives else Mismatch
  }

  function DerivationOf(w: World, inp: Fields, proof: Fields, secret: string): Derivation {
    if !IsObject(DerivationInputs(proof)) || DerivedSeed(w, proof, secret).None? then Mismatch
    else
      var inputs := DerivationInputs(proof).value.fields;
      if !AreItems(Get(inputs, "items")) then Mismatch
      else DerivationFrom(w, inp, inputs, ItemsOf(inputs["items"]), DerivedSeed(w, proof, secret).value)
  }

  function ReceiptKey(ctx: Context): Option<string> {
    if Given(ctx.signingKey) then ctx.signingKey else if Given(ctx.authKey) then ctx.authKey else None
  }

  /** The signature over the receipt's two recorded hashes. */
  predicate ReceiptSigned(w: World, receipt: Fields, key: string) {
    && NonEmpty(Get(receipt, "prev_hash")) && NonEmpty(Get(receipt, "event_hash"))
    && NonEmpty(Get(receipt, "signature"))
    && VerifySignature(w.ed, receipt["prev_hash"].s, receipt["event_hash"].s, receipt["signature"].s, key)
  }

  function Authenticity(w: World, receipt: Fields, ctx: Context): CheckStatus {
    match ReceiptKey(ctx)
    case None => NotChecked
    case Some(key) => if ReceiptSigned(w, receipt, key) then Pass else Fail
  }

  // ----- the ladder -----

  predicate ThrowsOn(w: World, inp: Fields, proof: Fields, ctx: Context, view: View) {
    MaterialOf(view, ctx).Some? && DerivationOf(w, inp, proof, MaterialOf(view, ctx).value.secret) == Throws
  }

  /** Some check that could be made came out wrong. */
  predicate Refutes(w: World, receipt: Fields, inp: Fields, proof: Fields, ctx: Context, view: View) {
    || !PreimageOk(w, receipt, inp, proof)
    || view.Refuted?
    || Authenticity(w, receipt, ctx) == Fail
    || (MaterialOf(view, ctx).Some? &&
          var m := MaterialOf(view, ctx).value;
          !(BindingOk(w, inp, proof, m) && DrawsOk(w, proof, m.secret)
            && DerivationOf(w, inp, proof, m.secret) == Derives))
  }

  /** What each status means: refuted evidence fails; an authenticated slice with a
      checked receipt is verified; a secret makes the draw reproducible; without
      one only the recorded inputs are consistent. */
  function StatusOf(w: World, receipt: Fields, inp: Fields, proof: Fields, ctx: Context, view: View): FinalStatus {
    if Refutes(w, receipt, inp, proof, ctx, view) then Failed
    else if view.Ordered? && view.authenticated then Verified
    else if MaterialOf(view, ctx).Some? then RngConsistent
    else ReplayConsistent
  }

  // ----- the five checks and the reasons -----

  function Note(bad: bool, code: Code): seq<Code> {
    if bad then [code] else []
  }

  function Faults(w: World, inp: Fields, proof: Fields, m: Material): seq<Code> {
    Note(!BindingOk(w, inp, proof, m), PRECOMMIT_COMMIT_MISMATCH)
      + Note(!DrawsOk(w, proof, m.secret), RNG_OUTPUT_MISMATCH)
    + Note(DerivationOf(w, inp, proof, m.secret) != Derives, OUTCOME_MISMATCH)
  }

  function SignatureNotes(w: World, receipt: Fields, ctx: Context): seq<Code> {
    if ReceiptKey(ctx).None? then [RECEIPT_SIGNATURE_NOT_CHECKED]
    else if !NonEmpty(Get(receipt, "prev_hash")) || !NonEmpty(Get(receipt, "event_hash"))
      || !NonEmpty(Get(receipt, "signature"))
    then [RECEIPT_SIGNATURE_FIELDS_MISSING]
    else (
      Note(!ReceiptSigned(w, receipt, ReceiptKey(ctx).value), RECEIPT_SIGNATURE_INVALID)
      + Note(!Given(ctx.signingKey), RECEIPT_SIGNATURE_LEGACY_AUTH_KEY))
  }

  /** How the view enters the two chronicle statuses, and the reason it gives. */
  function ViewStatus(view: View): (CheckStatus, seq<Code>) {
    match view
    case NoSlice => (NotChecked, [ORDERING_NOT_CHAIN_PROVEN])
    case Refuted(why) => (Fail, [why])
    case Pending => (NotChecked, [REVEAL_NOT_PUBLISHED])
    case Ordered(authenticated, _, _) => if authenticated then (Pass, []) else (NotChecked, [SLICE_NOT_AUTHENTICATED])
  }

  function CommitRevealOf(
    w: World, receipt: Fields, inp: Fields, proof: Fields, material: Option<Material>): CheckStatus
  {
    match material
    case None => NotChecked
    case Some(m) => if PreimageOk(w, receipt, inp, proof) && BindingOk(w, inp, proof, m)
      && DrawsOk(w, proof, m.secret) then Pass else Fail
  }

  function OutcomeCheckOf(
    w: World, receipt: Fields, inp: Fields, proof: Fields, material: Option<Material>): CheckStatus
  {
    match material
    case None => NotChecked
    case Some(m) => if PreimageOk(w, receipt, inp, proof) && DerivationOf(w, inp, proof, m.secret) == Derives then Pass
      else Fail
  }

  function AnchoringOf(view: View, commitReveal: CheckStatus, derivation: CheckStatus): CheckStatus {
    if view.Refuted? then Fail
    else if ViewStatus(view).0 == Pass && commitReveal == Pass && derivation == Pass then Pass
    else NotChecked
  }

  function PreimageNotes(w: World, receipt: Fields, inp: Fields, proof: Fields): seq<Code> {
    if !NonEmpty(Preimage(proof)) then [MISSING_EVENT_PREIMAGE_HASH]
    else Note(!PreimageOk(w, receipt, inp, proof), EVENT_PREIMAGE_HASH_MISMATCH)
  }

  function SecretNotes(w: World, inp: Fields, proof: Fields, ctx: Context, view: View): seq<Code> {
    if view.Refuted? then []
    else match MaterialOf(view, ctx)
      case None => [REVEAL_NOT_PUBLISHED]
      case Some(m) => Faults(w, inp, proof, m)
  }

  /** Every reason, in the order it is given. */
  function ReasonsOf(w: World, receipt: Fields, inp: Fields, proof: Fields, ctx: Context, view: View): seq<Code> {
    PreimageNotes(w, receipt, inp, proof) + Note(!IsObject(Get(proof, "precommit_ref")), PRECOMMIT_MISSING)
    + ViewStatus(view).1 + SecretNotes(w, inp, proof, ctx, view) + SignatureNotes(w, receipt, ctx)
  }

  /** The whole result for a loot drop, when the recomputation does not throw. */
  function ResultOf(w: World, receipt: Fields, inp: Fields, proof: Fields, ctx: Context, view: View): Result {
    var commitReveal := CommitRevealOf(w, receipt, inp, proof, MaterialOf(view, ctx));
    var derivation := OutcomeCheckOf(w, receipt, inp, proof, MaterialOf(view, ctx));
    Result(true, Authenticity(w, receipt, ctx), ViewStatus(view).0, commitReveal, derivation,
           AnchoringOf(view, commitReveal, derivation), StatusOf(w, receipt, inp, proof, ctx, view),
           ReasonsOf(w, receipt, inp, proof, ctx, view))
  }

  predicate IsLootDrop(proof: Fields) {
    Get(proof, "outcome_type") == Some(Str("loot_drop"))
  }

  /** The result for a proof that is not of a loot drop. */
  const UNSUPPORTED_RESULT :=
    Result(true, NotChecked, NotChecked, Unsupported, Unsupported, NotChecked, UnsupportedOutcome,
      [UNSUPPORTED_OUTCOME_TYPE])

  // ----- the method -----

  /** Commit binding, draws and outcome, once a secret is known. */
  method CheckDerivation(w: World, inp: Fields, proof: Fields, m: Material)
    returns (threw: bool, commitReveal: CheckStatus, derivation: CheckStatus, reasons: seq<Code>)
    ensures threw <==> DerivationOf(w, inp, proof, m.secret) == Throws
    ensures !threw ==> commitReveal == if BindingOk(w, inp, proof, m) && DrawsOk(w, proof, m.secret) then Pass else Fail
    ensures !threw ==> derivation == if DerivationOf(w, inp, proof, m.secret) == Derives then Pass else Fail
    ensures !threw ==> reasons == Faults(w, inp, proof, m)
  {
    hide RngCommitV1, RngDeriveSeedV2, Recomputed, NatText, SameIds, AsItem;
    commitReveal, derivation, reasons, threw := Pass, Pass, [], false;
    var victim := VictimDid(inp);
    if victim.None? {
      reasons := reasons + [PRECOMMIT_COMMIT_MISMATCH];
      commitReveal := Fail;
    } else {
      var expected := RngCommitV1(w.h, EventDomain(proof), victim.value, m.secret);
      var matches := RefCommit(proof) == Some(Str(expected))
        && (!Given(m.sliceCommit) || expected == m.sliceCommit.value);
      if !matches {
        reasons := reasons + [PRECOMMIT_COMMIT_MISMATCH];
        commitReveal := Fail;
      }
    }
    assert commitReveal == Pass <==> BindingOk(w, inp, proof, m);
    hide BindingOk;

    var seed := DerivedSeed(w, proof, m.secret);
    var drawn := CheckDraws(w, proof, m.secret);
    if !drawn {
      reasons := reasons + [RNG_OUTPUT_MISMATCH];
      commitReveal := Fail;
    }
    hide DrawsOk, DerivedSeed;

    if !IsObject(DerivationInputs(proof)) || seed.None? {
      reasons := reasons + [OUTCOME_MISMATCH];
      derivation := Fail;
    } else {
      var inputs := DerivationInputs(proof).value.fields;
      var items := ReconstructItems(Get(inputs, "items"));
      var outcome := Mismatch;
      if items.Some? {
        outcome := CheckOutcome(w, inp, inputs, items.value, seed.value);
      }
      if outcome == Throws {
        threw := true;
        return;
      }
      if outcome == Mismatch {
        reasons := reasons + [OUTCOME_MISMATCH];
        derivation := Fail;
      }
    }
  }

  /** `rng_out[i] === rngDrawU32Legacy(derivedSeed, i)`, stopping at the first difference. */
  method CheckDraws(w: World, proof: Fields, secret: string) returns (ok: bool)
    ensures ok <==> DrawsOk(w, proof, secret)
  {
    hide RngDeriveSeedV2, NatText;
    var seed := DerivedSeed(w, proof, secret);
    if seed.None? || !IsArray(Get(proof, "rng_out")) {
      return false;
    }
    var outs := proof["rng_out"].items;
    for i := 0 to |outs|
      invariant forall k | 0 <= k < i :: outs[k] == Num(NatText(w.draw(seed.value, k)))
    {
      if outs[i] != Num(NatText(w.draw(seed.value, i))) {
        return false;
      }
    }
    return true;
  }

  /** `computeDeathDrops` again, compared with the recorded ids. */
  method CheckOutcome(w: World, inp: Fields, inputs: Fields, items: seq<Item>, seed: string) returns (r: Derivation)
    ensures r == DerivationFrom(w, inp, inputs, items, seed)
  {
    hide Recomputed;
    var reputation, mapName, dropped := Get(inputs, "reputation"), Get(inputs, "map"), Get(inp, "dropped_item_ids");
    if !IsNumber(reputation) || !IsString(mapName) || !IsArray(dropped) {
      return Mismatch;
    }
    var recomputed := Recompute(w, items, mapName.value.s, reputation.value.text, seed);
    if recomputed.None? {
      return Throws;
    }
    var same := SameIds(recomputed.value, dropped.value.items);
    return if same then Derives else Mismatch;
  }

  /** The receipt's signature, under the signing key or, for older callers, the auth key. */
  method CheckAuthenticity(w: World, receipt: Fields, ctx: Context) returns (status: CheckStatus, reasons: seq<Code>)
    ensures status == Authenticity(w, receipt, ctx) && reasons == SignatureNotes(w, receipt, ctx)
  {
    var key := if Given(ctx.signingKey) then ctx.signingKey else if Given(ctx.authKey) then ctx.authKey else None;
    if key.None? {
      return NotChecked, [RECEIPT_SIGNATURE_NOT_CHECKED];
    }
    if !NonEmpty(Get(receipt, "prev_hash")) || !NonEmpty(Get(receipt, "event_hash"))
      || !NonEmpty(Get(receipt, "signature")) {
      return Fail, [RECEIPT_SIGNATURE_FIELDS_MISSING];
    }
    reasons := [];
    var ok := VerifySignature(w.ed, receipt["prev_hash"].s, receipt["event_hash"].s, receipt["signature"].s, key.value);
    status := if ok then Pass else Fail;
    if !ok {
      reasons := reasons + [RECEIPT_SIGNATURE_INVALID];
    }
    if !Given(ctx.signingKey) && Given(ctx.authKey) {
      reasons := reasons + [RECEIPT_SIGNATURE_LEGACY_AUTH_KEY];
    }
  }

  /** The recorded seed hash against the receipt's own base hash. */
  method CheckPreimage(w: World, receipt: Fields, inp: Fields, proof: Fields) returns (ok: bool, reasons: seq<Code>)
    ensures ok == PreimageOk(w, receipt, inp, proof) && reasons == PreimageNotes(w, receipt, inp, proof)
  {
    hide BaseHash;
    ok, reasons := false, [];
    if !NonEmpty(Preimage(proof)) {
      reasons := reasons + [MISSING_EVENT_PREIMAGE_HASH];
    } else {
      ok := BindsBase(w.h, receipt, inp, Preimage(proof));
      if !ok {
        reasons := reasons + [EVENT_PREIMAGE_HASH_MISMATCH];
      }
    }
  }

  /** `verifyReceiptRngProofV2`.  `view` is what the slice shows. */
  method VerifyReceiptRngProofV2(w: World, receipt: Fields, inp: Fields, proof: Fields, ctx: Context)
    returns (o: Outcome, ghost view: View)
    ensures IsLootDrop(proof) ==> ViewIs(w, ctx, Preimage(proof), VictimDid(inp), view)
    ensures !IsLootDrop(proof) ==> o == Returned(UNSUPPORTED_RESULT)
    ensures IsLootDrop(proof) ==>
      o == if ThrowsOn(w, inp, proof, ctx, view) then Threw else Returned(ResultOf(w, receipt, inp, proof, ctx, view))
  {
    hide ViewIs, DerivationOf, DrawsOk, BindingOk, BindsBase, VictimDid, RefCommit, Authenticity,
         SignatureNotes, Faults, PreimageNotes, PreimageOk, StatusOf;
    if !IsLootDrop(proof) {
      return Returned(UNSUPPORTED_RESULT), NoSlice;
    }
    var preimageOk, reasons := CheckPreimage(w, receipt, inp, proof);
    if !IsObject(Get(proof, "precommit_ref")) {
      reasons := reasons + [PRECOMMIT_MISSING];
    }

    // The chronicle, then the secret: from the slice's reveal, or supplied when there is no slice.
    var slice := CheckSlice(w, ctx, Preimage(proof), VictimDid(inp));
    view := slice;
    var (inclusion, why) := ViewStatus(slice);
    var anchoring := if inclusion == Fail then Fail else NotChecked;
    assert reasons == PreimageNotes(w, receipt, inp, proof)
      + Note(!IsObject(Get(proof, "precommit_ref")), PRECOMMIT_MISSING);
    reasons := reasons + why;
    var material := MaterialOf(slice, ctx);

    var commitReveal, derivation := Pass, Pass;
    ghost var before := reasons;
    if inclusion == Fail {
      commitReveal, derivation := NotChecked, NotChecked;
    } else if material.None? {
      reasons := reasons + [REVEAL_NOT_PUBLISHED];
      commitReveal, derivation := NotChecked, NotChecked;
    } else {
      var threw, faults;
      threw, commitReveal, derivation, faults := CheckDerivation(w, inp, proof, material.value);
      if threw {
        return Threw, view;
      }
      reasons := reasons + faults;
    }
    assert reasons == before + SecretNotes(w, inp, proof, ctx, slice);
    if !preimageOk {
      if derivation == Pass { derivation := Fail; }
      if commitReveal == Pass { commitReveal := Fail; }
    }
    assert commitReveal == CommitRevealOf(w, receipt, inp, proof, material);
    assert derivation == OutcomeCheckOf(w, receipt, inp, proof, material);
    hide SecretNotes, CommitRevealOf, OutcomeCheckOf;

    var authenticity, notes := CheckAuthenticity(w, receipt, ctx);
    reasons := reasons + notes;
    assert reasons == ReasonsOf(w, receipt, inp, proof, ctx, slice);
    hide ReasonsOf;

    var bindingAndDerivationOk := commitReveal == Pass && derivation == Pass;
    if inclusion == Pass && bindingAndDerivationOk && material.Some? && preimageOk {
      anchoring := Pass;
    }
    StatusLadder(w, receipt, inp, proof, ctx, slice);
    var hardFail := commitReveal == Fail || derivation == Fail || authenticity == Fail || inclusion == Fail
      || !preimageOk;
    var allPass := anchoring == Pass && commitReveal == Pass && derivation == Pass && authenticity == Pass
      && inclusion == Pass;
    var final: FinalStatus;
    if hardFail {
      final := Failed;
    } else if allPass {
      final := Verified;
    } else if material.None? {
      final := ReplayConsistent;
    } else if bindingAndDerivationOk {
      final := RngConsistent;
    } else {
      // With a secret and no failure both checks have passed.
      assert false;
    }
    o := Returned(Result(true, authenticity, inclusion, commitReveal, derivation, anchoring, final, reasons));
  }

  /** The ladder over the recorded statuses decides as `StatusOf` says. */
  lemma StatusLadder(w: World, receipt: Fields, inp: Fields, proof: Fields, ctx: Context, view: View)
    requires ViewIs(w, ctx, Preimage(proof), VictimDid(inp), view)
    ensures var m := MaterialOf(view, ctx);
      var commitReveal, derivation := CommitRevealOf(w, receipt, inp, proof, m),
        OutcomeCheckOf(w, receipt, inp, proof, m);
      var failed := commitReveal == Fail || derivation == Fail || Authenticity(w, receipt, ctx) == Fail
        || ViewStatus(view).0 == Fail
                    || !PreimageOk(w, receipt, inp, proof);
      && (m.None? <==> commitReveal == NotChecked) && (m.None? <==> derivation == NotChecked)
      && (view.Ordered? ==> m.Some?) && (!failed && commitReveal == Pass ==> PreimageOk(w, receipt, inp, proof))
      && (!failed && view.Ordered? && view.authenticated ==> Authenticity(w, receipt, ctx) == Pass)
      && StatusOf(w, receipt, inp, proof, ctx, view) ==
           if failed then Failed
           else if ViewStatus(view).0 == Pass then Verified
           else if m.None? then ReplayConsistent
           else RngConsistent
  {
    hide ViewIs, DerivationOf, DrawsOk, BindingOk, PreimageOk, ReceiptSigned, VictimDid;
    AuthenticatedNeedsKey(w, ctx, Preimage(proof), VictimDid(inp), view);
  }

  /** "verified" is the status of exactly the results with no reason against them,
      and then all five checks have passed. */
  lemma VerifiedIsClean(w: World, receipt: Fields, inp: Fields, proof: Fields, ctx: Context, view: View)
    requires ViewIs(w, ctx, Preimage(proof), VictimDid(inp), view)
    ensures var r := ResultOf(w, receipt, inp, proof, ctx, view);
      && (r.final == Verified <==> r.reasons == [])
      && (r.final == Verified ==> r == Result(true, Pass, Pass, Pass, Pass, Pass, Verified, []))
  {
    hide ViewIs, DerivationOf, DrawsOk, BindingOk, BindsBase, ReceiptSigned, VictimDid, SignatureNotes;
    AuthenticatedNeedsKey(w, ctx, Preimage(proof), VictimDid(inp), view);
    NotBound(w.h, receipt, inp, Preimage(proof));
    AllEmpty(PreimageNotes(w, receipt, inp, proof), Note(!IsObject(Get(proof, "precommit_ref")), PRECOMMIT_MISSING),
             ViewStatus(view).1, SecretNotes(w, inp, proof, ctx, view), SignatureNotes(w, receipt, ctx));
    if view.Ordered? {
      var m := MaterialOf(view, ctx).value;
      NoRefNoBinding(w, inp, proof, m);
      AllEmpty(Note(!BindingOk(w, inp, proof, m), PRECOMMIT_COMMIT_MISMATCH),
        Note(!DrawsOk(w, proof, m.secret), RNG_OUTPUT_MISMATCH),
               Note(DerivationOf(w, inp, proof, m.secret) != Derives, OUTCOME_MISMATCH), [], []);
      assert Faults(w, inp, proof, m) == Faults(w, inp, proof, m) + [] + [];
      NoSignatureNotes(w, receipt, ctx);
    }
  }

  lemma NoSignatureNotes(w: World, receipt: Fields, ctx: Context)
    ensures SignatureNotes(w, receipt, ctx) == [] <==> Authenticity(w, receipt, ctx) == Pass && Given(ctx.signingKey)
  {
    hide VerifySignature;
    if ReceiptKey(ctx).Some? {
      AllEmpty(Note(!ReceiptSigned(w, receipt, ReceiptKey(ctx).value), RECEIPT_SIGNATURE_INVALID),
               Note(!Given(ctx.signingKey), RECEIPT_SIGNATURE_LEGACY_AUTH_KEY), [], [], []);
      var notes := Note(!ReceiptSigned(w, receipt, ReceiptKey(ctx).value), RECEIPT_SIGNATURE_INVALID)
        + Note(!Given(ctx.signingKey), RECEIPT_SIGNATURE_LEGACY_AUTH_KEY);
      assert notes + [] + [] + [] == notes;
    }
  }

  lemma AllEmpty(a: seq<Code>, b: seq<Code>, c: seq<Code>, d: seq<Code>, e: seq<Code>)
    ensures a + b + c + d + e == [] <==> a == [] && b == [] && c == [] && d == [] && e == []
  {
    assert |a + b + c + d + e| == |a| + |b| + |c| + |d| + |e|;
  }

  // ----- when the recomputation throws -----

  /** Well-typed inputs that list items and name a map under which no policy is found:
      neither one with a policy nor an inherited name. */
  predicate NamesUnknownMap(inp: Fields, inputs: Fields, items: seq<Item>) {
    && items != [] && IsNumber(Get(inputs, "reputation")) && IsArray(Get(inp, "dropped_item_ids"))
    && IsString(Get(inputs, "map")) && !DropPolicy.Found(inputs["map"].s)
  }

  lemma DerivationThrowsIff(w: World, inp: Fields, inputs: Fields, items: seq<Item>, seed: string)
    ensures DerivationFrom(w, inp, inputs, items, seed) == Throws <==> NamesUnknownMap(inp, inputs, items)
  {
    hide DropPolicy.SelectAny, DropPolicy.DropCount, SameIds, HeatLookup, DropPolicy.INHERITED;
  }

  /** A v2 proof that is well formed down to the outcome and names such a map. */
  predicate V2NamesUnknownMap(inp: Fields, proof: Fields) {
    && NonEmpty(Get(proof, "world_id")) && NonEmpty(Get(proof, "event_domain")) && NonEmpty(Preimage(proof))
    && IsObject(DerivationInputs(proof))
    && var inputs := DerivationInputs(proof).value.fields;
    && AreItems(Get(inputs, "items")) && NamesUnknownMap(inp, inputs, ItemsOf(inputs["items"]))
  }

  lemma ThrowsOnUnknownMap(w: World, inp: Fields, proof: Fields, secret: string)
    ensures DerivationOf(w, inp, proof, secret) == Throws <==> V2NamesUnknownMap(inp, proof)
  {
    hide NamesUnknownMap, DerivationFrom, AsItem, RngDeriveSeedV2;
    if IsObject(DerivationInputs(proof)) && DerivedSeed(w, proof, secret).Some? {
      var inputs := DerivationInputs(proof).value.fields;
      if AreItems(Get(inputs, "items")) {
        DerivationThrowsIff(w, inp, inputs, ItemsOf(inputs["items"]), DerivedSeed(w, proof, secret).value);
      }
    }
  }

  /** A secret is at hand: the slice shows commit, death and reveal in order and no line
      of it fails, or there is no slice and the caller supplies one. */
  ghost predicate SecretAtHand(w: World, inp: Fields, proof: Fields, ctx: Context) {
    || (ctx.chronicle == [] && Given(ctx.revealSeed))
    || (&& NonEmpty(Preimage(proof)) && VictimDid(inp).Some? && AllEntries(ctx.chronicle) && !Tampered(w, ctx)
        && exists c, d, r, commit, secret ::
          OrderedBy(w, ctx, Preimage(proof).value.s, VictimDid(inp).value, c, d, r, commit, secret))
  }

  lemma MaterialIffSecretAtHand(w: World, inp: Fields, proof: Fields, ctx: Context, view: View)
    requires ViewIs(w, ctx, Preimage(proof), VictimDid(inp), view)
    ensures MaterialOf(view, ctx).Some? <==> SecretAtHand(w, inp, proof, ctx)
  {
    hide LinkedSlice, AllEntries, EntriesOf, UniqueDeath, FirstRngEvent, NoRngEvent, Tampered, Authentic,
         VictimDid, WhyRefuted, CommitAt, SecretAt;
    if view.Ordered? {
      var c, d, r :| OrderedBy(w, ctx, Preimage(proof).value.s, VictimDid(inp).value, c, d, r, view.commit,
        view.secret);
    }
    if view.Pending? {
      forall c, d, r ensures !ShowsOrder(w, ctx.chronicle, Preimage(proof).value.s, VictimDid(inp).value, c, d, r) {
        if ShowsOrder(w, ctx.chronicle, Preimage(proof).value.s, VictimDid(inp).value, c, d, r) {
          NotPending(w, ctx.chronicle, Preimage(proof).value.s, VictimDid(inp).value, c, d, r);
        }
      }
    }
  }

  lemma NotBound(h: HashFunction, receipt: Fields, inp: Fields, hash: Option<Json>)
    ensures !NonEmpty(hash) ==> !BindsBase(h, receipt, inp, hash)
  {
  }

  lemma NoRefNoBinding(w: World, inp: Fields, proof: Fields, m: Material)
    ensures !IsObject(Get(proof, "precommit_ref")) ==> !BindingOk(w, inp, proof, m)
  {
  }

  lemma AuthenticatedNeedsKey(w: World, ctx: Context, preimage: Option<Json>, victim: Option<string>, view: View)
    requires ViewIs(w, ctx, preimage, victim, view)
    ensures view.Ordered? && view.authenticated ==> Given(ctx.signingKey)
  {
    hide OrderedBy, AllSigned, UsableKey, Tampered;
  }
}
