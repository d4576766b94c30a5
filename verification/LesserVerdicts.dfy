/** The verdicts below "verified" in plain facts: when a receipt fails, and when it is
    "rng_consistent" or only "replay_consistent". */
module LesserVerdicts {
  import opened Json
  import opened CanonicalText
  import opened Hashing
  import opened Rng
  import opened VerifyOutcome
  import opened VerifyV2
  import opened Verifier
  import opened LogFacts
  import opened VerifiedFacts

  // ----- version-2 proofs -----

  /** The signature checks under the signing key, or else under the auth key, or there is no key. */
  ghost predicate SignatureStands(w: World, receipt: Fields, ctx: Context) {
    if ctx.signingKey.Some? && ctx.signingKey.value != "" then SignedBy(w, receipt, ctx.signingKey.value)
    else if ctx.authKey.Some? && ctx.authKey.value != "" then SignedBy(w, receipt, ctx.authKey.value)
    else true
  }

  /** Receipt and proof fit the story: kill, commitment, draws and drops. */
  ghost predicate Fits(w: World, receipt: Fields, inp: Fields, proof: Fields, x: Story, items: seq<Item>)
    requires "target_player_id" in inp && "map" in inp && "position" in inp && "outcome" in inp
  {
    && Victim(inp, x.did) && NamesKill(w.h, receipt, inp, proof, x.preimage)
    && Opens(w.h, proof, x) && Drawn(w, proof, x) && DropsAs(w, inp, proof, x.Seed(w.h), items)
  }

  ghost predicate NamesSomeKill(h: HashFunction, receipt: Fields, inp: Fields, proof: Fields)
    requires "target_player_id" in inp && "map" in inp && "position" in inp && "outcome" in inp
  {
    exists preimage :: NamesKill(h, receipt, inp, proof, preimage)
  }

  lemma AuthenticityInFields(w: World, receipt: Fields, ctx: Context)
    ensures Authenticity(w, receipt, ctx) != Fail <==> SignatureStands(w, receipt, ctx)
  {
    hide SignedBy, ReceiptSigned;
    if Given(ctx.signingKey) { SignatureInFields(w, receipt, ctx.signingKey.value); }
    if Given(ctx.authKey) { SignatureInFields(w, receipt, ctx.authKey.value); }
  }

  lemma PreimageInFields(w: World, receipt: Fields, inp: Fields, proof: Fields)
    requires "target_player_id" in inp && "map" in inp && "position" in inp && "outcome" in inp
    ensures PreimageOk(w, receipt, inp, proof) <==> NamesSomeKill(w.h, receipt, inp, proof)
  {
    PreimageIsGiven(w.h, receipt, inp, Preimage(proof));
    forall preimage ensures NamesKill(w.h, receipt, inp, proof, preimage)
      <==> BindsBase(w.h, receipt, inp, Preimage(proof)) && Preimage(proof) == Some(Str(preimage))
    {
      KillInFields(w.h, receipt, inp, proof, preimage);
    }
    hide BindsBase, NamesKill;
    if PreimageOk(w, receipt, inp, proof) { assert NamesKill(w.h, receipt, inp, proof, Preimage(proof).value.s); }
  }

  /** The three checks against a secret, and a commitment of the slice if there is one. */
  ghost predicate Checks(w: World, receipt: Fields, inp: Fields, proof: Fields, m: Material) {
    && PreimageOk(w, receipt, inp, proof) && BindingOk(w, inp, proof, m) && DrawsOk(w, proof, m.secret)
    && DerivationOf(w, inp, proof, m.secret) == Derives
  }

  /** They hold exactly when one story with that secret, and that commitment, fits. */
  ghost predicate SomeStoryFits(w: World, receipt: Fields, inp: Fields, proof: Fields, m: Material)
    requires "target_player_id" in inp && "map" in inp && "position" in inp && "outcome" in inp
  {
    exists x, items ::
      && Fits(w, receipt, inp, proof, x, items) && x.secret == m.secret
      && (m.sliceCommit.Some? && m.sliceCommit.value != "" ==> x.commit == m.sliceCommit.value)
  }

  lemma ChecksInFields(w: World, receipt: Fields, inp: Fields, proof: Fields, m: Material)
    requires "target_player_id" in inp && "map" in inp && "position" in inp && "outcome" in inp
    ensures Checks(w, receipt, inp, proof, m) <==> SomeStoryFits(w, receipt, inp, proof, m)
  {
    hide Fits, BindingOk, DrawsOk, DerivationOf, PreimageOk;
    if Checks(w, receipt, inp, proof, m) {
      var x, items := StoryOfChecks(w, receipt, inp, proof, m);
    }
    if SomeStoryFits(w, receipt, inp, proof, m) {
      var x, items :| Fits(w, receipt, inp, proof, x, items) && x.secret == m.secret
        && (m.sliceCommit.Some? && m.sliceCommit.value != "" ==> x.commit == m.sliceCommit.value);
      StoryChecks(w, receipt, inp, proof, m, x, items);
    }
  }

  lemma StoryChecks(w: World, receipt: Fields, inp: Fields, proof: Fields, m: Material, x: Story, items: seq<Item>)
    requires "target_player_id" in inp && "map" in inp && "position" in inp && "outcome" in inp
    requires Fits(w, receipt, inp, proof, x, items) && x.secret == m.secret
    requires m.sliceCommit.Some? && m.sliceCommit.value != "" ==> x.commit == m.sliceCommit.value
    ensures Checks(w, receipt, inp, proof, m)
  {
    hide Victim, VictimDid, NamesKill, BindsBase, Opens, BindingOk, Drawn, DrawsOk, DropsAs, DerivationOf,
         Preimage, DerivedSeed;
    VictimInFields(inp, x.did);
    KillInFields(w.h, receipt, inp, proof, x.preimage);
    PreimageIsGiven(w.h, receipt, inp, Preimage(proof));
    DrawsInFields(w, proof, x);
    DrawnDomain(w, proof, x);
    OpenedIsGiven(w.h, proof, x);
    OpeningInFields(w, inp, proof, x);
    SameBinding(w, inp, proof, x.commit, m);
    DropsInFields(w, inp, proof, x.secret, x.Seed(w.h), items);
  }

  lemma SameBinding(w: World, inp: Fields, proof: Fields, commit: string, m: Material)
    requires BindingOk(w, inp, proof, Material(Some(commit), m.secret)) && commit != ""
    requires m.sliceCommit.Some? && m.sliceCommit.value != "" ==> commit == m.sliceCommit.value
    ensures BindingOk(w, inp, proof, m)
  {
    hide VictimDid, RefCommit, EventDomain;
  }

  lemma StoryOfChecks(
    w: World, receipt: Fields, inp: Fields, proof: Fields, m: Material) returns (x: Story, items: seq<Item>)
    requires "target_player_id" in inp && "map" in inp && "position" in inp && "outcome" in inp
    requires Checks(w, receipt, inp, proof, m)
    ensures Fits(w, receipt, inp, proof, x, items) && x.secret == m.secret
    ensures m.sliceCommit.Some? && m.sliceCommit.value != "" ==> x.commit == m.sliceCommit.value
  {
    hide Victim, VictimDid, NamesKill, BindsBase, Opens, Drawn, DrawsOk, DropsAs, DerivationOf, Preimage, DerivedSeed;
    var expected := BoundCommit(w, inp, proof, m);
    hide BindingOk;
    PreimageIsGiven(w.h, receipt, inp, Preimage(proof));
    var did, preimage := VictimDid(inp).value, Preimage(proof).value.s;
    var bare := Story(did, 0, 0, 0, expected, m.secret, "", "", preimage);
    DrawsInFields(w, proof, bare);
    x := bare.(world := proof["world_id"].s, domain := proof["event_domain"].s);
    assert x.secret == m.secret && x.preimage == preimage && x.did == did && x.commit == expected;
    DrawsInFields(w, proof, x);
    DrawnDomain(w, proof, x);
    VictimInFields(inp, did);
    KillInFields(w.h, receipt, inp, proof, preimage);
    OpeningInFields(w, inp, proof, x);
    items := DerivationInFields(w, inp, proof, m.secret, x.Seed(w.h));
  }

  lemma BoundCommit(w: World, inp: Fields, proof: Fields, m: Material) returns (commit: string)
    requires BindingOk(w, inp, proof, m)
    ensures VictimDid(inp).Some? && commit != "" && BindingOk(w, inp, proof, Material(Some(commit), m.secret))
    ensures m.sliceCommit.Some? && m.sliceCommit.value != "" ==> commit == m.sliceCommit.value
  {
    hide VictimDid, RefCommit, EventDomain, CommitV1Text;
    commit := RngCommitV1(w.h, EventDomain(proof), VictimDid(inp).value, m.secret);
  }

  /** The status of a version-2 proof in facts, for each thing a slice can show.  The secret
      is the one the slice publishes, or without a slice the one the caller gives. */
  lemma V2StatusInFacts(w: World, receipt: Fields, inp: Fields, proof: Fields, ctx: Context, view: View)
    requires "target_player_id" in inp && "map" in inp && "position" in inp && "outcome" in inp
    ensures var status := StatusOf(w, receipt, inp, proof, ctx, view);
      var kill, signed := NamesSomeKill(w.h, receipt, inp, proof), SignatureStands(w, receipt, ctx);
      match view
      case Refuted(_) => status == Failed
      case Pending => status == if kill && signed then ReplayConsistent else Failed
      case NoSlice =>
        status == (
          if ctx.revealSeed.None? || ctx.revealSeed.value == "" then
            (if kill && signed then ReplayConsistent else Failed)
          else if signed && SomeStoryFits(w, receipt, inp, proof, Material(None, ctx.revealSeed.value)) then
            RngConsistent
          else Failed)
      case Ordered(authenticated, commit, secret) =>
        status == (
          if !signed || !SomeStoryFits(w, receipt, inp, proof, Material(Some(commit), secret)) then Failed
          else if authenticated then Verified
          else RngConsistent)
  {
    AuthenticityInFields(w, receipt, ctx);
    PreimageInFields(w, receipt, inp, proof);
    hide SomeStoryFits, NamesSomeKill, SignatureStands, Authenticity, PreimageOk, BindingOk, DrawsOk, DerivationOf;
    if MaterialOf(view, ctx).Some? { ChecksInFields(w, receipt, inp, proof, MaterialOf(view, ctx).value); }
  }

  // ----- the reasons of a version-2 proof -----

  /** The secret opens the commitment the proof refers to, and the one of the slice. */
  ghost predicate SecretBinds(h: HashFunction, inp: Fields, proof: Fields, m: Material) {
    exists did :: Victim(inp, did) && BindsAs(h, proof, did, m)
  }

  predicate BindsAs(h: HashFunction, proof: Fields, did: string, m: Material) {
    var domain := if Says(proof, "event_domain") then proof["event_domain"].s else "death_drop:v1";
    var commit := "blake3:" + h("akalynth:rng:commit:v1\0" + Print(true, Obj(map[
      "v" := Num("1"), "domain" := Str(domain), "actor" := Str(did), "reveal" := Str(m.secret)])));
    && "precommit_ref" in proof && proof["precommit_ref"].Obj?
    && Get(proof["precommit_ref"].fields, "commit") == Some(Str(commit))
    && (m.sliceCommit.Some? && m.sliceCommit.value != "" ==> m.sliceCommit.value == commit)
  }

  lemma BindingInFields(w: World, inp: Fields, proof: Fields, m: Material)
    ensures BindingOk(w, inp, proof, m) <==> SecretBinds(w.h, inp, proof, m)
  {
    forall did ensures Victim(inp, did) <==> VictimDid(inp) == Some(did) { VictimInFields(inp, did); }
    hide Victim, VictimDid, Print;
    if VictimDid(inp).Some? { assert Victim(inp, VictimDid(inp).value); }
  }

  /** The seed the secret gives with the parts the proof names. */
  ghost predicate SeedIs(h: HashFunction, proof: Fields, secret: string, seed: string) {
    && Says(proof, "world_id") && Says(proof, "event_domain") && Says(proof, "event_preimage_hash")
    && seed == "blake3:" + h("akalynth:rng:v2:derive\0" + secret + proof["world_id"].s + proof["event_domain"].s
                             + proof["event_preimage_hash"].s)
  }

  ghost predicate DrawsFollow(w: World, proof: Fields, secret: string) {
    && "rng_out" in proof && proof["rng_out"].Arr?
    && exists seed :: SeedIs(w.h, proof, secret, seed)
         && forall i | 0 <= i < |proof["rng_out"].items| :: proof["rng_out"].items[i] == Num(NatText(w.draw(seed, i)))
  }

  ghost predicate OutcomeFollows(w: World, inp: Fields, proof: Fields, secret: string) {
    exists seed, items :: SeedIs(w.h, proof, secret, seed) && DropsAs(w, inp, proof, seed, items)
  }

  lemma SeedInFields(w: World, proof: Fields, secret: string, seed: string)
    ensures DerivedSeed(w, proof, secret) == Some(seed) <==> SeedIs(w.h, proof, secret, seed)
  {
  }

  lemma FollowInFields(w: World, inp: Fields, proof: Fields, secret: string)
    ensures DrawsOk(w, proof, secret) <==> DrawsFollow(w, proof, secret)
    ensures DerivationOf(w, inp, proof, secret) == Derives <==> OutcomeFollows(w, inp, proof, secret)
  {
    forall seed ensures DerivedSeed(w, proof, secret) == Some(seed) <==> SeedIs(w.h, proof, secret, seed) {
      SeedInFields(w, proof, secret, seed);
    }
    if DerivedSeed(w, proof, secret).Some? {
      var seed := DerivedSeed(w, proof, secret).value;
      assert SeedIs(w.h, proof, secret, seed);
      if DerivationOf(w, inp, proof, secret) == Derives {
        var items := DerivationInFields(w, inp, proof, secret, seed);
      }
      forall items | DropsAs(w, inp, proof, seed, items) ensures DerivationOf(w, inp, proof, secret) == Derives {
        DropsInFields(w, inp, proof, secret, seed, items);
      }
    }
    hide SeedIs, DerivedSeed, DropsAs, NatText, AreItems;
  }

  function KeyGiven(ctx: Context): Option<string> {
    if ctx.signingKey.Some? && ctx.signingKey.value != "" then ctx.signingKey
    else if ctx.authKey.Some? && ctx.authKey.value != "" then ctx.authKey
    else None
  }

  predicate SignatureRecorded(receipt: Fields) {
    Says(receipt, "prev_hash") && Says(receipt, "event_hash") && Says(receipt, "signature")
  }

  /** What the reasons about hash and signature say. */
  lemma HashAndSignatureReasons(w: World, receipt: Fields, inp: Fields, proof: Fields, ctx: Context, view: View)
    requires "target_player_id" in inp && "map" in inp && "position" in inp && "outcome" in inp
    requires view.Refuted? ==> SaysWhy(view.why)
    ensures var r, key := ReasonsOf(w, receipt, inp, proof, ctx, view), KeyGiven(ctx);
      && (MISSING_EVENT_PREIMAGE_HASH in r <==> !Says(proof, "event_preimage_hash"))
      && (EVENT_PREIMAGE_HASH_MISMATCH in r <==>
            Says(proof, "event_preimage_hash") && !NamesSomeKill(w.h, receipt, inp, proof))
      && (PRECOMMIT_MISSING in r <==> !("precommit_ref" in proof && proof["precommit_ref"].Obj?))
      && (RECEIPT_SIGNATURE_NOT_CHECKED in r <==> key.None?)
      && (RECEIPT_SIGNATURE_FIELDS_MISSING in r <==> key.Some? && !SignatureRecorded(receipt))
      && (RECEIPT_SIGNATURE_INVALID in r <==>
            key.Some? && SignatureRecorded(receipt) && !SignedBy(w, receipt, key.value))
      && (RECEIPT_SIGNATURE_LEGACY_AUTH_KEY in r <==> key.Some? && SignatureRecorded(receipt) && key != ctx.signingKey)
  {
    hide NamesSomeKill, SignedBy, ReasonsOf, SecretNotes, PreimageNotes, SignatureNotes, Says, ViewStatus,
         KeyGiven, SignatureRecorded;
    HashParts(w, receipt, inp, proof, ctx, view);
    PreimageNotesAre(w, receipt, inp, proof);
    SignatureNotesAre(w, receipt, ctx);
  }

  predicate IsSliceCode(c: Code) {
    || SaysWhy(c) || c in {ORDERING_NOT_CHAIN_PROVEN, REVEAL_NOT_PUBLISHED, SLICE_NOT_AUTHENTICATED}
    || c in {PRECOMMIT_COMMIT_MISMATCH, RNG_OUTPUT_MISMATCH, OUTCOME_MISMATCH}
  }

  lemma HashParts(w: World, receipt: Fields, inp: Fields, proof: Fields, ctx: Context, view: View)
    requires view.Refuted? ==> SaysWhy(view.why)
    ensures forall c | !IsSliceCode(c) :: c in ReasonsOf(w, receipt, inp, proof, ctx, view) <==>
      || c in PreimageNotes(w, receipt, inp, proof) || c in SignatureNotes(w, receipt, ctx)
      || (c == PRECOMMIT_MISSING && !("precommit_ref" in proof && proof["precommit_ref"].Obj?))
  {
    hide ReasonsOf, SecretNotes, PreimageNotes, SignatureNotes, ViewStatus;
    ReasonParts(w, receipt, inp, proof, ctx, view);
    SliceNotes(w, inp, proof, ctx, view);
  }

  /** The reasons come in five parts. */
  lemma ReasonParts(w: World, receipt: Fields, inp: Fields, proof: Fields, ctx: Context, view: View)
    ensures forall c :: c in ReasonsOf(w, receipt, inp, proof, ctx, view) <==>
      || c in PreimageNotes(w, receipt, inp, proof)
      || (c == PRECOMMIT_MISSING && !("precommit_ref" in proof && proof["precommit_ref"].Obj?))
      || c in ViewStatus(view).1 || c in SecretNotes(w, inp, proof, ctx, view) || c in SignatureNotes(w, receipt, ctx)
  {
    hide PreimageNotes, SecretNotes, SignatureNotes, ViewStatus;
  }

  /** The notes on slice and secret use codes of their own. */
  lemma SliceNotes(w: World, inp: Fields, proof: Fields, ctx: Context, view: View)
    requires view.Refuted? ==> SaysWhy(view.why)
    ensures forall c | c in ViewStatus(view).1 ::
      SaysWhy(c) || c in {ORDERING_NOT_CHAIN_PROVEN, REVEAL_NOT_PUBLISHED, SLICE_NOT_AUTHENTICATED}
    ensures forall c | c in SecretNotes(w, inp, proof, ctx, view) ::
      c in {REVEAL_NOT_PUBLISHED, PRECOMMIT_COMMIT_MISMATCH, RNG_OUTPUT_MISMATCH, OUTCOME_MISMATCH}
  {
    hide BindingOk, DrawsOk, DerivationOf, SaysWhy;
  }

  lemma PreimageNotesAre(w: World, receipt: Fields, inp: Fields, proof: Fields)
    requires "target_player_id" in inp && "map" in inp && "position" in inp && "outcome" in inp
    ensures forall c :: c in PreimageNotes(w, receipt, inp, proof) <==>
      || (c == MISSING_EVENT_PREIMAGE_HASH && !Says(proof, "event_preimage_hash"))
      || (c == EVENT_PREIMAGE_HASH_MISMATCH && Says(proof, "event_preimage_hash")
          && !NamesSomeKill(w.h, receipt, inp, proof))
  {
    PreimageInFields(w, receipt, inp, proof);
    hide NamesSomeKill, PreimageOk;
  }

  lemma SignatureNotesAre(w: World, receipt: Fields, ctx: Context)
    ensures var key := KeyGiven(ctx); forall c :: c in SignatureNotes(w, receipt, ctx) <==>
      || (c == RECEIPT_SIGNATURE_NOT_CHECKED && key.None?)
      || (c == RECEIPT_SIGNATURE_FIELDS_MISSING && key.Some? && !SignatureRecorded(receipt))
      || (c == RECEIPT_SIGNATURE_INVALID && key.Some? && SignatureRecorded(receipt) && !SignedBy(w, receipt, key.value))
      || (c == RECEIPT_SIGNATURE_LEGACY_AUTH_KEY && key.Some? && SignatureRecorded(receipt) && key != ctx.signingKey)
  {
    if KeyGiven(ctx).Some? { SignatureInFields(w, receipt, KeyGiven(ctx).value); }
    hide SignedBy, ReceiptSigned;
  }

  lemma SecretNotesAre(w: World, inp: Fields, proof: Fields, ctx: Context, view: View)
    ensures var m := MaterialOf(view, ctx); forall c :: c in SecretNotes(w, inp, proof, ctx, view) <==>
      || (c == REVEAL_NOT_PUBLISHED && !view.Refuted? && m.None?)
      || (c == PRECOMMIT_COMMIT_MISMATCH && m.Some? && !SecretBinds(w.h, inp, proof, m.value))
      || (c == RNG_OUTPUT_MISMATCH && m.Some? && !DrawsFollow(w, proof, m.value.secret))
      || (c == OUTCOME_MISMATCH && m.Some? && !OutcomeFollows(w, inp, proof, m.value.secret))
  {
    hide SecretBinds, DrawsFollow, OutcomeFollows, BindingOk, DrawsOk, DerivationOf;
    if MaterialOf(view, ctx).Some? {
      BindingInFields(w, inp, proof, MaterialOf(view, ctx).value);
      FollowInFields(w, inp, proof, MaterialOf(view, ctx).value.secret);
    }
  }

  /** The reasons a slice can be refused for. */
  predicate SaysWhy(why: Code) {
    why in {CHRONICLE_CHAIN_BROKEN, OUTCOME_EVENT_NOT_FOUND, PRECOMMIT_NOT_FOUND, PRECOMMIT_OUT_OF_ORDER,
            SLICE_SIGNATURE_INVALID}
  }

  /** What the reasons about slice and secret say. */
  lemma SliceAndSecretReasons(w: World, receipt: Fields, inp: Fields, proof: Fields, ctx: Context, view: View)
    requires view.Refuted? ==> SaysWhy(view.why)
    ensures var r, m := ReasonsOf(w, receipt, inp, proof, ctx, view), MaterialOf(view, ctx);
      && (forall why | SaysWhy(why) :: why in r <==> view == Refuted(why))
      && (ORDERING_NOT_CHAIN_PROVEN in r <==> view == NoSlice)
      && (SLICE_NOT_AUTHENTICATED in r <==> view.Ordered? && !view.authenticated)
      && (REVEAL_NOT_PUBLISHED in r <==> view == Pending || (view == NoSlice && m.None?))
      && (PRECOMMIT_COMMIT_MISMATCH in r <==> m.Some? && !SecretBinds(w.h, inp, proof, m.value))
      && (RNG_OUTPUT_MISMATCH in r <==> m.Some? && !DrawsFollow(w, proof, m.value.secret))
      && (OUTCOME_MISMATCH in r <==> m.Some? && !OutcomeFollows(w, inp, proof, m.value.secret))
    ensures MaterialOf(view, ctx) ==
      match view
      case NoSlice =>
        if ctx.revealSeed.Some? && ctx.revealSeed.value != "" then Some(Material(None, ctx.revealSeed.value)) else None
      case Ordered(_, commit, secret) => Some(Material(Some(commit), secret))
      case _ => None
  {
    hide SecretBinds, DrawsFollow, OutcomeFollows, ReasonsOf, SecretNotes, PreimageNotes, SignatureNotes;
    ReasonParts(w, receipt, inp, proof, ctx, view);
    OtherNotes(w, receipt, inp, proof, ctx);
    SecretNotesAre(w, inp, proof, ctx, view);
  }

  /** The notes on hash and signature use codes of their own. */
  lemma OtherNotes(w: World, receipt: Fields, inp: Fields, proof: Fields, ctx: Context)
    ensures forall c | c in PreimageNotes(w, receipt, inp, proof) ::
      c in {MISSING_EVENT_PREIMAGE_HASH, EVENT_PREIMAGE_HASH_MISMATCH}
    ensures forall c | c in SignatureNotes(w, receipt, ctx) ::
      c in {RECEIPT_SIGNATURE_NOT_CHECKED, RECEIPT_SIGNATURE_FIELDS_MISSING, RECEIPT_SIGNATURE_INVALID,
            RECEIPT_SIGNATURE_LEGACY_AUTH_KEY}
  {
    hide PreimageOk, ReceiptSigned;
  }

  // ----- receipts without a proof -----

  /** The recorded seed hash is that of the kill. */
  ghost predicate SeedNamesKill(h: HashFunction, receipt: Fields, inp: Fields)
    requires "target_player_id" in inp && "map" in inp && "position" in inp && "outcome" in inp
  {
    Get(inp, "drop_seed_hash") == Some(Str("blake3:" + h(Print(true, KillOf(receipt, inp)))))
  }

  /** The reveal opens the commitment, and the draws follow from it. */
  predicate Triple(w: World, receipt: Fields) {
    && Says(receipt, "rng_commit") && Says(receipt, "rng_reveal") && "rng_out" in receipt && receipt["rng_out"].Arr?
    && receipt["rng_commit"].s == "blake3:" + w.h("akalynth:rng:commit:v1\0" + receipt["rng_reveal"].s)
    && forall i | 0 <= i < |receipt["rng_out"].items| ::
         receipt["rng_out"].items[i] == Num(NatText(w.draw(receipt["rng_reveal"].s, i)))
  }

  /** A receipt without a proof fails on a wrong seed hash or a triple that does not fit, is
      "rng_consistent" with a triple that does, and "replay_consistent" without one. */
  lemma PlainStatusInFacts(w: World, receipt: Fields, inp: Fields)
    requires "target_player_id" in inp && "map" in inp && "position" in inp && "outcome" in inp
    ensures var whole := {"rng_commit", "rng_reveal", "rng_out"} <= receipt.Keys;
      PlainResult(w, receipt, inp).final ==
        if !SeedNamesKill(w.h, receipt, inp) || (whole && !Triple(w, receipt)) then Failed
        else if whole then RngConsistent else ReplayConsistent
  {
    assert BaseObject(receipt, inp) == KillOf(receipt, inp);
    if {"rng_commit", "rng_reveal", "rng_out"} <= receipt.Keys { TripleInFields(w, receipt); }
    hide Print, BaseObject, KillOf, TripleOk, TripleNotes, Triple;
  }

  lemma TripleInFields(w: World, receipt: Fields)
    requires {"rng_commit", "rng_reveal", "rng_out"} <= receipt.Keys
    ensures TripleOk(w, Get(receipt, "rng_commit"), Get(receipt, "rng_reveal"), Get(receipt, "rng_out"))
      <==> Triple(w, receipt)
  {
    hide NatText;
  }

  // ----- version-1 proofs -----

  ghost predicate BodyNamesKill(h: HashFunction, receipt: Fields, inp: Fields, proof: Fields)
    requires "target_player_id" in inp && "map" in inp && "position" in inp && "outcome" in inp
  {
    var hash := "blake3:" + h(Print(true, KillOf(receipt, inp)));
    Get(proof, "receipt_body_hash") == Some(Str(hash)) && Get(inp, "drop_seed_hash") == Some(Str(hash))
  }

  predicate SeedDraws(w: World, proof: Fields) {
    && Says(proof, "reveal_seed") && "rng_out" in proof && proof["rng_out"].Arr?
    && forall i | 0 <= i < |proof["rng_out"].items| ::
         proof["rng_out"].items[i] == Num(NatText(w.draw(proof["reveal_seed"].s, i)))
  }

  /** A commitment that cannot be opened here: its scheme binds it to the death event. */
  predicate Deferred(proof: Fields) {
    Says(proof, "rng_commit") && Get(proof, "rng_commit_scheme") == Some(Str("death_drop:v1"))
  }

  predicate CommitFits(h: HashFunction, proof: Fields)
    requires Says(proof, "reveal_seed")
  {
    Says(proof, "rng_commit") && !Deferred(proof) ==>
      proof["rng_commit"].s == "blake3:" + h("akalynth:rng:commit:v1\0" + proof["reveal_seed"].s)
  }

  /** The drops follow from the listed items, or from a committed inventory the caller opens. */
  ghost predicate DropsFollow(w: World, inp: Fields, proof: Fields, ctx: Context) {
    && HasText(proof, "reveal_seed")
    && exists inputs, items ::
         && DerivesFrom(proof, inputs) && DropsFrom(w, inp, inputs, proof["reveal_seed"].s, items)
         && if "items" in inputs then ListsAll(Get(inputs, "items"), items)
            else ctx.opening.Some? && items == ctx.opening.value.items && Get(inputs, "inventory_commit") == Some(Str(
              "blake3:" + w.h("akalynth:rng:inv:v1" + ctx.opening.value.salt + Print(true, ItemsJson(items)))))
  }

  /** The inventory is committed and the caller does not open it. */
  ghost predicate StaysClosed(proof: Fields, ctx: Context) {
    exists inputs :: DerivesFrom(proof, inputs) && "items" !in inputs && "inventory_commit" in inputs
      && ctx.opening.None?
  }

  lemma V1DropsInFields(w: World, inp: Fields, proof: Fields, ctx: Context)
    ensures V1DerivationOf(w, inp, proof, ctx) == V1Status(Pass) <==> DropsFollow(w, inp, proof, ctx)
    ensures V1DerivationOf(w, inp, proof, ctx) == V1Status(Unsupported) <==> StaysClosed(proof, ctx)
  {
    hide DropsFrom, DerivationFrom, ListsAll, AreItems, ItemsOf, ItemsJson, Print;
    if IsObject(DerivationInputs(proof)) {
      var inputs := DerivationInputs(proof).value.fields;
      assert DerivesFrom(proof, inputs);
      var raw := Get(inputs, "items");
      if raw.Some? {
        forall items
          ensures AreItems(raw) && ItemsOf(raw.value) == items <==> ListsAll(raw, items)
        {
          ListInFields(raw, items);
        }
      }
      if HasText(proof, "reveal_seed") {
        forall items
          ensures DerivationFrom(w, inp, inputs, items, proof["reveal_seed"].s) == Derives
            <==> DropsFrom(w, inp, inputs, proof["reveal_seed"].s, items)
        {
          OutcomeInFields(w, inp, inputs, proof["reveal_seed"].s, items);
        }
      }
    } else {
      forall inputs ensures !DerivesFrom(proof, inputs) {}
    }
  }

  /** A version-1 proof of a loot drop fails on a wrong body hash, draws that do not follow
      from the seed, a commitment the seed does not open, or drops that do not follow; it
      is "rng_consistent" unless its commitment is deferred. */
  lemma V1StatusInFacts(w: World, receipt: Fields, inp: Fields, ctx: Context)
    requires "target_player_id" in inp && "map" in inp && "position" in inp && "outcome" in inp
    requires "rng_proof" in inp && inp["rng_proof"].Obj?
    requires Get(inp["rng_proof"].fields, "outcome_type") == Some(Str("loot_drop"))
    requires V1Outcome(w, receipt, inp, ctx).Returned?
    ensures var proof := inp["rng_proof"].fields;
      V1Outcome(w, receipt, inp, ctx).result.final ==
        if !BodyNamesKill(w.h, receipt, inp, proof) || !SeedDraws(w, proof) || !CommitFits(w.h, proof)
           || !(DropsFollow(w, inp, proof, ctx) || StaysClosed(proof, ctx)) then Failed
        else if Deferred(proof) then ReplayConsistent
        else RngConsistent
  {
    var proof := inp["rng_proof"].fields;
    V1DropsInFields(w, inp, proof, ctx);
    V1CommitInFields(w, proof);
    V1BodyInFields(w.h, receipt, inp, proof);
    V1Statuses(w, inp, proof, ctx);
    hide V1DerivationOf, V1CommitReveal, BindsBase, BodyNamesKill, SeedDraws, CommitFits, DropsFollow,
         StaysClosed, Deferred, Says, BodyNotes, V1CommitNotes, V1DerivationNotes;
  }

  lemma V1BodyInFields(h: HashFunction, receipt: Fields, inp: Fields, proof: Fields)
    requires "target_player_id" in inp && "map" in inp && "position" in inp && "outcome" in inp
    ensures BindsBase(h, receipt, inp, Get(proof, "receipt_body_hash")) <==> BodyNamesKill(h, receipt, inp, proof)
  {
    SameKillObject(receipt, inp);
    hide Print, BaseObject, KillOf;
  }

  lemma SameKillObject(receipt: Fields, inp: Fields)
    requires "target_player_id" in inp && "map" in inp && "position" in inp && "outcome" in inp
    ensures BaseObject(receipt, inp) == KillOf(receipt, inp)
  {
  }

  lemma V1CommitInFields(w: World, proof: Fields)
    ensures SeedDraws(w, proof) ==> Says(proof, "reveal_seed")
    ensures V1CommitReveal(w, proof) ==
      if !SeedDraws(w, proof) || !CommitFits(w.h, proof) then Fail else if Deferred(proof) then Unsupported else Pass
  {
    hide NatText;
  }

  // ----- the reasons of the lesser receipts -----

  const INPUTS: seq<(string, Code)> := [
    ("target_player_id", MISSING_TARGET_PLAYER_ID), ("map", MISSING_MAP), ("position", MISSING_POSITION),
    ("outcome", MISSING_OUTCOME), ("dropped_item_ids", MISSING_DROPPED_ITEM_IDS),
    ("drop_seed_hash", MISSING_DROP_SEED_HASH)]

  /** Each of the six inputs has its own reason, given exactly when it is missing. */
  lemma ShapeReasonsInFacts(inputs: Fields)
    ensures forall k | 0 <= k < |INPUTS| :: INPUTS[k].1 in ShapeNotes(Some(Obj(inputs))) <==> INPUTS[k].0 !in inputs
    ensures ShapeNotes(None) == [MISSING_INPUTS_OBJECT]
  {
    forall k | 0 <= k < |INPUTS| ensures INPUTS[k].1 in ShapeNotes(Some(Obj(inputs))) <==> INPUTS[k].0 !in inputs {
      assert k == 0 || k == 1 || k == 2 || k == 3 || k == 4 || k == 5;
    }
  }

  predicate DrawnFrom(w: World, seed: string, outs: seq<Json>) {
    forall i | 0 <= i < |outs| :: outs[i] == Num(NatText(w.draw(seed, i)))
  }

  /** The reasons about a triple that stands in the receipt itself. */
  lemma TripleReasonsInFacts(w: World, receipt: Fields)
    ensures var r := TripleNotes(w, Get(receipt, "rng_commit"), Get(receipt, "rng_reveal"), Get(receipt, "rng_out"));
      var outs := "rng_out" in receipt && receipt["rng_out"].Arr?;
      var whole := Says(receipt, "rng_commit") && Says(receipt, "rng_reveal") && outs;
      && (MISSING_RNG_COMMIT in r <==> !Says(receipt, "rng_commit"))
      && (MISSING_RNG_SEED in r <==> !Says(receipt, "rng_reveal")) && (MISSING_RNG_OUTPUT in r <==> !outs)
      && (COMMIT_MISMATCH in r <==>
            whole && receipt["rng_commit"].s != "blake3:" + w.h("akalynth:rng:commit:v1\0" + receipt["rng_reveal"].s))
      && (RNG_OUTPUT_MISMATCH in r <==> whole && !DrawnFrom(w, receipt["rng_reveal"].s, receipt["rng_out"].items))
  {
    hide NatText;
  }

  /** The reasons about the commitment and the draws of a version-1 proof. */
  lemma V1CommitReasonsInFacts(w: World, proof: Fields)
    ensures var r := V1CommitNotes(w, proof);
      var outs := "rng_out" in proof && proof["rng_out"].Arr?;
      var whole := Says(proof, "reveal_seed") && outs;
      && (MISSING_RNG_REVEAL_SEED in r <==> !Says(proof, "reveal_seed")) && (MISSING_RNG_OUTPUT in r <==> !outs)
      && (LEGACY_PRECOMMIT_UNBOUND in r <==> whole && Deferred(proof))
      && (COMMIT_MISMATCH in r <==> whole && !CommitFits(w.h, proof))
      && (RNG_OUTPUT_MISMATCH in r <==> whole && !DrawnFrom(w, proof["reveal_seed"].s, proof["rng_out"].items))
  {
    hide NatText;
  }

  /** And about its body hash and its drops. */
  lemma V1DropReasonsInFacts(w: World, receipt: Fields, inp: Fields, proof: Fields, ctx: Context)
    requires "target_player_id" in inp && "map" in inp && "position" in inp && "outcome" in inp
    ensures var b := BodyNotes(w, receipt, inp, proof);
      && (MISSING_RECEIPT_BODY_HASH in b <==> !Says(proof, "receipt_body_hash"))
      && (RECEIPT_BODY_HASH_MISMATCH in b <==>
            Says(proof, "receipt_body_hash") && !BodyNamesKill(w.h, receipt, inp, proof))
    ensures V1DerivationOf(w, inp, proof, ctx) != V1Throws ==>
      var d := V1DerivationNotes(w, inp, proof, ctx);
      && (COMMITTED_NOT_OPENED in d <==> StaysClosed(proof, ctx))
      && (d == [] <==> DropsFollow(w, inp, proof, ctx))
      && (INVENTORY_COMMIT_MISMATCH in d ==> ctx.opening.Some? && !DropsFollow(w, inp, proof, ctx))
  {
    V1BodyInFields(w.h, receipt, inp, proof);
    V1DropsInFields(w, inp, proof, ctx);
    V1Statuses(w, inp, proof, ctx);
    hide BindsBase, BodyNamesKill, V1DerivationOf, DropsFollow, StaysClosed;
  }
}
