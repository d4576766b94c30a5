/** The inventory of a "verified" receipt, which its slice and signature leave open, and
    the facts of the kill that its seed hash fixes. */
module Vouching {
  import opened Json
  import opened CanonicalText
  import opened Hashing
  import opened Rng
  import opened VerifyOutcome
  import opened VerifyV2
  import opened Verifier
  import DropPolicy

  // ----- the inventory is open -----

  /** The same proof over an empty inventory. */
  function WithoutItems(proof: Fields): Fields {
    proof["derivation" := Obj(map["inputs" := Obj(map["items" := Arr([]), "reputation" := Num("0"),
      "map" := Str("Azura")])])]
  }

  /** The same receipt, hashes and signature included, saying that nothing was carried and nothing dropped. */
  function EmptiedInputs(inp: Fields, proof: Fields): Fields {
    inp["dropped_item_ids" := Arr([])]["rng_proof" := Obj(WithoutItems(proof))]
  }

  function Emptied(receipt: Fields): Fields
    requires HasV2Drop(receipt)
  {
    var inp := receipt["inputs"].fields;
    receipt["inputs" := Obj(EmptiedInputs(inp, inp["rng_proof"].fields))]
  }

  lemma EmptyDerives(w: World, inp: Fields, proof: Fields, secret: string)
    requires DrawsOk(w, proof, secret)
    ensures DerivationOf(w, EmptiedInputs(inp, proof), WithoutItems(proof), secret) == Derives
  {
    hide DerivedSeed, DrawsMatch, DropPolicy.Select, DropPolicy.DropCount;
    SameProofParts(proof);
    SameSeed(w, proof, secret);
    var inputs := DerivationInputs(WithoutItems(proof)).value.fields;
    assert inputs["items"] == Arr([]) && AreItems(Get(inputs, "items")) && ItemsOf(inputs["items"]) == [];
  }

  lemma SameProofParts(proof: Fields)
    ensures var q := WithoutItems(proof);
      && Preimage(q) == Preimage(proof) && RefCommit(q) == RefCommit(proof) && EventDomain(q) == EventDomain(proof)
      && Get(q, "rng_out") == Get(proof, "rng_out") && IsLootDrop(q) == IsLootDrop(proof)
      && Get(q, "version") == Get(proof, "version")
  {
  }

  lemma SameSeed(w: World, proof: Fields, secret: string)
    ensures DerivedSeed(w, WithoutItems(proof), secret) == DerivedSeed(w, proof, secret)
  {
    hide RngDeriveSeedV2;
  }

  lemma EmptiedReads(receipt: Fields)
    requires HasV2Drop(receipt)
    ensures var inp := receipt["inputs"].fields; var proof := inp["rng_proof"].fields; var f := Emptied(receipt);
      && HasV2Drop(f) && f["inputs"].fields == EmptiedInputs(inp, proof)
      && f["inputs"].fields["rng_proof"].fields == WithoutItems(proof)
      && forall k | k != "inputs" :: Get(f, k) == Get(receipt, k)
  {
    SameProofParts(receipt["inputs"].fields["rng_proof"].fields);
  }

  lemma EmptiedAnchors(
    w: World, inp: Fields, proof: Fields, ctx: Context, c: nat, d: nat, r: nat, commit: string, secret: string)
    requires VictimDid(inp).Some? && Anchors(w, inp, proof, ctx, c, d, r, commit, secret)
    ensures VictimDid(EmptiedInputs(inp, proof)) == VictimDid(inp)
    ensures Anchors(w, EmptiedInputs(inp, proof), WithoutItems(proof), ctx, c, d, r, commit, secret)
  {
    SameProofParts(proof);
    SameSeed(w, proof, secret);
    EmptyDerives(w, inp, proof, secret);
    SameInputParts(inp, proof);
    hide EmptiedInputs, WithoutItems, OrderedBy, DrawsMatch, DerivationOf, DerivedSeed, RefCommit,
         EventDomain, Preimage, RngCommitV1;
  }

  lemma SameInputParts(inp: Fields, proof: Fields)
    ensures var f := EmptiedInputs(inp, proof);
      VictimDid(f) == VictimDid(inp) && Get(f, "drop_seed_hash") == Get(inp, "drop_seed_hash")
  {
  }

  lemma EmptiedEvidence(w: World, receipt: Fields, inp: Fields, proof: Fields, ctx: Context)
    requires V2Evidence(w, receipt, inp, proof, ctx)
    ensures V2Evidence(w, receipt["inputs" := Obj(EmptiedInputs(inp, proof))], EmptiedInputs(inp, proof),
      WithoutItems(proof), ctx)
  {
    SameBase(w.h, receipt, inp, proof);
    SameProofParts(proof);
    SameInputParts(inp, proof);
    hide BaseObject, Print, EmptiedInputs, WithoutItems, Anchors, Authentic, Preimage, VictimDid, AllEntries;
    var c, d, r, commit, secret :| Anchors(w, inp, proof, ctx, c, d, r, commit, secret);
    EmptiedAnchors(w, inp, proof, ctx, c, d, r, commit, secret);
  }

  /** A verified receipt stays verified, under the same hashes and signature, when the
      inventory and the dropped ids it records are emptied: the signature covers the
      recorded hash of the receipt, and nothing compares that hash with the receipt. */
  lemma InventoryIsNotVouchedFor(w: World, receipt: Fields, ctx: Context)
    requires Evidence(w, Obj(receipt), ctx)
    ensures HasV2Drop(receipt) && Evidence(w, Obj(Emptied(receipt)), ctx)
    ensures forall k | k != "inputs" :: Get(Emptied(receipt), k) == Get(receipt, k)
  {
    hide V2Evidence, EmptiedInputs, WithoutItems, ShapeOk, HasV2Proof, IsLootDrop;
    EvidenceIs(w, receipt, ctx);
    DropHasProof(receipt);
    EvidenceIs(w, Emptied(receipt), ctx);
    EmptiedReads(receipt);
    var inp := receipt["inputs"].fields;
    EmptiedEvidence(w, receipt, inp, inp["rng_proof"].fields, ctx);
  }

  lemma DropHasProof(receipt: Fields)
    requires HasV2Drop(receipt)
    ensures "inputs" in receipt && receipt["inputs"].Obj?
    ensures "rng_proof" in receipt["inputs"].fields && receipt["inputs"].fields["rng_proof"].Obj?
  {
  }

  lemma EvidenceIs(w: World, f: Fields, ctx: Context)
    ensures Evidence(w, Obj(f), ctx) <==>
      && Get(f, "action") == Some(Str("combat_resolved")) && HasV2Drop(f)
      && V2Evidence(w, f, f["inputs"].fields, f["inputs"].fields["rng_proof"].fields, ctx)
  {
    hide V2Evidence, IsLootDrop;
  }

  lemma SameBase(h: HashFunction, receipt: Fields, inp: Fields, proof: Fields)
    ensures BaseObject(receipt["inputs" := Obj(EmptiedInputs(inp, proof))], EmptiedInputs(inp, proof))
      == BaseObject(receipt, inp)
  {
  }

  // ----- what an equal seed hash means -----

  /** The facts of a kill that enter the recorded seed hash. */
  predicate SameKill(a: Fields, inpA: Fields, b: Fields, inpB: Fields) {
    && Get(a, "actor_id") == Get(b, "actor_id") && Get(inpA, "target_player_id") == Get(inpB, "target_player_id")
    && Get(inpA, "map") == Get(inpB, "map") && Get(inpA, "position") == Get(inpB, "position")
    && Get(inpA, "outcome") == Get(inpB, "outcome")
  }

  /** Two verified receipts that record the same seed hash tell of the same kill.  This is
      the base hash's doing: no signature and no slice enters it, and receipts that
      record another seed hash are verified under the same signatures. */
  lemma SeedHashBindsKill(w: World, a: Fields, ctxA: Context, b: Fields, ctxB: Context)
    requires Evidence(w, Obj(a), ctxA) && Evidence(w, Obj(b), ctxB)
    requires Get(a["inputs"].fields, "drop_seed_hash") == Get(b["inputs"].fields, "drop_seed_hash")
    requires WellFormed(Obj(a)) && WellFormed(Obj(b))
    requires CollisionFree(w.h, {Print(true, BaseObject(a, a["inputs"].fields)),
      Print(true, BaseObject(b, b["inputs"].fields))})
    ensures SameKill(a, a["inputs"].fields, b, b["inputs"].fields)
  {
    hide Print, DerivationOf, OrderedBy;
    var inpA, inpB := a["inputs"].fields, b["inputs"].fields;
    var x, y := BaseObject(a, inpA), BaseObject(b, inpB);
    PrefixedInjective(w.h, {Print(true, x), Print(true, y)}, Print(true, x), Print(true, y));
    assert WellFormed(a["inputs"]) && WellFormed(b["inputs"]);
    BaseWellFormed(a, inpA);
    BaseWellFormed(b, inpB);
    PrintInjective(true, x, y);
    BaseFields(a, inpA);
    BaseFields(b, inpB);
  }

  lemma BaseWellFormed(receipt: Fields, inp: Fields)
    requires WellFormedFields(receipt) && WellFormedFields(inp)
    ensures WellFormed(BaseObject(receipt, inp))
  {
  }

  lemma BaseFields(receipt: Fields, inp: Fields)
    ensures var j := BaseObject(receipt, inp); var inputs := j.fields["inputs"].fields;
      && Get(j.fields, "actor_id") == Get(receipt, "actor_id")
      && Get(inputs, "target_player_id") == Get(inp, "target_player_id")
      && Get(inputs, "map") == Get(inp, "map") && Get(inputs, "position") == Get(inp, "position")
      && Get(inputs, "outcome") == Get(inp, "outcome")
  {
  }
}
