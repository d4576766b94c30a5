/** The kill that a "verified" receipt tells of.  The line signatures cover the recorded
    `canonical_json` of each line and the receipt's signature its recorded `event_hash`;
    neither recorded text is compared with the entry or the receipt it stands in.  So
    the signatures of one slice vouch for the history of every kill alike. */
module Exchange {
  import opened Json
  import opened Hashing
  import opened ChronicleChain
  import opened SignedLines
  import opened Writer
  import opened WriterTheorems
  import opened LogLines
  import opened VerifyOutcome
  import opened VerifyV2
  import opened Verifier
  import opened Honest
  import opened ServerVerdict
  import DropPolicy

  // ----- the lines of one log on the entries of another -----

  function RelinedAt(log: seq<Entry>, entries: seq<Entry>, i: nat): Json
    requires i < |log| == |entries|
  {
    EntryJson(log[i].(line := entries[i].line))
  }

  /** The entries of `log`, each with the line fields of the entry at its place in `entries`. */
  function Relined(log: seq<Entry>, entries: seq<Entry>): seq<Json>
    requires |log| == |entries|
  {
    seq(|log|, i requires 0 <= i < |log| => RelinedAt(log, entries, i))
  }

  lemma RelinedReads(log: seq<Entry>, entries: seq<Entry>)
    requires |log| == |entries|
    ensures AllEntries(Relined(log, entries)) && |EntriesOf(Relined(log, entries))| == |log|
    ensures forall i | 0 <= i < |log| :: EntriesOf(Relined(log, entries))[i] == log[i].(line := entries[i].line)
    ensures LogsAlike(LogJson(log), Relined(log, entries))
  {
    hide EntryJson, IsEntry, AsEntry;
    forall i | 0 <= i < |log|
      ensures IsEntry(Relined(log, entries)[i]) && AsEntry(Relined(log, entries)[i]) == log[i].(line := entries[i].line)
      ensures ReadAlike(LogJson(log)[i], Relined(log, entries)[i])
    {
      EntryRoundTrip(log[i]);
      EntryRoundTrip(log[i].(line := entries[i].line));
    }
  }

  /** Authentication looks at nothing but the line fields. */
  lemma SignedByLines(h: HashFunction, ed: Ed25519, a: seq<Entry>, b: seq<Entry>, key: string)
    requires |a| == |b| && SameLines(a, b) && AllSigned(h, ed, a, key)
    ensures AllSigned(h, ed, b, key)
  {
    hide VerifySignature;
    forall i | 0 <= i < |b| ensures SignedAt(h, ed, b, i, key) {
      assert SignedAt(h, ed, a, i, key) && a[i].line == b[i].line;
      if i > 0 { assert a[i - 1].line == b[i - 1].line; }
    }
  }

  lemma RelinedIsAuthentic(w: World, ctx: Context, log: seq<Entry>)
    requires AllEntries(ctx.chronicle) && Authentic(w, ctx) && |log| == |ctx.chronicle|
    ensures var other := ctx.(chronicle := Relined(log, EntriesOf(ctx.chronicle)));
      AllEntries(other.chronicle) && Authentic(w, other)
  {
    hide EntryJson, IsEntry, AsEntry, AllSigned, UsableKey, SameLines;
    var entries := EntriesOf(ctx.chronicle);
    RelinedReads(log, entries);
    var other := EntriesOf(Relined(log, entries));
    assert SameLines(entries, other) by { LinesAgree(entries, other); }
    SignedByLines(w.h, w.ed, entries, other, ctx.signingKey.value);
  }

  lemma LinesAgree(a: seq<Entry>, b: seq<Entry>)
    requires |a| == |b| && forall i | 0 <= i < |a| :: b[i].line == a[i].line
    ensures SameLines(a, b)
  {
  }

  // ----- the signature of one receipt on the body of another -----

  /** The three texts of a receipt signature. */
  datatype Signature = Signature(prevHash: string, eventHash: string, signature: string)

  predicate Signs(w: World, s: Signature, key: string) {
    && s.prevHash != "" && s.eventHash != "" && s.signature != ""
    && VerifySignature(w.ed, s.prevHash, s.eventHash, s.signature, key)
  }

  function Resigned(receipt: Fields, s: Signature): Fields {
    receipt["prev_hash" := Str(s.prevHash)]["event_hash" := Str(s.eventHash)]["signature" := Str(s.signature)]
  }

  lemma ResignedReads(w: World, receipt: Fields, s: Signature, key: string)
    requires Signs(w, s, key)
    ensures ReceiptSigned(w, Resigned(receipt, s), key)
    ensures forall k | k !in {"prev_hash", "event_hash", "signature"} :: Get(Resigned(receipt, s), k) == Get(receipt, k)
  {
    hide VerifySignature;
  }

  /** The receipt of the kill, under the given signature. */
  function ReceiptUnder(
    w: World, proverHeat: DropPolicy.HeatMap, c: Config, k: Kill, env: Envelope, s: Signature): Fields
    requires ProverDrops(w, proverHeat, k).Some?
  {
    Resigned(HonestReceipt(w, proverHeat, c, k, env).fields, s)
  }

  lemma ReadUnder(
    w: World, proverHeat: DropPolicy.HeatMap, c: Config, k: Kill, env: Envelope, s: Signature, key: string)
    requires Provable(w, proverHeat, k) && ProverDrops(w, proverHeat, k).Some? && Signs(w, s, key)
    ensures var f := ReceiptUnder(w, proverHeat, c, k, env, s);
      var proof := BuildProof(w, proverHeat, k, env);
      var inp := ReceiptInputs(w, k, ProverDrops(w, proverHeat, k).value.dropped, proof);
      && IsV2Drop(Obj(f)) && InputsOf(Obj(f)) == inp && ProofOf(Obj(f)) == proof
      && ReceiptSigned(w, f, key) && PreimageOk(w, f, inp, proof) && VictimDid(inp) == Some(Did(k.target))
  {
    hide ProverDrops, ReceiptInputs, BuildProof, BuildReceipt, Did, SeedHash, ReceiptSigned, IsLootDrop,
         VictimDid, BaseObject, Commit, Resigned, Signs, RefCommit, DerivationInputs, ProofInputs,
         LookupsAgree;
    var proof, dropped := BuildProof(w, proverHeat, k, env), ProverDrops(w, proverHeat, k).value.dropped;
    var inp := ReceiptInputs(w, k, dropped, proof);
    var receipt := BuildReceipt(w, c.sign, k, env, dropped, proof);
    var f := Resigned(receipt, s);
    ReadProof(w, proverHeat, k, env);
    ReadInputs(w, k, dropped, proof);
    ReadReceipt(w, c.sign, k, env, dropped, proof);
    ResignedReads(w, receipt, s, key);
    assert Get(f, "inputs") == Some(Obj(inp)) && Get(f, "action") == Some(Str("combat_resolved"));
    assert Get(f, "actor_id") == Some(Str(k.killer));
    BaseObjectIs(k, f, inp);
    BasePrinted(w.h, k, f, inp);
    DidOf(inp, k.target);
  }

  // ----- the kill -----

  /** The slice that shows the history of the kill under the lines of `ctx`. */
  function ContextUnder(ctx: Context, c: Config, specs: seq<EventSpec>): Context
    requires AllEntries(ctx.chronicle) && |Log(c, FRESH, specs)| == |ctx.chronicle|
  {
    ctx.(chronicle := Relined(Log(c, FRESH, specs), EntriesOf(ctx.chronicle)))
  }

  lemma HistoryShowsUnder(
    w: World, ctx: Context, c: Config, k: Kill, specs: seq<EventSpec>, i: nat, d: nat, r: nat)
    requires w.h == c.h && History(w.h, k, specs, i, d, r) && k.secret != ""
    requires AllEntries(ctx.chronicle) && |specs| == |ctx.chronicle|
    ensures |Log(c, FRESH, specs)| == |ctx.chronicle|
    ensures var other := ContextUnder(ctx, c, specs);
      AllEntries(other.chronicle) && OrderedBy(w, other, SeedHash(w.h, k), Did(k.target), i, d, r, Commit(w.h, k),
        k.secret)
  {
    hide RunJson, Log, Commit, SeedHash, Did, ShowsOrder, History, CommitAt, SecretAt, EntryJson, AsEntry, IsEntry;
    RunLength(c, FRESH, specs);
    var log, other := Log(c, FRESH, specs), ContextUnder(ctx, c, specs);
    HistoryShows(w, k, c, specs, i, d, r);
    RelinedReads(log, EntriesOf(ctx.chronicle));
    assert RunJson(c, specs) == LogJson(log) by { RunIsLog(c, specs); }
    OrderIgnoresLine(w, LogJson(log), other.chronicle, SeedHash(w.h, k), Did(k.target), i, d, r);
    EntriesAreLog(c, specs);
    PositionsInside(w.h, k, specs, i, d, r);
    PayloadReads(log[i], EntriesOf(other.chronicle)[i]);
    PayloadReads(log[r], EntriesOf(other.chronicle)[r]);
  }

  lemma RunIsLog(c: Config, specs: seq<EventSpec>)
    ensures RunJson(c, specs) == LogJson(Log(c, FRESH, specs))
  {
  }

  lemma PositionsInside(h: HashFunction, k: Kill, specs: seq<EventSpec>, i: nat, d: nat, r: nat)
    requires History(h, k, specs, i, d, r)
    ensures i < d < r < |specs|
  {
  }

  lemma PayloadReads(x: Entry, y: Entry)
    requires y == x.(line := y.line)
    ensures CommitAt(y) == CommitAt(x) && SecretAt(y) == SecretAt(x)
  {
  }

  /** Under the line signatures of any authentic slice, and any signature of two
      non-empty texts, every kill with a history of as many events is "verified": no
      signature of a line or of a receipt has to be made for it. */
  lemma AnyKillUnderOneSignature(
    w: World, proverHeat: DropPolicy.HeatMap, c: Config, k: Kill, env: Envelope,
    specs: seq<EventSpec>, i: nat, d: nat, r: nat, ctx: Context, s: Signature)
    requires w.h == c.h && Provable(w, proverHeat, k) && History(w.h, k, specs, i, d, r)
    requires AllEntries(ctx.chronicle) && Authentic(w, ctx) && |specs| == |ctx.chronicle|
    requires Signs(w, s, ctx.signingKey.value)
    ensures ProverDrops(w, proverHeat, k).Some? && |Log(c, FRESH, specs)| == |ctx.chronicle|
    ensures Evidence(w, Obj(ReceiptUnder(w, proverHeat, c, k, env, s)), ContextUnder(ctx, c, specs))
  {
    hide RunJson, ProverDrops, ReceiptInputs, BuildProof, ReceiptUnder, History, Did, SeedHash, BindingOk,
         DrawsOk, DerivationOf, ReceiptSigned, OrderedBy, AllSigned, Commit, UsableKey, Signs, Log,
         AllEntries, IsV2Drop, PreimageOk, Relined, LookupsAgree, VictimDid;
    ProverDropsExist(w, proverHeat, k);
    RunLength(c, FRESH, specs);
    var proof := BuildProof(w, proverHeat, k, env);
    var inp := ReceiptInputs(w, k, ProverDrops(w, proverHeat, k).value.dropped, proof);
    var other := ContextUnder(ctx, c, specs);
    ReadUnder(w, proverHeat, c, k, env, s, ctx.signingKey.value);
    RelinedIsAuthentic(w, ctx, Log(c, FRESH, specs));
    HistoryShowsUnder(w, ctx, c, k, specs, i, d, r);
    assert Anchors(w, inp, proof, other, i, d, r, Commit(w.h, k), k.secret) by {
      HonestAnchors(w, proverHeat, k, env, other, i, d, r);
    }
    ShownIsEvidence(w, Obj(ReceiptUnder(w, proverHeat, c, k, env, s)), inp, proof, other, i, d, r, Commit(w.h, k),
      k.secret);
  }

  lemma HonestAnchors(
    w: World, proverHeat: DropPolicy.HeatMap, k: Kill, env: Envelope, ctx: Context, i: nat, d: nat, r: nat)
    requires Provable(w, proverHeat, k) && ProverDrops(w, proverHeat, k).Some?
    requires OrderedBy(w, ctx, SeedHash(w.h, k), Did(k.target), i, d, r, Commit(w.h, k), k.secret)
    ensures var proof := BuildProof(w, proverHeat, k, env);
      var inp := ReceiptInputs(w, k, ProverDrops(w, proverHeat, k).value.dropped, proof);
      VictimDid(inp).Some? && Anchors(w, inp, proof, ctx, i, d, r, Commit(w.h, k), k.secret)
  {
    hide ProverDrops, ReceiptInputs, BuildProof, Did, SeedHash, BindingOk, DrawsOk, DerivationOf, OrderedBy,
         Commit, VictimDid, RefCommit, DerivationInputs, ProofInputs, IsLootDrop, LookupsAgree;
    var proof, dropped := BuildProof(w, proverHeat, k, env), ProverDrops(w, proverHeat, k).value.dropped;
    var inp := ReceiptInputs(w, k, dropped, proof);
    ReadProof(w, proverHeat, k, env);
    ReadInputs(w, k, dropped, proof);
    DidOf(inp, k.target);
    HonestBinding(w, proverHeat, k, env, inp);
    HonestDraws(w, proverHeat, k, env);
    DropsDerive(w, proverHeat, k, env, inp);
    SeedHashIsNotEmpty(w.h, k);
  }

  lemma ShownIsEvidence(
    w: World, receipt: Json, inp: Fields, proof: Fields, ctx: Context, i: nat, d: nat, r: nat, commit: string,
    secret: string)
    requires IsV2Drop(receipt) && InputsOf(receipt) == inp && ProofOf(receipt) == proof
    requires PreimageOk(w, receipt.fields, inp, proof) && VictimDid(inp).Some?
    requires AllEntries(ctx.chronicle) && Authentic(w, ctx) && ReceiptSigned(w, receipt.fields, ctx.signingKey.value)
    requires Anchors(w, inp, proof, ctx, i, d, r, commit, secret)
    ensures Evidence(w, receipt, ctx)
  {
    hide Anchors, IsV2Drop, PreimageOk, VictimDid, AllEntries, Authentic, ReceiptSigned, InputsOf, ProofOf;
  }

  /** Commit, death and reveal of the kill, and then other events up to n. */
  function LongHistory(h: HashFunction, k: Kill, n: nat): seq<EventSpec>
    requires n >= 3
  {
    [CommitEvent(h, k), DeathEvent(h, k), PublishEvent(h, k)]
    + seq(n - 3, i => EventSpec("world_tick", "did:akalynth:world", "104", map[]))
  }

  /** So a kill has a history of every length from three on. */
  lemma EveryLengthHasHistory(h: HashFunction, k: Kill, n: nat)
    requires n >= 3
    ensures |LongHistory(h, k, n)| == n && History(h, k, LongHistory(h, k, n), 0, 1, 2)
  {
  }

  /** The signature a receipt carries. */
  function SignatureOf(receipt: Fields): Signature
    requires NonEmpty(Get(receipt, "prev_hash")) && NonEmpty(Get(receipt, "event_hash"))
    requires NonEmpty(Get(receipt, "signature"))
  {
    Signature(receipt["prev_hash"].s, receipt["event_hash"].s, receipt["signature"].s)
  }

  lemma EvidenceIsSigned(w: World, receipt: Fields, ctx: Context)
    requires Evidence(w, Obj(receipt), ctx)
    ensures AllEntries(ctx.chronicle) && Authentic(w, ctx)
    ensures NonEmpty(Get(receipt, "prev_hash")) && NonEmpty(Get(receipt, "event_hash"))
    ensures NonEmpty(Get(receipt, "signature"))
    ensures Signs(w, SignatureOf(receipt), ctx.signingKey.value)
  {
    hide Anchors, IsV2Drop, PreimageOk, VictimDid, AllEntries, Authentic, InputsOf, ProofOf, VerifySignature;
  }

  /** What is verified of one kill is verified of any other: killer, victim, map, place,
      inventory and the entries of the slice may all be exchanged while hashes,
      lines and signatures stay. */
  lemma KillIsNotVouchedFor(
    w: World, receipt: Fields, ctx: Context,
    proverHeat: DropPolicy.HeatMap, c: Config, k: Kill, env: Envelope, specs: seq<EventSpec>, i: nat, d: nat, r: nat)
    requires Evidence(w, Obj(receipt), ctx)
    requires w.h == c.h && Provable(w, proverHeat, k) && History(w.h, k, specs, i, d, r) && |specs| == |ctx.chronicle|
    ensures AllEntries(ctx.chronicle) && |Log(c, FRESH, specs)| == |ctx.chronicle|
    ensures ProverDrops(w, proverHeat, k).Some?
    ensures NonEmpty(Get(receipt, "prev_hash")) && NonEmpty(Get(receipt, "event_hash"))
    ensures NonEmpty(Get(receipt, "signature"))
    ensures Evidence(w, Obj(ReceiptUnder(w, proverHeat, c, k, env, SignatureOf(receipt))), ContextUnder(ctx, c, specs))
  {
    hide Evidence, Provable, History, ReceiptUnder, ContextUnder, Signs, ProverDrops, Log, AllEntries, Authentic;
    EvidenceIsSigned(w, receipt, ctx);
    AnyKillUnderOneSignature(w, proverHeat, c, k, env, specs, i, d, r, ctx, SignatureOf(receipt));
  }

  /** The signature of the first line, read as the signature of a receipt. */
  function FirstLine(ctx: Context): Signature
    requires AllEntries(ctx.chronicle) && ctx.chronicle != [] && HasLine(EntriesOf(ctx.chronicle)[0])
  {
    var line := EntriesOf(ctx.chronicle)[0].line;
    Signature(line.prevHash.value, line.eventHash.value, line.signature.value)
  }

  lemma FirstLineSigns(w: World, ctx: Context)
    requires AllEntries(ctx.chronicle) && Authentic(w, ctx) && ctx.chronicle != []
    ensures HasLine(EntriesOf(ctx.chronicle)[0])
    ensures FirstLine(ctx).eventHash != "" && FirstLine(ctx).signature != "" ==>
      Signs(w, FirstLine(ctx), ctx.signingKey.value)
  {
    hide VerifySignature, UsableKey, AsEntry;
    var entries := EntriesOf(ctx.chronicle);
    assert SignedAt(w.h, w.ed, entries, 0, ctx.signingKey.value);
  }

  /** Lines and receipts are signed over texts of one form, `prev|event`, so no signed
      receipt is needed: the first line of an authentic slice serves as one. */
  lemma FirstLineServesAsReceipt(
    w: World, ctx: Context,
    proverHeat: DropPolicy.HeatMap, c: Config, k: Kill, env: Envelope, specs: seq<EventSpec>, i: nat, d: nat, r: nat)
    requires AllEntries(ctx.chronicle) && Authentic(w, ctx)
    requires w.h == c.h && Provable(w, proverHeat, k) && History(w.h, k, specs, i, d, r) && |specs| == |ctx.chronicle|
    ensures |specs| >= 3 && HasLine(EntriesOf(ctx.chronicle)[0])
    ensures |Log(c, FRESH, specs)| == |ctx.chronicle| && ProverDrops(w, proverHeat, k).Some?
    ensures FirstLine(ctx).eventHash != "" && FirstLine(ctx).signature != "" ==>
      Evidence(w, Obj(ReceiptUnder(w, proverHeat, c, k, env, FirstLine(ctx))), ContextUnder(ctx, c, specs))
  {
    hide Evidence, Provable, ReceiptUnder, ContextUnder, Signs, ProverDrops, Log, AllEntries, Authentic,
         History, FirstLine, HasLine, EntriesOf;
    PositionsInside(w.h, k, specs, i, d, r);
    FirstLineSigns(w, ctx);
    ProverDropsExist(w, proverHeat, k);
    RunLength(c, FRESH, specs);
    if FirstLine(ctx).eventHash != "" && FirstLine(ctx).signature != "" {
      AnyKillUnderOneSignature(w, proverHeat, c, k, env, specs, i, d, r, ctx, FirstLine(ctx));
    }
  }
}
