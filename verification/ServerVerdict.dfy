/** The offline verifier on slices of the server's own log file.  The witness kernel
    names the previous event's hash in each line; the verifier of signed slices
    demands the hash of the previous line. */
module ServerVerdict {
  import opened Json
  import opened CanonicalText
  import opened Hashing
  import opened ChronicleChain
  import opened SignedLines
  import opened Writer
  import opened WriterTheorems
  import opened LogLines
  import opened ServerLog
  import opened ServerTheorems
  import opened VerifyOutcome
  import opened VerifyV2
  import opened Verifier
  import opened Honest
  import DropPolicy
  import LogTool

  // ----- the slice -----

  function StateAt(c: Config, events: seq<Recorded>, i: nat): State
    requires i <= |events|
  {
    StateAfter(c, EMPTY, events[..i])
  }

  /** The logged object, together with the fields of its line. */
  function SliceAt(c: Config, events: seq<Recorded>, i: nat): Json
    requires i < |events|
  {
    WithLineFields(JsonAt(c, events, i), LineOf(c, events[i], StateAt(c, events, i)))
  }

  function WithLineFields(j: Json, line: Line): Json {
    if j.Obj? then Obj(WithLine(j.fields, line)) else j
  }

  function Slice(c: Config, events: seq<Recorded>): seq<Json> {
    seq(|events|, i requires 0 <= i < |events| => SliceAt(c, events, i))
  }

  function SliceEntry(c: Config, events: seq<Recorded>, i: nat): Entry
    requires i < |events|
  {
    EntryFor(c, events[i], StateAt(c, events, i)).(line := LineOf(c, events[i], StateAt(c, events, i)))
  }

  lemma NoLineFields(c: Config, ev: Recorded, s: State)
    ensures JsonFor(c, ev, s).Obj? && JsonFor(c, ev, s).fields.Keys !! LINE_KEYS
  {
    hide EntryFor, CoreFields;
    var e := EntryFor(c, ev, s);
    HasNoLine(c, ev, s);
    CoreLookups(e);
    assert EntryJson(e) == Obj(Put(CoreFields(e), "caps", e.caps));
    assert "rng" !in LINE_KEYS;
  }

  lemma HasNoLine(c: Config, ev: Recorded, s: State)
    ensures EntryFor(c, ev, s).line == NO_LINE
  {
    hide ComputeCapsHash, EventHashFor, GlobalHashFor, ComputePayloadHash;
  }

  lemma LineFieldsRead(j: Json, line: Line)
    requires IsEntry(j) && j.fields.Keys !! LINE_KEYS
    ensures IsEntry(WithLineFields(j, line)) && AsEntry(WithLineFields(j, line)) == AsEntry(j).(line := line)
  {
    LineRoundTrip(j.fields, line);
    CoreKeysAreNotLineKeys();
    hide LINE_KEYS, WithLine;
    var f, g := j.fields, WithLine(j.fields, line);
    assert Get(g, "v") == Get(f, "v") && Get(g, "tick") == Get(f, "tick") && Get(g, "world_id") == Get(f, "world_id");
    assert Get(g, "rulebook_root") == Get(f, "rulebook_root") && Get(g, "event_type") == Get(f, "event_type");
    assert Get(g, "actor") == Get(f, "actor") && Get(g, "caps_hash") == Get(f, "caps_hash")
      && Get(g, "payload") == Get(f, "payload");
    assert Get(g, "caps") == Get(f, "caps");
  }

  lemma SliceReads(c: Config, events: seq<Recorded>, i: nat)
    requires i < |events|
    ensures IsEntry(SliceAt(c, events, i)) && AsEntry(SliceAt(c, events, i)) == SliceEntry(c, events, i)
  {
    hide JsonFor, EntryFor, LineOf, AsEntry, IsEntry, StateAfter, LINE_KEYS;
    JsonReads(c, events[i], StateAt(c, events, i));
    NoLineFields(c, events[i], StateAt(c, events, i));
    LineFieldsRead(JsonAt(c, events, i), LineOf(c, events[i], StateAt(c, events, i)));
  }

  lemma SliceIsEntries(c: Config, events: seq<Recorded>)
    ensures AllEntries(Slice(c, events)) && |EntriesOf(Slice(c, events))| == |events|
    ensures forall i | 0 <= i < |events| :: EntriesOf(Slice(c, events))[i] == SliceEntry(c, events, i)
  {
    hide SliceAt, SliceEntry, AsEntry, IsEntry;
    forall i | 0 <= i < |events|
      ensures IsEntry(Slice(c, events)[i]) && AsEntry(Slice(c, events)[i]) == SliceEntry(c, events, i)
    {
      SliceReads(c, events, i);
    }
  }

  // ----- its signatures -----

  lemma LineIsLongerThanJson(e: Entry)
    requires HasLine(e)
    ensures LineText(e) != e.line.canonicalJson.value
  {
    assert |LineText(e)| > |e.line.canonicalJson.value|;
  }

  /** A line that names the event hash of the line before it does not authenticate. */
  lemma NamesEventNotLine(h: HashFunction, ed: Ed25519, entries: seq<Entry>, i: nat, key: string)
    requires 0 < i < |entries| && HasLine(entries[i - 1]) && HasLine(entries[i])
    requires entries[i].line.prevHash == entries[i - 1].line.eventHash
    requires entries[i - 1].line.eventHash.value == h(entries[i - 1].line.canonicalJson.value)
    requires CollisionFree(h, {entries[i - 1].line.canonicalJson.value, LineText(entries[i - 1])})
    ensures !SignedAt(h, ed, entries, i, key)
  {
    hide LineText, VerifySignature;
    LineIsLongerThanJson(entries[i - 1]);
  }

  lemma SliceLinks(c: Config, events: seq<Recorded>, i: nat)
    requires i < |events|
    ensures var e := SliceEntry(c, events, i);
      && HasLine(e) && e.line.eventHash.value == c.h(e.line.canonicalJson.value)
      && e.line.signature.value == c.sign(Message(e.line.prevHash.value, e.line.eventHash.value))
      && e.line.prevHash == if i == 0 then Some(GENESIS) else SliceEntry(c, events, i - 1).line.eventHash
  {
    hide Print, JsonFor, EntryFor, EventHashFor, GlobalHashFor;
    if i > 0 { assert events[..i][..i - 1] == events[..i - 1] && events[..i][i - 1] == events[i - 1]; }
  }

  /** The hash has no collision on the JSON and the whole line of the first event. */
  ghost predicate FirstLineDistinct(c: Config, events: seq<Recorded>)
    requires events != []
  {
    var e := SliceEntry(c, events, 0);
    HasLine(e) && CollisionFree(c.h, {e.line.canonicalJson.value, LineText(e)})
  }

  lemma OpensAndIsSigned(ed: Ed25519, c: Config, e: Entry, key: string)
    requires KeyMatches(ed, c, key) && HasLine(e) && e.line.prevHash == Some(GENESIS)
    requires e.line.eventHash.value == c.h(e.line.canonicalJson.value)
    requires e.line.signature.value == c.sign(Message(e.line.prevHash.value, e.line.eventHash.value))
    ensures LineSigned(c.h, ed, e, None, key)
  {
    hide Message;
  }

  lemma FirstIsSigned(ed: Ed25519, c: Config, events: seq<Recorded>, key: string)
    requires events != [] && KeyMatches(ed, c, key)
    ensures AllEntries(Slice(c, events)) && |EntriesOf(Slice(c, events))| == |events|
    ensures SignedAt(c.h, ed, EntriesOf(Slice(c, events)), 0, key)
  {
    hide SliceEntry, Slice, LineText, EntriesOf, AllEntries, LineSigned, KeyMatches, HasLine;
    SliceIsEntries(c, events);
    SliceLinks(c, events, 0);
    OpensAndIsSigned(ed, c, SliceEntry(c, events, 0), key);
  }

  lemma SecondIsNotSigned(ed: Ed25519, c: Config, events: seq<Recorded>, key: string)
    requires |events| >= 2 && FirstLineDistinct(c, events)
    ensures AllEntries(Slice(c, events)) && |EntriesOf(Slice(c, events))| == |events|
    ensures HasLine(EntriesOf(Slice(c, events))[1]) && !SignedAt(c.h, ed, EntriesOf(Slice(c, events)), 1, key)
  {
    hide SliceEntry, Slice, LineText, SignedAt, EntriesOf, AllEntries;
    SliceIsEntries(c, events);
    SliceLinks(c, events, 0);
    SliceLinks(c, events, 1);
    NamesEventNotLine(c.h, ed, EntriesOf(Slice(c, events)), 1, key);
  }

  /** A slice of the server's file from its beginning authenticates under the server's
      own key exactly when it holds at most one line. */
  lemma ServerSliceAuthenticatesIff(ed: Ed25519, c: Config, events: seq<Recorded>, key: string)
    requires KeyMatches(ed, c, key) && (events != [] ==> FirstLineDistinct(c, events))
    ensures AllEntries(Slice(c, events))
    ensures AllSigned(c.h, ed, EntriesOf(Slice(c, events)), key) <==> |events| <= 1
  {
    hide SignedAt, Slice, SliceEntry, FirstLineDistinct, KeyMatches, EntriesOf, AllEntries, HasLine;
    SliceIsEntries(c, events);
    if events != [] { FirstIsSigned(ed, c, events, key); }
    if |events| >= 2 { SecondIsNotSigned(ed, c, events, key); }
  }

  lemma ServerSliceIsTampered(w: World, c: Config, events: seq<Recorded>, ctx: Context)
    requires w.h == c.h && |events| >= 2 && FirstLineDistinct(c, events) && ctx.chronicle == Slice(c, events)
    requires Given(ctx.signingKey) && KeyMatches(w.ed, c, ctx.signingKey.value)
    ensures AllEntries(ctx.chronicle) && Tampered(w, ctx)
  {
    hide Slice, SliceEntry, FirstLineDistinct, LineText, HasLine, EntriesOf, AllEntries, SignedAt, KeyMatches;
    SliceIsEntries(c, events);
    KeyIsUsable(w.ed, c, ctx.signingKey.value);
    FirstIsSigned(w.ed, c, events, ctx.signingKey.value);
    SecondIsNotSigned(w.ed, c, events, ctx.signingKey.value);
    SecondLineFails(w, EntriesOf(ctx.chronicle), ctx.signingKey.value);
  }

  lemma KeyIsUsable(ed: Ed25519, c: Config, key: string)
    requires KeyMatches(ed, c, key)
    ensures UsableKey(ed, key)
  {
  }

  lemma SecondLineFails(w: World, entries: seq<Entry>, key: string)
    requires |entries| >= 2 && SignedAt(w.h, w.ed, entries, 0, key) && HasLine(entries[1])
    requires !SignedAt(w.h, w.ed, entries, 1, key)
    ensures LineFails(w, entries, 1, key)
  {
    hide SignedAt, HasLine;
    SignedSnoc(w.h, w.ed, entries, 0, key);
    assert entries[..0] == [] && entries[..0 + 1] == entries[..1];
  }

  // ----- the verdict -----

  /** What the verifier sees of a slice in order with a line that fails. */
  lemma FailingLineDecides(
    w: World, ctx: Context, preimage: Option<Json>, victim: Option<string>, view: View, i: nat, d: nat, r: nat)
    requires NonEmpty(preimage) && victim.Some? && AllEntries(ctx.chronicle) && Tampered(w, ctx)
    requires ShowsOrder(w, ctx.chronicle, preimage.value.s, victim.value, i, d, r)
    requires ViewIs(w, ctx, preimage, victim, view)
    ensures view == Refuted(SLICE_SIGNATURE_INVALID)
  {
    hide LinkedSlice, AllEntries, EntriesOf, Tampered, Authentic, IsDeath, IsRngEvent, CommitAt, SecretAt;
    var entries, pre, did := EntriesOf(ctx.chronicle), preimage.value.s, victim.value;
    NotPending(w, ctx.chronicle, pre, did, i, d, r);
    NotBoth(entries, "rng_commit", did, i);
    PositionsUnique(entries, pre, did, i, d, r);
    hide UniqueDeath, FirstRngEvent, NoRngEvent, ShowsPending;
  }

  lemma {:induction false} OrderIgnoresLine(
    w: World, a: seq<Json>, b: seq<Json>, preimage: string, victim: string, i: nat, d: nat, r: nat)
    requires LogsAlike(a, b) && ShowsOrder(w, a, preimage, victim, i, d, r)
    ensures AllEntries(b) && ShowsOrder(w, b, preimage, victim, i, d, r)
  {
    hide AsEntry, IsEntry, LogTool.ActorLinks, LogTool.CarriedLinks;
    ChainsIgnoreLine(LogTool.Env(w.h, w.draw, t => None), a, b, "");
    forall j | j in b ensures IsEntry(j) {
      var n :| 0 <= n < |b| && b[n] == j;
      assert ReadAlike(a[n], b[n]);
    }
    var x, y := EntriesOf(a), EntriesOf(b);
    forall n | 0 <= n < |a|
      ensures IsDeath(x[n], preimage, victim) == IsDeath(y[n], preimage, victim)
      ensures forall eventType :: IsRngEvent(x[n], eventType, victim) == IsRngEvent(y[n], eventType, victim)
    {
      assert ReadAlike(a[n], b[n]);
      EventsIgnoreLine(x[n], y[n], preimage, victim);
    }
    hide IsDeath, IsRngEvent, GlobalLinks, LogsAlike;
  }

  lemma EventsIgnoreLine(x: Entry, y: Entry, preimage: string, victim: string)
    requires SameBut(x, y)
    ensures IsDeath(x, preimage, victim) == IsDeath(y, preimage, victim)
    ensures forall eventType :: IsRngEvent(x, eventType, victim) == IsRngEvent(y, eventType, victim)
  {
    assert x.eventType == y.eventType && x.actor == y.actor && x.payload == y.payload;
  }

  lemma SliceReadsAlike(c: Config, events: seq<Recorded>)
    ensures LogsAlike(RunJson(c, Specs(events)), Slice(c, events))
  {
    LogsReadAlike(c, events);
    hide SliceAt, SliceEntry, AsEntry, IsEntry, RunJson, EntryFor, LineOf, JsonFor, StateAfter;
    var run := RunJson(c, Specs(events));
    forall i | 0 <= i < |events| ensures ReadAlike(run[i], Slice(c, events)[i]) {
      SliceReads(c, events, i);
      JsonReads(c, events[i], StateAt(c, events, i));
      assert ReadAlike(Jsons(c, events)[i], run[i]);
      SliceEntryIs(c, events, i);
    }
  }

  lemma SliceEntryIs(c: Config, events: seq<Recorded>, i: nat)
    requires i < |events|
    ensures SameBut(SliceEntry(c, events, i), EntryFor(c, events[i], StateAt(c, events, i)))
  {
    hide EntryFor, LineOf, StateAfter;
  }

  /** On the server's own record of an honest history every v2 proof of that kill is
      judged "failed", because the second line does not authenticate. */
  lemma ServerSliceFails(
    w: World, c: Config, k: Kill, events: seq<Recorded>, i: nat, d: nat, r: nat, ctx: Context,
    receipt: Fields, inp: Fields, proof: Fields, view: View)
    requires w.h == c.h && History(w.h, k, Specs(events), i, d, r) && k.secret != ""
    requires ctx.chronicle == Slice(c, events) && Given(ctx.signingKey) && KeyMatches(w.ed, c, ctx.signingKey.value)
    requires events != [] && FirstLineDistinct(c, events)
    requires Preimage(proof) == Some(Str(SeedHash(w.h, k))) && VictimDid(inp) == Some(Did(k.target))
    requires ViewIs(w, ctx, Preimage(proof), VictimDid(inp), view)
    ensures view == Refuted(SLICE_SIGNATURE_INVALID)
    ensures StatusOf(w, receipt, inp, proof, ctx, view) == Failed
    ensures SLICE_SIGNATURE_INVALID in ReasonsOf(w, receipt, inp, proof, ctx, view)
  {
    hide SeedHash, Did, ShowsOrder, RunJson, Slice, FirstLineDistinct, Tampered, AllEntries, ViewIs,
         LogsAlike, Preimage, VictimDid, IsCommitEvent, IsDeathEvent, IsRevealEvent, Competes, BindingOk,
         DrawsOk, DerivationOf, BindsBase, ReceiptSigned, PreimageNotes, SecretNotes, SignatureNotes;
    HistoryShows(w, k, c, Specs(events), i, d, r);
    SliceReadsAlike(c, events);
    OrderIgnoresLine(w, RunJson(c, Specs(events)), Slice(c, events), SeedHash(w.h, k), Did(k.target), i, d, r);
    ServerSliceIsTampered(w, c, events, ctx);
    SeedHashIsNotEmpty(w.h, k);
    FailingLineDecides(w, ctx, Preimage(proof), VictimDid(inp), view, i, d, r);
    RefutedMeansFailed(w, receipt, inp, proof, ctx, SLICE_SIGNATURE_INVALID);
  }

  lemma RefutedMeansFailed(w: World, receipt: Fields, inp: Fields, proof: Fields, ctx: Context, why: Code)
    ensures StatusOf(w, receipt, inp, proof, ctx, Refuted(why)) == Failed
    ensures why in ReasonsOf(w, receipt, inp, proof, ctx, Refuted(why))
  {
    hide PreimageOk, Authenticity, PreimageNotes, SignatureNotes;
    var before := PreimageNotes(w, receipt, inp, proof)
      + Note(!IsObject(Get(proof, "precommit_ref")), PRECOMMIT_MISSING);
    var reasons := ReasonsOf(w, receipt, inp, proof, ctx, Refuted(why));
    assert reasons[|before|] == why;
  }

  /** So the receipt that is "verified" beside the fixture writer's log is "failed"
      beside the server's record of the very same events. */
  lemma HonestReceiptFailsBesideServerFile(
    w: World, proverHeat: DropPolicy.HeatMap, c: Config, k: Kill, env: Envelope,
    events: seq<Recorded>, i: nat, d: nat, r: nat, ctx: Context, view: View)
    requires w.h == c.h && Provable(w, proverHeat, k) && History(w.h, k, Specs(events), i, d, r)
    requires ctx.chronicle == Slice(c, events) && Given(ctx.signingKey) && KeyMatches(w.ed, c, ctx.signingKey.value)
    requires events != [] && FirstLineDistinct(c, events)
    requires ProverDrops(w, proverHeat, k).Some?
    requires ViewIs(w, ctx, Some(Str(SeedHash(w.h, k))), Some(Did(k.target)), view)
    ensures var o := CombatOutcome(w, HonestReceipt(w, proverHeat, c, k, env).fields, ctx, view);
      o.Returned? && o.result.final == Failed && SLICE_SIGNATURE_INVALID in o.result.reasons
  {
    hide SeedHash, Did, ProverDrops, BuildProof, ReceiptInputs, BuildReceipt, ViewIs, History,
         FirstLineDistinct, Slice, KeyMatches, VictimDid, DerivationOf, StatusOf, ReasonsOf, IsLootDrop,
         RefCommit, DerivationInputs;
    var proof, dropped := BuildProof(w, proverHeat, k, env), ProverDrops(w, proverHeat, k).value.dropped;
    var inp := ReceiptInputs(w, k, dropped, proof);
    var receipt := BuildReceipt(w, c.sign, k, env, dropped, proof);
    ReadProof(w, proverHeat, k, env);
    ReadInputs(w, k, dropped, proof);
    ReadReceipt(w, c.sign, k, env, dropped, proof);
    DidOf(inp, k.target);
    ServerSliceFails(w, c, k, events, i, d, r, ctx, receipt, inp, proof, view);
    assert HasV2Proof(inp);
  }
}
