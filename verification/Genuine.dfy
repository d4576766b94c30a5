/** What a caller has to check besides the verdict, so that "verified" binds what it
    says: the recorded text of each line is the text of its entry, and the recorded
    hash of the receipt is the hash of its body. */
module Genuine {
  import opened Json
  import opened CanonicalText
  import opened Hashing
  import opened ChronicleChain
  import opened SignedLines
  import opened Writer
  import opened WriterTheorems
  import opened VerifyOutcome
  import opened VerifyV2
  import opened Verifier
  import opened Honest
  import DropPolicy

  // ----- the two comparisons -----

  /** The text of the entry without the fields of its line. */
  function TextOf(entry: Json): string
    requires entry.Obj?
  {
    Print(true, Obj(entry.fields - LINE_KEYS))
  }

  predicate RecordsItsText(entry: Json) {
    entry.Obj? && Get(entry.fields, "canonical_json") == Some(Str(TextOf(entry)))
  }

  /** Each line records the text of the entry it comes with. */
  predicate RecordsItsEntries(slice: seq<Json>) {
    forall i | 0 <= i < |slice| :: RecordsItsText(slice[i])
  }

  /** The two fields `computeReceiptHash` leaves out. */
  const SEAL_KEYS: set<string> := {"event_hash", "signature"}

  function BodyText(receipt: Fields): string {
    Print(true, Obj(receipt - SEAL_KEYS))
  }

  /** `verifyReceiptHash` against the recorded hash: the receipt records the hash of its own body. */
  predicate RecordsItsHash(h: HashFunction, receipt: Fields) {
    Get(receipt, "event_hash") == Some(Str(Prefixed(h, BodyText(receipt))))
  }

  predicate Recorded(h: HashFunction, receipt: Fields, slice: seq<Json>) {
    RecordsItsEntries(slice) && RecordsItsHash(h, receipt)
  }

  // ----- equal signed texts -----

  /** Equal but for the signature of the line. */
  predicate SameEntry(a: Json, b: Json) {
    a.Obj? && b.Obj? && a.fields - {"signature"} == b.fields - {"signature"}
  }

  lemma SplitFields(f: Fields, g: Fields, keys: set<string>)
    requires f - keys == g - keys && forall k | k in keys :: Get(f, k) == Get(g, k)
    ensures f == g
  {
    forall k: string ensures Get(f, k) == Get(g, k) {
      if k !in keys { assert Get(f - keys, k) == Get(g - keys, k); }
    }
    SameLookups(f, g);
  }

  lemma SameLookups(f: Fields, g: Fields)
    requires forall k :: Get(f, k) == Get(g, k)
    ensures f == g
  {
    assert f.Keys == g.Keys by {
      forall k: string ensures k in f <==> k in g { assert Get(f, k) == Get(g, k); }
    }
    forall k | k in f ensures f[k] == g[k] { assert Get(f, k) == Get(g, k); }
  }

  lemma LineLookups(entry: Json)
    requires IsEntry(entry) && HasLine(AsEntry(entry))
    ensures var line := AsEntry(entry).line;
      && Get(entry.fields, "line_prev_hash") == Some(Str(line.prevHash.value))
      && Get(entry.fields, "line_event_hash") == Some(Str(line.eventHash.value))
      && Get(entry.fields, "signature") == Some(Str(line.signature.value))
      && Get(entry.fields, "canonical_json") == Some(Str(line.canonicalJson.value))
  {
  }

  lemma WellFormedRest(f: Fields, keys: set<string>)
    requires WellFormed(Obj(f))
    ensures WellFormed(Obj(f - keys))
  {
  }

  lemma SameTextSameRest(a: Json, b: Json)
    requires RecordsItsText(a) && RecordsItsText(b) && WellFormed(a) && WellFormed(b)
    requires Get(a.fields, "canonical_json") == Get(b.fields, "canonical_json")
    ensures a.fields - LINE_KEYS == b.fields - LINE_KEYS
  {
    hide Print, WellFormed;
    WellFormedRest(a.fields, LINE_KEYS);
    WellFormedRest(b.fields, LINE_KEYS);
    PrintInjective(true, Obj(a.fields - LINE_KEYS), Obj(b.fields - LINE_KEYS));
  }

  /** Entries that record their texts and agree on the line are equal. */
  lemma SameLineSameEntry(a: Json, b: Json)
    requires IsEntry(a) && IsEntry(b) && HasLine(AsEntry(a)) && AsEntry(a).line == AsEntry(b).line
    requires RecordsItsText(a) && RecordsItsText(b) && WellFormed(a) && WellFormed(b)
    ensures a == b
  {
    hide Print, WellFormed, IsEntry, AsEntry;
    LineLookups(a);
    LineLookups(b);
    SameTextSameRest(a, b);
    SplitFields(a.fields, b.fields, LINE_KEYS);
  }

  /** The same when only the signatures of the lines differ. */
  lemma SameSignedTextSameEntry(a: Json, b: Json)
    requires IsEntry(a) && IsEntry(b) && HasLine(AsEntry(a)) && HasLine(AsEntry(b))
    requires AsEntry(a).line.(signature := None) == AsEntry(b).line.(signature := None)
    requires RecordsItsText(a) && RecordsItsText(b) && WellFormed(a) && WellFormed(b)
    ensures SameEntry(a, b)
  {
    hide Print, WellFormed, IsEntry, AsEntry;
    LineLookups(a);
    LineLookups(b);
    assert AsEntry(a).line.canonicalJson == AsEntry(a).line.(signature := None).canonicalJson
        && AsEntry(b).line.canonicalJson == AsEntry(b).line.(signature := None).canonicalJson;
    assert AsEntry(a).line.prevHash == AsEntry(a).line.(signature := None).prevHash
        && AsEntry(b).line.prevHash == AsEntry(b).line.(signature := None).prevHash;
    assert AsEntry(a).line.eventHash == AsEntry(a).line.(signature := None).eventHash
        && AsEntry(b).line.eventHash == AsEntry(b).line.(signature := None).eventHash;
    SameTextSameRest(a, b);
    RestWithLine(a.fields, b.fields);
  }

  lemma RestWithLine(f: Fields, g: Fields)
    requires f - LINE_KEYS == g - LINE_KEYS
    requires forall k | k in LINE_KEYS - {"signature"} :: Get(f, k) == Get(g, k)
    ensures f - {"signature"} == g - {"signature"}
  {
    var rest := LINE_KEYS - {"signature"};
    var x, y := f - {"signature"}, g - {"signature"};
    assert "signature" in LINE_KEYS;
    assert {"signature"} + rest == LINE_KEYS;
    assert x - rest == f - LINE_KEYS && y - rest == g - LINE_KEYS;
    forall k | k in rest ensures Get(x, k) == Get(y, k) { assert Get(f, k) == Get(g, k); }
    SplitFields(x, y, rest);
  }

  // ----- the slice -----

  predicate WellFormedSlice(slice: seq<Json>) {
    forall i | 0 <= i < |slice| :: WellFormed(slice[i])
  }

  /** The texts hashed for the lines of the slice. */
  ghost predicate HashedAmong(slice: seq<Json>, texts: set<string>) {
    AllEntries(slice) && TextsAmong(EntriesOf(slice), texts)
  }

  /** Two authentic slices that record their entries are equal exactly when the hashes
      of their last lines are. */
  lemma LastLineBindsSlice(
    h: HashFunction, ed: Ed25519, a: seq<Json>, keyA: string, b: seq<Json>, keyB: string, texts: set<string>)
    requires a != [] && b != [] && HashedAmong(a, texts) && HashedAmong(b, texts)
    requires AllSigned(h, ed, EntriesOf(a), keyA) && AllSigned(h, ed, EntriesOf(b), keyB)
    requires CollisionFree(h, texts) && PlainDigests(h, texts)
    requires RecordsItsEntries(a) && RecordsItsEntries(b) && WellFormedSlice(a) && WellFormedSlice(b)
    ensures HasLine(EntriesOf(a)[|a| - 1]) && HasLine(EntriesOf(b)[|b| - 1])
    ensures h(LineText(EntriesOf(a)[|a| - 1])) == h(LineText(EntriesOf(b)[|b| - 1])) <==> a == b
  {
    hide AllSigned, LineText, PlainDigests, RecordsItsText, WellFormed, IsEntry, AsEntry, LineTexts, HasLine;
    var x, y := EntriesOf(a), EntriesOf(b);
    assert HasLine(x[|a| - 1]) && HasLine(y[|b| - 1]);
    if h(LineText(x[|a| - 1])) == h(LineText(y[|b| - 1])) {
      LastLineBindsLines(h, ed, x, keyA, y, keyB, texts);
      forall i | 0 <= i < |a| ensures a[i] == b[i] {
        assert x[i].line == y[i].line && HasLine(x[i]);
        SameLineSameEntry(a[i], b[i]);
      }
    }
  }

  // ----- the receipt -----

  /** Two receipts that record the hash of their body have the same body exactly when they record the same hash. */
  lemma HashBindsBody(h: HashFunction, a: Fields, b: Fields)
    requires RecordsItsHash(h, a) && RecordsItsHash(h, b) && WellFormed(Obj(a)) && WellFormed(Obj(b))
    requires CollisionFree(h, {BodyText(a), BodyText(b)})
    ensures Get(a, "event_hash") == Get(b, "event_hash") <==> a - {"signature"} == b - {"signature"}
  {
    hide Print, WellFormed;
    if Get(a, "event_hash") == Get(b, "event_hash") {
      PrefixedInjective(h, {BodyText(a), BodyText(b)}, BodyText(a), BodyText(b));
      WellFormedRest(a, SEAL_KEYS);
      WellFormedRest(b, SEAL_KEYS);
      PrintInjective(true, Obj(a - SEAL_KEYS), Obj(b - SEAL_KEYS));
      SealedFields(a, b);
    }
    if a - {"signature"} == b - {"signature"} {
      assert Get(a, "event_hash") == Get(a - {"signature"}, "event_hash");
      assert Get(b, "event_hash") == Get(b - {"signature"}, "event_hash");
    }
  }

  lemma SealedFields(a: Fields, b: Fields)
    requires a - SEAL_KEYS == b - SEAL_KEYS && Get(a, "event_hash") == Get(b, "event_hash")
    ensures a - {"signature"} == b - {"signature"}
  {
    var x, y := a - {"signature"}, b - {"signature"};
    assert {"signature"} + {"event_hash"} == SEAL_KEYS;
    assert x - {"event_hash"} == a - SEAL_KEYS && y - {"event_hash"} == b - SEAL_KEYS;
    forall k | k in {"event_hash"} ensures Get(x, k) == Get(y, k) { assert Get(a, k) == Get(b, k); }
    SplitFields(x, y, {"event_hash"});
  }

  /** The hashes of the last lines agree. */
  predicate SameLastLine(h: HashFunction, a: seq<Json>, b: seq<Json>) {
    && a != [] && b != [] && AllEntries(a) && AllEntries(b)
    && var x, y := EntriesOf(a)[|a| - 1], EntriesOf(b)[|b| - 1];
       HasLine(x) && HasLine(y) && h(LineText(x)) == h(LineText(y))
  }

  /** What "verified" binds once the two comparisons are made: the last line hash
      and the receipt's hash fix every entry of the slice and every field of the
      receipt but its signature. */
  lemma RecordedEvidenceBinds(w: World, a: Fields, ctxA: Context, b: Fields, ctxB: Context, texts: set<string>)
    requires Evidence(w, Obj(a), ctxA) && Recorded(w.h, a, ctxA.chronicle)
    requires Evidence(w, Obj(b), ctxB) && Recorded(w.h, b, ctxB.chronicle)
    requires WellFormed(Obj(a)) && WellFormedSlice(ctxA.chronicle)
    requires WellFormed(Obj(b)) && WellFormedSlice(ctxB.chronicle)
    requires HashedAmong(ctxA.chronicle, texts) && BodyText(a) in texts
    requires HashedAmong(ctxB.chronicle, texts) && BodyText(b) in texts
    requires CollisionFree(w.h, texts) && PlainDigests(w.h, texts)
    ensures SameLastLine(w.h, ctxA.chronicle, ctxB.chronicle) && Get(a, "event_hash") == Get(b, "event_hash")
      <==> ctxA.chronicle == ctxB.chronicle && a - {"signature"} == b - {"signature"}
  {
    hide AllSigned, LineText, PlainDigests, RecordsItsEntries, RecordsItsHash, WellFormed, IsEntry, AsEntry,
         LineTexts, HasLine, WellFormedSlice, HashedAmong, Evidence, BodyText;
    EvidenceHasSlice(w, a, ctxA);
    EvidenceHasSlice(w, b, ctxB);
    LastLineBindsSlice(w.h, w.ed, ctxA.chronicle, ctxA.signingKey.value, ctxB.chronicle, ctxB.signingKey.value, texts);
    HashBindsBody(w.h, a, b);
  }

  lemma EvidenceHasSlice(w: World, receipt: Fields, ctx: Context)
    requires Evidence(w, Obj(receipt), ctx)
    ensures ctx.chronicle != [] && AllEntries(ctx.chronicle) && Given(ctx.signingKey)
    ensures AllSigned(w.h, w.ed, EntriesOf(ctx.chronicle), ctx.signingKey.value)
    ensures ReceiptSigned(w, receipt, ctx.signingKey.value)
  {
    hide IsV2Drop, PreimageOk, VictimDid, AllEntries, InputsOf, ProofOf, BindingOk, DrawsOk, DerivationOf,
         ReceiptSigned, AllSigned, LinkedSlice, UniqueDeath, FirstRngEvent, CommitAt, SecretAt, Preimage,
         UsableKey, EntriesOf;
  }

  // ----- what the signer signed -----

  function LineMessage(e: Entry): string
    requires HasLine(e)
  {
    Message(e.line.prevHash.value, e.line.eventHash.value)
  }

  function ReceiptMessage(receipt: Fields): string
    requires IsString(Get(receipt, "prev_hash")) && IsString(Get(receipt, "event_hash"))
  {
    Message(receipt["prev_hash"].s, receipt["event_hash"].s)
  }

  /** An authentic log and the receipts issued with it, all of which record what they hash. */
  ghost predicate Source(h: HashFunction, ed: Ed25519, key: string, log: seq<Json>, issued: set<Fields>) {
    && RecordsItsEntries(log) && AllEntries(log) && AllSigned(h, ed, EntriesOf(log), key)
    && forall r | r in issued :: RecordsItsHash(h, r) && IsString(Get(r, "prev_hash"))
  }

  predicate IsLineMessage(log: seq<Json>, m: string)
    requires AllEntries(log)
  {
    exists i :: 0 <= i < |log| && HasLine(AsEntry(log[i])) && LineMessage(AsEntry(log[i])) == m
  }

  predicate IsReceiptMessage(issued: set<Fields>, m: string) {
    exists r | r in issued ::
      IsString(Get(r, "prev_hash")) && IsString(Get(r, "event_hash")) && ReceiptMessage(r) == m
  }

  /** The signatures on the lines of the slice and on the receipt. */
  ghost function Presented(receipt: Fields, slice: seq<Json>): set<string> {
    (set i | 0 <= i < |slice| && LineSignature(slice[i]).Some? :: LineSignature(slice[i]).value)
    + (if GetString(receipt, "signature").Some? then {GetString(receipt, "signature").value} else {})
  }

  function LineSignature(entry: Json): Option<string> {
    if entry.Obj? then GetString(entry.fields, "signature") else None
  }

  lemma EntrySignature(entry: Json)
    requires IsEntry(entry)
    ensures LineSignature(entry) == AsEntry(entry).line.signature
  {
  }

  /** None of the signatures is forged: each verifies only over what the signer signed,
      the lines of the log and the issued receipts. */
  ghost predicate NoForgery(ed: Ed25519, key: string, log: seq<Json>, issued: set<Fields>, signatures: set<string>)
    requires AllEntries(log)
  {
    forall m, s | s in signatures && ed.verifies(m, s, key) :: IsLineMessage(log, m) || IsReceiptMessage(issued, m)
  }

  /** Digests are written without the two separators and are not the starting value. */
  ghost predicate HexDigests(h: HashFunction, texts: set<string>) {
    PlainDigests(h, texts) && forall t | t in texts :: ':' !in h(t)
  }

  ghost predicate BodiesAmong(issued: set<Fields>, texts: set<string>) {
    forall r | r in issued :: BodyText(r) in texts && WellFormed(Obj(r))
  }

  lemma LastField(p: string, x: string, q: string, y: string)
    requires '|' !in x && '|' !in y && Message(p, x) == Message(q, y)
    ensures p == q && x == y
  {
    var s, t := Message(p, x), Message(q, y);
    assert s[|p|] == '|' && t[|q|] == '|';
    assert (forall i | |p| < i < |s| :: s[i] == x[i - |p| - 1]) && forall i | |q| < i < |t| :: t[i] == y[i - |q| - 1];
    assert |p| == |q|;
    assert p == s[..|p|] && q == t[..|q|] && x == s[|p| + 1..] && y == t[|q| + 1..];
  }

  lemma PrefixedIsNotHex(h: HashFunction, text: string)
    ensures ':' in Prefixed(h, text) && ('|' !in h(text) ==> '|' !in Prefixed(h, text))
  {
    assert PREFIX[6] == ':' && Prefixed(h, text)[6] == ':';
    assert '|' !in PREFIX;
  }

  // ----- the slice is the log's -----

  /** The slice is the beginning of the log, but for the signature of its last line. */
  predicate BeginningOf(slice: seq<Json>, log: seq<Json>) {
    && |slice| <= |log|
    && (forall i | 0 <= i < |slice| - 1 :: slice[i] == log[i])
    && (slice != [] ==> SameEntry(slice[|slice| - 1], log[|slice| - 1]))
  }

  lemma SignedParts(h: HashFunction, ed: Ed25519, entries: seq<Entry>, i: nat, key: string)
    requires i < |entries| && AllSigned(h, ed, entries, key)
    ensures HasLine(entries[i]) && entries[i].line.eventHash.value == h(entries[i].line.canonicalJson.value)
    ensures entries[i].line.signature.Some?
    ensures ed.verifies(LineMessage(entries[i]), entries[i].line.signature.value, key)
    ensures i == 0 ==> entries[i].line.prevHash.value == GENESIS
    ensures i > 0 ==> HasLine(entries[i - 1]) && entries[i].line.prevHash.value == h(LineText(entries[i - 1]))
  {
    hide LineText, Message;
    assert SignedAt(h, ed, entries, i, key);
  }

  lemma PrevIsPlain(h: HashFunction, ed: Ed25519, entries: seq<Entry>, i: nat, key: string, texts: set<string>)
    requires i < |entries| && AllSigned(h, ed, entries, key) && TextsAmong(entries, texts) && PlainDigests(h, texts)
    ensures HasLine(entries[i]) && '|' !in entries[i].line.prevHash.value
    ensures (entries[i].line.prevHash.value == GENESIS <==> i == 0)
  {
    hide LineText, Message, AllSigned;
    SignedParts(h, ed, entries, i, key);
    if i > 0 { assert LineTexts(entries[i - 1]) <= texts; }
  }

  /** Lines with the same text are the same line. */
  lemma SameHashSameLine(
    h: HashFunction, ed: Ed25519, a: seq<Entry>, i: nat, b: seq<Entry>, j: nat, key: string, texts: set<string>)
    requires i < |a| && j < |b| && AllSigned(h, ed, a, key) && AllSigned(h, ed, b, key)
    requires TextsAmong(a, texts) && TextsAmong(b, texts) && CollisionFree(h, texts) && PlainDigests(h, texts)
    requires HasLine(a[i]) && HasLine(b[j]) && h(LineText(a[i])) == h(LineText(b[j]))
    ensures a[i].line == b[j].line
  {
    hide LineText, AllSigned, PlainDigests;
    PrevIsPlain(h, ed, a, i, key, texts);
    PrevIsPlain(h, ed, b, j, key, texts);
    SignedParts(h, ed, a, i, key);
    SignedParts(h, ed, b, j, key);
    assert LineText(a[i]) in LineTexts(a[i]) && LineText(b[j]) in LineTexts(b[j]);
    SameTextSameLine(h, a[i], b[j], texts);
  }

  /** No two lines of an authentic log name the same predecessor. */
  lemma {:induction false} PrevUnique(
    h: HashFunction, ed: Ed25519, log: seq<Entry>, i: nat, j: nat, key: string, texts: set<string>)
    requires i < |log| && j < |log| && AllSigned(h, ed, log, key)
    requires TextsAmong(log, texts) && CollisionFree(h, texts) && PlainDigests(h, texts)
    requires log[i].line.prevHash == log[j].line.prevHash
    ensures i == j
  {
    hide LineText, AllSigned, PlainDigests, TextsAmong, HasLine, LineMessage;
    PrevIsPlain(h, ed, log, i, key, texts);
    PrevIsPlain(h, ed, log, j, key, texts);
    if i > 0 && j > 0 {
      SignedParts(h, ed, log, i, key);
      SignedParts(h, ed, log, j, key);
      SameHashSameLine(h, ed, log, i - 1, log, j - 1, key, texts);
      PrevUnique(h, ed, log, i - 1, j - 1, key, texts);
    }
  }

  /** Everything the two theorems assume of the hash, the log and the key. */
  ghost predicate Trusted(
    h: HashFunction, ed: Ed25519, key: string, log: seq<Json>, issued: set<Fields>, texts: set<string>,
    signatures: set<string>)
  {
    && Source(h, ed, key, log, issued) && NoForgery(ed, key, log, issued, signatures) && HashedAmong(log, texts)
    && BodiesAmong(issued, texts)
    && WellFormedSlice(log) && CollisionFree(h, texts) && HexDigests(h, texts)
  }

  /** A line that verifies is a line of the log: a receipt's hash carries a prefix. */
  lemma LineIsOfTheLog(
    h: HashFunction, ed: Ed25519, key: string, log: seq<Json>, issued: set<Fields>, texts: set<string>,
    signatures: set<string>, e: Entry) returns (j: nat)
    requires Trusted(h, ed, key, log, issued, texts, signatures) && HasLine(e) && LineTexts(e) <= texts
    requires e.line.eventHash.value == h(e.line.canonicalJson.value)
    requires e.line.signature.value in signatures && ed.verifies(LineMessage(e), e.line.signature.value, key)
    ensures j < |log| && HasLine(EntriesOf(log)[j])
    ensures EntriesOf(log)[j].line.(signature := None) == e.line.(signature := None)
  {
    hide LineText, AllSigned, Message, AsEntry, IsEntry, BodyText, WellFormed, RecordsItsText;
    assert e.line.canonicalJson.value in LineTexts(e);
    var event := e.line.eventHash.value;
    assert '|' !in event && ':' !in event;
    if IsReceiptMessage(issued, LineMessage(e)) {
      var r: Fields :| r in issued && IsString(Get(r, "prev_hash")) && IsString(Get(r, "event_hash"))
        && ReceiptMessage(r) == LineMessage(e);
      PrefixedIsNotHex(h, BodyText(r));
      LastField(r["prev_hash"].s, r["event_hash"].s, e.line.prevHash.value, event);
      assert false;
    }
    j :| 0 <= j < |log| && HasLine(AsEntry(log[j])) && LineMessage(AsEntry(log[j])) == LineMessage(e);
    var y := EntriesOf(log)[j];
    SignedParts(h, ed, EntriesOf(log), j, key);
    assert LineTexts(y) <= texts;
    assert y.line.canonicalJson.value in LineTexts(y);
    LastField(y.line.prevHash.value, y.line.eventHash.value, e.line.prevHash.value, event);
  }

  ghost predicate SignaturesAmong(slice: seq<Json>, signatures: set<string>) {
    forall i | 0 <= i < |slice| && LineSignature(slice[i]).Some? :: LineSignature(slice[i]).value in signatures
  }

  /** Line i of the slice is line i of the log. */
  lemma {:induction false} LinesAreOfTheLog(
    h: HashFunction, ed: Ed25519, key: string, log: seq<Json>, issued: set<Fields>, texts: set<string>,
    signatures: set<string>, slice: seq<Json>, i: nat)
    requires Trusted(h, ed, key, log, issued, texts, signatures) && HashedAmong(slice, texts)
    requires AllSigned(h, ed, EntriesOf(slice), key)
    requires i < |slice| && SignaturesAmong(slice, signatures)
    ensures i < |log| && EntriesOf(slice)[i].line.(signature := None) == EntriesOf(log)[i].line.(signature := None)
    ensures i > 0 ==> EntriesOf(slice)[i - 1].line == EntriesOf(log)[i - 1].line
  {
    hide LineText, AllSigned, LineMessage, AsEntry, IsEntry, BodyText, HasLine, WellFormed, RecordsItsText,
         PlainDigests, NoForgery, LineTexts, BodiesAmong;
    var x, y := EntriesOf(slice), EntriesOf(log);
    SignedParts(h, ed, x, i, key);
    PrevIsPlain(h, ed, x, i, key, texts);
    assert LineTexts(x[i]) <= texts;
    assert x[i].line.signature == LineSignature(slice[i]) by { EntrySignature(slice[i]); }
    var j := LineIsOfTheLog(h, ed, key, log, issued, texts, signatures, x[i]);
    assert y[j].line.prevHash == y[j].line.(signature := None).prevHash
      && x[i].line.prevHash == x[i].line.(signature := None).prevHash;
    PrevIsPlain(h, ed, y, j, key, texts);
    if i > 0 {
      LinesAreOfTheLog(h, ed, key, log, issued, texts, signatures, slice, i - 1);
      assert y[i - 1].line.prevHash == y[i - 1].line.(signature := None).prevHash
        && x[i - 1].line.prevHash == x[i - 1].line.(signature := None).prevHash;
      SignedParts(h, ed, y, j, key);
      SameHashSameLine(h, ed, x, i - 1, y, j - 1, key, texts);
      PrevUnique(h, ed, y, i - 1, j - 1, key, texts);
    }
  }

  lemma SliceIsOfTheLog(
    h: HashFunction, ed: Ed25519, key: string, log: seq<Json>, issued: set<Fields>, texts: set<string>,
    signatures: set<string>, slice: seq<Json>)
    requires Trusted(h, ed, key, log, issued, texts, signatures) && HashedAmong(slice, texts) && WellFormedSlice(slice)
    requires AllSigned(h, ed, EntriesOf(slice), key) && RecordsItsEntries(slice) && SignaturesAmong(slice, signatures)
    ensures BeginningOf(slice, log)
  {
    hide AllSigned, AsEntry, IsEntry, HasLine, WellFormed, RecordsItsText, NoForgery, BodiesAmong,
         CollisionFree, HexDigests;
    var x, y := EntriesOf(slice), EntriesOf(log);
    forall i | 0 <= i < |slice| ensures i < |log| && HasLine(x[i]) && HasLine(y[i]) {
      LinesAreOfTheLog(h, ed, key, log, issued, texts, signatures, slice, i);
    }
    if slice != [] {
      var n := |slice| - 1;
      LinesAreOfTheLog(h, ed, key, log, issued, texts, signatures, slice, n);
      SameSignedTextSameEntry(slice[n], log[n]);
      forall i | 0 <= i < n ensures slice[i] == log[i] {
        LinesAreOfTheLog(h, ed, key, log, issued, texts, signatures, slice, i + 1);
        SameLineSameEntry(slice[i], log[i]);
      }
    }
  }

  lemma BeginningRecords(slice: seq<Json>, log: seq<Json>)
    requires BeginningOf(slice, log) && RecordsItsEntries(log)
    ensures RecordsItsEntries(slice)
  {
    hide TextOf;
    forall i | 0 <= i < |slice| ensures RecordsItsText(slice[i]) {
      assert RecordsItsText(log[i]);
      if i == |slice| - 1 { SameEntryRecords(slice[i], log[i]); }
    }
  }

  lemma SameEntryRecords(a: Json, b: Json)
    requires SameEntry(a, b) && RecordsItsText(b)
    ensures RecordsItsText(a)
  {
    hide Print;
    var f, g := a.fields, b.fields;
    assert Get(f, "canonical_json") == Get(f - {"signature"}, "canonical_json");
    assert Get(g, "canonical_json") == Get(g - {"signature"}, "canonical_json");
    assert "signature" in LINE_KEYS;
    assert f - LINE_KEYS == (f - {"signature"}) - LINE_KEYS && g - LINE_KEYS == (g - {"signature"}) - LINE_KEYS;
  }

  // ----- the receipt is an issued one -----

  /** The receipt is one of the issued ones, but for its signature. */
  predicate IsIssued(receipt: Fields, issued: set<Fields>) {
    exists r | r in issued :: receipt - {"signature"} == r - {"signature"}
  }

  lemma ReceiptIsIssued(
    w: World, key: string, log: seq<Json>, issued: set<Fields>, texts: set<string>, signatures: set<string>,
    receipt: Fields)
    requires Trusted(w.h, w.ed, key, log, issued, texts, signatures) && ReceiptSigned(w, receipt, key)
    requires RecordsItsHash(w.h, receipt)
    requires BodyText(receipt) in texts && WellFormed(Obj(receipt)) && receipt["signature"].s in signatures
    ensures IsIssued(receipt, issued)
  {
    hide AllSigned, Message, AsEntry, IsEntry, BodyText, WellFormed, RecordsItsText, LineText;
    var m := ReceiptMessage(receipt);
    PrefixedIsNotHex(w.h, BodyText(receipt));
    var event := receipt["event_hash"].s;
    if IsLineMessage(log, m) {
      var j :| 0 <= j < |log| && HasLine(AsEntry(log[j])) && LineMessage(AsEntry(log[j])) == m;
      var y := EntriesOf(log)[j];
      SignedParts(w.h, w.ed, EntriesOf(log), j, key);
      assert LineTexts(y) <= texts;
      assert y.line.canonicalJson.value in LineTexts(y);
      LastField(y.line.prevHash.value, y.line.eventHash.value, receipt["prev_hash"].s, event);
      assert false;
    }
    var r: Fields :| r in issued && IsString(Get(r, "prev_hash")) && IsString(Get(r, "event_hash"))
      && ReceiptMessage(r) == m;
    PrefixedIsNotHex(w.h, BodyText(r));
    LastField(r["prev_hash"].s, r["event_hash"].s, receipt["prev_hash"].s, event);
    HashBindsBody(w.h, receipt, r);
  }

  lemma IssuedRecords(h: HashFunction, receipt: Fields, r: Fields)
    requires RecordsItsHash(h, r) && receipt - {"signature"} == r - {"signature"}
    ensures RecordsItsHash(h, receipt)
  {
    hide Print;
    assert Get(receipt, "event_hash") == Get(receipt - {"signature"}, "event_hash");
    assert Get(r, "event_hash") == Get(r - {"signature"}, "event_hash");
    assert receipt - SEAL_KEYS == (receipt - {"signature"}) - SEAL_KEYS
      && r - SEAL_KEYS == (r - {"signature"}) - SEAL_KEYS;
  }

  lemma SignatureIsThere(w: World, receipt: Fields, key: string)
    requires ReceiptSigned(w, receipt, key)
    ensures "signature" in receipt && receipt["signature"].Str?
  {
  }

  /** When no signature at hand is forged, a "verified" receipt is one the key's
      holder issued and its slice the beginning of the holder's log (either may carry
      another valid signature over the same text) if and only if both comparisons
      come out. */
  lemma VerifiedIsGenuineIff(
    w: World, receipt: Fields, ctx: Context, log: seq<Json>, issued: set<Fields>, texts: set<string>)
    requires Evidence(w, Obj(receipt), ctx) && 
      Trusted(w.h, w.ed, ctx.signingKey.GetOr(""), log, issued, texts, Presented(receipt, ctx.chronicle))
    requires WellFormed(Obj(receipt)) && BodyText(receipt) in texts
    requires WellFormedSlice(ctx.chronicle) && HashedAmong(ctx.chronicle, texts)
    ensures Recorded(w.h, receipt, ctx.chronicle) <==> BeginningOf(ctx.chronicle, log) && IsIssued(receipt, issued)
  {
    hide Evidence, AllSigned, ReceiptSigned, RecordsItsEntries, RecordsItsHash, WellFormed, WellFormedSlice,
         HashedAmong, BodyText, BeginningOf, BodiesAmong, HexDigests, NoForgery, CollisionFree, EntriesOf,
         AllEntries;
    EvidenceHasSlice(w, receipt, ctx);
    var key := ctx.signingKey.value;
    if Recorded(w.h, receipt, ctx.chronicle) {
      var signatures := Presented(receipt, ctx.chronicle);
      assert SignaturesAmong(ctx.chronicle, signatures);
      SliceIsOfTheLog(w.h, w.ed, key, log, issued, texts, signatures, ctx.chronicle);
      assert receipt["signature"].s in signatures by { SignatureIsThere(w, receipt, key); }
      ReceiptIsIssued(w, key, log, issued, texts, signatures, receipt);
    }
    if BeginningOf(ctx.chronicle, log) && IsIssued(receipt, issued) {
      BeginningRecords(ctx.chronicle, log);
      var r :| r in issued && receipt - {"signature"} == r - {"signature"};
      IssuedRecords(w.h, receipt, r);
    }
  }

  // ----- the honest writer and prover -----

  /** The fixture writer's log and the honest receipt pass both comparisons. */
  lemma HonestIsRecorded(
    w: World, proverHeat: DropPolicy.HeatMap, c: Config, k: Kill, env: Envelope, specs: seq<EventSpec>)
    requires ProverDrops(w, proverHeat, k).Some?
    ensures Recorded(w.h, HonestReceipt(w, proverHeat, c, k, env).fields, RunJson(c, specs))
  {
    hide Print, ProverDrops, BuildProof, ReceiptInputs, EntryJson, Written, RunJson;
    assert RecordsItsEntries(RunJson(c, specs)) by { WriterRecords(c, specs); }
    var inp := ReceiptInputs(w, k, ProverDrops(w, proverHeat, k).value.dropped, BuildProof(w, proverHeat, k, env));
    var body, receipt := ReceiptBody(w, k, env, inp), HonestReceipt(w, proverHeat, c, k, env).fields;
    assert receipt - SEAL_KEYS == body;
  }

  /** So they are a source, and their signatures are no forgeries when a signature
      verifies over one message only. */
  lemma HonestIsSource(
    w: World, proverHeat: DropPolicy.HeatMap, c: Config, k: Kill, env: Envelope, specs: seq<EventSpec>, key: string)
    requires w.h == c.h && ProverDrops(w, proverHeat, k).Some? && KeyMatches(w.ed, c, key)
    requires forall m, n :: w.ed.verifies(m, c.sign(n), key) ==> m == n
    ensures var log, receipt := RunJson(c, specs), HonestReceipt(w, proverHeat, c, k, env).fields;
      && Source(w.h, w.ed, key, log, {receipt}) && NoForgery(w.ed, key, log, {receipt}, Presented(receipt, log))
  {
    hide ProverDrops, EntryJson, RunJson, BuildReceipt, BuildProof, AllSigned, Message, AsEntry, IsEntry,
         RecordsItsEntries, RecordsItsHash, LineSignature, Log;
    var log, receipt := RunJson(c, specs), HonestReceipt(w, proverHeat, c, k, env).fields;
    HonestIsRecorded(w, proverHeat, c, k, env, specs);
    EntriesAreLog(c, specs);
    WriterIsSigned(w.ed, c, specs, key);
    ReceiptIsSigned(w, proverHeat, c, k, env);
    forall m, s | s in Presented(receipt, log) && w.ed.verifies(m, s, key)
      ensures IsLineMessage(log, m) || IsReceiptMessage({receipt}, m)
    {
      if i :| 0 <= i < |log| && LineSignature(log[i]).Some? && LineSignature(log[i]).value == s {
        LineIsSigned(c, specs, i);
      } else {
        assert s == receipt["signature"].s;
      }
    }
  }

  lemma LineIsSigned(c: Config, specs: seq<EventSpec>, i: nat)
    requires i < |RunJson(c, specs)|
    ensures IsEntry(RunJson(c, specs)[i])
    ensures var e := AsEntry(RunJson(c, specs)[i]);
      HasLine(e) && LineSignature(RunJson(c, specs)[i]) == Some(c.sign(LineMessage(e)))
  {
    hide EntryJson, Stamped, AsEntry, IsEntry, Message, Print;
    assert i < |specs| by { RunLength(c, FRESH, specs); }
    RunJsonAt(c, specs, i);
    EntryRoundTrip(Written(c, specs[i], RunHeads(c, specs[..i])));
    EntrySignature(RunJson(c, specs)[i]);
  }

  lemma ReceiptIsSigned(w: World, proverHeat: DropPolicy.HeatMap, c: Config, k: Kill, env: Envelope)
    requires ProverDrops(w, proverHeat, k).Some?
    ensures var f := HonestReceipt(w, proverHeat, c, k, env).fields;
      && IsString(Get(f, "prev_hash")) && IsString(Get(f, "event_hash"))
      && Get(f, "signature") == Some(Str(c.sign(ReceiptMessage(f))))
  {
    hide ProverDrops, BuildProof, BuildReceipt;
    ReadReceipt(w, c.sign, k, env, ProverDrops(w, proverHeat, k).value.dropped, BuildProof(w, proverHeat, k, env));
  }

  lemma WriterRecords(c: Config, specs: seq<EventSpec>)
    ensures RecordsItsEntries(RunJson(c, specs))
  {
    hide RecordsItsText, Written, EntryJson, Log;
    assert |RunJson(c, specs)| == |specs| by { RunLength(c, FRESH, specs); }
    forall i | 0 <= i < |specs| ensures RecordsItsText(RunJson(c, specs)[i]) {
      RunJsonAt(c, specs, i);
      WrittenRecords(c, specs[i], RunHeads(c, specs[..i]));
    }
  }

  lemma WrittenRecords(c: Config, spec: EventSpec, heads: Heads)
    ensures RecordsItsText(EntryJson(Written(c, spec, heads)))
  {
    hide Print, Stamped, CoreFields;
    var e := Stamped(c, spec, heads);
    var core := Put(CoreFields(e), "caps", e.caps);
    var line := LineFor(c, e, heads.prevLine);
    CoreLookups(e);
    assert e.line == NO_LINE by { StampedHasNoLine(c, spec, heads); }
    assert EntryJson(e) == Obj(core);
    SameCore(e, Written(c, spec, heads));
    LineRoundTrip(core, line);
    RestIsCore(core, line);
  }

  lemma SameCore(e: Entry, f: Entry)
    requires f == e.(line := f.line)
    ensures Put(CoreFields(f), "caps", f.caps) == Put(CoreFields(e), "caps", e.caps)
  {
  }

  lemma StampedHasNoLine(c: Config, spec: EventSpec, heads: Heads)
    ensures Stamped(c, spec, heads).line == NO_LINE
  {
    hide ComputePayloadHash, EventHashFor, GlobalHashFor;
  }

  lemma RestIsCore(core: Fields, line: Line)
    requires core.Keys !! LINE_KEYS
    ensures WithLine(core, line) - LINE_KEYS == core
  {
    LineRoundTrip(core, line);
    hide WithLine, LINE_KEYS;
    var f := WithLine(core, line) - LINE_KEYS;
    forall k: string ensures Get(f, k) == Get(core, k) {
      if k !in LINE_KEYS { assert Get(f, k) == Get(WithLine(core, line), k); }
    }
    SameLookups(f, core);
  }
}
