/** Authentication of a chronicle slice by the signature on every log line. */
module SignedLines {
  import opened Json
  import opened Hashing
  import opened ChronicleChain

  /** Ed25519 (section 5.1 of RFC 8032) from the outside: which hex texts decode to
      a 32-byte public key, and whether a signature over a message verifies under a key. */
  datatype Ed25519 = Ed25519(isKey: string -> bool, verifies: (string, string, string) -> bool)

  /** The message an Akalynth line or receipt signature covers. */
  function Message(prevHash: string, eventHash: string): string {
    prevHash + "|" + eventHash
  }

  /** `verifyLineSignature` and `verifyReceiptSignature`. */
  predicate VerifySignature(ed: Ed25519, prevHash: string, eventHash: string, signature: string, key: string) {
    ed.isKey(key) && ed.verifies(Message(prevHash, eventHash), signature, key)
  }

  predicate HasLine(e: Entry) {
    e.line.eventHash.Some? && e.line.prevHash.Some? && e.line.signature.Some? && e.line.canonicalJson.Some?
  }

  /** The whole log line of an entry. */
  function LineText(e: Entry): string
    requires HasLine(e)
  {
    e.line.prevHash.value + "|" + e.line.eventHash.value + "|" + e.line.signature.value + "|"
      + e.line.canonicalJson.value
  }

  function ExpectedPrev(h: HashFunction, prevLine: Option<string>): string {
    match prevLine
    case None => GENESIS
    case Some(line) => h(line)
  }

  /** The line hashes its own JSON, names the line before it, and is signed. */
  predicate LineSigned(h: HashFunction, ed: Ed25519, e: Entry, prevLine: Option<string>, key: string) {
    && HasLine(e)
    && e.line.eventHash.value == h(e.line.canonicalJson.value)
    && e.line.prevHash.value == ExpectedPrev(h, prevLine)
    && VerifySignature(ed, e.line.prevHash.value, e.line.eventHash.value, e.line.signature.value, key)
  }

  /** Every line of the slice is signed and follows the line before it, from "genesis". */
  predicate AllSigned(h: HashFunction, ed: Ed25519, entries: seq<Entry>, key: string) {
    forall i | 0 <= i < |entries| :: SignedAt(h, ed, entries, i, key)
  }

  predicate SignedAt(h: HashFunction, ed: Ed25519, entries: seq<Entry>, i: nat, key: string)
    requires i < |entries|
  {
    if i == 0 then LineSigned(h, ed, entries[0], None, key)
    else HasLine(entries[i - 1]) && LineSigned(h, ed, entries[i], Some(LineText(entries[i - 1])), key)
  }

  predicate UsableKey(ed: Ed25519, key: string) {
    key != "" && ed.isKey(key)
  }

  datatype SliceAuth =
    | Authenticated
    | NotAuthenticated(at: Option<nat>)
    | SignatureInvalid(index: nat)

  /** `verifySignedChainSlice`.  Missing line material is not a tamper signal; a
      line that is present and does not check is. */
  method VerifySignedChainSlice(h: HashFunction, ed: Ed25519, entries: seq<Entry>, key: string)
    returns (r: SliceAuth)
    ensures r.Authenticated? <==> UsableKey(ed, key) && AllSigned(h, ed, entries, key)
    ensures r.NotAuthenticated? && r.at.None? <==> !UsableKey(ed, key)
    ensures r.NotAuthenticated? && r.at.Some? ==>
      r.at.value < |entries| && AllSigned(h, ed, entries[..r.at.value], key) && !HasLine(entries[r.at.value])
    ensures r.SignatureInvalid? ==>
      && r.index < |entries| && AllSigned(h, ed, entries[..r.index], key)
      && HasLine(entries[r.index]) && !SignedAt(h, ed, entries, r.index, key)
  {
    if key == "" || !ed.isKey(key) {
      return NotAuthenticated(None);
    }
    var prevLine: Option<string> := None;
    for i := 0 to |entries|
      invariant forall k | 0 <= k < i :: SignedAt(h, ed, entries, k, key)
      invariant AllSigned(h, ed, entries[..i], key)
      invariant prevLine.None? <==> i == 0
      invariant i > 0 ==> HasLine(entries[i - 1]) && prevLine == Some(LineText(entries[i - 1]))
    {
      var e := entries[i];
      assert SignedAt(h, ed, entries, i, key) <==> LineSigned(h, ed, e, prevLine, key);
      if !HasLine(e) {
        return NotAuthenticated(Some(i));
      }
      if e.line.eventHash.value != h(e.line.canonicalJson.value) {
        return SignatureInvalid(i);
      }
      if e.line.prevHash.value != ExpectedPrev(h, prevLine) {
        return SignatureInvalid(i);
      }
      if !VerifySignature(ed, e.line.prevHash.value, e.line.eventHash.value, e.line.signature.value, key) {
        return SignatureInvalid(i);
      }
      prevLine := Some(LineText(e));
      SignedSnoc(h, ed, entries, i, key);
    }
    assert entries[..|entries|] == entries;
    return Authenticated;
  }

  lemma SignedSnoc(h: HashFunction, ed: Ed25519, entries: seq<Entry>, i: nat, key: string)
    requires i < |entries|
    ensures AllSigned(h, ed, entries[..i + 1], key)
      <==> AllSigned(h, ed, entries[..i], key) && SignedAt(h, ed, entries, i, key)
  {
    var s, t := entries[..i], entries[..i + 1];
    forall k | 0 <= k <= i
      ensures SignedAt(h, ed, t, k, key) == SignedAt(h, ed, entries, k, key)
      ensures k < i ==> SignedAt(h, ed, s, k, key) == SignedAt(h, ed, entries, k, key)
    {
    }
    if AllSigned(h, ed, t, key) {
      assert SignedAt(h, ed, t, i, key);
      forall k | 0 <= k < i ensures SignedAt(h, ed, s, k, key) { assert SignedAt(h, ed, t, k, key); }
    }
    if AllSigned(h, ed, s, key) && SignedAt(h, ed, entries, i, key) {
      forall k | 0 <= k <= i ensures SignedAt(h, ed, t, k, key) { if k < i { assert SignedAt(h, ed, s, k, key); } }
    }
  }

  // ----- what the last line fixes -----

  /** The two texts that enter hashes because of an entry's line. */
  function LineTexts(e: Entry): set<string>
    requires HasLine(e)
  {
    {LineText(e), e.line.canonicalJson.value}
  }

  /** All line texts of a slice are among the given texts. */
  predicate TextsAmong(entries: seq<Entry>, texts: set<string>) {
    forall i | 0 <= i < |entries| :: HasLine(entries[i]) && LineTexts(entries[i]) <= texts
  }

  /** Digests are written in an alphabet without the separator and are not the starting value. */
  ghost predicate PlainDigests(h: HashFunction, texts: set<string>) {
    forall t | t in texts :: '|' !in h(t) && h(t) != GENESIS
  }

  lemma FirstField(x: string, y: string, p: string, q: string)
    requires '|' !in x && '|' !in y && x + "|" + p == y + "|" + q
    ensures x == y && p == q
  {
    var s, t := x + "|" + p, y + "|" + q;
    assert s[|x|] == t[|x|] == '|' && s[|y|] == t[|y|] == '|';
    assert (forall i | 0 <= i < |x| :: s[i] == x[i]) && forall i | 0 <= i < |y| :: t[i] == y[i];
    assert |x| == |y|;
    assert x == s[..|x|] && y == t[..|y|] && p == s[|x| + 1..] && q == t[|y| + 1..];
  }

  /** Equal lines of soundly hashed entries have equal parts. */
  lemma SameTextSameLine(h: HashFunction, x: Entry, y: Entry, texts: set<string>)
    requires HasLine(x) && HasLine(y) && LineText(x) == LineText(y)
    requires LineTexts(x) <= texts && LineTexts(y) <= texts && CollisionFree(h, texts) && PlainDigests(h, texts)
    requires '|' !in x.line.prevHash.value && '|' !in y.line.prevHash.value
    requires x.line.eventHash.value == h(x.line.canonicalJson.value)
    requires y.line.eventHash.value == h(y.line.canonicalJson.value)
    ensures x.line == y.line
  {
    var restX := x.line.eventHash.value + "|" + x.line.signature.value + "|" + x.line.canonicalJson.value;
    var restY := y.line.eventHash.value + "|" + y.line.signature.value + "|" + y.line.canonicalJson.value;
    assert LineText(x) == x.line.prevHash.value + "|" + restX && LineText(y) == y.line.prevHash.value + "|" + restY;
    FirstField(x.line.prevHash.value, y.line.prevHash.value, restX, restY);
    var endX := x.line.signature.value + "|" + x.line.canonicalJson.value;
    var endY := y.line.signature.value + "|" + y.line.canonicalJson.value;
    assert restX == x.line.eventHash.value + "|" + endX && restY == y.line.eventHash.value + "|" + endY;
    FirstField(x.line.eventHash.value, y.line.eventHash.value, endX, endY);
    var tail := "|" + x.line.canonicalJson.value;
    assert endX == x.line.signature.value + tail && endY == y.line.signature.value + tail;
    assert |x.line.signature.value| == |y.line.signature.value|;
    assert x.line.signature.value == endX[..|x.line.signature.value|]
      && y.line.signature.value == endY[..|y.line.signature.value|];
  }

  /** The line named as predecessor by the entry at i. */
  function PrevLine(entries: seq<Entry>, i: nat): Option<string>
    requires i < |entries| && (i > 0 ==> HasLine(entries[i - 1]))
  {
    if i == 0 then None else Some(LineText(entries[i - 1]))
  }

  lemma SignedLast(h: HashFunction, ed: Ed25519, entries: seq<Entry>, key: string, texts: set<string>)
    requires entries != [] && AllSigned(h, ed, entries, key) && TextsAmong(entries, texts) && PlainDigests(h, texts)
    ensures var m := |entries| - 1; var e := entries[m];
      && AllSigned(h, ed, entries[..m], key) && TextsAmong(entries[..m], texts) && HasLine(e) && LineTexts(e) <= texts
      && e.line.eventHash.value == h(e.line.canonicalJson.value) && '|' !in e.line.prevHash.value
      && (m > 0 ==> HasLine(entries[m - 1]) && LineText(entries[m - 1]) in texts)
      && e.line.prevHash.value == ExpectedPrev(h, PrevLine(entries, m))
      && (m == 0 <==> e.line.prevHash.value == GENESIS)
  {
    hide LineText, VerifySignature, UsableKey, AllSigned;
    var m := |entries| - 1;
    assert entries[..m + 1] == entries;
    SignedSnoc(h, ed, entries, m, key);
    if m > 0 { assert LineTexts(entries[m - 1]) <= texts; }
  }

  /** Tamper evidence of the line chain.  Two authenticated slices, even under
      different keys, whose last lines hash alike hold the same lines throughout. */
  lemma {:induction false} LastLineBindsLines(
    h: HashFunction, ed: Ed25519, a: seq<Entry>, keyA: string, b: seq<Entry>, keyB: string, texts: set<string>)
    requires a != [] && b != [] && AllSigned(h, ed, a, keyA) && AllSigned(h, ed, b, keyB)
    requires TextsAmong(a, texts) && TextsAmong(b, texts) && CollisionFree(h, texts) && PlainDigests(h, texts)
    requires h(LineText(a[|a| - 1])) == h(LineText(b[|b| - 1]))
    ensures |a| == |b| && SameLines(a, b)
    decreases |a|
  {
    hide LineText, AllSigned, TextsAmong, PlainDigests, SameLines;
    var m, n := |a| - 1, |b| - 1;
    SignedLast(h, ed, a, keyA, texts);
    SignedLast(h, ed, b, keyB, texts);
    SameTextSameLine(h, a[m], b[n], texts);
    if m > 0 {
      assert a[..m][m - 1] == a[m - 1] && b[..n][n - 1] == b[n - 1];
      LastLineBindsLines(h, ed, a[..m], keyA, b[..n], keyB, texts);
    } else {
      assert SameLines(a[..m], b[..n]) by { NoLines(); assert a[..m] == [] && b[..n] == []; }
    }
    SameLinesSnoc(a, b);
  }

  predicate SameLines(a: seq<Entry>, b: seq<Entry>)
    requires |a| == |b|
  {
    forall i | 0 <= i < |a| :: a[i].line == b[i].line
  }

  lemma NoLines()
    ensures SameLines([], [])
  {
  }

  lemma SameLinesSnoc(a: seq<Entry>, b: seq<Entry>)
    requires |a| == |b| && a != []
    requires SameLines(a[..|a| - 1], b[..|b| - 1]) && a[|a| - 1].line == b[|b| - 1].line
    ensures SameLines(a, b)
  {
    forall i | 0 <= i < |a| ensures a[i].line == b[i].line {
      if i < |a| - 1 { assert a[..|a| - 1][i] == a[i] && b[..|b| - 1][i] == b[i]; }
    }
  }
}
