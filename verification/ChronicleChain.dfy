/** The chronicle's hash chains: what is hashed for an entry, and the checks over
    an ordered slice of the global chain and of the signed log lines. */
module ChronicleChain {
  import opened Json
  import opened CanonicalText
  import opened Hashing
  import opened Links

  const DOMAIN_EVENT := "akalynth:chronicle:event:v1\0"
  const DOMAIN_GLOBAL := "akalynth:chronicle:global:v1\0"
  const GENESIS := "genesis"

  /** The fields of a chronicle entry the checks read.  Line fields that are
      missing or not strings are None. */
  datatype Entry = Entry(
    v: string, worldId: string, rulebookRoot: string, tick: string,
    eventType: string, actor: string, capsHash: string,
    caps: Option<Json>, payload: Fields, line: Line)

  datatype Line = Line(
    prevHash: Option<string>, eventHash: Option<string>,
    signature: Option<string>, canonicalJson: Option<string>)

  predicate HasNumber(fields: Fields, key: string) {
    key in fields && fields[key].Num?
  }

  /** `isChronicleEntry`. */
  predicate IsEntry(j: Json) {
    && j.Obj?
    && HasNumber(j.fields, "v")
    && GetString(j.fields, "world_id").Some?
    && GetString(j.fields, "rulebook_root").Some?
    && HasNumber(j.fields, "tick")
    && GetString(j.fields, "event_type").Some?
    && GetString(j.fields, "actor").Some?
    && GetString(j.fields, "caps_hash").Some?
    && "payload" in j.fields && (j.fields["payload"].Obj? || j.fields["payload"].Arr?)
  }

  /** An array passes the `typeof payload === 'object'` test; no string can be read
      from it by name, so the payload check that follows always fails, as it does
      for an empty object. */
  function PayloadFields(payload: Json): Fields {
    if payload.Obj? then payload.fields else map[]
  }

  function AsEntry(j: Json): Entry
    requires IsEntry(j)
  {
    var f := j.fields;
    Entry(f["v"].text, f["world_id"].s, f["rulebook_root"].s, f["tick"].text,
          f["event_type"].s, f["actor"].s, f["caps_hash"].s,
          Get(f, "caps"), PayloadFields(f["payload"]),
          Line(GetString(f, "line_prev_hash"), GetString(f, "line_event_hash"),
               GetString(f, "signature"), GetString(f, "canonical_json")))
  }

  // ----- what is hashed -----

  const HASH_FIELDS: set<string> :=
    {"payload_hash", "prev_event_hash", "event_hash", "prev_global_hash", "global_event_hash"}

  /** `stripPayloadHashFields`. */
  function Strip(payload: Fields): Fields {
    payload - HASH_FIELDS
  }

  function PayloadText(payload: Fields): string {
    Print(true, Obj(Strip(payload)))
  }

  function EventPreimage(e: Entry, prevEventHash: string, payloadHash: string): Json {
    Obj(map[
      "v" := Num(e.v), "world_id" := Str(e.worldId), "rulebook_root" := Str(e.rulebookRoot),
      "event_type" := Str(e.eventType), "actor" := Str(e.actor), "tick" := Num(e.tick),
      "caps_hash" := Str(e.capsHash), "payload_hash" := Str(payloadHash),
      "prev_event_hash" := Str(prevEventHash)])
  }

  function GlobalPreimage(e: Entry, payloadHash: string, eventHash: string, prevGlobalHash: string): Json {
    Obj(map[
      "v" := Num(e.v), "world_id" := Str(e.worldId), "rulebook_root" := Str(e.rulebookRoot),
      "event_type" := Str(e.eventType), "actor" := Str(e.actor), "tick" := Num(e.tick),
      "caps_hash" := Str(e.capsHash), "payload_hash" := Str(payloadHash),
      "event_hash" := Str(eventHash), "prev_global_hash" := Str(prevGlobalHash)])
  }

  function EventText(e: Entry, prevEventHash: string, payloadHash: string): string {
    DOMAIN_EVENT + Print(true, EventPreimage(e, prevEventHash, payloadHash))
  }

  function GlobalText(e: Entry, payloadHash: string, eventHash: string, prevGlobalHash: string): string {
    DOMAIN_GLOBAL + Print(true, GlobalPreimage(e, payloadHash, eventHash, prevGlobalHash))
  }

  function ComputePayloadHash(h: HashFunction, payload: Fields): string {
    Prefixed(h, PayloadText(payload))
  }

  function StrArray(texts: seq<string>): Json {
    Arr(seq(|texts|, i requires 0 <= i < |texts| => Str(texts[i])))
  }

  function ComputeCapsHash(h: HashFunction, caps: seq<string>): string {
    Prefixed(h, Print(true, StrArray(caps)))
  }

  function ComputeEventHash(h: HashFunction, e: Entry, prevEventHash: string, payloadHash: string): string {
    Prefixed(h, EventText(e, prevEventHash, payloadHash))
  }

  function ComputeGlobalEventHash(
    h: HashFunction, e: Entry, payloadHash: string, eventHash: string, prevGlobalHash: string): string
  {
    Prefixed(h, GlobalText(e, payloadHash, eventHash, prevGlobalHash))
  }

  // ----- what an entry claims about itself -----

  function PrevEvent(e: Entry): string {
    match GetString(e.payload, "prev_event_hash")
    case Some(s) => s
    case None => GENESIS
  }

  predicate HasGlobalFields(e: Entry) {
    GetString(e.payload, "prev_global_hash").Some? && GetString(e.payload, "global_event_hash").Some?
  }

  function PrevGlobal(e: Entry): string
    requires HasGlobalFields(e)
  {
    GetString(e.payload, "prev_global_hash").value
  }

  function GlobalHash(e: Entry): string
    requires HasGlobalFields(e)
  {
    GetString(e.payload, "global_event_hash").value
  }

  /** The payload and event hashes the entry carries are the ones it must have. */
  predicate HashesRecompute(h: HashFunction, e: Entry) {
    var payloadHash := ComputePayloadHash(h, e.payload);
    && GetString(e.payload, "payload_hash") == Some(payloadHash)
    && GetString(e.payload, "event_hash") == Some(ComputeEventHash(h, e, PrevEvent(e), payloadHash))
  }

  function EventHash(h: HashFunction, e: Entry): string {
    ComputeEventHash(h, e, PrevEvent(e), ComputePayloadHash(h, e.payload))
  }

  predicate GlobalRecomputes(h: HashFunction, e: Entry) {
    && HasGlobalFields(e)
    && GlobalHash(e) == ComputeGlobalEventHash(h, e, ComputePayloadHash(h, e.payload), EventHash(h, e), PrevGlobal(e))
  }

  // ----- the global chain over a slice -----

  datatype Reason =
    | NOT_OBJECT | PAYLOAD_HASH_MISMATCH | EVENT_HASH_MISMATCH
    | GLOBAL_FIELDS_MISSING | GLOBAL_CHAIN_BROKEN | GLOBAL_EVENT_HASH_MISMATCH

  datatype GlobalChainResult = Linked(verified: nat, head: string) | Broken(index: nat, reason: Reason)

  /** The entry is well-shaped and every hash in it recomputes. */
  predicate Sound(h: HashFunction, j: Json) {
    IsEntry(j) && HashesRecompute(h, AsEntry(j)) && GlobalRecomputes(h, AsEntry(j))
  }

  /** What the global chain sees of an entry. */
  function GlobalLink(h: HashFunction, j: Json): Link {
    if Sound(h, j) then Link(PrevGlobal(AsEntry(j)), GlobalHash(AsEntry(j))) else Unsound
  }

  function GlobalLinks(h: HashFunction, slice: seq<Json>): seq<Link> {
    seq(|slice|, i requires 0 <= i < |slice| => GlobalLink(h, slice[i]))
  }

  /** Every entry is sound and names the entry before it; the first one names `start`, if that is given. */
  predicate LinkedSlice(h: HashFunction, slice: seq<Json>, start: Option<string>) {
    Chained(GlobalLinks(h, slice), start)
  }

  function SliceHead(h: HashFunction, slice: seq<Json>, start: Option<string>): Option<string>
    requires LinkedSlice(h, slice, start)
  {
    Head(GlobalLinks(h, slice), start)
  }

  /** Why the entry does not continue a chain whose head is `expected` (None: not fixed yet). */
  function Fault(h: HashFunction, j: Json, expected: Option<string>): Option<Reason> {
    if !IsEntry(j) then Some(NOT_OBJECT) else
    var e := AsEntry(j);
    var payloadHash := ComputePayloadHash(h, e.payload);
    if GetString(e.payload, "payload_hash") != Some(payloadHash) then Some(PAYLOAD_HASH_MISMATCH)
    else if !HashesRecompute(h, e) then Some(EVENT_HASH_MISMATCH)
    else if !HasGlobalFields(e) then Some(GLOBAL_FIELDS_MISSING)
    else if expected.Some? && PrevGlobal(e) != expected.value then Some(GLOBAL_CHAIN_BROKEN)
    else if !GlobalRecomputes(h, e) then Some(GLOBAL_EVENT_HASH_MISMATCH)
    else None
  }

  lemma FaultIffNotContinuing(h: HashFunction, j: Json, expected: Option<string>)
    ensures Fault(h, j, expected) == None <==> Continues(GlobalLink(h, j), expected)
  {
  }

  lemma GlobalLinksConcat(h: HashFunction, a: seq<Json>, b: seq<Json>)
    ensures GlobalLinks(h, a + b) == GlobalLinks(h, a) + GlobalLinks(h, b)
  {
    hide GlobalLink;
  }

  lemma LinkedPrefix(h: HashFunction, slice: seq<Json>, start: Option<string>, n: nat)
    requires n <= |slice|
    ensures LinkedSlice(h, slice, start) ==> LinkedSlice(h, slice[..n], start)
  {
    assert GlobalLinks(h, slice)[..n] == GlobalLinks(h, slice[..n]);
    if LinkedSlice(h, slice, start) { ChainedPrefix(GlobalLinks(h, slice), n, start); }
  }

  /** Reading one more entry. */
  lemma LinkedStep(h: HashFunction, slice: seq<Json>, start: Option<string>, i: nat)
    requires i < |slice| && LinkedSlice(h, slice[..i], start)
    ensures LinkedSlice(h, slice[..i + 1], start) <==> Fault(h, slice[i], SliceHead(h, slice[..i], start)) == None
    ensures LinkedSlice(h, slice[..i + 1], start) ==>
      SliceHead(h, slice[..i + 1], start) == Some(GlobalHash(AsEntry(slice[i])))
  {
    hide Fault, Sound;
    assert GlobalLinks(h, slice[..i + 1]) == GlobalLinks(h, slice[..i]) + [GlobalLink(h, slice[i])];
    ChainedSnoc(GlobalLinks(h, slice[..i]), GlobalLink(h, slice[i]), start);
    FaultIffNotContinuing(h, slice[i], SliceHead(h, slice[..i], start));
  }

  /** `verifyGlobalChainSlice`. */
  method VerifyGlobalChainSlice(h: HashFunction, slice: seq<Json>, start: Option<string>)
    returns (r: GlobalChainResult)
    ensures r.Linked? <==> LinkedSlice(h, slice, start)
    ensures r.Linked? ==> r.verified == |slice| && r.head == SliceHead(h, slice, start).GetOr(GENESIS)
    ensures r.Broken? ==> r.index < |slice| && LinkedSlice(h, slice[..r.index], start)
    ensures r.Broken? ==> Some(r.reason) == Fault(h, slice[r.index], SliceHead(h, slice[..r.index], start))
  {
    var last := start;
    var verified := 0;
    for i := 0 to |slice|
      invariant verified == i
      invariant LinkedSlice(h, slice[..i], start)
      invariant last == SliceHead(h, slice[..i], start)
    {
      LinkedStep(h, slice, start, i);
      LinkedPrefix(h, slice, start, i + 1);
      var fault, head := VerifyEntry(h, slice[i], last);
      if fault.Some? {
        return Broken(i, fault.value);
      }
      last := Some(head);
      verified := verified + 1;
    }
    assert slice[..|slice|] == slice;
    return Linked(verified, last.GetOr(GENESIS));
  }

  /** The loop body: the first check that fails, or the new chain head. */
  method VerifyEntry(h: HashFunction, obj: Json, last: Option<string>) returns (fault: Option<Reason>, head: string)
    ensures fault == Fault(h, obj, last)
    ensures fault.None? ==> head == GlobalHash(AsEntry(obj))
  {
    head := GENESIS;
    if !IsEntry(obj) {
      return Some(NOT_OBJECT), head;
    }
    var entry := AsEntry(obj);
    var payloadHash := ComputePayloadHash(h, entry.payload);
    if GetString(entry.payload, "payload_hash") != Some(payloadHash) {
      return Some(PAYLOAD_HASH_MISMATCH), head;
    }
    var eventHash := ComputeEventHash(h, entry, PrevEvent(entry), payloadHash);
    if GetString(entry.payload, "event_hash") != Some(eventHash) {
      return Some(EVENT_HASH_MISMATCH), head;
    }
    var prevGlobal := GetString(entry.payload, "prev_global_hash");
    var globalHash := GetString(entry.payload, "global_event_hash");
    if prevGlobal.None? || globalHash.None? {
      return Some(GLOBAL_FIELDS_MISSING), head;
    }
    var expected := if last.None? then prevGlobal else last;
    if prevGlobal != expected {
      return Some(GLOBAL_CHAIN_BROKEN), head;
    }
    if ComputeGlobalEventHash(h, entry, payloadHash, eventHash, prevGlobal.value) != globalHash.value {
      return Some(GLOBAL_EVENT_HASH_MISMATCH), head;
    }
    return None, globalHash.value;
  }

  /** Checking a log in two parts is checking it whole: the second part starts
      from the head the first one ends with. */
  lemma ConcatenationComposes(h: HashFunction, a: seq<Json>, b: seq<Json>, start: Option<string>)
    ensures LinkedSlice(h, a + b, start)
      <==> LinkedSlice(h, a, start) && LinkedSlice(h, b, SliceHead(h, a, start))
    ensures LinkedSlice(h, a + b, start) ==>
      SliceHead(h, a + b, start) == SliceHead(h, b, SliceHead(h, a, start))
  {
    GlobalLinksConcat(h, a, b);
    ChainedConcat(GlobalLinks(h, a), GlobalLinks(h, b), start);
  }

  // ----- tamper evidence -----

  /** The three texts whose hashes the entry carries. */
  ghost function EntryTexts(h: HashFunction, e: Entry): set<string> {
    var payloadHash := ComputePayloadHash(h, e.payload);
    {PayloadText(e.payload), EventText(e, PrevEvent(e), payloadHash)} +
    (if HasGlobalFields(e) then {GlobalText(e, payloadHash, EventHash(h, e), PrevGlobal(e))} else {})
  }

  ghost function SliceTexts(h: HashFunction, slice: seq<Json>): set<string> {
    if slice == [] then {}
    else
      var last := slice[|slice| - 1];
      SliceTexts(h, slice[..|slice| - 1]) + if IsEntry(last) then EntryTexts(h, AsEntry(last)) else {}
  }

  /** The entries agree on everything the chain commits to. */
  ghost predicate SameCommitted(a: Entry, b: Entry)
    requires HasGlobalFields(a) && HasGlobalFields(b)
  {
    && a.v == b.v && a.worldId == b.worldId && a.rulebookRoot == b.rulebookRoot && a.tick == b.tick
    && a.eventType == b.eventType && a.actor == b.actor && a.capsHash == b.capsHash
    && Strip(a.payload) == Strip(b.payload)
    && PrevEvent(a) == PrevEvent(b) && PrevGlobal(a) == PrevGlobal(b) && GlobalHash(a) == GlobalHash(b)
  }

  lemma PreimageUnique(domain: string, a: Json, b: Json)
    requires WellFormed(a) && WellFormed(b)
    requires domain + Print(true, a) == domain + Print(true, b)
    ensures a == b
  {
    LiteralRest(domain, Print(true, a), Print(true, b));
    PrintInjective(true, a, b);
  }

  lemma EntryWellFormed(j: Json)
    requires IsEntry(j) && WellFormed(j)
    ensures IsNumeral(AsEntry(j).v) && IsNumeral(AsEntry(j).tick) && WellFormedFields(AsEntry(j).payload)
  {
    assert WellFormed(j.fields["v"]) && WellFormed(j.fields["tick"]) && WellFormed(j.fields["payload"]);
  }

  lemma GlobalPreimageBinds(
    a: Entry, b: Entry, pa: string, pb: string, ea: string, eb: string, ga: string, gb: string)
    requires GlobalPreimage(a, pa, ea, ga) == GlobalPreimage(b, pb, eb, gb)
    ensures a.v == b.v && a.worldId == b.worldId && a.rulebookRoot == b.rulebookRoot && a.tick == b.tick
    ensures a.eventType == b.eventType && a.actor == b.actor && a.capsHash == b.capsHash
    ensures pa == pb && ea == eb && ga == gb
  {
    var x, y := GlobalPreimage(a, pa, ea, ga).fields, GlobalPreimage(b, pb, eb, gb).fields;
    assert x["v"] == y["v"] && x["world_id"] == y["world_id"] && x["rulebook_root"] == y["rulebook_root"];
    assert x["event_type"] == y["event_type"] && x["actor"] == y["actor"] && x["tick"] == y["tick"];
    assert x["caps_hash"] == y["caps_hash"] && x["payload_hash"] == y["payload_hash"];
    assert x["event_hash"] == y["event_hash"] && x["prev_global_hash"] == y["prev_global_hash"];
  }

  lemma PreimagesWellFormed(e: Entry, x: string, y: string, z: string)
    requires IsNumeral(e.v) && IsNumeral(e.tick)
    ensures WellFormed(GlobalPreimage(e, x, y, z)) && WellFormed(EventPreimage(e, x, y))
  {
  }

  lemma GlobalTextBinds(h: HashFunction, a: Entry, b: Entry, texts: set<string>)
    requires GlobalRecomputes(h, a) && GlobalRecomputes(h, b) && GlobalHash(a) == GlobalHash(b)
    requires IsNumeral(a.v) && IsNumeral(a.tick) && IsNumeral(b.v) && IsNumeral(b.tick)
    requires EntryTexts(h, a) <= texts && EntryTexts(h, b) <= texts && CollisionFree(h, texts)
    ensures a.v == b.v && a.worldId == b.worldId && a.rulebookRoot == b.rulebookRoot && a.tick == b.tick
    ensures a.eventType == b.eventType && a.actor == b.actor && a.capsHash == b.capsHash
    ensures ComputePayloadHash(h, a.payload) == ComputePayloadHash(h, b.payload)
    ensures EventHash(h, a) == EventHash(h, b) && PrevGlobal(a) == PrevGlobal(b)
  {
    hide Print, Prefixed, EventHash, ComputePayloadHash;
    var pa, pb := ComputePayloadHash(h, a.payload), ComputePayloadHash(h, b.payload);
    var ea, eb := EventHash(h, a), EventHash(h, b);
    var va, vb := GlobalPreimage(a, pa, ea, PrevGlobal(a)), GlobalPreimage(b, pb, eb, PrevGlobal(b));
    PreimagesWellFormed(a, pa, ea, PrevGlobal(a));
    PreimagesWellFormed(b, pb, eb, PrevGlobal(b));
    PrefixedInjective(h, texts, GlobalText(a, pa, ea, PrevGlobal(a)), GlobalText(b, pb, eb, PrevGlobal(b)));
    hide GlobalPreimage, EntryTexts, CollisionFree, GlobalRecomputes;
    PreimageUnique(DOMAIN_GLOBAL, va, vb);
    GlobalPreimageBinds(a, b, pa, pb, ea, eb, PrevGlobal(a), PrevGlobal(b));
  }

  lemma EventPreimageBinds(a: Entry, b: Entry, pa: string, pb: string, ha: string, hb: string)
    requires EventPreimage(a, pa, ha) == EventPreimage(b, pb, hb)
    ensures a.v == b.v && a.worldId == b.worldId && a.rulebookRoot == b.rulebookRoot && a.tick == b.tick
    ensures a.eventType == b.eventType && a.actor == b.actor && a.capsHash == b.capsHash
    ensures pa == pb && ha == hb
  {
    var x, y := EventPreimage(a, pa, ha).fields, EventPreimage(b, pb, hb).fields;
    assert x["v"] == y["v"] && x["world_id"] == y["world_id"] && x["rulebook_root"] == y["rulebook_root"];
    assert x["event_type"] == y["event_type"] && x["actor"] == y["actor"] && x["tick"] == y["tick"];
    assert x["caps_hash"] == y["caps_hash"] && x["payload_hash"] == y["payload_hash"];
    assert x["prev_event_hash"] == y["prev_event_hash"];
  }

  /** The event hash alone binds the header, the payload hash and the link. */
  lemma EventTextBinds(h: HashFunction, a: Entry, b: Entry, texts: set<string>)
    requires EventHash(h, a) == EventHash(h, b)
    requires IsNumeral(a.v) && IsNumeral(a.tick) && IsNumeral(b.v) && IsNumeral(b.tick)
    requires EventText(a, PrevEvent(a), ComputePayloadHash(h, a.payload)) in texts
    requires EventText(b, PrevEvent(b), ComputePayloadHash(h, b.payload)) in texts
    requires CollisionFree(h, texts)
    ensures a.v == b.v && a.worldId == b.worldId && a.rulebookRoot == b.rulebookRoot && a.tick == b.tick
    ensures a.eventType == b.eventType && a.actor == b.actor && a.capsHash == b.capsHash
    ensures PrevEvent(a) == PrevEvent(b) && ComputePayloadHash(h, a.payload) == ComputePayloadHash(h, b.payload)
  {
    hide Print, Prefixed, ComputePayloadHash;
    var pa, pb := ComputePayloadHash(h, a.payload), ComputePayloadHash(h, b.payload);
    PreimagesWellFormed(a, PrevEvent(a), pa, "");
    PreimagesWellFormed(b, PrevEvent(b), pb, "");
    PrefixedInjective(h, texts, EventText(a, PrevEvent(a), pa), EventText(b, PrevEvent(b), pb));
    hide EventPreimage, CollisionFree;
    PreimageUnique(DOMAIN_EVENT, EventPreimage(a, PrevEvent(a), pa), EventPreimage(b, PrevEvent(b), pb));
    EventPreimageBinds(a, b, PrevEvent(a), PrevEvent(b), pa, pb);
  }

  /** The texts of the two kinds of hash open with their own domains, so they never coincide. */
  lemma DomainsSeparate(a: Entry, x: string, y: string, b: Entry, p: string, q: string, r: string)
    ensures EventText(a, x, y)[..28] == "akalynth:chronicle:event:v1\0"
    ensures GlobalText(b, p, q, r)[..29] == "akalynth:chronicle:global:v1\0"
    ensures EventText(a, x, y) != GlobalText(b, p, q, r)
  {
    hide Print;
    assert EventText(a, x, y)[19] == 'e' && GlobalText(b, p, q, r)[19] == 'g';
  }

  lemma PayloadTextBinds(h: HashFunction, a: Fields, b: Fields, texts: set<string>)
    requires ComputePayloadHash(h, a) == ComputePayloadHash(h, b)
    requires WellFormedFields(a) && WellFormedFields(b)
    requires PayloadText(a) in texts && PayloadText(b) in texts && CollisionFree(h, texts)
    ensures Strip(a) == Strip(b)
  {
    PrefixedInjective(h, texts, PayloadText(a), PayloadText(b));
    PrintInjective(true, Obj(Strip(a)), Obj(Strip(b)));
  }

  lemma SameGlobalHashSameEntry(h: HashFunction, x: Json, y: Json, texts: set<string>)
    requires Sound(h, x) && Sound(h, y) && WellFormed(x) && WellFormed(y)
    requires EntryTexts(h, AsEntry(x)) <= texts && EntryTexts(h, AsEntry(y)) <= texts && CollisionFree(h, texts)
    requires GlobalHash(AsEntry(x)) == GlobalHash(AsEntry(y))
    ensures SameCommitted(AsEntry(x), AsEntry(y))
  {
    var a, b := AsEntry(x), AsEntry(y);
    EntryWellFormed(x);
    EntryWellFormed(y);
    GlobalTextBinds(h, a, b, texts);
    EventTextBinds(h, a, b, texts);
    PayloadTextBinds(h, a.payload, b.payload, texts);
  }

  lemma SoundHashIsNotGenesis(h: HashFunction, j: Json)
    requires Sound(h, j)
    ensures GlobalHash(AsEntry(j)) != GENESIS
  {
    var e := AsEntry(j);
    PrefixedIsNotGenesis(h, GlobalText(e, ComputePayloadHash(h, e.payload), EventHash(h, e), PrevGlobal(e)));
  }

  /** The last entry of an accepted log, and the log before it. */
  lemma LinkedLast(h: HashFunction, slice: seq<Json>)
    requires slice != [] && LinkedSlice(h, slice, Some(GENESIS))
    ensures LinkedSlice(h, slice[..|slice| - 1], Some(GENESIS)) && Sound(h, slice[|slice| - 1])
    ensures SliceHead(h, slice[..|slice| - 1], Some(GENESIS)) == Some(PrevGlobal(AsEntry(slice[|slice| - 1])))
    ensures SliceHead(h, slice, Some(GENESIS)) == Some(GlobalHash(AsEntry(slice[|slice| - 1])))
  {
    hide Sound, Fault;
    var m := |slice| - 1;
    assert slice[..m + 1] == slice;
    LinkedPrefix(h, slice, Some(GENESIS), m);
    LinkedStep(h, slice, Some(GENESIS), m);
    assert GlobalLinks(h, slice)[m] == GlobalLink(h, slice[m]);
    ChainedSnoc(GlobalLinks(h, slice[..m]), GlobalLink(h, slice[m]), Some(GENESIS));
    assert GlobalLinks(h, slice) == GlobalLinks(h, slice[..m]) + [GlobalLink(h, slice[m])];
  }

  lemma SliceHeadKinds(h: HashFunction, slice: seq<Json>)
    requires LinkedSlice(h, slice, Some(GENESIS))
    ensures slice == [] <==> SliceHead(h, slice, Some(GENESIS)) == Some(GENESIS)
  {
    if slice != [] {
      LinkedLast(h, slice);
      SoundHashIsNotGenesis(h, slice[|slice| - 1]);
    }
  }

  /** Tamper evidence.  Two logs accepted from genesis that end at the same head
      have the same length and agree, entry by entry, on everything committed. */
  lemma {:induction false} HeadBindsLog(h: HashFunction, a: seq<Json>, b: seq<Json>, texts: set<string>)
    requires LinkedSlice(h, a, Some(GENESIS)) && LinkedSlice(h, b, Some(GENESIS))
    requires (forall j | j in a :: WellFormed(j)) && (forall j | j in b :: WellFormed(j))
    requires SliceTexts(h, a) <= texts && SliceTexts(h, b) <= texts && CollisionFree(h, texts)
    requires SliceHead(h, a, Some(GENESIS)) == SliceHead(h, b, Some(GENESIS))
    ensures |a| == |b| && AgreeEverywhere(a, b)
  {
    SliceHeadKinds(h, a);
    SliceHeadKinds(h, b);
    if a != [] {
      var m, n := |a| - 1, |b| - 1;
      LinkedLast(h, a);
      LinkedLast(h, b);
      SameGlobalHashSameEntry(h, a[m], b[n], texts);
      HeadBindsLog(h, a[..m], b[..n], texts);
      AgreeSnoc(a, b);
    }
  }

  ghost predicate AgreeAt(x: Json, y: Json) {
    && IsEntry(x) && IsEntry(y) && HasGlobalFields(AsEntry(x)) && HasGlobalFields(AsEntry(y))
    && SameCommitted(AsEntry(x), AsEntry(y))
  }

  ghost predicate AgreeEverywhere(a: seq<Json>, b: seq<Json>)
    requires |a| == |b|
  {
    forall i | 0 <= i < |a| :: AgreeAt(a[i], b[i])
  }

  lemma AgreeSnoc(a: seq<Json>, b: seq<Json>)
    requires |a| == |b| && a != []
    requires AgreeEverywhere(a[..|a| - 1], b[..|b| - 1]) && AgreeAt(a[|a| - 1], b[|b| - 1])
    ensures AgreeEverywhere(a, b)
  {
    forall i | 0 <= i < |a| ensures AgreeAt(a[i], b[i]) {
      if i < |a| - 1 { assert AgreeAt(a[..|a| - 1][i], b[..|b| - 1][i]); }
    }
  }
}
