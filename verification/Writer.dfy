/** The honest chronicle writer: each event extends its actor's chain, the global
    chain and the signed line chain at once. */
module Writer {
  import opened Json
  import opened CanonicalText
  import opened Hashing
  import opened ChronicleChain
  import opened SignedLines

  /** An event to record; the fixture writer records no capabilities. */
  datatype EventSpec = EventSpec(
    eventType: string, actor: string, tick: string, payload: Fields, caps: seq<string> := [])

  /** What the writer is configured with: hash, signing, world and rulebook. */
  datatype Config = Config(h: HashFunction, sign: string -> string, worldId: string, rulebookRoot: string)

  /** The heads of the three chains. */
  datatype Heads = Heads(lastByActor: map<string, string>, lastGlobal: string, prevLine: Option<string>)

  const FRESH := Heads(map[], GENESIS, None)

  /** The JSON object of an entry; line fields appear once they are set. */
  function EntryJson(e: Entry): Json {
    Obj(WithLine(Put(CoreFields(e), "caps", e.caps), e.line))
  }

  function CoreFields(e: Entry): Fields {
    map["v" := Num(e.v), "world_id" := Str(e.worldId), "rulebook_root" := Str(e.rulebookRoot),
        "tick" := Num(e.tick), "event_type" := Str(e.eventType), "actor" := Str(e.actor),
        "caps_hash" := Str(e.capsHash), "payload" := Obj(e.payload)]
  }

  function WithLine(fields: Fields, line: Line): Fields {
    PutString(PutString(PutString(PutString(fields,
      "line_prev_hash", line.prevHash), "line_event_hash", line.eventHash),
      "signature", line.signature), "canonical_json", line.canonicalJson)
  }

  function PutString(fields: Fields, key: string, value: Option<string>): Fields {
    match value
    case None => fields
    case Some(s) => fields[key := Str(s)]
  }

  const NO_LINE := Line(None, None, None, None)

  function BareEntry(c: Config, spec: EventSpec): Entry {
    Entry("1", c.worldId, c.rulebookRoot, spec.tick, spec.eventType, spec.actor,
          ComputeCapsHash(c.h, spec.caps), Some(StrArray(spec.caps)), spec.payload, NO_LINE)
  }

  function PrevOf(heads: Heads, actor: string): string {
    if actor in heads.lastByActor then heads.lastByActor[actor] else GENESIS
  }

  /** The payload with the five hash fields set. */
  function Stamp(
    payload: Fields, payloadHash: string, prevEvent: string, eventHash: string, prevGlobal: string,
    globalHash: string): Fields
  {
    payload["payload_hash" := Str(payloadHash)]["prev_event_hash" := Str(prevEvent)]["event_hash" := Str(eventHash)]
           ["prev_global_hash" := Str(prevGlobal)]["global_event_hash" := Str(globalHash)]
  }

  function EventHashFor(c: Config, spec: EventSpec, heads: Heads): string {
    ComputeEventHash(c.h, BareEntry(c, spec), PrevOf(heads, spec.actor), ComputePayloadHash(c.h, spec.payload))
  }

  function GlobalHashFor(c: Config, spec: EventSpec, heads: Heads): string {
    ComputeGlobalEventHash(c.h, BareEntry(c, spec), ComputePayloadHash(c.h, spec.payload),
                           EventHashFor(c, spec, heads), heads.lastGlobal)
  }

  function Stamped(c: Config, spec: EventSpec, heads: Heads): Entry {
    BareEntry(c, spec).(payload := Stamp(spec.payload, ComputePayloadHash(c.h, spec.payload),
      PrevOf(heads, spec.actor), EventHashFor(c, spec, heads), heads.lastGlobal, GlobalHashFor(c, spec, heads)))
  }

  function LineFor(c: Config, e: Entry, prevLine: Option<string>): Line {
    var json := Print(true, EntryJson(e));
    var prev := ExpectedPrev(c.h, prevLine);
    Line(Some(prev), Some(c.h(json)), Some(c.sign(Message(prev, c.h(json)))), Some(json))
  }

  /** The entry written for `spec`, line fields included. */
  function Written(c: Config, spec: EventSpec, heads: Heads): Entry {
    var e := Stamped(c, spec, heads);
    e.(line := LineFor(c, e, heads.prevLine))
  }

  function Advance(c: Config, spec: EventSpec, heads: Heads): Heads {
    Heads(heads.lastByActor[spec.actor := EventHashFor(c, spec, heads)],
          GlobalHashFor(c, spec, heads),
          Some(LineText(Written(c, spec, heads))))
  }

  /** `ChainState` with `makeEntry`. */
  class ChainState {
    var lastByActor: map<string, string>
    var lastGlobal: string
    var prevLine: Option<string>

    function Value(): Heads
      reads this
    {
      Heads(lastByActor, lastGlobal, prevLine)
    }

    constructor ()
      ensures Value() == FRESH
    {
      lastByActor := map[];
      lastGlobal := GENESIS;
      prevLine := None;
    }

    method MakeEntry(c: Config, spec: EventSpec) returns (entry: Entry)
      modifies this
      ensures entry == Written(c, spec, old(Value()))
      ensures Value() == Advance(c, spec, old(Value()))
    {
      hide Print, ComputePayloadHash, ComputeEventHash, ComputeGlobalEventHash, EntryJson;
      entry := BareEntry(c, spec);
      var payloadHash := ComputePayloadHash(c.h, entry.payload);
      var prevEvent := if entry.actor in lastByActor then lastByActor[entry.actor] else GENESIS;
      var eventHash := ComputeEventHash(c.h, entry, prevEvent, payloadHash);
      var prevGlobal := lastGlobal;
      var globalHash := ComputeGlobalEventHash(c.h, entry, payloadHash, eventHash, prevGlobal);
      entry := entry.(payload := entry.payload["payload_hash" := Str(payloadHash)]);
      entry := entry.(payload := entry.payload["prev_event_hash" := Str(prevEvent)]);
      entry := entry.(payload := entry.payload["event_hash" := Str(eventHash)]);
      entry := entry.(payload := entry.payload["prev_global_hash" := Str(prevGlobal)]);
      entry := entry.(payload := entry.payload["global_event_hash" := Str(globalHash)]);
      assert entry == Stamped(c, spec, Value());
      lastByActor := lastByActor[entry.actor := eventHash];
      lastGlobal := globalHash;

      var canonicalJson := Print(true, EntryJson(entry));
      var lineEvent := c.h(canonicalJson);
      var linePrev := if prevLine.None? then GENESIS else c.h(prevLine.value);
      var signature := c.sign(Message(linePrev, lineEvent));
      entry := entry.(line := Line(Some(linePrev), Some(lineEvent), Some(signature), Some(canonicalJson)));
      prevLine := Some(LineText(entry));
    }
  }

  // ----- whole runs -----

  /** The entries written for `specs` by a writer that starts from `start`, and its heads afterwards. */
  function RunFrom(c: Config, start: Heads, specs: seq<EventSpec>): (seq<Entry>, Heads) {
    if specs == [] then ([], start)
    else
      var (entries, heads) := RunFrom(c, start, specs[..|specs| - 1]);
      var spec := specs[|specs| - 1];
      (entries + [Written(c, spec, heads)], Advance(c, spec, heads))
  }

  function Log(c: Config, start: Heads, specs: seq<EventSpec>): seq<Entry> {
    RunFrom(c, start, specs).0
  }

  function FinalHeads(c: Config, start: Heads, specs: seq<EventSpec>): Heads {
    RunFrom(c, start, specs).1
  }

  /** `buildSlice`: a run of the writer from fresh heads. */
  method BuildSlice(c: Config, specs: seq<EventSpec>) returns (entries: seq<Entry>, state: ChainState)
    ensures fresh(state)
    ensures entries == Log(c, FRESH, specs) && state.Value() == FinalHeads(c, FRESH, specs)
  {
    hide Written, Advance;
    state := new ChainState();
    entries := [];
    for i := 0 to |specs|
      invariant fresh(state)
      invariant (entries, state.Value()) == RunFrom(c, FRESH, specs[..i])
    {
      assert specs[..i + 1][..i] == specs[..i];
      var entry := state.MakeEntry(c, specs[i]);
      entries := entries + [entry];
    }
    assert specs[..|specs|] == specs;
  }

  lemma {:induction false} RunLength(c: Config, start: Heads, specs: seq<EventSpec>)
    ensures |Log(c, start, specs)| == |specs|
  {
    hide Written, Advance;
    if specs != [] { RunLength(c, start, specs[..|specs| - 1]); }
  }

  lemma RunSnoc(c: Config, start: Heads, specs: seq<EventSpec>, spec: EventSpec)
    ensures Log(c, start, specs + [spec]) == Log(c, start, specs) + [Written(c, spec, FinalHeads(c, start, specs))]
    ensures FinalHeads(c, start, specs + [spec]) == Advance(c, spec, FinalHeads(c, start, specs))
  {
    hide Written, Advance;
    assert (specs + [spec])[..|specs + [spec]| - 1] == specs;
  }

  /** Entry k of a run is written from the heads of the run before it. */
  lemma {:induction false} RunAt(c: Config, start: Heads, specs: seq<EventSpec>, k: nat)
    requires k < |specs|
    ensures |Log(c, start, specs)| == |specs|
    ensures Log(c, start, specs)[k] == Written(c, specs[k], FinalHeads(c, start, specs[..k]))
    ensures Log(c, start, specs)[..k] == Log(c, start, specs[..k])
  {
    hide Written, Advance;
    var n := |specs| - 1;
    RunLength(c, start, specs[..n]);
    if k < n {
      RunAt(c, start, specs[..n], k);
      assert specs[..n][..k] == specs[..k];
      assert Log(c, start, specs)[..k] == Log(c, start, specs[..n])[..k];
    } else {
      assert Log(c, start, specs)[..k] == Log(c, start, specs[..n]);
    }
  }

  // ----- what a written entry carries -----

  lemma StampIsStripped(payload: Fields, a: string, b: string, c: string, d: string, e: string)
    ensures Strip(Stamp(payload, a, b, c, d, e)) == Strip(payload)
  {
  }

  /** The header decides the preimages; the payload enters only through its hash. */
  lemma WrittenCarries(c: Config, spec: EventSpec, heads: Heads)
    ensures var e := Written(c, spec, heads);
      && ComputePayloadHash(c.h, e.payload) == ComputePayloadHash(c.h, spec.payload)
      && GetString(e.payload, "payload_hash") == Some(ComputePayloadHash(c.h, spec.payload))
      && PrevEvent(e) == PrevOf(heads, spec.actor)
      && GetString(e.payload, "event_hash") == Some(EventHashFor(c, spec, heads))
      && HasGlobalFields(e) && PrevGlobal(e) == heads.lastGlobal && GlobalHash(e) == GlobalHashFor(c, spec, heads)
  {
    hide Print;
    var e := Written(c, spec, heads);
    StampIsStripped(spec.payload, ComputePayloadHash(c.h, spec.payload), PrevOf(heads, spec.actor),
                    EventHashFor(c, spec, heads), heads.lastGlobal, GlobalHashFor(c, spec, heads));
    assert PayloadText(e.payload) == PayloadText(spec.payload);
  }

  lemma WrittenRecomputes(c: Config, spec: EventSpec, heads: Heads)
    ensures var e := Written(c, spec, heads);
      HashesRecompute(c.h, e) && GlobalRecomputes(c.h, e) && EventHash(c.h, e) == EventHashFor(c, spec, heads)
  {
    hide Print, ComputePayloadHash;
    WrittenCarries(c, spec, heads);
    var e := Written(c, spec, heads);
    var bare := BareEntry(c, spec);
    var payloadHash := ComputePayloadHash(c.h, spec.payload);
    var prev := PrevOf(heads, spec.actor);
    var eventHash := EventHashFor(c, spec, heads);
    assert EventPreimage(e, prev, payloadHash) == EventPreimage(bare, prev, payloadHash);
    assert GlobalPreimage(e, payloadHash, eventHash, heads.lastGlobal)
        == GlobalPreimage(bare, payloadHash, eventHash, heads.lastGlobal);
  }

  const LINE_KEYS: set<string> := {"line_prev_hash", "line_event_hash", "signature", "canonical_json"}

  lemma LineRoundTrip(fields: Fields, line: Line)
    requires fields.Keys !! LINE_KEYS
    ensures var f := WithLine(fields, line);
      && GetString(f, "line_prev_hash") == line.prevHash && GetString(f, "line_event_hash") == line.eventHash
      && GetString(f, "signature") == line.signature && GetString(f, "canonical_json") == line.canonicalJson
    ensures forall k | k !in LINE_KEYS :: Get(WithLine(fields, line), k) == Get(fields, k)
  {
    var f1 := PutString(fields, "line_prev_hash", line.prevHash);
    var f2 := PutString(f1, "line_event_hash", line.eventHash);
    var f3 := PutString(f2, "signature", line.signature);
    var f4 := PutString(f3, "canonical_json", line.canonicalJson);
    assert "line_prev_hash" in LINE_KEYS && "line_event_hash" in LINE_KEYS && "signature" in LINE_KEYS
      && "canonical_json" in LINE_KEYS;
    assert GetString(f1, "line_prev_hash") == line.prevHash && "line_event_hash" !in f1 && "signature" !in f1
      && "canonical_json" !in f1;
    assert GetString(f2, "line_event_hash") == line.eventHash && "signature" !in f2 && "canonical_json" !in f2;
    assert GetString(f3, "signature") == line.signature && "canonical_json" !in f3;
  }

  lemma CoreLookups(e: Entry)
    ensures var m := Put(CoreFields(e), "caps", e.caps);
      && m.Keys !! LINE_KEYS && Get(m, "caps") == e.caps
      && Get(m, "v") == Some(Num(e.v)) && Get(m, "tick") == Some(Num(e.tick))
      && Get(m, "world_id") == Some(Str(e.worldId)) && Get(m, "rulebook_root") == Some(Str(e.rulebookRoot))
      && Get(m, "event_type") == Some(Str(e.eventType)) && Get(m, "actor") == Some(Str(e.actor))
      && Get(m, "caps_hash") == Some(Str(e.capsHash)) && Get(m, "payload") == Some(Obj(e.payload))
  {
  }

  lemma CoreKeysAreNotLineKeys()
    ensures "caps" !in LINE_KEYS && "v" !in LINE_KEYS && "tick" !in LINE_KEYS && "world_id" !in LINE_KEYS
    ensures "rulebook_root" !in LINE_KEYS && "event_type" !in LINE_KEYS && "actor" !in LINE_KEYS
    ensures "caps_hash" !in LINE_KEYS && "payload" !in LINE_KEYS
  {
  }

  /** Reading back the JSON of an entry gives the entry. */
  lemma EntryRoundTrip(e: Entry)
    ensures IsEntry(EntryJson(e)) && AsEntry(EntryJson(e)) == e
  {
    var m := Put(CoreFields(e), "caps", e.caps);
    var f := WithLine(m, e.line);
    CoreLookups(e);
    CoreKeysAreNotLineKeys();
    LineRoundTrip(m, e.line);
    hide WithLine, CoreFields, Put, LINE_KEYS;
    assert Get(f, "caps") == e.caps;
    assert Get(f, "v") == Some(Num(e.v)) && Get(f, "tick") == Some(Num(e.tick));
    assert Get(f, "world_id") == Some(Str(e.worldId)) && Get(f, "rulebook_root") == Some(Str(e.rulebookRoot));
    assert Get(f, "event_type") == Some(Str(e.eventType)) && Get(f, "actor") == Some(Str(e.actor));
    assert Get(f, "caps_hash") == Some(Str(e.capsHash)) && Get(f, "payload") == Some(Obj(e.payload));
  }

  function LogJson(entries: seq<Entry>): seq<Json> {
    seq(|entries|, i requires 0 <= i < |entries| => EntryJson(entries[i]))
  }
}
