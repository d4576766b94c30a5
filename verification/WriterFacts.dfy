/** What the two writers put into an entry and its line, field by field. */
module WriterFacts {
  import opened Json
  import opened CanonicalText
  import opened ChronicleChain
  import opened SignedLines
  import opened Writer
  import opened LogFacts
  import Genuine
  import ServerLog

  /** The header, the capabilities and the payload of an event, as the entry shows them. */
  predicate ShowsEvent(c: Config, spec: EventSpec, entry: Json) {
    && IsEntry(entry) && Get(entry.fields, "v") == Some(Num("1"))
    && Get(entry.fields, "world_id") == Some(Str(c.worldId))
    && Get(entry.fields, "rulebook_root") == Some(Str(c.rulebookRoot))
    && Get(entry.fields, "tick") == Some(Num(spec.tick)) && Get(entry.fields, "event_type") == Some(Str(spec.eventType))
    && Get(entry.fields, "actor") == Some(Str(spec.actor))
    && "caps" in entry.fields && entry.fields["caps"].Arr?
    && |entry.fields["caps"].items| == |spec.caps|
    && (forall i | 0 <= i < |spec.caps| :: entry.fields["caps"].items[i] == Str(spec.caps[i]))
    && Get(entry.fields, "caps_hash") == Some(Str("blake3:" + c.h(Print(true, entry.fields["caps"]))))
    && PayloadOf(entry) - {"payload_hash", "prev_event_hash", "event_hash", "prev_global_hash", "global_event_hash"}
       == spec.payload - {"payload_hash", "prev_event_hash", "event_hash", "prev_global_hash", "global_event_hash"}
  }

  /** The hashes it records, and the heads it names. */
  predicate ShowsLinks(c: Config, actor: string, lastByActor: map<string, string>, lastGlobal: string, entry: Json) {
    && IsEntry(entry) && HashesHold(c.h, entry) && GlobalHolds(c.h, entry)
    && Get(PayloadOf(entry), "prev_event_hash")
      == Some(Str(if actor in lastByActor then lastByActor[actor] else "genesis"))
    && Get(PayloadOf(entry), "prev_global_hash") == Some(Str(lastGlobal))
  }

  /** The line: a hash to name, the hash of the entry's text, a signature over both, the text. */
  predicate ShowsLine(c: Config, prev: string, entry: Json) {
    && entry.Obj?
    && var json := Print(true, Obj(entry.fields - {"line_prev_hash", "line_event_hash", "signature",
      "canonical_json"}));
    && Get(entry.fields, "canonical_json") == Some(Str(json))
    && Get(entry.fields, "line_event_hash") == Some(Str(c.h(json)))
    && Get(entry.fields, "line_prev_hash") == Some(Str(prev))
    && Get(entry.fields, "signature") == Some(Str(c.sign(prev + "|" + c.h(json))))
  }

  /** The fields of an entry, as its JSON holds them. */
  lemma FieldsShow(e: Entry)
    ensures var j := EntryJson(e);
      && IsEntry(j) && Get(j.fields, "v") == Some(Num(e.v)) && Get(j.fields, "tick") == Some(Num(e.tick))
      && Get(j.fields, "world_id") == Some(Str(e.worldId))
      && Get(j.fields, "rulebook_root") == Some(Str(e.rulebookRoot))
      && Get(j.fields, "event_type") == Some(Str(e.eventType)) && Get(j.fields, "actor") == Some(Str(e.actor))
      && Get(j.fields, "caps_hash") == Some(Str(e.capsHash)) && Get(j.fields, "caps") == e.caps
      && PayloadOf(j) == e.payload
  {
    EntryRoundTrip(e);
    EntryReads(EntryJson(e));
    hide EntryJson, AsEntry, PayloadOf;
  }

  lemma StampedShowsEvent(c: Config, spec: EventSpec, heads: Heads, e: Entry)
    requires e.(line := NO_LINE) == Stamped(c, spec, heads)
    ensures ShowsEvent(c, spec, EntryJson(e))
  {
    FieldsShow(e);
    SameHeader(c, spec, heads, e);
    PayloadIsStripped(c, spec, heads, e);
    hide Print, EntryJson, IsEntry, Stamped, PayloadOf, ComputeCapsHash;
    assert e.caps == Some(StrArray(spec.caps));
    assert e.capsHash == "blake3:" + c.h(Print(true, StrArray(spec.caps))) by { CapsHashIs(c, spec.caps); }
  }

  lemma CapsHashIs(c: Config, caps: seq<string>)
    ensures ComputeCapsHash(c.h, caps) == "blake3:" + c.h(Print(true, StrArray(caps)))
  {
    hide Print;
  }

  lemma SameHeader(c: Config, spec: EventSpec, heads: Heads, e: Entry)
    requires e.(line := NO_LINE) == Stamped(c, spec, heads)
    ensures e.v == "1" && e.worldId == c.worldId && e.rulebookRoot == c.rulebookRoot && e.tick == spec.tick
    ensures e.eventType == spec.eventType && e.actor == spec.actor
    ensures e.capsHash == ComputeCapsHash(c.h, spec.caps) && e.caps == Some(StrArray(spec.caps))
  {
    HeaderIsBare(c, spec, heads);
    hide Stamped, ComputeCapsHash, StrArray;
    var s := e.(line := NO_LINE);
    assert e.v == s.v && e.worldId == s.worldId && e.rulebookRoot == s.rulebookRoot && e.tick == s.tick;
    assert e.eventType == s.eventType && e.actor == s.actor && e.capsHash == s.capsHash && e.caps == s.caps;
  }

  lemma HeaderIsBare(c: Config, spec: EventSpec, heads: Heads)
    ensures var e, bare := Stamped(c, spec, heads), BareEntry(c, spec);
      && e.v == bare.v && e.worldId == bare.worldId && e.rulebookRoot == bare.rulebookRoot && e.tick == bare.tick
      && e.eventType == bare.eventType && e.actor == bare.actor && e.capsHash == bare.capsHash && e.caps == bare.caps
      && e.line == NO_LINE
  {
    hide ComputePayloadHash, EventHashFor, GlobalHashFor, ComputeCapsHash;
  }

  lemma PayloadIsStripped(c: Config, spec: EventSpec, heads: Heads, e: Entry)
    requires e.(line := NO_LINE) == Stamped(c, spec, heads)
    ensures e.payload == Stamped(c, spec, heads).payload && Strip(e.payload) == Strip(spec.payload)
  {
    hide ComputePayloadHash, EventHashFor, GlobalHashFor;
    StampIsStripped(spec.payload, ComputePayloadHash(c.h, spec.payload), PrevOf(heads, spec.actor),
                    EventHashFor(c, spec, heads), heads.lastGlobal, GlobalHashFor(c, spec, heads));
    assert e.payload == e.(line := NO_LINE).payload;
  }

  lemma WrittenShowsLinks(c: Config, spec: EventSpec, heads: Heads)
    ensures ShowsLinks(c, spec.actor, heads.lastByActor, heads.lastGlobal, EntryJson(Written(c, spec, heads)))
  {
    var e := Written(c, spec, heads);
    EntryRoundTrip(e);
    EntryReads(EntryJson(e));
    WrittenRecomputes(c, spec, heads);
    HashesInFields(c.h, EntryJson(e));
    StampNames(c, spec, heads);
    hide EntryJson, IsEntry, AsEntry, Written, PayloadOf, HashesHold, GlobalHolds, HashesRecompute, GlobalRecomputes;
  }

  lemma StampNames(c: Config, spec: EventSpec, heads: Heads)
    ensures var p := Written(c, spec, heads).payload;
      && Get(p, "prev_event_hash") == Some(Str(PrevOf(heads, spec.actor)))
      && Get(p, "prev_global_hash") == Some(Str(heads.lastGlobal))
      && Get(p, "event_hash") == Some(Str(EventHashFor(c, spec, heads)))
      && Get(p, "global_event_hash") == Some(Str(GlobalHashFor(c, spec, heads)))
  {
    hide ComputePayloadHash, EventHashFor, GlobalHashFor, LineFor;
  }

  lemma WrittenShowsLine(c: Config, spec: EventSpec, heads: Heads)
    ensures ShowsLine(c, if heads.prevLine.None? then "genesis" else c.h(heads.prevLine.value),
      EntryJson(Written(c, spec, heads)))
  {
    var e := Written(c, spec, heads);
    Genuine.WrittenRecords(c, spec, heads);
    EntryRoundTrip(e);
    Genuine.LineLookups(EntryJson(e));
    hide Print, EntryJson, IsEntry, AsEntry, Stamped;
  }

  /** What the fixture writer writes for an event, and the heads it goes on from. */
  lemma WrittenInFields(c: Config, spec: EventSpec, heads: Heads)
    ensures var entry, next := EntryJson(Written(c, spec, heads)), Advance(c, spec, heads);
      && ShowsEvent(c, spec, entry) && ShowsLinks(c, spec.actor, heads.lastByActor, heads.lastGlobal, entry)
      && ShowsLine(c, if heads.prevLine.None? then "genesis" else c.h(heads.prevLine.value), entry)
      && next.lastByActor == heads.lastByActor[spec.actor := TextOr(PayloadOf(entry), "event_hash", "")]
      && next.lastGlobal == TextOr(PayloadOf(entry), "global_event_hash", "")
      && next.prevLine == Some(TextOr(entry.fields, "line_prev_hash", "") + "|"
        + TextOr(entry.fields, "line_event_hash", "") + "|"
                               + TextOr(entry.fields, "signature", "") + "|"
                                 + TextOr(entry.fields, "canonical_json", ""))
  {
    HeaderIsBare(c, spec, heads);
    WrittenIsStamped(c, spec, heads);
    StampedShowsEvent(c, spec, heads, Written(c, spec, heads));
    WrittenShowsLinks(c, spec, heads);
    WrittenShowsLine(c, spec, heads);
    NextHeads(c, spec, heads);
    hide EntryJson, Written, Advance, PayloadOf, ShowsEvent, ShowsLinks, ShowsLine, TextOr;
  }

  lemma WrittenIsStamped(c: Config, spec: EventSpec, heads: Heads)
    requires Stamped(c, spec, heads).line == NO_LINE
    ensures Written(c, spec, heads).(line := NO_LINE) == Stamped(c, spec, heads)
  {
    hide Stamped, LineFor;
  }

  lemma NextHeads(c: Config, spec: EventSpec, heads: Heads)
    ensures var entry, next := EntryJson(Written(c, spec, heads)), Advance(c, spec, heads);
      && entry.Obj? && next.lastByActor == heads.lastByActor[spec.actor := TextOr(PayloadOf(entry), "event_hash", "")]
      && next.lastGlobal == TextOr(PayloadOf(entry), "global_event_hash", "")
      && next.prevLine == Some(TextOr(entry.fields, "line_prev_hash", "") + "|"
        + TextOr(entry.fields, "line_event_hash", "") + "|"
                               + TextOr(entry.fields, "signature", "") + "|"
                                 + TextOr(entry.fields, "canonical_json", ""))
  {
    var e := Written(c, spec, heads);
    FieldsShow(e);
    StampNames(c, spec, heads);
    EntryRoundTrip(e);
    WrittenHasLine(c, spec, heads);
    hide Written;
    Genuine.LineLookups(EntryJson(e));
    hide EntryJson, IsEntry, AsEntry, PayloadOf, EventHashFor, GlobalHashFor;
  }

  lemma WrittenHasLine(c: Config, spec: EventSpec, heads: Heads)
    ensures HasLine(Written(c, spec, heads))
  {
    hide Stamped, Print;
  }

  /** What the server logs: the same event and links, the object it keeps beside the payload
      under "rng", and no line fields. */
  lemma LoggedInFields(c: Config, ev: ServerLog.Recorded, s: ServerLog.State)
    ensures var j, e := ServerLog.JsonFor(c, ev, s), EntryJson(ServerLog.EntryFor(c, ev, s));
      && j.Obj? && e.Obj? && Get(j.fields, "rng") == Some(ev.rng)
      && (forall k | k != "rng" :: Get(j.fields, k) == Get(e.fields, k))
      && ShowsEvent(c, ev.spec, e) && ShowsLinks(c, ev.spec.actor, s.lastByActor, s.lastGlobal, e)
  {
    hide Stamped, Written, ShowsEvent, ShowsLinks, EntryJson;
    var heads := ServerLog.HeadsOf(s);
    var stamped, written := Stamped(c, ev.spec, heads), Written(c, ev.spec, heads);
    HeaderIsBare(c, ev.spec, heads);
    WrittenIsStamped(c, ev.spec, heads);
    BareOfBare(stamped);
    StampedShowsEvent(c, ev.spec, heads, stamped);
    WrittenShowsLinks(c, ev.spec, heads);
    SameFields(written, stamped);
    SameLinks(c, ev.spec.actor, s.lastByActor, s.lastGlobal, EntryJson(written), EntryJson(stamped));
  }

  lemma BareOfBare(e: Entry)
    requires e.line == NO_LINE
    ensures e.(line := NO_LINE) == e
  {
  }

  lemma SameFields(x: Entry, y: Entry)
    requires x.(line := NO_LINE) == y.(line := NO_LINE)
    ensures IsEntry(EntryJson(x)) && IsEntry(EntryJson(y)) && PayloadOf(EntryJson(x)) == PayloadOf(EntryJson(y))
    ensures forall k | k !in LINE_KEYS :: Get(EntryJson(x).fields, k) == Get(EntryJson(y).fields, k)
  {
    EntryRoundTrip(x);
    EntryRoundTrip(y);
    EntryReads(EntryJson(x));
    EntryReads(EntryJson(y));
    CoreLookups(x);
    CoreLookups(y);
    assert x.payload == y.payload by { assert x.payload == x.(line := NO_LINE).payload; }
    Genuine.SameCore(x, y);
    LineRoundTrip(Put(CoreFields(x), "caps", x.caps), x.line);
    LineRoundTrip(Put(CoreFields(y), "caps", y.caps), y.line);
    hide WithLine, CoreFields, IsEntry, AsEntry, LINE_KEYS;
  }

  lemma SameLinks(c: Config, actor: string, lastByActor: map<string, string>, lastGlobal: string, a: Json, b: Json)
    requires ShowsLinks(c, actor, lastByActor, lastGlobal, a) && IsEntry(b) && PayloadOf(a) == PayloadOf(b)
    requires forall k | k !in LINE_KEYS :: Get(a.fields, k) == Get(b.fields, k)
    ensures ShowsLinks(c, actor, lastByActor, lastGlobal, b)
  {
    CoreKeysAreNotLineKeys();
    hide LINE_KEYS, Print, PayloadOf;
    assert Get(a.fields, "v") == Get(b.fields, "v") && Get(a.fields, "tick") == Get(b.fields, "tick");
    assert Get(a.fields, "world_id") == Get(b.fields, "world_id") && Get(a.fields, "actor") == Get(b.fields, "actor");
    assert Get(a.fields, "rulebook_root") == Get(b.fields, "rulebook_root");
    assert Get(a.fields, "event_type") == Get(b.fields, "event_type");
    assert Get(a.fields, "caps_hash") == Get(b.fields, "caps_hash");
    assert HeaderOf(c.h, a) == HeaderOf(c.h, b);
  }
}
