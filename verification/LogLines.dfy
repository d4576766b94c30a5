/** The log as it stands in the file: one line for each entry,
    `prev|event|signature|json`, where the JSON is the entry without the fields of
    the line.  The tool's verdict on the fixture writer's lines. */
module LogLines {
  import opened Json
  import opened CanonicalText
  import opened Hashing
  import opened Links
  import opened ChronicleChain
  import opened SignedLines
  import opened LogTool
  import opened Writer
  import opened WriterTheorems

  // ----- entries that differ in the fields of the line only -----

  predicate SameBut(x: Entry, y: Entry) {
    x.(line := NO_LINE) == y.(line := NO_LINE)
  }

  predicate ReadAlike(a: Json, b: Json) {
    IsEntry(a) && IsEntry(b) && SameBut(AsEntry(a), AsEntry(b))
  }

  /** No hash of an entry covers the fields of the line. */
  lemma HashesIgnoreLine(h: HashFunction, x: Entry, y: Entry)
    requires SameBut(x, y)
    ensures HashesRecompute(h, x) == HashesRecompute(h, y) && EventHash(h, x) == EventHash(h, y)
    ensures PrevEvent(x) == PrevEvent(y)
    ensures HasGlobalFields(x) == HasGlobalFields(y) && GlobalRecomputes(h, x) == GlobalRecomputes(h, y)
    ensures HasGlobalFields(x) ==> PrevGlobal(x) == PrevGlobal(y) && GlobalHash(x) == GlobalHash(y)
    ensures CapsOk(h, x) == CapsOk(h, y)
  {
    hide Print, Prefixed;
    assert x.v == y.v && x.worldId == y.worldId && x.rulebookRoot == y.rulebookRoot && x.tick == y.tick;
    assert x.eventType == y.eventType && x.actor == y.actor && x.capsHash == y.capsHash && x.caps == y.caps
      && x.payload == y.payload;
    var p := ComputePayloadHash(h, x.payload);
    assert EventPreimage(x, PrevEvent(x), p) == EventPreimage(y, PrevEvent(y), p);
    if HasGlobalFields(x) {
      assert GlobalPreimage(x, p, EventHash(h, x), PrevGlobal(x))
        == GlobalPreimage(y, p, EventHash(h, y), PrevGlobal(y));
    }
  }

  /** So no check of the log tool, and no link of a chain, looks at them. */
  lemma ChecksIgnoreLine(env: Env, a: Json, b: Json)
    requires ReadAlike(a, b)
    ensures EntryOk(env, a) == EntryOk(env, b) && GlobalLink(env.h, a) == GlobalLink(env.h, b)
    ensures ActorLink(env.h, AsEntry(a)) == ActorLink(env.h, AsEntry(b)) && CarriesGlobal(a) == CarriesGlobal(b)
    ensures AsEntry(a).actor == AsEntry(b).actor && AsEntry(a).eventType == AsEntry(b).eventType
    ensures AsEntry(a).payload == AsEntry(b).payload
  {
    HashesIgnoreLine(env.h, AsEntry(a), AsEntry(b));
    hide AsEntry, IsEntry, HashesRecompute, GlobalRecomputes, EventHash, PrevEvent, PrevGlobal, GlobalHash,
         HasGlobalFields, CapsOk, RngV0Ok, RngKey;
    var x, y := AsEntry(a), AsEntry(b);
    assert x.actor == y.actor && x.eventType == y.eventType && x.payload == y.payload;
    assert RngEventOk(env, x) == RngEventOk(env, y);
  }

  ghost predicate LogsAlike(a: seq<Json>, b: seq<Json>) {
    |a| == |b| && forall i | 0 <= i < |a| :: ReadAlike(a[i], b[i])
  }

  lemma {:induction false} ChainsIgnoreLine(env: Env, a: seq<Json>, b: seq<Json>, actor: string)
    requires LogsAlike(a, b)
    ensures ActorLinks(env.h, a, actor) == ActorLinks(env.h, b, actor)
    ensures CarriedLinks(env.h, a) == CarriedLinks(env.h, b)
    ensures GlobalLinks(env.h, a) == GlobalLinks(env.h, b)
  {
    hide AsEntry, IsEntry, CarriesGlobal, GlobalLink, ActorLink, SameBut;
    forall i | 0 <= i < |a|
      ensures GlobalLink(env.h, a[i]) == GlobalLink(env.h, b[i])
    {
      ChecksIgnoreLine(env, a[i], b[i]);
    }
    if a != [] {
      var n := |a| - 1;
      ChainsIgnoreLine(env, a[..n], b[..n], actor);
      ChecksIgnoreLine(env, a[n], b[n]);
    }
  }

  lemma CommitsIgnoreLine(env: Env, a: Json, b: Json)
    requires ReadAlike(a, b)
    ensures IsReveal(AsEntry(a)) == IsReveal(AsEntry(b)) && KeyFields(AsEntry(a)) == KeyFields(AsEntry(b))
    ensures KeyFields(AsEntry(a)) ==> EntryKey(AsEntry(a)) == EntryKey(AsEntry(b))
    ensures forall key :: CommitsTo(a, key) == CommitsTo(b, key)
  {
    ChecksIgnoreLine(env, a, b);
    hide AsEntry, IsEntry, RngKey;
  }

  lemma RevealsIgnoreLine(env: Env, a: seq<Json>, b: seq<Json>)
    requires LogsAlike(a, b) && RevealsFollowCommits(a)
    ensures RevealsFollowCommits(b)
  {
    hide AsEntry, IsEntry, CommitsTo, KeyFields, EntryKey, IsReveal, SameBut;
    forall i | 0 <= i < |b| ensures RevealFollowsCommit(b, i) {
      CommitsIgnoreLine(env, a[i], b[i]);
      assert RevealFollowsCommit(a, i) && ReadAlike(a[i], b[i]);
      if IsReveal(AsEntry(b[i])) && KeyFields(AsEntry(b[i])) {
        var key := EntryKey(AsEntry(b[i]));
        var j :| 0 <= j < i && CommitsTo(a[..i][j], key);
        CommitsIgnoreLine(env, a[j], b[j]);
        assert a[..i][j] == a[j] && b[..i][j] == b[j];
      }
    }
  }

  lemma AlikeReverses(a: seq<Json>, b: seq<Json>)
    requires LogsAlike(a, b)
    ensures LogsAlike(b, a)
  {
    hide AsEntry, IsEntry;
    forall i | 0 <= i < |b| ensures ReadAlike(b[i], a[i]) { assert ReadAlike(a[i], b[i]); }
  }

  lemma AcceptableIgnoresLine(env: Env, a: seq<Json>, b: seq<Json>)
    requires LogsAlike(a, b) && Acceptable(env, a)
    ensures Acceptable(env, b)
  {
    hide EntryOk, AsEntry, IsEntry, RevealsFollowCommits, ActorLinks, CarriedLinks, SameBut;
    RevealsIgnoreLine(env, a, b);
    forall i | 0 <= i < |b| ensures EntryOk(env, b[i]) {
      assert ReadAlike(a[i], b[i]) && EntryOk(env, a[i]);
      ChecksIgnoreLine(env, a[i], b[i]);
    }
    forall actor: string ensures Chained(ActorLinks(env.h, b, actor), Some(GENESIS)) {
      assert Chained(ActorLinks(env.h, a, actor), Some(GENESIS));
      ChainsIgnoreLine(env, a, b, actor);
    }
    ChainsIgnoreLine(env, a, b, "");
  }

  // ----- the lines of a run -----

  /** The entry written for event i, as its line holds it. */
  function BareAt(c: Config, specs: seq<EventSpec>, i: nat): Json
    requires i < |specs|
  {
    EntryJson(Stamped(c, specs[i], RunHeads(c, specs[..i])))
  }

  function BareJson(c: Config, specs: seq<EventSpec>): seq<Json> {
    seq(|specs|, i requires 0 <= i < |specs| => BareAt(c, specs, i))
  }

  function LineAt(c: Config, specs: seq<EventSpec>, i: nat): string
    requires i < |specs|
  {
    LineText(Written(c, specs[i], RunHeads(c, specs[..i])))
  }

  /** What the fixture writer puts in the log file. */
  function WriterLines(c: Config, specs: seq<EventSpec>): seq<string> {
    seq(|specs|, i requires 0 <= i < |specs| => LineAt(c, specs, i))
  }

  /** These are the whole log lines of the written entries. */
  lemma LinesAreTheLog(c: Config, specs: seq<EventSpec>, i: nat)
    requires i < |specs|
    ensures |Log(c, FRESH, specs)| == |specs| && HasLine(Log(c, FRESH, specs)[i])
    ensures WriterLines(c, specs)[i] == LineText(Log(c, FRESH, specs)[i])
  {
    hide Stamped, LineText;
    RunAt(c, FRESH, specs, i);
  }

  /** A text without the separator and without a quote, as hex digits are. */
  predicate Plain(text: string) {
    '|' !in text && '\"' !in text
  }

  /** Hashes and signatures are plain. */
  ghost predicate Hex(c: Config) {
    (forall text :: Plain(c.h(text))) && forall message :: Plain(c.sign(message))
  }

  /** Parsing reads the JSON of these lines back. */
  ghost predicate ReadsBack(parse: string -> Option<Json>, jsons: seq<Json>) {
    forall j | j in jsons :: parse(Print(true, j)) == Some(j)
  }

  lemma LineHoldsBareJson(c: Config, spec: EventSpec, heads: Heads)
    requires Hex(c)
    ensures JsonPart(LineText(Written(c, spec, heads))) == Print(true, EntryJson(Stamped(c, spec, heads)))
  {
    var e := Stamped(c, spec, heads);
    var line := LineFor(c, e, heads.prevLine);
    hide Print, EntryJson, Stamped, JsonPart;
    assert Plain(line.prevHash.value) && Plain(line.eventHash.value) && Plain(line.signature.value);
    LineGivesItsJson(line.prevHash.value, line.eventHash.value, line.signature.value, line.canonicalJson.value);
  }

  lemma BareReadsAlike(c: Config, spec: EventSpec, heads: Heads)
    ensures ReadAlike(EntryJson(Stamped(c, spec, heads)), EntryJson(Written(c, spec, heads)))
  {
    EntryRoundTrip(Stamped(c, spec, heads));
    EntryRoundTrip(Written(c, spec, heads));
    hide EntryJson, Stamped, AsEntry, IsEntry, LineFor;
  }

  lemma BareLogAlike(c: Config, specs: seq<EventSpec>)
    ensures LogsAlike(BareJson(c, specs), RunJson(c, specs))
  {
    hide EntryJson, Stamped, Written, ReadAlike, RunJson;
    RunJsonLength(c, specs);
    forall i | 0 <= i < |specs| ensures ReadAlike(BareJson(c, specs)[i], RunJson(c, specs)[i]) {
      RunJsonAt(c, specs, i);
      BareReadsAlike(c, specs[i], RunHeads(c, specs[..i]));
    }
  }

  lemma LinesDecode(env: Env, c: Config, specs: seq<EventSpec>)
    requires Hex(c) && ReadsBack(env.parse, BareJson(c, specs))
    ensures Decodes(env, WriterLines(c, specs), BareJson(c, specs))
  {
    hide EntryJson, Stamped, Written, JsonPart, Print, Hex, LineText, RunHeads;
    var lines, log := WriterLines(c, specs), BareJson(c, specs);
    forall i | 0 <= i < |specs| ensures Decode(env, lines[i]) == Some(log[i]) {
      LineHoldsBareJson(c, specs[i], RunHeads(c, specs[..i]));
      assert log[i] in log;
    }
  }

  /** The tool passes the writer's lines exactly when it finds the written entries acceptable. */
  lemma LinesPassIffAcceptable(env: Env, c: Config, specs: seq<EventSpec>)
    requires Hex(c) && ReadsBack(env.parse, BareJson(c, specs))
    ensures Passes(env, WriterLines(c, specs)) <==> Acceptable(env, RunJson(c, specs))
  {
    hide Acceptable, LogsAlike, ReadsBack, Hex, WriterLines, BareJson, RunJson, Decodes;
    var bare := BareJson(c, specs);
    LinesDecode(env, c, specs);
    DecodingUnique(env, WriterLines(c, specs), bare);
    BareLogAlike(c, specs);
    AlikeReverses(bare, RunJson(c, specs));
    if Acceptable(env, bare) { AcceptableIgnoresLine(env, bare, RunJson(c, specs)); }
    if Acceptable(env, RunJson(c, specs)) { AcceptableIgnoresLine(env, RunJson(c, specs), bare); }
  }

  /** The tool passes the lines of a writer run exactly when it accepts each event's
      random-number fields and every reveal follows its commitment. */
  lemma ToolDecidesWriterLines(env: Env, c: Config, specs: seq<EventSpec>)
    requires env.h == c.h && Hex(c) && ReadsBack(env.parse, BareJson(c, specs))
    ensures Passes(env, WriterLines(c, specs))
      <==> (forall i | 0 <= i < |specs| :: SpecOk(env, specs[i])) && RevealsFollowCommits(RunJson(c, specs))
  {
    hide Acceptable, ReadsBack, Hex, WriterLines, SpecOk, RevealsFollowCommits, RunJson, Passes;
    LinesPassIffAcceptable(env, c, specs);
    ToolDecidesWriterLog(env, c, specs);
  }

  /** And that is: no event is a reveal, and every event's own fields pass. */
  lemma ToolPassesExactly(env: Env, c: Config, specs: seq<EventSpec>)
    requires env.h == c.h && Hex(c) && ReadsBack(env.parse, BareJson(c, specs))
    requires forall j | j in RunJson(c, specs) :: NoCollisionOnReveal(c.h, j)
    ensures Passes(env, WriterLines(c, specs))
      <==> forall i | 0 <= i < |specs| :: specs[i].eventType != "rng_reveal" && SpecOk(env, specs[i])
  {
    hide Acceptable, ReadsBack, Hex, WriterLines, SpecOk, RunJson, Passes, NoCollisionOnReveal;
    LinesPassIffAcceptable(env, c, specs);
    ToolAcceptsExactly(env, c, specs);
  }
}
