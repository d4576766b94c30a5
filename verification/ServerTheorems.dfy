/** What the server's log file gives back after a restart, and what the log tool
    makes of it. */
module ServerTheorems {
  import opened Json
  import opened CanonicalText
  import opened Links
  import opened ChronicleChain
  import opened SignedLines
  import opened LogTool
  import opened Writer
  import opened WriterTheorems
  import opened LogLines
  import opened Rebuild
  import opened ServerLog

  // ----- the lines of a run -----

  function JsonAt(c: Config, events: seq<Recorded>, i: nat): Json
    requires i < |events|
  {
    JsonFor(c, events[i], StateAfter(c, EMPTY, events[..i]))
  }

  function Jsons(c: Config, events: seq<Recorded>): seq<Json> {
    seq(|events|, i requires 0 <= i < |events| => JsonAt(c, events, i))
  }

  function Specs(events: seq<Recorded>): seq<EventSpec> {
    seq(|events|, i requires 0 <= i < |events| => events[i].spec)
  }

  lemma {:induction false} LineCount(c: Config, start: State, events: seq<Recorded>)
    ensures |LinesFrom(c, start, events)| == |events|
  {
    hide TextOf, After;
    if events != [] { LineCount(c, start, events[..|events| - 1]); }
  }

  lemma {:induction false} LinesAt(c: Config, start: State, events: seq<Recorded>, i: nat)
    requires i < |events|
    ensures |LinesFrom(c, start, events)| == |events|
    ensures LinesFrom(c, start, events)[i] == TextOf(c, events[i], StateAfter(c, start, events[..i]))
  {
    hide TextOf, After;
    var n := |events| - 1;
    LineCount(c, start, events[..n]);
    if i < n {
      LinesAt(c, start, events[..n], i);
      assert events[..n][..i] == events[..i];
    }
  }

  lemma KernelLineIsPlain(c: Config, json: string, prev: string)
    requires Hex(c) && Plain(prev)
    ensures var line := KernelLine(c, json, prev);
      && Plain(line.prevHash.value) && Plain(line.eventHash.value) && Plain(line.signature.value)
  {
    hide Plain;
  }

  lemma KernelLineParts(e: Entry, line: Line)
    requires HasLine(e.(line := line)) && Plain(line.prevHash.value) && Plain(line.eventHash.value)
    requires Plain(line.signature.value)
    ensures var text := LineText(e.(line := line));
      && JsonPart(text) == line.canonicalJson.value && |Split(text)| >= 4 && Split(text)[1] == line.eventHash.value
  {
    hide JsonPart, Split;
    LineGivesItsJson(line.prevHash.value, line.eventHash.value, line.signature.value, line.canonicalJson.value);
  }

  lemma TextParts(c: Config, ev: Recorded, s: State)
    requires Hex(c) && (s.lastHash.Some? ==> Plain(s.lastHash.value))
    ensures JsonPart(TextOf(c, ev, s)) == Print(true, JsonFor(c, ev, s))
    ensures |Split(TextOf(c, ev, s))| >= 4 && Some(Split(TextOf(c, ev, s))[1]) == After(c, ev, s).lastHash
    ensures Plain(After(c, ev, s).lastHash.value)
  {
    hide Print, JsonFor, EntryFor, JsonPart, Split, EventHashFor, GlobalHashFor, LineText, Hex;
    assert Plain(PrevHash(s));
    hide Plain;
    KernelLineIsPlain(c, Print(true, JsonFor(c, ev, s)), PrevHash(s));
    KernelLineParts(EntryFor(c, ev, s), LineOf(c, ev, s));
  }

  lemma {:induction false} LastHashIsPlain(c: Config, events: seq<Recorded>)
    requires Hex(c)
    ensures var h := StateAfter(c, EMPTY, events).lastHash; h.Some? ==> Plain(h.value)
  {
    if events != [] {
      var n := |events| - 1;
      LastHashIsPlain(c, events[..n]);
      TextParts(c, events[n], StateAfter(c, EMPTY, events[..n]));
      hide TextOf, LineOf, Plain, JsonFor;
    }
  }

  /** The object beside the payload does not change how the entry reads. */
  lemma RngIsIgnored(j: Json, rng: Json)
    requires IsEntry(j)
    ensures IsEntry(WithRng(j, rng)) && AsEntry(WithRng(j, rng)) == AsEntry(j)
  {
    var f, g := j.fields, j.fields["rng" := rng];
    assert forall k | k != "rng" :: (k in g <==> k in f) && (k in f ==> g[k] == f[k]);
  }

  lemma JsonReads(c: Config, ev: Recorded, s: State)
    ensures IsEntry(JsonFor(c, ev, s)) && AsEntry(JsonFor(c, ev, s)) == EntryFor(c, ev, s)
  {
    EntryRoundTrip(EntryFor(c, ev, s));
    RngIsIgnored(EntryJson(EntryFor(c, ev, s)), ev.rng);
  }

  // ----- the server writes what the fixture writer writes -----

  /** An event's hashes use the per-actor and the global head, and nothing of the line. */
  lemma HashesUseHeads(c: Config, spec: EventSpec, a: Heads, b: Heads)
    requires a.lastByActor == b.lastByActor && a.lastGlobal == b.lastGlobal
    ensures EventHashFor(c, spec, a) == EventHashFor(c, spec, b)
    ensures GlobalHashFor(c, spec, a) == GlobalHashFor(c, spec, b)
  {
    hide BareEntry, ComputeEventHash, ComputeGlobalEventHash, ComputePayloadHash;
    assert PrevOf(a, spec.actor) == PrevOf(b, spec.actor);
  }

  lemma {:induction false} SameHeads(c: Config, events: seq<Recorded>)
    ensures var s, heads := StateAfter(c, EMPTY, events), RunHeads(c, Specs(events));
      s.lastByActor == heads.lastByActor && s.lastGlobal == heads.lastGlobal && s.ordinal == |events|
  {
    hide EventHashFor, GlobalHashFor, LineText, Written, LineOf;
    if events != [] {
      var n := |events| - 1;
      SameHeads(c, events[..n]);
      assert Specs(events) == Specs(events[..n]) + [events[n].spec];
      RunSnoc(c, FRESH, Specs(events[..n]), events[n].spec);
      HashesUseHeads(c, events[n].spec, HeadsOf(StateAfter(c, EMPTY, events[..n])), RunHeads(c, Specs(events[..n])));
    }
  }

  lemma SameEntryAt(c: Config, events: seq<Recorded>, i: nat)
    requires i < |events|
    ensures EntryFor(c, events[i], StateAfter(c, EMPTY, events[..i]))
      == Stamped(c, Specs(events)[i], RunHeads(c, Specs(events)[..i]))
  {
    SameHeads(c, events[..i]);
    assert Specs(events)[..i] == Specs(events[..i]);
    hide BareEntry, ComputeEventHash, ComputeGlobalEventHash, ComputePayloadHash, StateAfter, RunHeads;
  }

  lemma LogsReadAlike(c: Config, events: seq<Recorded>)
    ensures LogsAlike(Jsons(c, events), RunJson(c, Specs(events)))
  {
    hide EntryJson, Stamped, Written, RunJson, JsonFor, EntryFor, StateAfter, RunHeads, AsEntry, IsEntry, SameBut;
    var specs := Specs(events);
    RunJsonLength(c, specs);
    forall i | 0 <= i < |events| ensures ReadAlike(Jsons(c, events)[i], RunJson(c, specs)[i]) {
      RunJsonAt(c, specs, i);
      JsonReads(c, events[i], StateAfter(c, EMPTY, events[..i]));
      SameEntryAt(c, events, i);
      BareReadsAlike(c, specs[i], RunHeads(c, specs[..i]));
      EntryRoundTrip(Stamped(c, specs[i], RunHeads(c, specs[..i])));
    }
  }

  // ----- restart -----

  lemma BootReads(parse: Parser, c: Config, events: seq<Recorded>, i: nat)
    requires Hex(c) && ReadsBack(parse, Jsons(c, events)) && i < |events|
    ensures |LinesFrom(c, EMPTY, events)| == |events|
    ensures BootReader(parse)(LinesFrom(c, EMPTY, events)[i]) == Some(JsonAt(c, events, i))
  {
    hide TextOf, JsonFor, Hex, Print, Split, JsonPart, After, StateAfter, Plain;
    LinesAt(c, EMPTY, events, i);
    LastHashIsPlain(c, events[..i]);
    TextParts(c, events[i], StateAfter(c, EMPTY, events[..i]));
    assert Jsons(c, events)[i] in Jsons(c, events);
  }

  lemma LogIsRead(parse: Parser, c: Config, events: seq<Recorded>)
    requires Hex(c) && ReadsBack(parse, Jsons(c, events))
    ensures LinesRead(BootReader(parse), LinesFrom(c, EMPTY, events), Log(c, FRESH, Specs(events)))
  {
    hide Hex, JsonAt, BootReader, Written, EntryJson, ReadAlike, LinesFrom, ReadsBack, Log;
    var lines, specs := LinesFrom(c, EMPTY, events), Specs(events);
    LineCount(c, EMPTY, events);
    RunLength(c, FRESH, specs);
    LogsReadAlike(c, events);
    forall i | 0 <= i < |lines|
      ensures BootReader(parse)(lines[i]).Some?
      ensures ReadAlike(BootReader(parse)(lines[i]).value, EntryJson(Log(c, FRESH, specs)[i]))
    {
      BootReads(parse, c, events, i);
      assert ReadAlike(Jsons(c, events)[i], RunJson(c, specs)[i]);
    }
  }

  lemma PairOf(read: Parser, line: string, c: Config, ev: Recorded, s: State)
    requires read(line) == Some(JsonFor(c, ev, s))
    ensures GlobalPair(read, line) == Some((s.lastGlobal, After(c, ev, s).lastGlobal))
    ensures Contribution(read, line).None? <==> ev.spec.actor == ""
  {
    JsonReads(c, ev, s);
    WrittenCarries(c, ev.spec, HeadsOf(s));
    var e, j := EntryFor(c, ev, s), JsonFor(c, ev, s);
    assert e.payload == Written(c, ev.spec, HeadsOf(s)).payload && e.actor == ev.spec.actor;
    assert EventHashFor(c, ev.spec, HeadsOf(s)) != "";
    hide Written, EntryFor, JsonFor, EventHashFor, GlobalHashFor, LineOf;
    assert AsEntry(j).payload == e.payload && AsEntry(j).actor == e.actor && "event_hash" in e.payload;
    assert j.fields["payload"].Obj?;
  }

  function Unnamed(events: seq<Recorded>): nat {
    if events == [] then 0
    else Unnamed(events[..|events| - 1]) + if events[|events| - 1].spec.actor == "" then 1 else 0
  }

  lemma {:induction false} NoneUnnamed(events: seq<Recorded>)
    ensures Unnamed(events) == 0 <==> forall i | 0 <= i < |events| :: events[i].spec.actor != ""
  {
    if events != [] {
      var n := |events| - 1;
      NoneUnnamed(events[..n]);
      assert events == events[..n] + [events[n]];
    }
  }

  /** The strict walk, the tail and the counts of a boot after a run. */
  lemma {:induction false} BootWalks(parse: Parser, c: Config, events: seq<Recorded>)
    requires Hex(c) && ReadsBack(parse, Jsons(c, events))
    ensures var lines, s := LinesFrom(c, EMPTY, events), StateAfter(c, EMPTY, events);
      && GlobalWalk(BootReader(parse), lines) == (s.lastGlobal, 0)
      && CountBad(BootReader(parse), lines) == Unnamed(events)
      && Tail(lines) == s.lastHash
  {
    hide Hex, BootReader, JsonFor, TextOf, GlobalPair, Contribution, After, Split, Plain;
    if events != [] {
      var n := |events| - 1;
      var front, s := events[..n], StateAfter(c, EMPTY, events[..n]);
      forall j | j in Jsons(c, front) ensures parse(Print(true, j)) == Some(j) {
        var i :| 0 <= i < n && Jsons(c, front)[i] == j;
        assert front[..i] == events[..i];
        assert Jsons(c, events)[i] == j;
      }
      BootWalks(parse, c, front);
      BootReads(parse, c, events, n);
      LineCount(c, EMPTY, front);
      LastHashIsPlain(c, front);
      TextParts(c, events[n], s);
      PairOf(BootReader(parse), TextOf(c, events[n], s), c, events[n], s);
      assert LinesFrom(c, EMPTY, events)[..n] == LinesFrom(c, EMPTY, front);
    }
  }

  /** After any run, a boot from the log file restores the global head, the ordinal
      and the kernel's last hash exactly, and the per-actor heads except that of the
      empty name; it finds no break, and one unusable line for each event of that name. */
  lemma BootRestores(parse: Parser, c: Config, events: seq<Recorded>)
    requires Hex(c) && ReadsBack(parse, Jsons(c, events))
    ensures var s := StateAfter(c, EMPTY, events);
      Booted(parse, LinesFrom(c, EMPTY, events)) == s.(lastByActor := s.lastByActor - {""})
    ensures Clean(parse, LinesFrom(c, EMPTY, events)) <==> forall i | 0 <= i < |events| :: events[i].spec.actor != ""
  {
    hide Hex, ReadsBack, LinesFrom, StateAfter, Rebuilt, GlobalWalk, Tail, Log, LinesRead, CountBad, Specs;
    BootWalks(parse, c, events);
    NoneUnnamed(events);
    LogIsRead(parse, c, events);
    RebuiltIsLive(BootReader(parse), LinesFrom(c, EMPTY, events), c, Specs(events));
    SameHeads(c, events);
    LineCount(c, EMPTY, events);
  }

  /** Whatever is recorded next, the file grows by the same lines. */
  ghost predicate SameFuture(c: Config, a: State, b: State) {
    forall more: seq<Recorded> :: LinesFrom(c, a, more) == LinesFrom(c, b, more)
  }

  /** A restart is invisible in the file, byte for byte, exactly when no event of the
      run had an empty actor name; and a strict boot refuses exactly the other runs. */
  lemma RestartIsInvisibleIff(parse: Parser, c: Config, events: seq<Recorded>)
    requires Hex(c) && ReadsBack(parse, Jsons(c, events))
    ensures var lines := LinesFrom(c, EMPTY, events);
      && (SameFuture(c, StateAfter(c, EMPTY, events), Booted(parse, lines)) <==> Clean(parse, lines))
      && (Clean(parse, lines) <==> forall i | 0 <= i < |events| :: events[i].spec.actor != "")
  {
    hide Hex, ReadsBack, LinesFrom, StateAfter, Booted, Clean, Specs, Jsons;
    var s := StateAfter(c, EMPTY, events);
    BootRestores(parse, c, events);
    ActorsOfRun(c, events);
    if forall i | 0 <= i < |events| :: events[i].spec.actor != "" {
      assert s.lastByActor - {""} == s.lastByActor;
    } else {
      HeadIsDigest(c, events, "");
      LastHashIsPlain(c, events);
      ForgottenHeadShowsInFile(c, s, s.(lastByActor := s.lastByActor - {""}));
    }
  }

  lemma ActorsOfRun(c: Config, events: seq<Recorded>)
    ensures "" in StateAfter(c, EMPTY, events).lastByActor
      <==> exists i :: 0 <= i < |events| && events[i].spec.actor == ""
  {
    hide StateAfter, FinalHeads;
    SameHeads(c, events);
    LiveActors(c, Specs(events));
    if i :| 0 <= i < |events| && events[i].spec.actor == "" { assert Specs(events)[i].actor == ""; }
  }

  lemma HeadIsDigest(c: Config, events: seq<Recorded>, actor: string)
    ensures var heads := StateAfter(c, EMPTY, events).lastByActor; actor in heads ==> heads[actor] != GENESIS
  {
    hide StateAfter, FinalHeads;
    SameHeads(c, events);
    LiveHeadsAreDigests(c, Specs(events), actor);
  }

  const PROBE := Recorded(EventSpec("move", "", "0", map[]), Null)

  lemma ForgottenHeadShowsInFile(c: Config, live: State, booted: State)
    requires Hex(c) && (live.lastHash.Some? ==> Plain(live.lastHash.value))
    requires "" in live.lastByActor && live.lastByActor[""] != GENESIS
    requires booted == live.(lastByActor := live.lastByActor - {""})
    ensures !SameFuture(c, live, booted)
  {
    hide TextOf, JsonFor, Print, LinesFrom, JsonPart, Split, Plain, After, PROBE;
    TextParts(c, PROBE, live);
    TextParts(c, PROBE, booted);
    ProbeDiffers(c, live, booted);
    OneLine(c, PROBE, live);
    OneLine(c, PROBE, booted);
    assert [TextOf(c, PROBE, live)][0] != [TextOf(c, PROBE, booted)][0];
  }

  lemma OneLine(c: Config, ev: Recorded, s: State)
    ensures LinesFrom(c, s, [ev]) == [TextOf(c, ev, s)]
  {
    hide TextOf;
    assert [ev][..0] == [];
    assert LinesFrom(c, s, []) == [];
  }

  lemma ProbeDiffers(c: Config, live: State, booted: State)
    requires "" in live.lastByActor && live.lastByActor[""] != GENESIS && "" !in booted.lastByActor
    ensures Print(true, JsonFor(c, PROBE, live)) != Print(true, JsonFor(c, PROBE, booted))
  {
    var x, y := JsonFor(c, PROBE, live), JsonFor(c, PROBE, booted);
    ProbeWellFormed(c, live);
    ProbeWellFormed(c, booted);
    JsonReads(c, PROBE, live);
    JsonReads(c, PROBE, booted);
    PrevOfEntry(c, PROBE, live);
    PrevOfEntry(c, PROBE, booted);
    hide Print, JsonFor, EntryFor, PrevEvent, AsEntry;
    PrintInjective(true, x, y);
  }

  lemma PrevOfEntry(c: Config, ev: Recorded, s: State)
    ensures PrevEvent(EntryFor(c, ev, s)) == PrevOf(HeadsOf(s), ev.spec.actor)
  {
    WrittenCarries(c, ev.spec, HeadsOf(s));
    hide BareEntry, EventHashFor, GlobalHashFor, ComputePayloadHash;
    assert EntryFor(c, ev, s).payload == Written(c, ev.spec, HeadsOf(s)).payload;
  }

  lemma ProbeWellFormed(c: Config, s: State)
    ensures WellFormed(JsonFor(c, PROBE, s))
  {
    hide Print, ComputePayloadHash, ComputeCapsHash, ComputeEventHash, ComputeGlobalEventHash;
    var e := EntryFor(c, PROBE, s);
    assert WellFormed(Obj(e.payload));
    assert WellFormed(StrArray([]));
  }

  /** Parsing whole lines, as the head rebuild of the unit test does, finds nothing in the server's file. */
  lemma WholeLineParseFindsNothingHere(parse: Parser, c: Config, events: seq<Recorded>)
    requires RefusesBars(parse) && Hex(c)
    ensures Rebuilt(parse, LinesFrom(c, EMPTY, events)) == map[]
    ensures CountBad(parse, LinesFrom(c, EMPTY, events)) == |events|
  {
    hide Contribution, Hex, RefusesBars, TextOf, StateAfter, LinesFrom, Plain;
    LineCount(c, EMPTY, events);
    forall i | 0 <= i < |events| ensures Contribution(parse, LinesFrom(c, EMPTY, events)[i]) == None {
      LinesAt(c, EMPTY, events, i);
      LastHashIsPlain(c, events[..i]);
      ServerLineIsBad(parse, c, events[i], StateAfter(c, EMPTY, events[..i]));
    }
    NoLineCounts(parse, LinesFrom(c, EMPTY, events));
  }

  lemma ServerLineIsBad(parse: Parser, c: Config, ev: Recorded, s: State)
    requires RefusesBars(parse) && (s.lastHash.Some? ==> Plain(s.lastHash.value))
    ensures Contribution(parse, TextOf(c, ev, s)) == None
  {
    assert Plain(PrevHash(s));
    hide Plain, JsonFor, EntryFor, Print, LineText, Contribution, RefusesBars;
    LogLineIsBad(parse, EntryFor(c, ev, s).(line := LineOf(c, ev, s)));
  }

  // ----- the log tool on the server's file -----

  lemma LinesDecodeToJsons(env: Env, c: Config, events: seq<Recorded>)
    requires Hex(c) && ReadsBack(env.parse, Jsons(c, events))
    ensures Decodes(env, LinesFrom(c, EMPTY, events), Jsons(c, events))
  {
    hide Hex, JsonAt, Split, JsonPart, LinesFrom, ReadsBack;
    LineCount(c, EMPTY, events);
    forall i | 0 <= i < |events| ensures Decode(env, LinesFrom(c, EMPTY, events)[i]) == Some(Jsons(c, events)[i]) {
      BootReads(env.parse, c, events, i);
    }
  }

  /** The log tool passes the server's file exactly when no event is a reveal and
      every event's own random-number fields pass. */
  lemma ToolPassesServerFile(env: Env, c: Config, events: seq<Recorded>)
    requires env.h == c.h && Hex(c) && ReadsBack(env.parse, Jsons(c, events))
    requires forall j | j in RunJson(c, Specs(events)) :: NoCollisionOnReveal(c.h, j)
    ensures Passes(env, LinesFrom(c, EMPTY, events))
      <==> forall i | 0 <= i < |events| :: events[i].spec.eventType != "rng_reveal" && SpecOk(env, events[i].spec)
  {
    hide Acceptable, LogsAlike, ReadsBack, Hex, LinesFrom, Jsons, RunJson, Decodes, SpecOk, NoCollisionOnReveal;
    var jsons, specs := Jsons(c, events), Specs(events);
    LinesDecodeToJsons(env, c, events);
    DecodingUnique(env, LinesFrom(c, EMPTY, events), jsons);
    LogsReadAlike(c, events);
    AlikeReverses(jsons, RunJson(c, specs));
    ToolAcceptsExactly(env, c, specs);
    if Acceptable(env, jsons) { AcceptableIgnoresLine(env, jsons, RunJson(c, specs)); }
    if Acceptable(env, RunJson(c, specs)) { AcceptableIgnoresLine(env, RunJson(c, specs), jsons); }
    assert forall i | 0 <= i < |events| :: specs[i] == events[i].spec;
  }

  // ----- the boot on any file the tool passes -----

  /** What the boot takes from a line that holds a sound entry. */
  lemma BootTakes(env: Env, line: string, j: Json)
    requires BootReader(env.parse)(line) == Some(j) && EntryOk(env, j)
    ensures Takes(env, line, j)
  {
    hide BootReader, CapsOk, RngV0Ok, RngEventOk, Print;
    var e := AsEntry(j);
    assert "payload_hash" in e.payload;
    assert j.fields["payload"].Obj? && e.payload == j.fields["payload"].fields;
    assert EventHash(env.h, e) != "";
  }

  ghost predicate ActorAgrees(env: Env, lines: seq<string>, log: seq<Json>, actor: string)
    requires Chained(ActorLinks(env.h, log, actor), Some(GENESIS))
  {
    Head(ActorLinks(env.h, log, actor), Some(GENESIS)) == Some(HeadOf(Rebuilt(BootReader(env.parse), lines), actor))
  }

  ghost predicate GlobalAgrees(env: Env, lines: seq<string>, log: seq<Json>)
    requires GlobalChained(env.h, log)
  {
    var (head, breaks) := GlobalWalk(BootReader(env.parse), lines);
    GlobalHead(env.h, log, head) && breaks == 0
  }

  ghost predicate AllNamed(log: seq<Json>) {
    forall i | 0 <= i < |log| :: IsEntry(log[i]) && AsEntry(log[i]).actor != ""
  }

  ghost predicate BootAgrees(env: Env, lines: seq<string>, log: seq<Json>)
    requires Acceptable(env, log)
  {
    && (forall actor: string | actor != "" :: ActorAgrees(env, lines, log, actor))
    && GlobalAgrees(env, lines, log)
    && (CountBad(BootReader(env.parse), lines) == 0 <==> AllNamed(log))
  }

  /** On every file the tool passes, lines of four parts, the boot ends with the heads
      of the tool's own projections, finds no break, and is clean exactly when no entry
      has an empty actor name. */
  lemma {:induction false} BootAgreesWithTool(env: Env, lines: seq<string>, log: seq<Json>)
    requires Decodes(env, lines, log) && Acceptable(env, log)
    requires forall i | 0 <= i < |lines| :: |Split(lines[i])| >= 4
    ensures BootAgrees(env, lines, log)
  {
    hide EntryOk, Split, Decode, BootReader, Acceptable, Takes, BootAgrees;
    if lines == [] {
      assert log == [];
      BootAgreesAtFirst(env);
    } else {
      var n := |lines| - 1;
      var front, j := log[..n], log[n];
      assert log == front + [j] && lines == lines[..n] + [lines[n]];
      assert Decode(env, lines[n]) == Some(j);
      LastIsOk(env, front, j);
      BootAgreesWithTool(env, lines[..n], front);
      BootReaderDecodes(env, lines[n]);
      BootTakes(env, lines[n], j);
      BootStep(env, front, j, lines[..n], lines[n]);
    }
  }

  lemma LastIsOk(env: Env, front: seq<Json>, j: Json)
    requires Acceptable(env, front + [j])
    ensures Acceptable(env, front) && EntryOk(env, j) && IsEntry(j)
  {
    AcceptableFront(env, front, j);
    hide RevealsFollowCommits, ActorsChained, GlobalChained, CapsOk, HashesRecompute, RngV0Ok, RngEventOk;
    assert EntryOk(env, (front + [j])[|front|]);
  }

  /** The line's contribution and pair are those of entry j. */
  ghost predicate Takes(env: Env, line: string, j: Json)
    requires EntryOk(env, j)
  {
    var e := AsEntry(j);
    && Contribution(BootReader(env.parse), line)
      == (if e.actor == "" then None else Some((e.actor, EventHash(env.h, e))))
    && GlobalPair(BootReader(env.parse), line)
      == (if CarriesGlobal(j) then Some((PrevGlobal(e), GlobalHash(e))) else None)
  }

  lemma BootReaderDecodes(env: Env, line: string)
    requires |Split(line)| >= 4
    ensures BootReader(env.parse)(line) == Decode(env, line)
  {
    hide Split, JsonPart;
  }

  lemma BootAgreesAtFirst(env: Env)
    requires Acceptable(env, [])
    ensures BootAgrees(env, [], [])
  {
  }

  lemma BootStep(env: Env, front: seq<Json>, j: Json, lines: seq<string>, line: string)
    requires Acceptable(env, front) && Acceptable(env, front + [j]) && BootAgrees(env, lines, front)
    requires IsEntry(j) && EntryOk(env, j) && Takes(env, line, j)
    ensures BootAgrees(env, lines + [line], front + [j])
  {
    hide EntryOk, ActorAgrees, GlobalAgrees, AllNamed, Takes, EntriesOk, RevealsFollowCommits;
    forall actor: string | actor != "" ensures ActorAgrees(env, lines + [line], front + [j], actor) {
      ActorStep(env, front, j, lines, line, actor);
    }
    GlobalStep(env, front, j, lines, line);
    NamedStep(env, front, j, lines, line);
  }

  lemma ActorStep(env: Env, front: seq<Json>, j: Json, lines: seq<string>, line: string, actor: string)
    requires actor != "" && EntryOk(env, j) && Takes(env, line, j)
    requires Chained(ActorLinks(env.h, front, actor), Some(GENESIS))
    requires Chained(ActorLinks(env.h, front + [j], actor), Some(GENESIS))
    requires ActorAgrees(env, lines, front, actor)
    ensures ActorAgrees(env, lines + [line], front + [j], actor)
  {
    assert (lines + [line])[..|lines|] == lines;
    SoundLinks(env, j);
    ProjectionsSnoc(env.h, front, j, actor);
    hide EntryOk, Contribution, GlobalPair, EventHash, AsEntry, IsEntry, CarriesGlobal, ActorLinks,
         BootReader, ActorLink, PrevEvent;
  }

  lemma GlobalStep(env: Env, front: seq<Json>, j: Json, lines: seq<string>, line: string)
    requires EntryOk(env, j) && Takes(env, line, j)
    requires GlobalChained(env.h, front) && GlobalChained(env.h, front + [j]) && GlobalAgrees(env, lines, front)
    ensures GlobalAgrees(env, lines + [line], front + [j])
  {
    assert (lines + [line])[..|lines|] == lines;
    SoundLinks(env, j);
    ProjectionsSnoc(env.h, front, j, "");
    hide EntryOk, Contribution, GlobalPair, EventHash, AsEntry, IsEntry, CarriesGlobal, CarriedLinks,
         BootReader, GlobalLink, PrevGlobal, GlobalHash;
    if CarriesGlobal(j) {
      ChainedSnoc(CarriedLinks(env.h, front), GlobalLink(env.h, j), Some(GENESIS));
    } else {
      assert CarriedLinks(env.h, front) + [] == CarriedLinks(env.h, front);
    }
  }

  lemma NamedStep(env: Env, front: seq<Json>, j: Json, lines: seq<string>, line: string)
    requires EntryOk(env, j) && Takes(env, line, j)
    requires IsEntry(j) && (CountBad(BootReader(env.parse), lines) == 0 <==> AllNamed(front))
    ensures CountBad(BootReader(env.parse), lines + [line]) == 0 <==> AllNamed(front + [j])
  {
    assert (lines + [line])[..|lines|] == lines;
    NamedSnoc(front, j);
    hide EntryOk, Contribution, GlobalPair, EventHash, AsEntry, CarriesGlobal, BootReader, AllNamed,
         PrevGlobal, GlobalHash;
  }

  lemma NamedSnoc(front: seq<Json>, j: Json)
    ensures AllNamed(front + [j]) <==> AllNamed(front) && IsEntry(j) && AsEntry(j).actor != ""
  {
    hide AsEntry, IsEntry;
    var log := front + [j];
    assert log[|front|] == j && forall i | 0 <= i < |front| :: log[i] == front[i];
  }

  lemma SoundLinks(env: Env, j: Json)
    requires EntryOk(env, j)
    ensures IsEntry(j) && ActorLink(env.h, AsEntry(j)) == Link(PrevEvent(AsEntry(j)), EventHash(env.h, AsEntry(j)))
    ensures CarriesGlobal(j) ==> GlobalLink(env.h, j) == Link(PrevGlobal(AsEntry(j)), GlobalHash(AsEntry(j)))
  {
    hide CapsOk, RngV0Ok, RngEventOk, HashesRecompute, EventHash;
  }

  // ----- a break in the global chain -----

  lemma WalkSnoc(read: Parser, lines: seq<string>, line: string)
    ensures GlobalWalk(read, lines + [line]) ==
      match GlobalPair(read, line)
      case None => GlobalWalk(read, lines)
      case Some((prev, hash)) =>
        var (head, breaks) := GlobalWalk(read, lines);
        if prev == head then (hash, breaks) else (head, breaks + 1)
  {
    hide GlobalPair;
    assert (lines + [line])[..|lines|] == lines;
  }

  /** A link that does not continue the chain counts as one break and is passed over: the
      walk goes on as if the line were not there. */
  lemma {:induction false} BrokenLinkIsSkipped(read: Parser, before: seq<string>, line: string, after: seq<string>)
    requires GlobalPair(read, line).Some? && GlobalPair(read, line).value.0 != GlobalWalk(read, before).0
    ensures var whole, rest := GlobalWalk(read, before + [line] + after), GlobalWalk(read, before + after);
      whole.0 == rest.0 && whole.1 == rest.1 + 1
  {
    hide GlobalPair, GlobalWalk;
    if after == [] {
      assert before + [line] + after == before + [line] && before + after == before;
      WalkSnoc(read, before, line);
    } else {
      var front, last := after[..|after| - 1], after[|after| - 1];
      BrokenLinkIsSkipped(read, before, line, front);
      assert before + [line] + after == (before + [line] + front) + [last];
      assert before + after == (before + front) + [last];
      WalkSnoc(read, before + [line] + front, last);
      WalkSnoc(read, before + front, last);
    }
  }

  /** A link that does continue it becomes the new head. */
  lemma LinkContinues(read: Parser, before: seq<string>, line: string)
    ensures GlobalWalk(read, []) == ("genesis", 0)
    ensures GlobalPair(read, line).None? ==> GlobalWalk(read, before + [line]) == GlobalWalk(read, before)
    ensures GlobalPair(read, line).Some? && GlobalPair(read, line).value.0 == GlobalWalk(read, before).0 ==>
      GlobalWalk(read, before + [line]) == (GlobalPair(read, line).value.1, GlobalWalk(read, before).1)
  {
    hide GlobalPair;
    WalkSnoc(read, before, line);
  }
}
