/** Rebuilding the per-actor heads from a log of JSON lines after a restart. */
module Rebuild {
  import opened Json
  import opened Hashing
  import opened ChronicleChain
  import opened SignedLines
  import opened Writer
  import opened LogLines
  import opened LogTool
  import opened WriterTheorems
  import opened CanonicalText

  type Parser = string -> Option<Json>

  /** The actor and event hash a line contributes: both non-empty strings, else nothing. */
  function Contribution(parse: Parser, line: string): Option<(string, string)> {
    var parsed := parse(line);
    if parsed.Some? && parsed.value.Obj? then
      var f := parsed.value.fields;
      var actor := GetString(f, "actor").GetOr("");
      var eventHash := if "payload" in f && f["payload"].Obj? then
        GetString(f["payload"].fields, "event_hash").GetOr("") else "";
      if actor != "" && eventHash != "" then Some((actor, eventHash)) else None
    else None
  }

  /** The last contribution of each actor. */
  function Rebuilt(parse: Parser, lines: seq<string>): map<string, string> {
    if lines == [] then map[]
    else
      var front := Rebuilt(parse, lines[..|lines| - 1]);
      match Contribution(parse, lines[|lines| - 1])
      case None => front
      case Some((actor, eventHash)) => front[actor := eventHash]
  }

  function CountBad(parse: Parser, lines: seq<string>): nat {
    if lines == [] then 0
    else CountBad(parse, lines[..|lines| - 1]) + if Contribution(parse, lines[|lines| - 1]).None? then 1 else 0
  }

  /** `rebuildChronicleHeadsFromLog`; the map handed in is cleared first. */
  method RebuildHeads(parse: Parser, lines: seq<string>)
    returns (heads: map<string, string>, actors: nat, ok: nat, bad: nat)
    ensures heads == Rebuilt(parse, lines) && actors == |heads|
    ensures bad == CountBad(parse, lines) && ok + bad == |lines|
  {
    heads := map[];
    ok, bad := 0, 0;
    for i := 0 to |lines|
      invariant heads == Rebuilt(parse, lines[..i])
      invariant bad == CountBad(parse, lines[..i]) && ok + bad == i
    {
      assert lines[..i + 1][..i] == lines[..i];
      var parsed := parse(lines[i]);
      if parsed.None? || !parsed.value.Obj? {
        bad := bad + 1;
      } else {
        var f := parsed.value.fields;
        var actor := GetString(f, "actor");
        var eventHash := if "payload" in f && f["payload"].Obj? then GetString(f["payload"].fields, "event_hash")
          else None;
        if actor.Some? && actor.value != "" && eventHash.Some? && eventHash.value != "" {
          heads := heads[actor.value := eventHash.value];
          ok := ok + 1;
        } else {
          bad := bad + 1;
        }
      }
    }
    assert lines[..|lines|] == lines;
    actors := |heads|;
  }

  /** Line i is the last one that contributes for the actor. */
  ghost predicate LastFor(parse: Parser, lines: seq<string>, i: nat, actor: string, eventHash: string)
    requires i < |lines|
  {
    && Contribution(parse, lines[i]) == Some((actor, eventHash))
    && forall k | i < k < |lines| && Contribution(parse, lines[k]).Some? ::
      Contribution(parse, lines[k]).value.0 != actor
  }

  /** The rebuilt head of an actor is the event hash of the actor's last usable line, and nothing else. */
  lemma {:induction false} RebuiltIsLast(parse: Parser, lines: seq<string>, actor: string, eventHash: string)
    ensures actor in Rebuilt(parse, lines) && Rebuilt(parse, lines)[actor] == eventHash
      <==> exists i | 0 <= i < |lines| :: LastFor(parse, lines, i, actor, eventHash)
  {
    hide Contribution;
    if lines != [] {
      var n := |lines| - 1;
      var front := lines[..n];
      RebuiltIsLast(parse, front, actor, eventHash);
      var last := Contribution(parse, lines[n]);
      if last.Some? && last.value.0 == actor {
        if last.value.1 == eventHash { assert LastFor(parse, lines, n, actor, eventHash); }
        assert forall i | 0 <= i < |lines| && LastFor(parse, lines, i, actor, eventHash) :: i == n;
      } else {
        forall i | 0 <= i < n
          ensures LastFor(parse, lines, i, actor, eventHash) == LastFor(parse, front, i, actor, eventHash)
        {
          assert front[i] == lines[i];
          if LastFor(parse, lines, i, actor, eventHash) {
            forall k | i < k < n && Contribution(parse, front[k]).Some?
              ensures Contribution(parse, front[k]).value.0 != actor { assert front[k] == lines[k]; }
          }
          if LastFor(parse, front, i, actor, eventHash) {
            forall k | i < k < |lines| && Contribution(parse, lines[k]).Some?
              ensures Contribution(parse, lines[k]).value.0 != actor { if k < n { assert front[k] == lines[k]; } }
          }
        }
      }
    }
  }

  /** A malformed line changes nothing, wherever it stands. */
  lemma {:induction false} MalformedLineIgnored(parse: Parser, before: seq<string>, line: string, after: seq<string>)
    requires Contribution(parse, line).None?
    ensures Rebuilt(parse, before + [line] + after) == Rebuilt(parse, before + after)
  {
    hide Contribution;
    if after == [] {
      assert before + [line] + after == before + [line] && (before + [line])[..|before|] == before;
      assert before + after == before;
    } else {
      var front := after[..|after| - 1];
      MalformedLineIgnored(parse, before, line, front);
      var s, t := before + [line] + after, before + after;
      assert s[..|s| - 1] == before + [line] + front && t[..|t| - 1] == before + front;
      assert s[|s| - 1] == after[|after| - 1] == t[|t| - 1];
    }
  }

  // ----- after a writer run -----

  /** Line i is read as entry i, with or without the fields of the line. */
  ghost predicate LinesRead(read: Parser, lines: seq<string>, entries: seq<Entry>) {
    && |lines| == |entries|
    && forall i | 0 <= i < |lines| :: read(lines[i]).Some? && ReadAlike(read(lines[i]).value, EntryJson(entries[i]))
  }

  lemma WrittenContribution(read: Parser, line: string, c: Config, spec: EventSpec, heads: Heads)
    requires read(line).Some? && ReadAlike(read(line).value, EntryJson(Written(c, spec, heads)))
    ensures Contribution(read, line) ==
      if spec.actor == "" then None else Some((spec.actor, EventHashFor(c, spec, heads)))
  {
    var e := Written(c, spec, heads);
    EntryRoundTrip(e);
    WrittenCarries(c, spec, heads);
    assert EventHashFor(c, spec, heads) != "";
    assert e.actor == spec.actor;
    var j := read(line).value;
    hide Written, EntryJson, EventHashFor;
    assert AsEntry(j).actor == e.actor && AsEntry(j).payload == e.payload;
    assert "event_hash" in AsEntry(j).payload;
    assert j.fields["payload"].Obj?;
  }

  /** Rebuilding from the log gives the writer's live head map, except that the
      empty actor name is never read back. */
  lemma {:induction false} RebuiltIsLive(read: Parser, lines: seq<string>, c: Config, specs: seq<EventSpec>)
    requires LinesRead(read, lines, Log(c, FRESH, specs))
    ensures Rebuilt(read, lines) == FinalHeads(c, FRESH, specs).lastByActor - {""}
  {
    hide Written, EntryJson, Contribution, EventHashFor, Log, FinalHeads, Advance, ReadAlike;
    if specs == [] {
      NothingWritten(c);
    } else {
      var n := |specs| - 1;
      var spec, heads := specs[n], FinalHeads(c, FRESH, specs[..n]);
      RunAt(c, FRESH, specs, n);
      assert specs[..n] + [spec] == specs;
      LiveStep(c, specs[..n], spec);
      WrittenContribution(read, lines[n], c, spec, heads);
      RebuiltIsLive(read, lines[..n], c, specs[..n]);
      UpdateMinus(heads.lastByActor, spec.actor, EventHashFor(c, spec, heads));
    }
  }

  lemma NothingWritten(c: Config)
    ensures Log(c, FRESH, []) == [] && FinalHeads(c, FRESH, []).lastByActor == map[]
  {
  }

  lemma LiveStep(c: Config, specs: seq<EventSpec>, spec: EventSpec)
    ensures var heads := FinalHeads(c, FRESH, specs);
      FinalHeads(c, FRESH, specs + [spec]).lastByActor == heads.lastByActor[spec.actor := EventHashFor(c, spec, heads)]
  {
    RunSnoc(c, FRESH, specs, spec);
  }

  lemma UpdateMinus(m: map<string, string>, k: string, v: string)
    ensures m[k := v] - {""} == if k == "" then m - {""} else (m - {""})[k := v]
  {
  }

  lemma {:induction false} LiveActors(c: Config, specs: seq<EventSpec>)
    ensures FinalHeads(c, FRESH, specs).lastByActor.Keys == set i | 0 <= i < |specs| :: specs[i].actor
  {
    hide Written, EventHashFor, GlobalHashFor, LineText;
    if specs != [] {
      var n := |specs| - 1;
      LiveActors(c, specs[..n]);
      var before := set i | 0 <= i < n :: specs[..n][i].actor;
      var after := set i | 0 <= i < |specs| :: specs[i].actor;
      assert after == before + {specs[n].actor} by {
        forall a | a in after ensures a in before + {specs[n].actor} {
          var i :| 0 <= i < |specs| && specs[i].actor == a;
          if i < n { assert specs[..n][i].actor == a; }
        }
        forall a | a in before ensures a in after {
          var i :| 0 <= i < n && specs[..n][i].actor == a;
          assert specs[i].actor == a;
        }
      }
    }
  }

  // ----- carrying on -----

  /** What the per-actor chain sees of an entry. */
  datatype ActorView = ActorView(actor: string, prev: string, hash: Option<string>)

  function ViewOf(e: Entry): ActorView {
    ActorView(e.actor, PrevEvent(e), GetString(e.payload, "event_hash"))
  }

  function Views(entries: seq<Entry>): seq<ActorView> {
    seq(|entries|, i requires 0 <= i < |entries| => ViewOf(entries[i]))
  }

  lemma WrittenView(c: Config, spec: EventSpec, heads: Heads)
    ensures ViewOf(Written(c, spec, heads))
         == ActorView(spec.actor, PrevOf(heads, spec.actor), Some(EventHashFor(c, spec, heads)))
  {
    WrittenCarries(c, spec, heads);
  }

  /** The per-actor links depend on nothing but the per-actor heads. */
  lemma {:induction false} SameHeadsSameLinks(c: Config, a: Heads, b: Heads, specs: seq<EventSpec>)
    requires a.lastByActor == b.lastByActor
    ensures FinalHeads(c, a, specs).lastByActor == FinalHeads(c, b, specs).lastByActor
    ensures Views(Log(c, a, specs)) == Views(Log(c, b, specs))
  {
    hide Written, LineText, GlobalHashFor;
    if specs != [] {
      var front, spec := specs[..|specs| - 1], specs[|specs| - 1];
      SameHeadsSameLinks(c, a, b, front);
      var ha, hb := FinalHeads(c, a, front), FinalHeads(c, b, front);
      WrittenView(c, spec, ha);
      WrittenView(c, spec, hb);
      assert EventHashFor(c, spec, ha) == EventHashFor(c, spec, hb);
      hide ViewOf, EventHashFor;
      ViewsSnoc(Log(c, a, front), Written(c, spec, ha));
      ViewsSnoc(Log(c, b, front), Written(c, spec, hb));
    }
  }

  lemma ViewsSnoc(entries: seq<Entry>, e: Entry)
    ensures Views(entries + [e]) == Views(entries) + [ViewOf(e)]
  {
    hide ViewOf;
  }

  /** However the writer carries on, the links are those of an uninterrupted run. */
  ghost predicate Continuous(c: Config, live: Heads, resumed: Heads) {
    forall more: seq<EventSpec> :: Views(Log(c, live, more)) == Views(Log(c, resumed, more))
  }

  /** Restart continuity, for any reading of the lines that gives back the entries:
      stopping after any run, rebuilding and carrying on is invisible in the
      per-actor chains exactly when no event of the run had an empty actor name.
      The global head and the line chain do not matter. */
  lemma RestartContinuity(read: Parser, lines: seq<string>, c: Config, specs: seq<EventSpec>, resumed: Heads)
    requires LinesRead(read, lines, Log(c, FRESH, specs))
    requires resumed.lastByActor == Rebuilt(read, lines)
    ensures Continuous(c, FinalHeads(c, FRESH, specs), resumed)
      <==> forall i | 0 <= i < |specs| :: specs[i].actor != ""
  {
    hide FinalHeads, Log, Rebuilt;
    var live := FinalHeads(c, FRESH, specs);
    RebuiltIsLive(read, lines, c, specs);
    LiveActors(c, specs);
    if forall i | 0 <= i < |specs| :: specs[i].actor != "" {
      assert live.lastByActor - {""} == live.lastByActor;
      forall more: seq<EventSpec> ensures Views(Log(c, live, more)) == Views(Log(c, resumed, more)) {
        SameHeadsSameLinks(c, live, resumed, more);
      }
    } else {
      LiveHeadsAreDigests(c, specs, "");
      ForgottenHeadShows(c, live, resumed, "");
    }
  }

  lemma ForgottenHeadShows(c: Config, live: Heads, resumed: Heads, actor: string)
    requires actor in live.lastByActor && live.lastByActor[actor] != GENESIS && actor !in resumed.lastByActor
    ensures !Continuous(c, live, resumed)
  {
    var spec := EventSpec("move", actor, "0", map[]);
    var whole, part := Log(c, live, [spec]), Log(c, resumed, [spec]);
    assert [] + [spec] == [spec];
    RunSnoc(c, live, [], spec);
    RunSnoc(c, resumed, [], spec);
    WrittenView(c, spec, live);
    WrittenView(c, spec, resumed);
    hide Written, ViewOf, EventHashFor;
    assert Views(whole)[0].prev != Views(part)[0].prev;
  }

  lemma {:induction false} LiveHeadsAreDigests(c: Config, specs: seq<EventSpec>, actor: string)
    ensures actor in FinalHeads(c, FRESH, specs).lastByActor ==>
      FinalHeads(c, FRESH, specs).lastByActor[actor] != GENESIS
  {
    hide Written, LineText, GlobalHashFor;
    if specs != [] {
      var n := |specs| - 1;
      LiveHeadsAreDigests(c, specs[..n], actor);
      var spec, heads := specs[n], FinalHeads(c, FRESH, specs[..n]);
      PrefixedIsNotGenesis(c.h, EventText(BareEntry(c, spec), PrevOf(heads, spec.actor),
        ComputePayloadHash(c.h, spec.payload)));
    }
  }

  // ----- the two kinds of line -----

  /** Lines that are JSON and nothing else. */
  function BareLines(c: Config, specs: seq<EventSpec>): seq<string> {
    seq(|specs|, i requires 0 <= i < |specs| => Print(true, BareAt(c, specs, i)))
  }

  /** Reading the JSON part of a line. */
  function PartReader(parse: Parser): Parser {
    line => parse(JsonPart(line))
  }

  lemma LinesAreRead(parse: Parser, c: Config, specs: seq<EventSpec>)
    requires ReadsBack(parse, BareJson(c, specs))
    ensures LinesRead(parse, BareLines(c, specs), Log(c, FRESH, specs))
    ensures Hex(c) ==> LinesRead(PartReader(parse), WriterLines(c, specs), Log(c, FRESH, specs))
  {
    hide Print, BareAt, ReadAlike, JsonPart, Hex, EntryJson, LineText, Written, Stamped;
    var entries := Log(c, FRESH, specs);
    RunLength(c, FRESH, specs);
    forall i | 0 <= i < |specs|
      ensures parse(BareLines(c, specs)[i]).Some?
      ensures ReadAlike(parse(BareLines(c, specs)[i]).value, EntryJson(entries[i]))
      ensures Hex(c) ==> JsonPart(WriterLines(c, specs)[i]) == BareLines(c, specs)[i]
    {
      assert BareJson(c, specs)[i] in BareJson(c, specs);
      BareLineReads(c, specs, i);
    }
  }

  lemma BareLineReads(c: Config, specs: seq<EventSpec>, i: nat)
    requires i < |specs|
    ensures |Log(c, FRESH, specs)| == |specs| && ReadAlike(BareAt(c, specs, i), EntryJson(Log(c, FRESH, specs)[i]))
    ensures Hex(c) ==> JsonPart(LineAt(c, specs, i)) == Print(true, BareAt(c, specs, i))
  {
    RunAt(c, FRESH, specs, i);
    BareReadsAlike(c, specs[i], RunHeads(c, specs[..i]));
    if Hex(c) { LineHoldsBareJson(c, specs[i], RunHeads(c, specs[..i])); }
    hide Print, ReadAlike, JsonPart, EntryJson, LineText, Written, Stamped, Hex;
  }

  /** A separator outside every string: it stands before the first quote. */
  predicate BarOutsideStrings(text: string) {
    exists i | 0 <= i < |text| :: text[i] == '|' && '\"' !in text[..i]
  }

  /** No JSON text has one (section 2 of RFC 8259). */
  ghost predicate RefusesBars(parse: Parser) {
    forall text :: BarOutsideStrings(text) ==> parse(text).None?
  }

  lemma PlainFieldShowsBar(field: string, rest: string)
    requires Plain(field)
    ensures BarOutsideStrings(field + "|" + rest)
  {
    var text := field + "|" + rest;
    assert text[|field|] == '|' && text[..|field|] == field;
  }

  /** One line as the log file holds it, and what the whole-line parse makes of it. */
  lemma PipeLineIsBad(parse: Parser)
    requires RefusesBars(parse)
    ensures Rebuilt(parse, ["genesis|aa|bb|{}"]) == map[] && CountBad(parse, ["genesis|aa|bb|{}"]) == 1
  {
    PlainFieldShowsBar("genesis", "aa|bb|{}");
    assert "genesis" + "|" + "aa|bb|{}" == "genesis|aa|bb|{}";
  }

  /** A whole log line is no JSON text. */
  lemma LogLineIsBad(parse: Parser, e: Entry)
    requires RefusesBars(parse) && HasLine(e) && Plain(e.line.prevHash.value)
    ensures Contribution(parse, LineText(e)) == None
  {
    hide BarOutsideStrings, Plain;
    var rest := e.line.eventHash.value + "|" + e.line.signature.value + "|" + e.line.canonicalJson.value;
    PlainFieldShowsBar(e.line.prevHash.value, rest);
    assert LineText(e) == e.line.prevHash.value + "|" + rest;
  }

  lemma PrevIsPlain(c: Config, spec: EventSpec, heads: Heads)
    requires Hex(c)
    ensures HasLine(Written(c, spec, heads)) && Plain(Written(c, spec, heads).line.prevHash.value)
  {
    hide Stamped, Print;
  }

  lemma WriterLineIsBad(parse: Parser, c: Config, specs: seq<EventSpec>, i: nat)
    requires RefusesBars(parse) && Hex(c) && i < |specs|
    ensures Contribution(parse, WriterLines(c, specs)[i]) == None
  {
    hide Written, RunHeads, Hex, Plain, LineText, HasLine, Contribution, RefusesBars;
    PrevIsPlain(c, specs[i], RunHeads(c, specs[..i]));
    LogLineIsBad(parse, Written(c, specs[i], RunHeads(c, specs[..i])));
  }

  lemma {:induction false} NoLineCounts(parse: Parser, lines: seq<string>)
    requires forall i | 0 <= i < |lines| :: Contribution(parse, lines[i]) == None
    ensures Rebuilt(parse, lines) == map[] && CountBad(parse, lines) == |lines|
  {
    hide Contribution;
    if lines != [] { NoLineCounts(parse, lines[..|lines| - 1]); }
  }

  /** Parsing whole lines, the rebuild finds nothing in the log file. */
  lemma WholeLineParseFindsNothing(parse: Parser, c: Config, specs: seq<EventSpec>)
    requires RefusesBars(parse) && Hex(c)
    ensures Rebuilt(parse, WriterLines(c, specs)) == map[] && CountBad(parse, WriterLines(c, specs)) == |specs|
  {
    hide Contribution, Hex, RefusesBars;
    forall i | 0 <= i < |specs|
      ensures Contribution(parse, WriterLines(c, specs)[i]) == None
    {
      WriterLineIsBad(parse, c, specs, i);
    }
    NoLineCounts(parse, WriterLines(c, specs));
  }

  // ----- logs that mix the two kinds of line -----

  /** Line i is bare JSON or a whole log line. */
  function MixedLines(c: Config, specs: seq<EventSpec>, bare: seq<bool>): seq<string>
    requires |bare| == |specs|
  {
    seq(|specs|, i requires 0 <= i < |specs| => if bare[i] then BareLines(c, specs)[i] else WriterLines(c, specs)[i])
  }

  predicate LastOfActor(specs: seq<EventSpec>, i: nat)
    requires i < |specs|
  {
    forall k | i < k < |specs| :: specs[k].actor != specs[i].actor
  }

  /** The event hash written at place i. */
  function HashAt(c: Config, specs: seq<EventSpec>, i: nat): string
    requires i < |specs|
  {
    EventHashFor(c, specs[i], RunHeads(c, specs[..i]))
  }

  /** The text hashed for it. */
  function EventTextAt(c: Config, specs: seq<EventSpec>, i: nat): string
    requires i < |specs|
  {
    EventText(BareEntry(c, specs[i]), PrevOf(RunHeads(c, specs[..i]), specs[i].actor),
      ComputePayloadHash(c.h, specs[i].payload))
  }

  ghost function EventTexts(c: Config, specs: seq<EventSpec>): set<string> {
    set i | 0 <= i < |specs| :: EventTextAt(c, specs, i)
  }

  lemma MixedContribution(parse: Parser, c: Config, specs: seq<EventSpec>, bare: seq<bool>, i: nat)
    requires RefusesBars(parse) && Hex(c) && ReadsBack(parse, BareJson(c, specs)) && |bare| == |specs| && i < |specs|
    ensures Contribution(parse, MixedLines(c, specs, bare)[i]) ==
      if bare[i] && specs[i].actor != "" then Some((specs[i].actor, HashAt(c, specs, i))) else None
  {
    hide Contribution, Hex, RefusesBars, ReadsBack, BareLines, WriterLines, Written, EventHashFor, ReadAlike, EntryJson;
    if bare[i] {
      LinesAreRead(parse, c, specs);
      RunAt(c, FRESH, specs, i);
      assert |BareLines(c, specs)| == |specs|;
      WrittenContribution(parse, BareLines(c, specs)[i], c, specs[i], RunHeads(c, specs[..i]));
    } else {
      WriterLineIsBad(parse, c, specs, i);
    }
  }

  /** The live head of an actor is the hash of the actor's last event. */
  lemma {:induction false} HeadIsLast(c: Config, specs: seq<EventSpec>, n: nat, actor: string) returns (p: nat)
    requires n <= |specs| && actor in RunHeads(c, specs[..n]).lastByActor
    ensures p < n && specs[p].actor == actor && RunHeads(c, specs[..n]).lastByActor[actor] == HashAt(c, specs, p)
    ensures forall k | p < k < n :: specs[k].actor != actor
  {
    hide EventHashFor, Log, FinalHeads;
    NothingWritten(c);
    assert specs[..0] == [];
    p := n - 1;
    assert specs[..n] == specs[..p] + [specs[p]];
    LiveStep(c, specs[..p], specs[p]);
    if specs[p].actor != actor { p := HeadIsLast(c, specs, n - 1, actor); }
  }

  lemma ActorIsLive(c: Config, specs: seq<EventSpec>, n: nat, i: nat)
    requires i < n <= |specs|
    ensures specs[i].actor in RunHeads(c, specs[..n]).lastByActor
  {
    LiveActors(c, specs[..n]);
    assert specs[..n][i] == specs[i];
  }

  lemma SameTextSamePrev(c: Config, a: EventSpec, prevA: string, b: EventSpec, prevB: string)
    requires IsNumeral(a.tick) && IsNumeral(b.tick)
    requires EventText(BareEntry(c, a), prevA, ComputePayloadHash(c.h, a.payload))
          == EventText(BareEntry(c, b), prevB, ComputePayloadHash(c.h, b.payload))
    ensures prevA == prevB
  {
    hide Print, ComputePayloadHash, ComputeCapsHash;
    var x := EventPreimage(BareEntry(c, a), prevA, ComputePayloadHash(c.h, a.payload));
    var y := EventPreimage(BareEntry(c, b), prevB, ComputePayloadHash(c.h, b.payload));
    var p, q := Print(true, x), Print(true, y);
    assert p == (DOMAIN_EVENT + p)[|DOMAIN_EVENT|..] && q == (DOMAIN_EVENT + q)[|DOMAIN_EVENT|..];
    PrintInjective(true, x, y);
    assert x.fields["prev_event_hash"] == Str(prevA) && y.fields["prev_event_hash"] == Str(prevB);
  }

  /** No actor writes the same event hash twice: each hash covers the one before it. */
  lemma {:induction false} HashesDiffer(c: Config, specs: seq<EventSpec>, i: nat, j: nat)
    requires j < i < |specs| && specs[i].actor == specs[j].actor
    requires CollisionFree(c.h, EventTexts(c, specs)) && forall k | 0 <= k < |specs| :: IsNumeral(specs[k].tick)
    ensures HashAt(c, specs, i) != HashAt(c, specs, j)
    decreases j
  {
    if HashAt(c, specs, i) == HashAt(c, specs, j) {
      var actor := specs[i].actor;
      SameHashSamePrev(c, specs, i, j);
      hide EventHashFor, FinalHeads, EventTextAt;
      ActorIsLive(c, specs, i, j);
      var p := HeadIsLast(c, specs, i, actor);
      if actor in RunHeads(c, specs[..j]).lastByActor {
        var q := HeadIsLast(c, specs, j, actor);
        HashesDiffer(c, specs, p, q);
      } else {
        LiveHeadsAreDigests(c, specs[..i], actor);
      }
      assert false;
    }
  }

  lemma SameHashSamePrev(c: Config, specs: seq<EventSpec>, i: nat, j: nat)
    requires i < |specs| && j < |specs| && HashAt(c, specs, i) == HashAt(c, specs, j)
    requires CollisionFree(c.h, EventTexts(c, specs)) && forall k | 0 <= k < |specs| :: IsNumeral(specs[k].tick)
    ensures PrevOf(RunHeads(c, specs[..i]), specs[i].actor) == PrevOf(RunHeads(c, specs[..j]), specs[j].actor)
  {
    hide EventText, PrevOf, FinalHeads;
    assert EventTextAt(c, specs, i) in EventTexts(c, specs) && EventTextAt(c, specs, j) in EventTexts(c, specs);
    PrefixedInjective(c.h, EventTexts(c, specs), EventTextAt(c, specs, i), EventTextAt(c, specs, j));
    SameTextSamePrev(c, specs[i], PrevOf(RunHeads(c, specs[..i]), specs[i].actor),
                     specs[j], PrevOf(RunHeads(c, specs[..j]), specs[j].actor));
  }

  /** Where the rebuilt head of an actor comes from: its last bare line. */
  lemma RebuiltFrom(parse: Parser, c: Config, specs: seq<EventSpec>, bare: seq<bool>, actor: string) returns (i: nat)
    requires RefusesBars(parse) && Hex(c) && ReadsBack(parse, BareJson(c, specs)) && |bare| == |specs|
    requires actor in Rebuilt(parse, MixedLines(c, specs, bare))
    ensures i < |specs| && bare[i] && specs[i].actor == actor != ""
    ensures Rebuilt(parse, MixedLines(c, specs, bare))[actor] == HashAt(c, specs, i)
    ensures forall k | i < k < |specs| && bare[k] :: specs[k].actor != actor
  {
    hide Contribution, Hex, RefusesBars, ReadsBack, MixedLines, HashAt, Rebuilt;
    var lines := MixedLines(c, specs, bare);
    assert |lines| == |specs| by { MixedLength(c, specs, bare); }
    RebuiltIsLast(parse, lines, actor, Rebuilt(parse, lines)[actor]);
    i :| 0 <= i < |lines| && LastFor(parse, lines, i, actor, Rebuilt(parse, lines)[actor]);
    MixedContribution(parse, c, specs, bare, i);
    forall k | i < k < |specs| && bare[k]
      ensures specs[k].actor != actor
    {
      MixedContribution(parse, c, specs, bare, k);
    }
  }

  lemma MixedLength(c: Config, specs: seq<EventSpec>, bare: seq<bool>)
    requires |bare| == |specs|
    ensures |MixedLines(c, specs, bare)| == |specs|
  {
  }

  lemma BareLastIsRebuilt(parse: Parser, c: Config, specs: seq<EventSpec>, bare: seq<bool>, i: nat)
    requires RefusesBars(parse) && Hex(c) && ReadsBack(parse, BareJson(c, specs)) && |bare| == |specs|
    requires i < |specs| && bare[i] && specs[i].actor != "" && LastOfActor(specs, i)
    ensures var heads := Rebuilt(parse, MixedLines(c, specs, bare));
      specs[i].actor in heads && heads[specs[i].actor] == HashAt(c, specs, i)
  {
    hide Contribution, Hex, RefusesBars, ReadsBack, MixedLines, HashAt, Rebuilt;
    var lines := MixedLines(c, specs, bare);
    MixedLength(c, specs, bare);
    MixedContribution(parse, c, specs, bare, i);
    forall k | i < k < |lines| && Contribution(parse, lines[k]).Some?
      ensures Contribution(parse, lines[k]).value.0 != specs[i].actor
    {
      MixedContribution(parse, c, specs, bare, k);
    }
    assert LastFor(parse, lines, i, specs[i].actor, HashAt(c, specs, i));
    RebuiltIsLast(parse, lines, specs[i].actor, HashAt(c, specs, i));
  }

  lemma LastIsLive(c: Config, specs: seq<EventSpec>, i: nat)
    requires i < |specs| && LastOfActor(specs, i)
    ensures var heads := FinalHeads(c, FRESH, specs).lastByActor;
      specs[i].actor in heads && heads[specs[i].actor] == HashAt(c, specs, i)
  {
    hide HashAt, FinalHeads;
    assert specs[..|specs|] == specs;
    ActorIsLive(c, specs, |specs|, i);
    var p := HeadIsLast(c, specs, |specs|, specs[i].actor);
  }

  /** On a log that mixes bare JSON lines with whole log lines, the whole-line parse
      rebuilds the live head map exactly when the last line of every named actor is
      bare: it skips the other lines, and no earlier hash equals the lost one. */
  lemma WholeLineParseNeedsBareJson(parse: Parser, c: Config, specs: seq<EventSpec>, bare: seq<bool>)
    requires RefusesBars(parse) && Hex(c) && ReadsBack(parse, BareJson(c, specs)) && |bare| == |specs|
    requires CollisionFree(c.h, EventTexts(c, specs)) && forall k | 0 <= k < |specs| :: IsNumeral(specs[k].tick)
    ensures Rebuilt(parse, MixedLines(c, specs, bare)) == FinalHeads(c, FRESH, specs).lastByActor - {""}
      <==> forall i | 0 <= i < |specs| && specs[i].actor != "" && LastOfActor(specs, i) :: bare[i]
  {
    hide Rebuilt, FinalHeads, Hex, RefusesBars, ReadsBack, MixedLines, HashAt, EventTexts, LastOfActor;
    var heads, live := Rebuilt(parse, MixedLines(c, specs, bare)), FinalHeads(c, FRESH, specs).lastByActor;
    if heads == live - {""} {
      forall i | 0 <= i < |specs| && specs[i].actor != "" && LastOfActor(specs, i) ensures bare[i] {
        LastIsLive(c, specs, i);
        var j := RebuiltFrom(parse, c, specs, bare, specs[i].actor);
        LastIsLast(specs, i, j);
        if j < i { HashesDiffer(c, specs, i, j); }
      }
    }
    if forall i | 0 <= i < |specs| && specs[i].actor != "" && LastOfActor(specs, i) :: bare[i] {
      forall actor | actor in live && actor != "" ensures actor in heads && heads[actor] == live[actor] {
        var p := LiveIsLast(c, specs, actor);
        BareLastIsRebuilt(parse, c, specs, bare, p);
      }
      forall actor | actor in heads ensures actor in live && actor != "" {
        var i := RebuiltFrom(parse, c, specs, bare, actor);
        assert specs[..|specs|] == specs;
        ActorIsLive(c, specs, |specs|, i);
      }
      assert heads == live - {""};
    }
  }

  lemma LastIsLast(specs: seq<EventSpec>, i: nat, j: nat)
    requires i < |specs| && j < |specs| && LastOfActor(specs, i) && specs[j].actor == specs[i].actor
    ensures j <= i
  {
  }

  lemma LiveIsLast(c: Config, specs: seq<EventSpec>, actor: string) returns (p: nat)
    requires actor in FinalHeads(c, FRESH, specs).lastByActor
    ensures p < |specs| && specs[p].actor == actor && LastOfActor(specs, p)
    ensures FinalHeads(c, FRESH, specs).lastByActor[actor] == HashAt(c, specs, p)
  {
    hide HashAt, FinalHeads;
    assert specs[..|specs|] == specs;
    p := HeadIsLast(c, specs, |specs|, actor);
  }

  /** Carrying on after rebuilding the writer's own log file: reading the JSON part of
      each line, the break is invisible exactly when no actor name was empty; parsing
      whole lines, exactly when nothing had been written. */
  lemma RestartFromLogFile(parse: Parser, c: Config, specs: seq<EventSpec>, byPart: Heads, byLine: Heads)
    requires Hex(c) && ReadsBack(parse, BareJson(c, specs)) && RefusesBars(parse)
    requires byPart.lastByActor == Rebuilt(PartReader(parse), WriterLines(c, specs))
    requires byLine.lastByActor == Rebuilt(parse, WriterLines(c, specs))
    ensures Continuous(c, FinalHeads(c, FRESH, specs), byPart) <==> forall i | 0 <= i < |specs| :: specs[i].actor != ""
    ensures Continuous(c, FinalHeads(c, FRESH, specs), byLine) <==> specs == []
  {
    hide Rebuilt, FinalHeads, Log, Hex, RefusesBars, ReadsBack, WriterLines, LinesRead, PartReader, Continuous;
    var live := FinalHeads(c, FRESH, specs);
    LinesAreRead(parse, c, specs);
    RestartContinuity(PartReader(parse), WriterLines(c, specs), c, specs, byPart);
    WholeLineParseFindsNothing(parse, c, specs);
    LiveActors(c, specs);
    if specs == [] {
      NothingWritten(c);
      SameHeadsContinue(c, live, byLine);
    } else {
      var actor := specs[0].actor;
      LiveHeadsAreDigests(c, specs, actor);
      ForgottenHeadShows(c, live, byLine, actor);
    }
  }

  lemma SameHeadsContinue(c: Config, live: Heads, resumed: Heads)
    requires live.lastByActor == resumed.lastByActor
    ensures Continuous(c, live, resumed)
  {
    hide Views, Log;
    forall more: seq<EventSpec> ensures Views(Log(c, live, more)) == Views(Log(c, resumed, more)) {
      SameHeadsSameLinks(c, live, resumed, more);
    }
  }
}
