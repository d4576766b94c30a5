/** The server's own chronicle: the events it appends, the line the witness kernel
    writes for each, and the rebuild of every head from the log file on boot.  The
    kernel names the hash of the previous event, where its own description, and the
    verifier of signed slices, speak of the hash of the previous line. */
module ServerLog {
  import opened Json
  import opened CanonicalText
  import opened Hashing
  import opened ChronicleChain
  import opened SignedLines
  import opened LogTool
  import opened Writer
  import opened Rebuild

  /** An event, with the object the server logs beside its payload. */
  datatype Recorded = Recorded(spec: EventSpec, rng: Json)

  /** Every head the server keeps: per actor, global, the ordinal, and the kernel's last event hash. */
  datatype State = State(lastByActor: map<string, string>, lastGlobal: string, ordinal: nat, lastHash: Option<string>)

  const EMPTY := State(map[], GENESIS, 0, None)

  function HeadsOf(s: State): Heads {
    Heads(s.lastByActor, s.lastGlobal, None)
  }

  function EntryFor(c: Config, ev: Recorded, s: State): Entry {
    Stamped(c, ev.spec, HeadsOf(s))
  }

  function WithRng(j: Json, rng: Json): Json {
    if j.Obj? then Obj(j.fields["rng" := rng]) else j
  }

  function JsonFor(c: Config, ev: Recorded, s: State): Json {
    WithRng(EntryJson(EntryFor(c, ev, s)), ev.rng)
  }

  function PrevHash(s: State): string {
    s.lastHash.GetOr(GENESIS)
  }

  /** `Chronicle::append`. */
  function KernelLine(c: Config, json: string, prev: string): Line {
    Line(Some(prev), Some(c.h(json)), Some(c.sign(Message(prev, c.h(json)))), Some(json))
  }

  function LineOf(c: Config, ev: Recorded, s: State): Line {
    KernelLine(c, Print(true, JsonFor(c, ev, s)), PrevHash(s))
  }

  function TextOf(c: Config, ev: Recorded, s: State): string {
    LineText(EntryFor(c, ev, s).(line := LineOf(c, ev, s)))
  }

  function After(c: Config, ev: Recorded, s: State): State {
    State(s.lastByActor[ev.spec.actor := EventHashFor(c, ev.spec, HeadsOf(s))], GlobalHashFor(c, ev.spec, HeadsOf(s)),
          s.ordinal + 1, LineOf(c, ev, s).eventHash)
  }

  /** The state after the first events of a run. */
  function StateAfter(c: Config, start: State, events: seq<Recorded>): State {
    if events == [] then start
    else After(c, events[|events| - 1], StateAfter(c, start, events[..|events| - 1]))
  }

  /** The lines a run appends to the file. */
  function LinesFrom(c: Config, start: State, events: seq<Recorded>): seq<string> {
    if events == [] then []
    else
      var front, last := events[..|events| - 1], events[|events| - 1];
      LinesFrom(c, start, front) + [TextOf(c, last, StateAfter(c, start, front))]
  }

  // ----- what a boot reads -----

  /** The rebuild reads the JSON after the third pipe, and nothing from a line with fewer. */
  function BootReader(parse: Parser): Parser {
    line => if |Split(line)| < 4 then None else parse(JsonPart(line))
  }

  /** The previous and own global hash of a line's payload, if both are strings. */
  function GlobalPair(read: Parser, line: string): Option<(string, string)> {
    var j := read(line);
    if j.Some? && j.value.Obj? && "payload" in j.value.fields && j.value.fields["payload"].Obj? then
      var payload := j.value.fields["payload"].fields;
      match (GetString(payload, "prev_global_hash"), GetString(payload, "global_event_hash"))
      case (Some(prev), Some(hash)) => Some((prev, hash))
      case _ => None
    else None
  }

  /** The strict walk of the global chain: the head after the links that continue it,
      and the number of links that do not. */
  function GlobalWalk(read: Parser, lines: seq<string>): (string, nat) {
    if lines == [] then (GENESIS, 0)
    else
      var (head, breaks) := GlobalWalk(read, lines[..|lines| - 1]);
      match GlobalPair(read, lines[|lines| - 1])
      case None => (head, breaks)
      case Some((prev, hash)) => if prev == head then (hash, breaks) else (head, breaks + 1)
  }

  /** `Chronicle::read_tail`: the second field of the last line that has one. */
  function Tail(lines: seq<string>): Option<string> {
    if lines == [] then None
    else
      var parts := Split(lines[|lines| - 1]);
      if |parts| >= 2 then Some(parts[1]) else Tail(lines[..|lines| - 1])
  }

  function Booted(parse: Parser, lines: seq<string>): State {
    State(Rebuilt(BootReader(parse), lines), GlobalWalk(BootReader(parse), lines).0, |lines|, Tail(lines))
  }

  /** No unreadable line and no break of the global chain. */
  predicate Clean(parse: Parser, lines: seq<string>) {
    CountBad(BootReader(parse), lines) == 0 && GlobalWalk(BootReader(parse), lines).1 == 0
  }

  /** The head map after a line's contribution. */
  function Taken(heads: map<string, string>, contribution: Option<(string, string)>): map<string, string> {
    match contribution
    case None => heads
    case Some((actor, eventHash)) => heads[actor := eventHash]
  }

  /** One step of the walk: the next expected hash, and whether the link is broken. */
  function Walked(expected: string, pair: Option<(string, string)>): (string, bool) {
    match pair
    case None => (expected, false)
    case Some((prev, hash)) => if prev == expected then (hash, false) else (expected, true)
  }

  // ----- the server object -----

  class Server {
    var lastByActor: map<string, string>
    var lastGlobal: string
    var ordinal: nat
    var lastHash: Option<string>
    var file: seq<string>

    function Value(): State
      reads this
    {
      State(lastByActor, lastGlobal, ordinal, lastHash)
    }

    /** The process before it has looked at its log file. */
    constructor (file: seq<string>)
      ensures Value() == EMPTY && this.file == file
    {
      lastByActor := map[];
      lastGlobal := GENESIS;
      ordinal := 0;
      lastHash := None;
      this.file := file;
    }

    /** One line of the rebuild: the per-actor head, and the step of the strict walk. */
    method TakeLine(parse: Parser, line: string, expected: string) returns (usable: bool, next: string, broken: bool)
      modifies this`lastByActor
      ensures usable <==> Contribution(BootReader(parse), line).Some?
      ensures lastByActor == Taken(old(lastByActor), Contribution(BootReader(parse), line))
      ensures (next, broken) == Walked(expected, GlobalPair(BootReader(parse), line))
    {
      hide Split, JsonPart;
      usable, next, broken := false, expected, false;
      var parts := Split(line);
      if |parts| < 4 {
        return;
      }
      var e := parse(JsonPart(line));
      if e.None? || !e.value.Obj? {
        return;
      }
      var f := e.value.fields;
      var payload: Fields := if "payload" in f && f["payload"].Obj? then f["payload"].fields else map[];
      var actor, eventHash := GetString(f, "actor"), GetString(payload, "event_hash");
      if actor.Some? && actor.value != "" && eventHash.Some? && eventHash.value != "" {
        lastByActor := lastByActor[actor.value := eventHash.value];
        usable := true;
      }
      var prevGlobal, globalHash := GetString(payload, "prev_global_hash"), GetString(payload, "global_event_hash");
      if prevGlobal.Some? && globalHash.Some? {
        if prevGlobal.value != expected {
          broken := true;
        } else {
          next := globalHash.value;
        }
      }
    }

    /** The boot: `rebuildChronicleHeadsFromLog`, then the kernel's own read of the file.
        In strict mode a log that is not clean stops the server. */
    method Boot(parse: Parser, strict: bool) returns (started: bool)
      requires Value() == EMPTY
      modifies this
      ensures file == old(file)
      ensures started <==> !strict || Clean(parse, file)
      ensures started ==> Value() == Booted(parse, file)
    {
      hide BootReader, Contribution, GlobalPair;
      var bad, globalBad := 0, 0;
      var expectedPrevGlobal := GENESIS;
      ghost var read := BootReader(parse);
      for i := 0 to |file|
        invariant file == old(file)
        invariant lastByActor == Rebuilt(read, file[..i]) && bad == CountBad(read, file[..i])
        invariant (expectedPrevGlobal, globalBad) == GlobalWalk(read, file[..i])
      {
        assert file[..i + 1][..i] == file[..i];
        var usable, next, broken := TakeLine(parse, file[i], expectedPrevGlobal);
        expectedPrevGlobal := next;
        if !usable {
          bad := bad + 1;
        }
        if broken {
          globalBad := globalBad + 1;
        }
      }
      assert file[..|file|] == file;
      lastGlobal := expectedPrevGlobal;
      ordinal := |file|;
      if strict && (bad > 0 || globalBad > 0) {
        return false;
      }
      ReadTail();
      return true;
    }

    method ReadTail()
      modifies this`lastHash
      ensures lastHash == Tail(file)
    {
      lastHash := None;
      for i := 0 to |file|
        invariant lastHash == Tail(file[..i])
      {
        assert file[..i + 1][..i] == file[..i];
        var parts := Split(file[i]);
        if |parts| >= 2 {
          lastHash := Some(parts[1]);
        }
      }
      assert file[..|file|] == file;
    }

    /** `chronicleEvent`, with the append of the witness kernel. */
    method ChronicleEvent(c: Config, ev: Recorded)
      modifies this
      ensures Value() == After(c, ev, old(Value()))
      ensures file == old(file) + [TextOf(c, ev, old(Value()))]
    {
      hide Print, ComputePayloadHash, ComputeEventHash, ComputeGlobalEventHash, EntryJson, ComputeCapsHash, StrArray;
      var entry := BareEntry(c, ev.spec);
      var semanticPayload := Strip(ev.spec.payload);
      var payloadHash := ComputePayloadHash(c.h, semanticPayload);
      SemanticPayload(c.h, ev.spec.payload);
      var prevEvent := if entry.actor in lastByActor then lastByActor[entry.actor] else GENESIS;
      var eventHash := ComputeEventHash(c.h, entry, prevEvent, payloadHash);
      var globalHash := ComputeGlobalEventHash(c.h, entry, payloadHash, eventHash, lastGlobal);
      entry := entry.(payload := Stamp(semanticPayload, payloadHash, prevEvent, eventHash, lastGlobal, globalHash));
      StampAfterStrip(ev.spec.payload, payloadHash, prevEvent, eventHash, lastGlobal, globalHash);
      assert entry == EntryFor(c, ev, Value());
      var json := Print(true, WithRng(EntryJson(entry), ev.rng));
      var line := KernelLine(c, json, lastHash.GetOr(GENESIS));
      file := file + [LineText(entry.(line := line))];
      lastByActor := lastByActor[entry.actor := eventHash];
      lastGlobal := globalHash;
      ordinal := ordinal + 1;
      lastHash := line.eventHash;
    }
  }

  lemma SemanticPayload(h: HashFunction, payload: Fields)
    ensures ComputePayloadHash(h, Strip(payload)) == ComputePayloadHash(h, payload)
  {
    assert Strip(Strip(payload)) == Strip(payload);
  }

  lemma StampAfterStrip(payload: Fields, a: string, b: string, c: string, d: string, e: string)
    ensures Stamp(Strip(payload), a, b, c, d, e) == Stamp(payload, a, b, c, d, e)
  {
  }
}
