/** The offline log verifier: one pass over the log with a map of per-actor heads,
    a global head and the set of commitments seen so far. */
module LogTool {
  import opened Json
  import opened Hashing
  import opened Links
  import opened ChronicleChain
  import opened Rng

  datatype Env = Env(h: HashFunction, draw: DrawFunction, parse: string -> Option<Json>)

  // ----- reading a line -----

  function Split(s: string): (parts: seq<string>)
    ensures parts != []
  {
    if s == "" then [""]
    else if s[0] == '|' then [""] + Split(s[1..])
    else
      var rest := Split(s[1..]);
      [[s[0]] + rest[0]] + rest[1..]
  }

  function Join(parts: seq<string>): string
    requires parts != []
  {
    if |parts| == 1 then parts[0] else parts[0] + "|" + Join(parts[1..])
  }

  /** The JSON part of a line: after the third pipe if there is one, else the whole line. */
  function JsonPart(line: string): string {
    var parts := Split(line);
    if |parts| >= 4 then Join(parts[3..]) else line
  }

  lemma {:induction false} JoinSplit(s: string)
    ensures Join(Split(s)) == s
  {
    if s != "" {
      JoinSplit(s[1..]);
      var rest := Split(s[1..]);
      assert s == [s[0]] + s[1..];
      if s[0] == '|' {
        JoinCons("", rest);
      } else if |rest| > 1 {
        assert Split(s)[1..] == rest[1..];
      }
    }
  }

  lemma JoinCons(a: string, rest: seq<string>)
    requires rest != []
    ensures Join([a] + rest) == a + "|" + Join(rest)
  {
    assert ([a] + rest)[1..] == rest;
  }

  lemma {:induction false} SplitField(a: string, rest: string)
    requires '|' !in a
    ensures Split(a + "|" + rest) == [a] + Split(rest)
  {
    var s := a + "|" + rest;
    if a == "" {
      assert s[1..] == rest;
    } else {
      assert s[1..] == a[1..] + "|" + rest;
      SplitField(a[1..], rest);
      assert [a[0]] + a[1..] == a;
    }
  }

  /** A chronicle line gives back exactly the JSON that was written, whatever that contains. */
  lemma LineGivesItsJson(prev: string, event: string, signature: string, json: string)
    requires '|' !in prev && '|' !in event && '|' !in signature
    ensures JsonPart(prev + "|" + event + "|" + signature + "|" + json) == json
    ensures var parts := Split(prev + "|" + event + "|" + signature + "|" + json);
      |parts| >= 4 && parts[1] == event
  {
    var tail := signature + "|" + json;
    SplitField(signature, json);
    SplitField(event, tail);
    SplitField(prev, event + "|" + tail);
    LineAssociates(prev, event, signature, json);
    FourParts(prev, event, signature, Split(json));
    JoinSplit(json);
  }

  lemma LineAssociates(a: string, b: string, c: string, d: string)
    ensures a + "|" + b + "|" + c + "|" + d == a + "|" + (b + "|" + (c + "|" + d))
  {
    assert b + "|" + c + "|" + d == b + "|" + (c + "|" + d);
  }

  lemma FourParts(a: string, b: string, c: string, rest: seq<string>)
    ensures ([a] + ([b] + ([c] + rest)))[3..] == rest
  {
  }

  lemma {:induction false} JoinLength(parts: seq<string>, n: nat)
    requires n < |parts|
    ensures |Join(parts)| >= |Join(parts[n..])| + n
  {
    if n > 0 {
      JoinLength(parts[1..], n - 1);
      assert parts[1..][n - 1..] == parts[n..];
    } else {
      assert parts[0..] == parts;
    }
  }

  /** The plain-JSONL fallback reads a line as itself exactly when the line has fewer than three pipes. */
  lemma PlainLineReadAsItself(line: string)
    ensures JsonPart(line) == line <==> |Split(line)| < 4
  {
    JoinSplit(line);
    if |Split(line)| >= 4 { JoinLength(Split(line), 3); }
  }

  // ----- checks that look at one entry -----

  function Strings(items: seq<Json>): seq<string> {
    if items == [] then []
    else if items[0].Str? then [items[0].s] + Strings(items[1..])
    else Strings(items[1..])
  }

  /** `extractCaps`: top-level caps first, then payload.caps. */
  function ExtractCaps(e: Entry): Option<seq<string>> {
    if e.caps.Some? && e.caps.value.Arr? then Some(Strings(e.caps.value.items))
    else if "caps" in e.payload && e.payload["caps"].Arr? then Some(Strings(e.payload["caps"].items))
    else None
  }

  predicate CapsOk(h: HashFunction, e: Entry) {
    ExtractCaps(e).Some? ==> ComputeCapsHash(h, ExtractCaps(e).value) == e.capsHash
  }

  /** `getEmbeddedNumberArray`: an array of numbers, else null. */
  function NumberArray(payload: Fields, key: string): Option<seq<Json>> {
    if key in payload && payload[key].Arr? && (forall x | x in payload[key].items :: x.Num?)
    then Some(payload[key].items) else None
  }

  /** A string field that is present and not empty (`if (s)`). */
  predicate Filled(payload: Fields, key: string) {
    GetString(payload, key).Some? && GetString(payload, key).value != ""
  }

  function Text(payload: Fields, key: string): string
    requires Filled(payload, key)
  {
    GetString(payload, key).value
  }

  /** Seal 3 (v0): a commitment next to its reveal must match it, and draws must derive from the reveal. */
  predicate RngV0Ok(env: Env, payload: Fields) {
    && (Filled(payload, "rng_commit") && Filled(payload, "rng_reveal") ==>
          RngCommit(env.h, Text(payload, "rng_reveal")) == Text(payload, "rng_commit"))
    && (NumberArray(payload, "rng_out").Some? ==>
          var outs := NumberArray(payload, "rng_out").value;
          && GetString(payload, "rng_domain") == Some("death_drop:v0")
          && (HasNumber(payload, "rng_draws") ==> payload["rng_draws"] == Num(NatText(|outs|)))
          && Filled(payload, "rng_reveal") && DrawsMatch(env.draw, Text(payload, "rng_reveal"), outs))
  }

  function RngKey(actor: string, domain: string, commit: string): string {
    actor + "::" + domain + "::" + commit
  }

  predicate IsCommit(e: Entry) { e.eventType == "rng_commit" }
  predicate IsReveal(e: Entry) { e.eventType == "rng_reveal" }

  predicate KeyFields(e: Entry) {
    Filled(e.payload, "rng_domain") && Filled(e.payload, "rng_commit")
  }

  function EntryKey(e: Entry): string
    requires KeyFields(e)
  {
    RngKey(e.actor, Text(e.payload, "rng_domain"), Text(e.payload, "rng_commit"))
  }

  /** Seal 3.1, the part that looks at one entry. */
  predicate RngEventOk(env: Env, e: Entry) {
    && (IsCommit(e) || IsReveal(e) ==> KeyFields(e))
    && (IsReveal(e) ==>
          && Filled(e.payload, "rng_reveal")
          && RngCommitV1(env.h, Text(e.payload, "rng_domain"), e.actor, Text(e.payload, "rng_reveal"))
               == Text(e.payload, "rng_commit"))
  }

  /** Everything the tool asks of an entry on its own. */
  predicate EntryOk(env: Env, j: Json) {
    && IsEntry(j)
    && var e := AsEntry(j);
       && CapsOk(env.h, e) && HashesRecompute(env.h, e) && RngV0Ok(env, e.payload) && RngEventOk(env, e)
       && (HasGlobalFields(e) ==> GlobalRecomputes(env.h, e))
  }

  // ----- the projections of a log -----

  function ActorLink(h: HashFunction, e: Entry): Link {
    if HashesRecompute(h, e) then Link(PrevEvent(e), EventHash(h, e)) else Unsound
  }

  /** The chain of one actor: its entries, in log order. */
  function ActorLinks(h: HashFunction, log: seq<Json>, actor: string): seq<Link> {
    if log == [] then []
    else
      var front, last := ActorLinks(h, log[..|log| - 1], actor), log[|log| - 1];
      if IsEntry(last) && AsEntry(last).actor == actor then front + [ActorLink(h, AsEntry(last))] else front
  }

  predicate CarriesGlobal(j: Json) {
    IsEntry(j) && HasGlobalFields(AsEntry(j))
  }

  /** The global chain: the entries that carry both global fields, in log order. */
  function CarriedLinks(h: HashFunction, log: seq<Json>): seq<Link> {
    if log == [] then []
    else
      var front, last := CarriedLinks(h, log[..|log| - 1]), log[|log| - 1];
      if CarriesGlobal(last) then front + [GlobalLink(h, last)] else front
  }

  /** A commit event with this key occurs in the log. */
  predicate Committed(log: seq<Json>, key: string) {
    exists i | 0 <= i < |log| :: CommitsTo(log[i], key)
  }

  predicate CommitsTo(j: Json, key: string) {
    IsEntry(j) && IsCommit(AsEntry(j)) && KeyFields(AsEntry(j)) && EntryKey(AsEntry(j)) == key
  }

  /** A reveal names a commitment made earlier in the log. */
  predicate RevealFollowsCommit(log: seq<Json>, i: nat)
    requires i < |log|
  {
    IsEntry(log[i]) && IsReveal(AsEntry(log[i])) && KeyFields(AsEntry(log[i])) ==>
      Committed(log[..i], EntryKey(AsEntry(log[i])))
  }

  predicate RevealsFollowCommits(log: seq<Json>) {
    forall i | 0 <= i < |log| :: RevealFollowsCommit(log, i)
  }

  predicate EntriesOk(env: Env, log: seq<Json>) {
    forall i | 0 <= i < |log| :: EntryOk(env, log[i])
  }

  /** Each actor's own entries form a chain from genesis. */
  ghost predicate ActorsChained(h: HashFunction, log: seq<Json>) {
    forall actor: string :: Chained(ActorLinks(h, log, actor), Some(GENESIS))
  }

  predicate GlobalChained(h: HashFunction, log: seq<Json>) {
    Chained(CarriedLinks(h, log), Some(GENESIS))
  }

  /** The log is acceptable, said without any order of checking: entries one by
      one, each actor's chain, the global chain, and commitments before reveals. */
  ghost predicate Acceptable(env: Env, log: seq<Json>) {
    EntriesOk(env, log) && ActorsChained(env.h, log) && GlobalChained(env.h, log) && RevealsFollowCommits(log)
  }

  // ----- one more entry -----

  ghost predicate ActorHeads(h: HashFunction, log: seq<Json>, lastByActor: map<string, string>)
    requires ActorsChained(h, log)
  {
    forall actor: string :: Head(ActorLinks(h, log, actor), Some(GENESIS)) == Some(HeadOf(lastByActor, actor))
  }

  ghost predicate GlobalHead(h: HashFunction, log: seq<Json>, lastGlobal: string)
    requires GlobalChained(h, log)
  {
    Head(CarriedLinks(h, log), Some(GENESIS)) == Some(lastGlobal)
  }

  ghost predicate Seen(log: seq<Json>, commitSeen: set<string>) {
    forall key: string :: key in commitSeen <==> Committed(log, key)
  }

  /** The running state the tool keeps for an acceptable log. */
  ghost predicate Tracks(
    env: Env, log: seq<Json>, lastByActor: map<string, string>, lastGlobal: string, commitSeen: set<string>)
  {
    && Acceptable(env, log)
    && ActorHeads(env.h, log, lastByActor) && GlobalHead(env.h, log, lastGlobal) && Seen(log, commitSeen)
  }

  function HeadOf(lastByActor: map<string, string>, actor: string): string {
    if actor in lastByActor then lastByActor[actor] else GENESIS
  }

  /** What the tool asks of the next entry, given the running state. */
  predicate NextOk(env: Env, j: Json, lastByActor: map<string, string>, lastGlobal: string, commitSeen: set<string>) {
    && EntryOk(env, j)
    && var e := AsEntry(j);
       && PrevEvent(e) == HeadOf(lastByActor, e.actor)
       && (HasGlobalFields(e) ==> PrevGlobal(e) == lastGlobal)
       && (IsReveal(e) ==> EntryKey(e) in commitSeen)
  }

  lemma ProjectionsSnoc(h: HashFunction, log: seq<Json>, j: Json, actor: string)
    ensures ActorLinks(h, log + [j], actor) == ActorLinks(h, log, actor) +
      (if IsEntry(j) && AsEntry(j).actor == actor then [ActorLink(h, AsEntry(j))] else [])
    ensures CarriedLinks(h, log + [j]) == CarriedLinks(h, log) + (if CarriesGlobal(j) then [GlobalLink(h, j)] else [])
  {
    hide ActorLink, GlobalLink, AsEntry, IsEntry, HasGlobalFields;
    assert (log + [j])[..|log + [j]| - 1] == log;
  }

  lemma EntriesSnoc(env: Env, log: seq<Json>, j: Json)
    ensures EntriesOk(env, log + [j]) <==> EntriesOk(env, log) && EntryOk(env, j)
  {
    hide EntryOk;
    var s := log + [j];
    assert s[|log|] == j;
    assert forall i | 0 <= i < |log| :: s[i] == log[i];
  }

  lemma ActorChainSnoc(h: HashFunction, log: seq<Json>, j: Json, lastByActor: map<string, string>)
    requires IsEntry(j) && HashesRecompute(h, AsEntry(j))
    requires ActorsChained(h, log) && ActorHeads(h, log, lastByActor)
    ensures ActorsChained(h, log + [j]) <==> PrevEvent(AsEntry(j)) == HeadOf(lastByActor, AsEntry(j).actor)
    ensures ActorsChained(h, log + [j]) ==>
      ActorHeads(h, log + [j], lastByActor[AsEntry(j).actor := EventHash(h, AsEntry(j))])
  {
    var e := AsEntry(j);
    var link := ActorLink(h, e);
    assert link == Link(PrevEvent(e), EventHash(h, e));
    hide HashesRecompute, ActorLinks, AsEntry, EventHash, ActorLink, PrevEvent, IsEntry;
    var s := log + [j];
    ProjectionsSnoc(h, log, j, e.actor);
    ChainedSnoc(ActorLinks(h, log, e.actor), link, Some(GENESIS));
    forall actor: string | actor != e.actor
      ensures ActorLinks(h, s, actor) == ActorLinks(h, log, actor)
    {
      ProjectionsSnoc(h, log, j, actor);
    }
  }

  lemma GlobalChainSnoc(h: HashFunction, log: seq<Json>, j: Json, lastGlobal: string)
    requires IsEntry(j) && HashesRecompute(h, AsEntry(j))
    requires HasGlobalFields(AsEntry(j)) ==> GlobalRecomputes(h, AsEntry(j))
    requires GlobalChained(h, log) && GlobalHead(h, log, lastGlobal)
    ensures GlobalChained(h, log + [j]) <==> (HasGlobalFields(AsEntry(j)) ==> PrevGlobal(AsEntry(j)) == lastGlobal)
    ensures GlobalChained(h, log + [j]) ==>
      GlobalHead(h, log + [j], if HasGlobalFields(AsEntry(j)) then GlobalHash(AsEntry(j)) else lastGlobal)
  {
    ProjectionsSnoc(h, log, j, "");
    if CarriesGlobal(j) {
      var link := GlobalLink(h, j);
      assert link == Link(PrevGlobal(AsEntry(j)), GlobalHash(AsEntry(j)));
      hide CarriedLinks, AsEntry, GlobalLink, GlobalRecomputes, HashesRecompute;
      ChainedSnoc(CarriedLinks(h, log), link, Some(GENESIS));
    } else {
      assert CarriedLinks(h, log) + [] == CarriedLinks(h, log);
    }
  }

  lemma CommittedSnoc(log: seq<Json>, j: Json, key: string)
    ensures Committed(log + [j], key) <==> Committed(log, key) || CommitsTo(j, key)
  {
    hide CommitsTo;
    var s := log + [j];
    if Committed(log, key) { var i :| 0 <= i < |log| && CommitsTo(log[i], key); assert CommitsTo(s[i], key); }
    if CommitsTo(j, key) { assert CommitsTo(s[|log|], key); }
  }

  lemma SeenSnoc(log: seq<Json>, j: Json, commitSeen: set<string>)
    requires Seen(log, commitSeen) && IsEntry(j) && (IsCommit(AsEntry(j)) ==> KeyFields(AsEntry(j)))
    ensures Seen(log + [j], if IsCommit(AsEntry(j)) then commitSeen + {EntryKey(AsEntry(j))} else commitSeen)
  {
    hide Committed, AsEntry, IsEntry, EntryKey, KeyFields, IsCommit;
    forall key: string
      ensures Committed(log + [j], key)
        <==> Committed(log, key) || (IsCommit(AsEntry(j)) && EntryKey(AsEntry(j)) == key)
    {
      CommittedSnoc(log, j, key);
    }
  }

  lemma RevealsSnoc(log: seq<Json>, j: Json)
    ensures RevealsFollowCommits(log + [j]) <==>
      RevealsFollowCommits(log) &&
      (IsEntry(j) && IsReveal(AsEntry(j)) && KeyFields(AsEntry(j)) ==> Committed(log, EntryKey(AsEntry(j))))
  {
    hide AsEntry, IsEntry, EntryKey, KeyFields, IsReveal, Committed;
    var s := log + [j];
    forall i | 0 <= i < |log| ensures RevealFollowsCommit(s, i) == RevealFollowsCommit(log, i) {
      assert s[..i] == log[..i] && s[i] == log[i];
    }
    assert s[..|log|] == log && s[|log|] == j;
    if RevealsFollowCommits(s) {
      assert RevealFollowsCommit(s, |log|);
      forall i | 0 <= i < |log| ensures RevealFollowsCommit(log, i) { assert RevealFollowsCommit(s, i); }
    }
  }

  /** One step of the pass decides exactly whether the longer log is acceptable. */
  lemma StepDecides(
    env: Env, log: seq<Json>, j: Json, lastByActor: map<string, string>, lastGlobal: string, commitSeen: set<string>)
    requires Tracks(env, log, lastByActor, lastGlobal, commitSeen)
    ensures Acceptable(env, log + [j]) <==> NextOk(env, j, lastByActor, lastGlobal, commitSeen)
    ensures Acceptable(env, log + [j]) ==> TracksNext(env, log, j, lastByActor, lastGlobal, commitSeen)
  {
    EntriesSnoc(env, log, j);
    if EntryOk(env, j) {
      var e := AsEntry(j);
      assert (IsReveal(e) ==> KeyFields(e)) && (IsCommit(e) ==> KeyFields(e));
      ActorChainSnoc(env.h, log, j, lastByActor);
      GlobalChainSnoc(env.h, log, j, lastGlobal);
      RevealsSnoc(log, j);
      SeenSnoc(log, j, commitSeen);
      hide ActorsChained, GlobalChained, RevealsFollowCommits, EntriesOk, ActorHeads, GlobalHead,
           EntryOk, AsEntry, EventHash, PrevEvent, PrevGlobal, GlobalHash, HasGlobalFields,
           KeyFields, EntryKey, Committed, IsEntry, IsCommit, IsReveal;
    }
  }

  /** The state after an accepted entry. */
  ghost predicate TracksNext(
    env: Env, log: seq<Json>, j: Json, lastByActor: map<string, string>, lastGlobal: string, commitSeen: set<string>)
  {
    && IsEntry(j) && (IsCommit(AsEntry(j)) ==> KeyFields(AsEntry(j)))
    && var e := AsEntry(j);
       Tracks(env, log + [j], lastByActor[e.actor := EventHash(env.h, e)],
              if HasGlobalFields(e) then GlobalHash(e) else lastGlobal,
              if IsCommit(e) then commitSeen + {EntryKey(e)} else commitSeen)
  }

  lemma AcceptableFront(env: Env, log: seq<Json>, j: Json)
    requires Acceptable(env, log + [j])
    ensures Acceptable(env, log)
  {
    hide EntryOk, ActorLinks, CarriedLinks, Committed, AsEntry, IsEntry, GlobalLink, ActorLink;
    var s := log + [j];
    EntriesSnoc(env, log, j);
    forall actor: string ensures Chained(ActorLinks(env.h, log, actor), Some(GENESIS)) {
      ProjectionsSnoc(env.h, log, j, actor);
      var n := |ActorLinks(env.h, log, actor)|;
      ChainedPrefix(ActorLinks(env.h, s, actor), n, Some(GENESIS));
      assert ActorLinks(env.h, s, actor)[..n] == ActorLinks(env.h, log, actor);
    }
    ProjectionsSnoc(env.h, log, j, "");
    var m := |CarriedLinks(env.h, log)|;
    ChainedPrefix(CarriedLinks(env.h, s), m, Some(GENESIS));
    assert CarriedLinks(env.h, s)[..m] == CarriedLinks(env.h, log);
    RevealsSnoc(log, j);
  }

  lemma {:induction false} AcceptablePrefix(env: Env, log: seq<Json>, n: nat)
    requires Acceptable(env, log) && n <= |log|
    ensures Acceptable(env, log[..n])
    decreases |log| - n
  {
    hide Acceptable;
    if n == |log| {
      assert log[..n] == log;
    } else {
      AcceptablePrefix(env, log, n + 1);
      assert log[..n + 1] == log[..n] + [log[n]];
      AcceptableFront(env, log[..n], log[n]);
    }
  }

  // ----- the pass -----

  datatype Reason =
    | BAD_JSON | NOT_AN_ENTRY | CAPS_HASH | PAYLOAD_HASH | PREV_EVENT | EVENT_HASH_MISSING | EVENT_HASH
    | RNG_V0 | RNG_COMMIT_FIELDS | RNG_REVEAL_FIELDS | UNKNOWN_COMMIT | RNG_COMMIT_BINDING
    | GLOBAL_LINK | GLOBAL_HASH

  datatype Verdict =
    | Accepted(okCount: nat, actors: set<string>, globalVerified: nat, lastGlobal: string)
    | Rejected(lineNo: nat, reason: Reason)

  /** Line i parses, and its JSON. */
  function Decode(env: Env, line: string): Option<Json> {
    env.parse(JsonPart(line))
  }

  ghost predicate Decodes(env: Env, lines: seq<string>, log: seq<Json>) {
    |log| == |lines| && forall i | 0 <= i < |lines| :: Decode(env, lines[i]) == Some(log[i])
  }

  /** The lines decode to an acceptable log. */
  ghost predicate Passes(env: Env, lines: seq<string>) {
    exists log :: Decodes(env, lines, log) && Acceptable(env, log)
  }

  function ActorsOf(log: seq<Json>): set<string> {
    set i | 0 <= i < |log| && IsEntry(log[i]) :: AsEntry(log[i]).actor
  }

  /** The Seal 3 (v0) block. */
  method CheckRngV0(env: Env, payload: Fields) returns (ok: bool)
    ensures ok <==> RngV0Ok(env, payload)
  {
    hide RngCommit, NatText;
    if Filled(payload, "rng_commit") && Filled(payload, "rng_reveal") {
      if RngCommit(env.h, Text(payload, "rng_reveal")) != Text(payload, "rng_commit") {
        return false;
      }
    }
    var rngOut := NumberArray(payload, "rng_out");
    if rngOut.Some? {
      var outs := rngOut.value;
      if !Filled(payload, "rng_domain") || Text(payload, "rng_domain") != "death_drop:v0" {
        return false;
      }
      if HasNumber(payload, "rng_draws") && payload["rng_draws"] != Num(NatText(|outs|)) {
        return false;
      }
      if !Filled(payload, "rng_reveal") {
        return false;
      }
      for i := 0 to |outs|
        invariant forall k | 0 <= k < i :: outs[k] == Num(NatText(env.draw(Text(payload, "rng_reveal"), k)))
      {
        if outs[i] != Num(NatText(env.draw(Text(payload, "rng_reveal"), i))) {
          return false;
        }
      }
    }
    return true;
  }

  /** The checks of one line, in the order the loop makes them. */
  method CheckEntry(
    env: Env, j: Json, lastByActor: map<string, string>, lastGlobal: string, commitSeen: set<string>)
    returns (fault: Option<Reason>)
    ensures fault.None? <==> NextOk(env, j, lastByActor, lastGlobal, commitSeen)
  {
    hide ComputePayloadHash, ComputeEventHash, ComputeGlobalEventHash, ExtractCaps, RngCommitV1, AsEntry, RngKey;
    if !IsEntry(j) {
      return Some(NOT_AN_ENTRY);
    }
    var e := AsEntry(j);
    if !CapsOk(env.h, e) {
      return Some(CAPS_HASH);
    }
    var payloadHash := ComputePayloadHash(env.h, e.payload);
    if GetString(e.payload, "payload_hash") != Some(payloadHash) {
      return Some(PAYLOAD_HASH);
    }
    if PrevEvent(e) != HeadOf(lastByActor, e.actor) {
      return Some(PREV_EVENT);
    }
    EventHashIsNotEmpty(env.h, e);
    if !Filled(e.payload, "event_hash") {
      return Some(EVENT_HASH_MISSING);
    }
    var eventHash := ComputeEventHash(env.h, e, PrevEvent(e), payloadHash);
    if Text(e.payload, "event_hash") != eventHash {
      return Some(EVENT_HASH);
    }
    var rngOk := CheckRngV0(env, e.payload);
    if !rngOk {
      return Some(RNG_V0);
    }
    if IsCommit(e) && !KeyFields(e) {
      return Some(RNG_COMMIT_FIELDS);
    }
    if IsReveal(e) {
      if !KeyFields(e) || !Filled(e.payload, "rng_reveal") {
        return Some(RNG_REVEAL_FIELDS);
      }
      if EntryKey(e) !in commitSeen {
        return Some(UNKNOWN_COMMIT);
      }
      if RngCommitV1(env.h, Text(e.payload, "rng_domain"), e.actor, Text(e.payload, "rng_reveal"))
         != Text(e.payload, "rng_commit") {
        return Some(RNG_COMMIT_BINDING);
      }
    }
    if NumberArray(e.payload, "rng_out").Some? && GetString(e.payload, "rng_domain") == Some("death_drop:v1") {
      // Deferred draws: the v0 block has already turned such an entry away.
      assert false;
    }
    if HasGlobalFields(e) {
      if PrevGlobal(e) != lastGlobal {
        return Some(GLOBAL_LINK);
      }
      if ComputeGlobalEventHash(env.h, e, payloadHash, eventHash, PrevGlobal(e)) != GlobalHash(e) {
        return Some(GLOBAL_HASH);
      }
    }
    return None;
  }

  /** The main loop.  The log is accepted exactly when it decodes and is acceptable;
      draws are never deferred, so a strict run decides the same. */
  method VerifyLog(env: Env, lines: seq<string>) returns (r: Verdict)
    ensures r.Accepted? <==> Passes(env, lines)
    ensures r.Accepted? ==>
      forall log | Decodes(env, lines, log) :: GlobalChained(env.h, log) && Counts(env, log, r)
    ensures r.Rejected? ==> 1 <= r.lineNo <= |lines|
    ensures r.Rejected? ==> Passes(env, lines[..r.lineNo - 1]) && !Passes(env, lines[..r.lineNo])
  {
    hide NextOk, EntryOk, ActorsChained, RevealsFollowCommits, EntriesOk, ActorHeads, Seen, CarriedLinks;
    ghost var log: seq<Json> := [];
    var lastByActor: map<string, string> := map[];
    var lastGlobal := GENESIS;
    var commitSeen: set<string> := {};
    var okCount, globalVerified := 0, 0;
    EmptyLogTracked(env);
    for i := 0 to |lines|
      invariant Decodes(env, lines[..i], log)
      invariant Tracks(env, log, lastByActor, lastGlobal, commitSeen)
      invariant okCount == i == |log| && globalVerified == |CarriedLinks(env.h, log)|
      invariant lastByActor.Keys == ActorsOf(log)
    {
      assert Passes(env, lines[..i]);
      var decoded := Decode(env, lines[i]);
      if decoded.None? {
        UndecodedLine(env, lines, i);
        return Rejected(i + 1, BAD_JSON);
      }
      var j := decoded.value;
      StepDecides(env, log, j, lastByActor, lastGlobal, commitSeen);
      RejectedLine(env, lines, log, i, j);
      CountsSnoc(env, log, j);
      var fault := CheckEntry(env, j, lastByActor, lastGlobal, commitSeen);
      if fault.Some? {
        return Rejected(i + 1, fault.value);
      }
      DecodesSnoc(env, lines, log, i, j);
      hide Tracks, Decodes, Decode, EventHash, EntryKey, EntryOk, ActorsOf;
      log := log + [j];
      var e := AsEntry(j);
      if HasGlobalFields(e) {
        lastGlobal := GlobalHash(e);
        globalVerified := globalVerified + 1;
      }
      lastByActor := lastByActor[e.actor := EventHash(env.h, e)];
      if IsCommit(e) {
        commitSeen := commitSeen + {EntryKey(e)};
      }
      okCount := okCount + 1;
    }
    assert lines[..|lines|] == lines;
    DecodingUnique(env, lines, log);
    return Accepted(okCount, lastByActor.Keys, globalVerified, lastGlobal);
  }

  lemma DecodingUnique(env: Env, lines: seq<string>, log: seq<Json>)
    requires Decodes(env, lines, log)
    ensures forall other | Decodes(env, lines, other) :: other == log
  {
    hide Decode;
  }

  lemma EmptyLogTracked(env: Env)
    ensures Tracks(env, [], map[], GENESIS, {}) && CarriedLinks(env.h, []) == []
  {
  }

  lemma EventHashIsNotEmpty(h: HashFunction, e: Entry)
    ensures HashesRecompute(h, e) ==> Filled(e.payload, "event_hash")
  {
  }

  lemma DecodesSnoc(env: Env, lines: seq<string>, log: seq<Json>, i: nat, j: Json)
    requires i < |lines| && Decodes(env, lines[..i], log) && Decode(env, lines[i]) == Some(j)
    ensures Decodes(env, lines[..i + 1], log + [j])
  {
    hide Decode;
  }

  /** The figures a verdict reports. */
  ghost predicate Counts(env: Env, log: seq<Json>, r: Verdict)
    requires r.Accepted? && GlobalChained(env.h, log)
  {
    && r.okCount == |log| && r.actors == ActorsOf(log)
    && r.globalVerified == |CarriedLinks(env.h, log)| && GlobalHead(env.h, log, r.lastGlobal)
  }

  lemma CountsSnoc(env: Env, log: seq<Json>, j: Json)
    ensures |CarriedLinks(env.h, log + [j])| == |CarriedLinks(env.h, log)| + if CarriesGlobal(j) then 1 else 0
    ensures IsEntry(j) ==> ActorsOf(log + [j]) == ActorsOf(log) + {AsEntry(j).actor}
  {
    hide AsEntry, IsEntry, CarriesGlobal, GlobalLink;
    ProjectionsSnoc(env.h, log, j, "");
    var s := log + [j];
    assert s[|log|] == j && forall i | 0 <= i < |log| :: s[i] == log[i];
    if IsEntry(j) {
      forall a | a in ActorsOf(log) + {AsEntry(j).actor} ensures a in ActorsOf(s) {
        if a in ActorsOf(log) {
          var i :| 0 <= i < |log| && IsEntry(log[i]) && AsEntry(log[i]).actor == a;
          assert IsEntry(s[i]) && AsEntry(s[i]).actor == a;
        }
      }
    }
  }

  /** A line that does not parse ends every prefix that contains it. */
  lemma UndecodedLine(env: Env, lines: seq<string>, i: nat)
    requires i < |lines| && Decode(env, lines[i]).None?
    ensures !Passes(env, lines[..i + 1]) && !Passes(env, lines)
  {
    hide Acceptable, Decode;
    assert lines[..i + 1][i] == lines[i];
  }

  /** When the prefix ending at line i is not acceptable, no decoding of it or of the whole log is. */
  lemma RejectedLine(env: Env, lines: seq<string>, log: seq<Json>, i: nat, j: Json)
    requires i < |lines| && Decodes(env, lines[..i], log) && Decode(env, lines[i]) == Some(j)
    ensures !Acceptable(env, log + [j]) ==> !Passes(env, lines) && !Passes(env, lines[..i + 1])
  {
    hide Acceptable, Decode;
    forall whole | Decodes(env, lines, whole) && Acceptable(env, whole)
      ensures Acceptable(env, log + [j])
    {
      AcceptablePrefix(env, whole, i + 1);
      assert whole[..i + 1] == log + [j] by {
        forall k | 0 <= k < i ensures whole[k] == log[k] { assert lines[..i][k] == lines[k]; }
      }
    }
    DecodesSnoc(env, lines, log, i, j);
    DecodingUnique(env, lines[..i + 1], log + [j]);
  }
}
