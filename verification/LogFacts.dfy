/** An acceptable log in plain facts: what must stand in the fields of each entry, and in
    the entries before it, said without any function of the tool. */
module LogFacts {
  import opened Json
  import opened CanonicalText
  import opened Hashing
  import opened ChronicleChain
  import opened LogTool

  // ----- fields -----

  function PayloadOf(entry: Json): Fields {
    if entry.Obj? && "payload" in entry.fields && entry.fields["payload"].Obj? then entry.fields["payload"].fields
      else map[]
  }

  predicate HasText(fields: Fields, key: string) {
    key in fields && fields[key].Str?
  }

  function TextOr(fields: Fields, key: string, default: string): string {
    if HasText(fields, key) then fields[key].s else default
  }

  /** A text that is there and not empty. */
  predicate Says(fields: Fields, key: string) {
    TextOr(fields, key, "") != ""
  }

  predicate Carries(entry: Json) {
    HasText(PayloadOf(entry), "prev_global_hash") && HasText(PayloadOf(entry), "global_event_hash")
  }

  // ----- hashes -----

  /** The hash of the payload without the five hash fields. */
  function PayloadHashOf(h: HashFunction, entry: Json): string {
    "blake3:" + h(Print(true, Obj(PayloadOf(entry) -
      {"payload_hash", "prev_event_hash", "event_hash", "prev_global_hash", "global_event_hash"})))
  }

  /** The header as it is hashed, with the payload hash. */
  function HeaderOf(h: HashFunction, entry: Json): Fields
    requires IsEntry(entry)
  {
    var f := entry.fields;
    map["v" := f["v"], "world_id" := f["world_id"], "rulebook_root" := f["rulebook_root"], "tick" := f["tick"],
        "event_type" := f["event_type"], "actor" := f["actor"], "caps_hash" := f["caps_hash"],
        "payload_hash" := Str(PayloadHashOf(h, entry))]
  }

  function EventHashOf(h: HashFunction, entry: Json): string
    requires IsEntry(entry)
  {
    "blake3:" + h("akalynth:chronicle:event:v1\0" + Print(true, Obj(
      HeaderOf(h, entry)["prev_event_hash" := Str(TextOr(PayloadOf(entry), "prev_event_hash", "genesis"))])))
  }

  function GlobalHashOf(h: HashFunction, entry: Json): string
    requires IsEntry(entry)
  {
    "blake3:" + h("akalynth:chronicle:global:v1\0" + Print(true, Obj(
      HeaderOf(h, entry)["event_hash" := Str(EventHashOf(h, entry))]
                        ["prev_global_hash" := Str(TextOr(PayloadOf(entry), "prev_global_hash", ""))])))
  }

  /** The payload records its own hash and the event hash of the entry. */
  predicate HashesHold(h: HashFunction, entry: Json)
    requires IsEntry(entry)
  {
    && Get(PayloadOf(entry), "payload_hash") == Some(Str(PayloadHashOf(h, entry)))
    && Get(PayloadOf(entry), "event_hash") == Some(Str(EventHashOf(h, entry)))
  }

  predicate GlobalHolds(h: HashFunction, entry: Json)
    requires IsEntry(entry)
  {
    Carries(entry) && Get(PayloadOf(entry), "global_event_hash") == Some(Str(GlobalHashOf(h, entry)))
  }

  lemma EntryReads(entry: Json)
    requires IsEntry(entry)
    ensures var e, f := AsEntry(entry), entry.fields;
      && e.payload == PayloadOf(entry) && Num(e.v) == f["v"] && Num(e.tick) == f["tick"]
      && Str(e.worldId) == f["world_id"] && Str(e.rulebookRoot) == f["rulebook_root"]
      && Str(e.eventType) == f["event_type"] && Str(e.actor) == f["actor"] && Str(e.capsHash) == f["caps_hash"]
      && e.caps == Get(f, "caps")
  {
  }

  lemma PrevReads(entry: Json)
    requires IsEntry(entry)
    ensures PrevEvent(AsEntry(entry)) == TextOr(PayloadOf(entry), "prev_event_hash", "genesis")
    ensures HasGlobalFields(AsEntry(entry)) <==> Carries(entry)
    ensures Carries(entry) ==> PrevGlobal(AsEntry(entry)) == TextOr(PayloadOf(entry), "prev_global_hash", "")
    ensures Carries(entry) ==> GlobalHash(AsEntry(entry)) == TextOr(PayloadOf(entry), "global_event_hash", "")
  {
    EntryReads(entry);
    hide IsEntry, AsEntry, PayloadOf;
  }

  lemma PayloadRead(h: HashFunction, entry: Json)
    requires IsEntry(entry)
    ensures ComputePayloadHash(h, AsEntry(entry).payload) == PayloadHashOf(h, entry)
  {
    EntryReads(entry);
    hide Print, IsEntry, AsEntry, PayloadOf;
    assert Strip(AsEntry(entry).payload) == PayloadOf(entry) -
      {"payload_hash", "prev_event_hash", "event_hash", "prev_global_hash", "global_event_hash"};
  }

  lemma EventRead(h: HashFunction, entry: Json)
    requires IsEntry(entry)
    ensures EventHash(h, AsEntry(entry)) == EventHashOf(h, entry)
  {
    EntryReads(entry);
    PrevReads(entry);
    PayloadRead(h, entry);
    hide Print, IsEntry, AsEntry, PayloadOf, TextOr, PrevEvent, ComputePayloadHash, PayloadHashOf;
    var e := AsEntry(entry);
    var p, prev := PayloadHashOf(h, entry), PrevEvent(e);
    assert EventPreimage(e, prev, p) == Obj(HeaderOf(h, entry)["prev_event_hash" := Str(prev)]);
    hide EventPreimage, HeaderOf;
  }

  function HashedHeader(e: Entry, p: string): Fields {
    map["v" := Num(e.v), "world_id" := Str(e.worldId), "rulebook_root" := Str(e.rulebookRoot), "tick" := Num(e.tick),
        "event_type" := Str(e.eventType), "actor" := Str(e.actor), "caps_hash" := Str(e.capsHash),
          "payload_hash" := Str(p)]
  }

  lemma GlobalPreimageIs(e: Entry, p: string, x: string, g: string)
    ensures GlobalPreimage(e, p, x, g) == Obj(HashedHeader(e, p)["event_hash" := Str(x)]["prev_global_hash" := Str(g)])
  {
  }

  lemma GlobalRead(h: HashFunction, entry: Json)
    requires IsEntry(entry) && Carries(entry)
    ensures var e := AsEntry(entry);
      && HasGlobalFields(e)
      && ComputeGlobalEventHash(h, e, PayloadHashOf(h, entry), EventHashOf(h, entry), PrevGlobal(e))
        == GlobalHashOf(h, entry)
  {
    EntryReads(entry);
    PrevReads(entry);
    hide Print, IsEntry, AsEntry, PayloadOf, TextOr, PrevGlobal, HasGlobalFields, Carries, PayloadHashOf, EventHashOf;
    var e := AsEntry(entry);
    var p, x, g := PayloadHashOf(h, entry), EventHashOf(h, entry), PrevGlobal(e);
    var header := HeaderOf(h, entry);
    assert header == HashedHeader(e, p);
    hide HeaderOf;
    GlobalPreimageIs(e, p, x, g);
    hide GlobalPreimage, HashedHeader;
  }

  lemma HashesInFields(h: HashFunction, entry: Json)
    requires IsEntry(entry)
    ensures HashesRecompute(h, AsEntry(entry)) <==> HashesHold(h, entry)
    ensures HashesHold(h, entry) ==> EventHash(h, AsEntry(entry)) == TextOr(PayloadOf(entry), "event_hash", "")
    ensures GlobalRecomputes(h, AsEntry(entry)) <==> GlobalHolds(h, entry)
  {
    EntryReads(entry);
    PrevReads(entry);
    PayloadRead(h, entry);
    EventRead(h, entry);
    if Carries(entry) { GlobalRead(h, entry); }
    hide IsEntry, AsEntry, PayloadOf, PayloadHashOf, EventHashOf, GlobalHashOf, ComputePayloadHash, EventHash,
         PrevEvent, PrevGlobal, ComputeGlobalEventHash, ComputeEventHash;
    var e := AsEntry(entry);
    assert EventHash(h, e) == ComputeEventHash(h, e, PrevEvent(e), ComputePayloadHash(h, e.payload))
      by { EventHashIs(h, e); }
  }

  lemma EventHashIs(h: HashFunction, e: Entry)
    ensures EventHash(h, e) == ComputeEventHash(h, e, PrevEvent(e), ComputePayloadHash(h, e.payload))
  {
    hide ComputeEventHash, ComputePayloadHash;
  }

  // ----- a slice of the global chain -----

  /** Each entry records its hashes and names the global hash of the entry before it; the
      first one names `start`, if that is given. */
  predicate GloballyLinked(h: HashFunction, slice: seq<Json>, start: Option<string>) {
    forall i | 0 <= i < |slice| ::
      && IsEntry(slice[i]) && HashesHold(h, slice[i]) && GlobalHolds(h, slice[i])
      && (i > 0 ==> Get(PayloadOf(slice[i]), "prev_global_hash") == Get(PayloadOf(slice[i - 1]), "global_event_hash"))
      && (i == 0 && start.Some? ==> Get(PayloadOf(slice[i]), "prev_global_hash") == Some(Str(start.value)))
  }

  /** What the global chain sees of an entry. */
  lemma LinkInFields(h: HashFunction, entry: Json)
    ensures GlobalLink(h, entry).Link? <==> IsEntry(entry) && HashesHold(h, entry) && GlobalHolds(h, entry)
    ensures GlobalLink(h, entry).Link? ==>
      && Get(PayloadOf(entry), "prev_global_hash") == Some(Str(GlobalLink(h, entry).prev))
      && Get(PayloadOf(entry), "global_event_hash") == Some(Str(GlobalLink(h, entry).hash))
  {
    hide IsEntry, AsEntry, HashesRecompute, GlobalRecomputes, HashesHold, PayloadOf, PrevGlobal, GlobalHash;
    if IsEntry(entry) {
      HashesInFields(h, entry);
      PrevReads(entry);
    }
  }

  lemma SliceInFields(h: HashFunction, slice: seq<Json>, start: Option<string>)
    ensures LinkedSlice(h, slice, start) <==> GloballyLinked(h, slice, start)
  {
    hide IsEntry, HashesHold, PayloadOf, GlobalLink, GlobalHolds, Get;
    var links := GlobalLinks(h, slice);
    forall i | 0 <= i < |slice|
      ensures links[i] == GlobalLink(h, slice[i])
      ensures links[i].Link? <==> IsEntry(slice[i]) && HashesHold(h, slice[i]) && GlobalHolds(h, slice[i])
      ensures links[i].Link? ==>
        && Get(PayloadOf(slice[i]), "prev_global_hash") == Some(Str(links[i].prev))
        && Get(PayloadOf(slice[i]), "global_event_hash") == Some(Str(links[i].hash))
    {
      LinkInFields(h, slice[i]);
    }
    hide GlobalLinks;
  }

  /** Why an entry does not continue a chain whose head is `expected`: the first of these
      facts that fails, in this order. */
  lemma FaultInFields(h: HashFunction, entry: Json, expected: Option<string>)
    ensures Fault(h, entry, expected) ==
      if !IsEntry(entry) then Some(NOT_OBJECT)
      else
        var p := PayloadOf(entry);
        if Get(p, "payload_hash") != Some(Str(PayloadHashOf(h, entry))) then Some(PAYLOAD_HASH_MISMATCH)
        else if Get(p, "event_hash") != Some(Str(EventHashOf(h, entry))) then Some(EVENT_HASH_MISMATCH)
        else if !Carries(entry) then Some(GLOBAL_FIELDS_MISSING)
        else if expected.Some? && Get(p, "prev_global_hash") != Some(Str(expected.value)) then Some(GLOBAL_CHAIN_BROKEN)
        else if Get(p, "global_event_hash") != Some(Str(GlobalHashOf(h, entry))) then Some(GLOBAL_EVENT_HASH_MISMATCH)
        else None
  {
    if IsEntry(entry) {
      EntryReads(entry);
      PrevReads(entry);
      PayloadRead(h, entry);
      HashesInFields(h, entry);
    }
    hide IsEntry, AsEntry, PayloadOf, PayloadHashOf, EventHashOf, GlobalHashOf, ComputePayloadHash, HashesRecompute,
         GlobalRecomputes, PrevGlobal, GlobalHash, HasGlobalFields;
  }

  // ----- the other checks of an entry -----

  function OnlyTexts(items: seq<Json>): seq<Json> {
    if items == [] then []
    else if items[0].Str? then [items[0]] + OnlyTexts(items[1..])
    else OnlyTexts(items[1..])
  }

  /** The list of capabilities, at the top or else in the payload, has the recorded hash. */
  predicate CapsHold(h: HashFunction, entry: Json)
    requires entry.Obj?
  {
    var top, inner := Get(entry.fields, "caps"), Get(PayloadOf(entry), "caps");
    var caps := if top.Some? && top.value.Arr? then top else inner;
    caps.Some? && caps.value.Arr? ==>
      Get(entry.fields, "caps_hash") == Some(Str("blake3:" + h(Print(true, Arr(OnlyTexts(caps.value.items))))))
  }

  lemma {:induction false} TextsRead(items: seq<Json>)
    ensures StrArray(Strings(items)) == Arr(OnlyTexts(items))
  {
    if items != [] {
      TextsRead(items[1..]);
      if items[0].Str? {
        assert StrArray([items[0].s] + Strings(items[1..])).items == [items[0]] + StrArray(Strings(items[1..])).items;
      }
    }
  }

  lemma CapsInFields(h: HashFunction, entry: Json)
    requires IsEntry(entry)
    ensures CapsOk(h, AsEntry(entry)) <==> CapsHold(h, entry)
  {
    EntryReads(entry);
    forall items ensures StrArray(Strings(items)) == Arr(OnlyTexts(items)) { TextsRead(items); }
    hide Print, PayloadOf, Strings, OnlyTexts, StrArray;
  }

  /** A commitment beside its reveal is the hash of the reveal; a list of draws needs the
      v0 domain, the right count, and a reveal from which every draw follows. */
  predicate DrawsHold(env: Env, p: Fields) {
    && (Says(p, "rng_commit") && Says(p, "rng_reveal") ==>
          p["rng_commit"].s == "blake3:" + env.h("akalynth:rng:commit:v1\0" + p["rng_reveal"].s))
    && ("rng_out" in p && p["rng_out"].Arr? && (forall x | x in p["rng_out"].items :: x.Num?) ==>
          var outs := p["rng_out"].items;
          && Get(p, "rng_domain") == Some(Str("death_drop:v0")) && Says(p, "rng_reveal")
          && ("rng_draws" in p && p["rng_draws"].Num? ==> p["rng_draws"] == Num(NatText(|outs|)))
          && forall i | 0 <= i < |outs| :: outs[i] == Num(NatText(env.draw(p["rng_reveal"].s, i))))
  }

  lemma EntryDrawsInFields(env: Env, p: Fields)
    ensures RngV0Ok(env, p) <==> DrawsHold(env, p)
  {
    hide NatText;
  }

  predicate IsA(entry: Json, eventType: string) {
    entry.Obj? && Get(entry.fields, "event_type") == Some(Str(eventType))
  }

  /** Commit and reveal events name domain and commitment, and a reveal opens the
      commitment for its own actor. */
  predicate RevealHolds(h: HashFunction, entry: Json)
    requires IsEntry(entry)
  {
    var p := PayloadOf(entry);
    && (IsA(entry, "rng_commit") || IsA(entry, "rng_reveal") ==> Says(p, "rng_domain") && Says(p, "rng_commit"))
    && (IsA(entry, "rng_reveal") ==>
          && Says(p, "rng_reveal")
          && p["rng_commit"].s == "blake3:" + h("akalynth:rng:commit:v1\0" + Print(true, Obj(map[
               "v" := Num("1"), "domain" := p["rng_domain"], "actor" := entry.fields["actor"],
                 "reveal" := p["rng_reveal"]]))))
  }

  lemma RevealInFields(env: Env, entry: Json)
    requires IsEntry(entry)
    ensures RngEventOk(env, AsEntry(entry)) <==> RevealHolds(env.h, entry)
    ensures IsCommit(AsEntry(entry)) == IsA(entry, "rng_commit") && IsReveal(AsEntry(entry)) == IsA(entry, "rng_reveal")
    ensures KeyFields(AsEntry(entry)) <==> Says(PayloadOf(entry), "rng_domain") && Says(PayloadOf(entry), "rng_commit")
    ensures KeyFields(AsEntry(entry)) ==> EntryKey(AsEntry(entry)) == KeyOf(entry)
  {
    EntryReads(entry);
    hide Print, PayloadOf;
  }

  /** Actor, domain and commitment, as one text. */
  function KeyOf(entry: Json): string
    requires IsEntry(entry)
  {
    entry.fields["actor"].s + "::" + TextOr(PayloadOf(entry), "rng_domain", "") + "::"
      + TextOr(PayloadOf(entry), "rng_commit", "")
  }

  /** What an entry must show on its own. */
  predicate EntryHolds(env: Env, entry: Json) {
    && IsEntry(entry) && CapsHold(env.h, entry) && HashesHold(env.h, entry) && DrawsHold(env, PayloadOf(entry))
    && RevealHolds(env.h, entry) && (Carries(entry) ==> GlobalHolds(env.h, entry))
  }

  lemma EntryInFields(env: Env, entry: Json)
    ensures EntryOk(env, entry) <==> EntryHolds(env, entry)
  {
    hide IsEntry, AsEntry, CapsOk, CapsHold, HashesRecompute, HashesHold, RngV0Ok, DrawsHold, RngEventOk,
         RevealHolds, Carries, GlobalRecomputes, GlobalHolds, HasGlobalFields, PayloadOf;
    if IsEntry(entry) {
      EntryReads(entry);
      PrevReads(entry);
      CapsInFields(env.h, entry);
      HashesInFields(env.h, entry);
      EntryDrawsInFields(env, PayloadOf(entry));
      RevealInFields(env, entry);
    }
  }

  // ----- the log -----

  /** The event hash of each actor's last entry. */
  function LastHashes(log: seq<Json>): map<string, string> {
    if log == [] then map[]
    else
      var front, last := LastHashes(log[..|log| - 1]), log[|log| - 1];
      if IsEntry(last) then front[last.fields["actor"].s := TextOr(PayloadOf(last), "event_hash", "")] else front
  }

  /** The global hash of the last entry that carries one. */
  function LastGlobal(log: seq<Json>): string {
    if log == [] then "genesis"
    else if Carries(log[|log| - 1]) then TextOr(PayloadOf(log[|log| - 1]), "global_event_hash", "")
    else LastGlobal(log[..|log| - 1])
  }

  predicate Commits(entry: Json, key: string) {
    IsEntry(entry) && IsA(entry, "rng_commit") && KeyOf(entry) == key
  }

  predicate CommittedIn(log: seq<Json>, key: string) {
    exists i | 0 <= i < |log| :: Commits(log[i], key)
  }

  /** What an entry must show of the log before it: it names its actor's last event hash
      and the last global hash, and a reveal has had its commitment. */
  predicate Follows(before: seq<Json>, entry: Json)
    requires IsEntry(entry)
  {
    var actor, p := entry.fields["actor"].s, PayloadOf(entry);
    && TextOr(p, "prev_event_hash", "genesis")
      == (if actor in LastHashes(before) then LastHashes(before)[actor] else "genesis")
    && (Carries(entry) ==> TextOr(p, "prev_global_hash", "") == LastGlobal(before))
    && (IsA(entry, "rng_reveal") ==> CommittedIn(before, KeyOf(entry)))
  }

  predicate Fits(env: Env, before: seq<Json>, entry: Json) {
    EntryHolds(env, entry) && Follows(before, entry)
  }

  predicate WellKept(env: Env, log: seq<Json>) {
    forall i | 0 <= i < |log| :: Fits(env, log[..i], log[i])
  }

  lemma WellKeptSnoc(env: Env, log: seq<Json>, entry: Json)
    ensures WellKept(env, log + [entry]) <==> WellKept(env, log) && Fits(env, log, entry)
  {
    hide Fits;
    var s := log + [entry];
    assert s[|log|] == entry && s[..|log|] == log;
    forall i | 0 <= i < |log| ensures s[i] == log[i] && s[..i] == log[..i] {}
    if WellKept(env, s) {
      assert Fits(env, s[..|log|], s[|log|]);
      forall i | 0 <= i < |log| ensures Fits(env, log[..i], log[i]) { assert Fits(env, s[..i], s[i]); }
    }
  }

  ghost function CommitKeys(log: seq<Json>): set<string> {
    if log == [] then {}
    else
      var front, last := CommitKeys(log[..|log| - 1]), log[|log| - 1];
      if IsEntry(last) && IsA(last, "rng_commit") then front + {KeyOf(last)} else front
  }

  lemma CommitKeysStep(log: seq<Json>)
    requires log != []
    ensures forall key ::
      key in CommitKeys(log) <==> key in CommitKeys(log[..|log| - 1]) || Commits(log[|log| - 1], key)
  {
    hide KeyOf, IsEntry;
  }

  lemma CommittedStep(log: seq<Json>, key: string)
    requires log != []
    ensures CommittedIn(log, key) <==> CommittedIn(log[..|log| - 1], key) || Commits(log[|log| - 1], key)
  {
    hide Commits;
    var front := log[..|log| - 1];
    if CommittedIn(front, key) {
      var i :| 0 <= i < |front| && Commits(front[i], key);
      assert log[i] == front[i];
    }
    if CommittedIn(log, key) {
      var i :| 0 <= i < |log| && Commits(log[i], key);
      if i < |front| { assert front[i] == log[i]; }
    }
  }

  lemma {:induction false} CommitKeysAre(log: seq<Json>)
    ensures forall key :: key in CommitKeys(log) <==> CommittedIn(log, key)
  {
    if log != [] {
      var front, last := log[..|log| - 1], log[|log| - 1];
      CommitKeysAre(front);
      CommitKeysStep(log);
      hide CommitKeys, CommittedIn;
      forall key: string ensures key in CommitKeys(log) <==> CommittedIn(log, key) { CommittedStep(log, key); }
    }
  }

  lemma NextInFields(env: Env, log: seq<Json>, entry: Json)
    requires Tracks(env, log, LastHashes(log), LastGlobal(log), CommitKeys(log))
    ensures NextOk(env, entry, LastHashes(log), LastGlobal(log), CommitKeys(log)) <==> Fits(env, log, entry)
  {
    hide EntryOk, EntryHolds, IsEntry, AsEntry, LastHashes, LastGlobal, CommitKeys, CommittedIn, KeyOf,
         PayloadOf, Carries, PrevEvent, PrevGlobal, HasGlobalFields, EntryKey, KeyFields, IsReveal, IsCommit,
         IsA, TextOr, Tracks, RngEventOk, RevealHolds, Says;
    EntryInFields(env, entry);
    CommitKeysAre(log);
    if EntryOk(env, entry) {
      RevealHasKey(env, entry);
      ActorIs(entry);
      PrevReads(entry);
      RevealInFields(env, entry);
    }
  }

  lemma ActorIs(entry: Json)
    requires IsEntry(entry)
    ensures entry.Obj? && HasText(entry.fields, "actor") && AsEntry(entry).actor == entry.fields["actor"].s
  {
  }

  lemma RevealHasKey(env: Env, entry: Json)
    requires EntryOk(env, entry)
    ensures IsEntry(entry) && (IsReveal(AsEntry(entry)) || IsCommit(AsEntry(entry)) ==> KeyFields(AsEntry(entry)))
  {
  }

  lemma StateInFields(env: Env, log: seq<Json>, entry: Json)
    requires EntryOk(env, entry)
    ensures var e := AsEntry(entry); var s := log + [entry];
      && LastHashes(s) == LastHashes(log)[e.actor := EventHash(env.h, e)]
      && LastGlobal(s) == (if HasGlobalFields(e) then GlobalHash(e) else LastGlobal(log))
      && CommitKeys(s) == (if IsCommit(e) && KeyFields(e) then CommitKeys(log) + {EntryKey(e)} else CommitKeys(log))
  {
    EntryReads(entry);
    PrevReads(entry);
    HashesInFields(env.h, entry);
    RevealInFields(env, entry);
    RevealHasKey(env, entry);
    assert (log + [entry])[..|log|] == log;
    hide AsEntry, CapsOk, HashesRecompute, HashesHold, RngV0Ok, RngEventOk, Carries, EventHash, GlobalHash,
         HasGlobalFields, PayloadOf, GlobalRecomputes, KeyOf, EntryKey, KeyFields, IsReveal, IsCommit, TextOr;
  }

  /** The verdict in facts: a log is acceptable if and only if every entry shows its own
      facts and follows from the log before it. */
  lemma {:induction false} AcceptableIffWellKept(env: Env, log: seq<Json>)
    ensures Acceptable(env, log) <==> WellKept(env, log)
    ensures Acceptable(env, log) ==> Tracks(env, log, LastHashes(log), LastGlobal(log), CommitKeys(log))
  {
    if log == [] {
      EmptyLogTracked(env);
    } else {
      var front, last := log[..|log| - 1], log[|log| - 1];
      assert log == front + [last];
      AcceptableIffWellKept(env, front);
      WellKeptSnoc(env, front, last);
      hide WellKept, Fits, NextOk, Acceptable, Tracks, LastHashes, LastGlobal, CommitKeys, EntryOk;
      if Acceptable(env, log) { AcceptableFront(env, front, last); }
      if Acceptable(env, front) {
        StepDecides(env, front, last, LastHashes(front), LastGlobal(front), CommitKeys(front));
        NextInFields(env, front, last);
        if Acceptable(env, log) {
          NextIsOk(env, last, LastHashes(front), LastGlobal(front), CommitKeys(front));
          StateInFields(env, front, last);
          RevealHasKey(env, last);
        }
      }
    }
  }

  lemma NextIsOk(env: Env, j: Json, lastByActor: map<string, string>, lastGlobal: string, commitSeen: set<string>)
    requires NextOk(env, j, lastByActor, lastGlobal, commitSeen)
    ensures EntryOk(env, j)
  {
    hide EntryOk;
  }

  /** And the tool passes a file if and only if its lines read as such a log. */
  lemma PassesIffWellKept(env: Env, lines: seq<string>)
    ensures Passes(env, lines) <==> exists log :: Decodes(env, lines, log) && WellKept(env, log)
  {
    hide Acceptable, WellKept, Decodes;
    forall log ensures Acceptable(env, log) <==> WellKept(env, log) { AcceptableIffWellKept(env, log); }
  }
}
