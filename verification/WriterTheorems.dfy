/** What the writer produces passes the verifiers, for every list of events and
    every payload; the log tool's own random-number checks decide the rest. */
module WriterTheorems {
  import opened Json
  import opened CanonicalText
  import opened Hashing
  import opened Links
  import opened ChronicleChain
  import opened SignedLines
  import opened Rng
  import opened LogTool
  import opened Writer

  function RunJson(c: Config, specs: seq<EventSpec>): seq<Json> {
    LogJson(Log(c, FRESH, specs))
  }

  function RunHeads(c: Config, specs: seq<EventSpec>): Heads {
    FinalHeads(c, FRESH, specs)
  }

  lemma RunJsonSnoc(c: Config, specs: seq<EventSpec>)
    requires specs != []
    ensures var front, spec := specs[..|specs| - 1], specs[|specs| - 1];
      && RunJson(c, specs) == RunJson(c, front) + [EntryJson(Written(c, spec, RunHeads(c, front)))]
      && RunHeads(c, specs) == Advance(c, spec, RunHeads(c, front))
  {
    hide Written, Advance, EntryJson;
    var front, spec := specs[..|specs| - 1], specs[|specs| - 1];
    assert specs == front + [spec];
    RunSnoc(c, FRESH, front, spec);
  }

  lemma RunJsonAt(c: Config, specs: seq<EventSpec>, i: nat)
    requires i < |specs|
    ensures |RunJson(c, specs)| == |specs|
    ensures RunJson(c, specs)[i] == EntryJson(Written(c, specs[i], RunHeads(c, specs[..i])))
  {
    hide Written, EntryJson;
    RunAt(c, FRESH, specs, i);
  }

  lemma WrittenHeader(c: Config, spec: EventSpec, heads: Heads)
    ensures Written(c, spec, heads).eventType == spec.eventType && Written(c, spec, heads).actor == spec.actor
  {
  }

  // ----- the global slice check -----

  lemma WrittenLink(c: Config, spec: EventSpec, heads: Heads)
    ensures GlobalLink(c.h, EntryJson(Written(c, spec, heads))) == Link(heads.lastGlobal, GlobalHashFor(c, spec, heads))
  {
    EntryRoundTrip(Written(c, spec, heads));
    WrittenCarries(c, spec, heads);
    WrittenRecomputes(c, spec, heads);
    hide Written, EntryJson, HashesRecompute, GlobalRecomputes, GlobalHashFor;
  }

  /** The writer's log is a global chain from genesis that ends at the writer's own head. */
  lemma {:induction false} WriterIsGloballyLinked(c: Config, specs: seq<EventSpec>)
    ensures LinkedSlice(c.h, RunJson(c, specs), Some(GENESIS))
    ensures SliceHead(c.h, RunJson(c, specs), Some(GENESIS)) == Some(RunHeads(c, specs).lastGlobal)
  {
    if specs != [] {
      var front, spec := specs[..|specs| - 1], specs[|specs| - 1];
      WriterIsGloballyLinked(c, front);
      RunJsonSnoc(c, specs);
      WrittenLink(c, spec, RunHeads(c, front));
      hide Written, GlobalLink, EntryJson, RunJson, RunHeads;
      var j := EntryJson(Written(c, spec, RunHeads(c, front)));
      GlobalLinksConcat(c.h, RunJson(c, front), [j]);
      ChainedSnoc(GlobalLinks(c.h, RunJson(c, front)), GlobalLink(c.h, j), Some(GENESIS));
      assert GlobalLinks(c.h, [j]) == [GlobalLink(c.h, j)];
    }
  }

  // ----- the per-actor chains -----

  /** Every actor's entries are chained from genesis and end at the writer's head for that actor. */
  lemma {:induction false} WriterChainsEveryActor(c: Config, specs: seq<EventSpec>)
    ensures ActorsChained(c.h, RunJson(c, specs))
    ensures ActorHeads(c.h, RunJson(c, specs), RunHeads(c, specs).lastByActor)
  {
    if specs != [] {
      var front, spec := specs[..|specs| - 1], specs[|specs| - 1];
      var heads := RunHeads(c, front);
      WriterChainsEveryActor(c, front);
      RunJsonSnoc(c, specs);
      EntryRoundTrip(Written(c, spec, heads));
      WrittenCarries(c, spec, heads);
      WrittenRecomputes(c, spec, heads);
      assert Written(c, spec, heads).actor == spec.actor;
      hide Written, EntryJson, RunJson, RunHeads, HashesRecompute, ActorsChained, ActorHeads, EventHashFor,
           GlobalHashFor;
      ActorChainSnoc(c.h, RunJson(c, front), EntryJson(Written(c, spec, heads)), heads.lastByActor);
    }
  }

  // ----- the signed lines -----

  /** The key verifies what the writer signs. */
  ghost predicate KeyMatches(ed: Ed25519, c: Config, key: string) {
    UsableKey(ed, key) && forall m :: ed.verifies(m, c.sign(m), key)
  }

  lemma LastLine(c: Config, specs: seq<EventSpec>)
    ensures specs == [] ==> RunHeads(c, specs).prevLine == None
    ensures specs != [] ==>
      && |Log(c, FRESH, specs)| == |specs| && HasLine(Log(c, FRESH, specs)[|specs| - 1])
      && RunHeads(c, specs).prevLine == Some(LineText(Log(c, FRESH, specs)[|specs| - 1]))
  {
    hide Stamped, LineText;
    RunLength(c, FRESH, specs);
  }

  lemma WrittenIsSigned(ed: Ed25519, c: Config, spec: EventSpec, heads: Heads, key: string)
    requires KeyMatches(ed, c, key)
    ensures LineSigned(c.h, ed, Written(c, spec, heads), heads.prevLine, key)
  {
    hide Stamped, EntryJson, Print;
  }

  /** Every line of the writer's log authenticates under the matching key. */
  lemma WriterIsSigned(ed: Ed25519, c: Config, specs: seq<EventSpec>, key: string)
    requires KeyMatches(ed, c, key)
    ensures AllSigned(c.h, ed, Log(c, FRESH, specs), key)
  {
    var entries := Log(c, FRESH, specs);
    RunLength(c, FRESH, specs);
    forall i | 0 <= i < |entries| ensures SignedAt(c.h, ed, entries, i, key) {
      RunAt(c, FRESH, specs, i);
      WrittenIsSigned(ed, c, specs[i], RunHeads(c, specs[..i]), key);
      LastLine(c, specs[..i]);
      hide Written, LineSigned, LineText, HasLine;
      if i > 0 { assert entries[i - 1] == entries[..i][i - 1]; }
    }
  }

  // ----- the log tool -----

  /** What the tool's random-number rules ask of an event, readable off the event itself. */
  predicate SpecOk(env: Env, spec: EventSpec) {
    && RngV0Ok(env, spec.payload)
    && (spec.eventType == "rng_commit" || spec.eventType == "rng_reveal" ==>
          Filled(spec.payload, "rng_domain") && Filled(spec.payload, "rng_commit"))
    && (spec.eventType == "rng_reveal" ==>
          && Filled(spec.payload, "rng_reveal")
          && RngCommitV1(env.h, Text(spec.payload, "rng_domain"), spec.actor, Text(spec.payload, "rng_reveal"))
               == Text(spec.payload, "rng_commit"))
  }

  lemma StampKeepsRngFields(payload: Fields, a: string, b: string, c: string, d: string, e: string)
    ensures var s := Stamp(payload, a, b, c, d, e);
      && Get(s, "rng_commit") == Get(payload, "rng_commit") && Get(s, "rng_reveal") == Get(payload, "rng_reveal")
      && Get(s, "rng_domain") == Get(payload, "rng_domain") && Get(s, "rng_draws") == Get(payload, "rng_draws")
      && Get(s, "rng_out") == Get(payload, "rng_out") && Get(s, "drop_seed_hash") == Get(payload, "drop_seed_hash")
  {
  }

  lemma SameRngFields(env: Env, p: Fields, q: Fields)
    requires Get(p, "rng_commit") == Get(q, "rng_commit") && Get(p, "rng_reveal") == Get(q, "rng_reveal")
    requires Get(p, "rng_domain") == Get(q, "rng_domain") && Get(p, "rng_draws") == Get(q, "rng_draws")
    requires Get(p, "rng_out") == Get(q, "rng_out")
    ensures RngV0Ok(env, p) <==> RngV0Ok(env, q)
    ensures Filled(p, "rng_domain") <==> Filled(q, "rng_domain")
    ensures Filled(p, "rng_commit") <==> Filled(q, "rng_commit")
    ensures Filled(p, "rng_reveal") <==> Filled(q, "rng_reveal")
    ensures GetString(p, "rng_domain") == GetString(q, "rng_domain")
    ensures GetString(p, "rng_commit") == GetString(q, "rng_commit")
    ensures GetString(p, "rng_reveal") == GetString(q, "rng_reveal")
  {
    hide RngCommit, DrawsMatch, NatText;
    assert GetString(p, "rng_commit") == GetString(q, "rng_commit");
    assert GetString(p, "rng_reveal") == GetString(q, "rng_reveal");
    assert GetString(p, "rng_domain") == GetString(q, "rng_domain");
    assert NumberArray(p, "rng_out") == NumberArray(q, "rng_out");
    assert HasNumber(p, "rng_draws") <==> HasNumber(q, "rng_draws");
  }

  lemma WrittenPayload(c: Config, spec: EventSpec, heads: Heads)
    ensures var p, q := Written(c, spec, heads).payload, spec.payload;
      && Get(p, "rng_commit") == Get(q, "rng_commit") && Get(p, "rng_reveal") == Get(q, "rng_reveal")
      && Get(p, "rng_domain") == Get(q, "rng_domain") && Get(p, "rng_draws") == Get(q, "rng_draws")
      && Get(p, "rng_out") == Get(q, "rng_out") && Get(p, "drop_seed_hash") == Get(q, "drop_seed_hash")
  {
    hide Stamp, ComputePayloadHash, EventHashFor, GlobalHashFor;
    StampKeepsRngFields(spec.payload, ComputePayloadHash(c.h, spec.payload), PrevOf(heads, spec.actor),
                        EventHashFor(c, spec, heads), heads.lastGlobal, GlobalHashFor(c, spec, heads));
  }

  lemma WrittenCaps(c: Config, spec: EventSpec, heads: Heads)
    ensures CapsOk(c.h, Written(c, spec, heads))
  {
    hide Print;
    StringsOfArray(spec.caps);
  }

  lemma {:induction false} StringsOfArray(texts: seq<string>)
    ensures Strings(StrArray(texts).items) == texts
  {
    if texts != [] {
      StringsOfArray(texts[1..]);
      assert StrArray(texts).items[1..] == StrArray(texts[1..]).items;
    }
  }

  /** The tool's verdict on one written entry is its verdict on the event. */
  lemma WrittenEntryOk(env: Env, c: Config, spec: EventSpec, heads: Heads)
    requires env.h == c.h
    ensures EntryOk(env, EntryJson(Written(c, spec, heads))) <==> SpecOk(env, spec)
  {
    hide Written, EntryJson, HashesRecompute, GlobalRecomputes, CapsOk, RngV0Ok, RngCommitV1, EventHash,
         EventHashFor, AsEntry, IsEntry;
    var e := Written(c, spec, heads);
    WrittenHeader(c, spec, heads);
    EntryRoundTrip(e);
    WrittenRecomputes(c, spec, heads);
    WrittenCaps(c, spec, heads);
    WrittenPayload(c, spec, heads);
    SameRngFields(env, e.payload, spec.payload);
  }

  lemma {:induction false} CarriedIsWholeChain(h: HashFunction, log: seq<Json>)
    requires forall j | j in log :: CarriesGlobal(j)
    ensures CarriedLinks(h, log) == GlobalLinks(h, log)
  {
    if log != [] {
      hide GlobalLink, CarriesGlobal;
      var front := log[..|log| - 1];
      CarriedIsWholeChain(h, front);
      assert CarriesGlobal(log[|log| - 1]);
      assert log == front + [log[|log| - 1]];
      GlobalLinksConcat(h, front, [log[|log| - 1]]);
    }
  }

  /** The tool accepts the writer's log exactly when it accepts each event's
      random-number fields and every reveal follows its commitment: the caps,
      payload, per-actor and global checks never turn an honest log away. */
  lemma ToolDecidesWriterLog(env: Env, c: Config, specs: seq<EventSpec>)
    requires env.h == c.h
    ensures Acceptable(env, RunJson(c, specs))
      <==> (forall i | 0 <= i < |specs| :: SpecOk(env, specs[i])) && RevealsFollowCommits(RunJson(c, specs))
  {
    hide CarriesGlobal, EntryOk, SpecOk, RunJson, ActorsChained, RevealsFollowCommits, Written, EntryJson,
         CarriedLinks, RunHeads;
    var log := RunJson(c, specs);
    WriterIsGloballyLinked(c, specs);
    WriterChainsEveryActor(c, specs);
    assert |log| == |specs| by { RunJsonLength(c, specs); }
    forall i | 0 <= i < |specs|
      ensures CarriesGlobal(log[i]) && (EntryOk(env, log[i]) <==> SpecOk(env, specs[i]))
    {
      RunJsonAt(c, specs, i);
      WrittenEntryOk(env, c, specs[i], RunHeads(c, specs[..i]));
      WrittenCarriesGlobal(c, specs[i], RunHeads(c, specs[..i]));
    }
    CarriedIsWholeChain(c.h, log);
  }

  lemma RunJsonLength(c: Config, specs: seq<EventSpec>)
    ensures |RunJson(c, specs)| == |specs|
  {
    hide Written, EntryJson;
    RunLength(c, FRESH, specs);
  }

  lemma WrittenCarriesGlobal(c: Config, spec: EventSpec, heads: Heads)
    ensures CarriesGlobal(EntryJson(Written(c, spec, heads)))
  {
    hide Written, EntryJson;
    EntryRoundTrip(Written(c, spec, heads));
    WrittenCarries(c, spec, heads);
  }

  // ----- reveals -----

  ghost predicate NoCollisionOnReveal(h: HashFunction, j: Json) {
    IsEntry(j) && IsReveal(AsEntry(j)) && KeyFields(AsEntry(j)) && Filled(AsEntry(j).payload, "rng_reveal") ==>
      var e := AsEntry(j);
      CollisionFree(h, {CommitText(Text(e.payload, "rng_reveal")),
                        CommitV1Text(Text(e.payload, "rng_domain"), e.actor, Text(e.payload, "rng_reveal"))})
  }

  /** A reveal event carries a commitment and its reveal, so the v0 rule demands the
      v0 commitment and the v1 rule the v1 commitment: no entry satisfies both. */
  lemma RevealEventIsRejected(env: Env, j: Json)
    requires NoCollisionOnReveal(env.h, j)
    requires IsEntry(j) && IsReveal(AsEntry(j))
    ensures !EntryOk(env, j)
  {
    if EntryOk(env, j) {
      var e := AsEntry(j);
      SchemesDisagree(env.h, Text(e.payload, "rng_domain"), e.actor, Text(e.payload, "rng_reveal"));
      assert false;
    }
  }

  /** So no acceptable log publishes a reveal. */
  lemma AcceptableLogHasNoReveal(env: Env, log: seq<Json>)
    requires forall j | j in log :: NoCollisionOnReveal(env.h, j)
    ensures Acceptable(env, log) ==> forall j | j in log && IsEntry(j) :: !IsReveal(AsEntry(j))
  {
    if Acceptable(env, log) {
      forall j | j in log && IsEntry(j) ensures !IsReveal(AsEntry(j)) {
        var i :| 0 <= i < |log| && log[i] == j;
        assert EntryOk(env, log[i]);
        if IsReveal(AsEntry(j)) { RevealEventIsRejected(env, j); }
      }
    }
  }

  lemma NoRevealNothingToFollow(log: seq<Json>)
    requires forall j | j in log && IsEntry(j) :: !IsReveal(AsEntry(j))
    ensures RevealsFollowCommits(log)
  {
  }

  /** The exact class of event lists whose honest log the tool accepts. */
  lemma ToolAcceptsExactly(env: Env, c: Config, specs: seq<EventSpec>)
    requires env.h == c.h
    requires forall j | j in RunJson(c, specs) :: NoCollisionOnReveal(c.h, j)
    ensures Acceptable(env, RunJson(c, specs))
      <==> forall i | 0 <= i < |specs| :: specs[i].eventType != "rng_reveal" && SpecOk(env, specs[i])
  {
    hide SpecOk, RunJson, Acceptable, IsReveal, AsEntry, IsEntry, NoCollisionOnReveal, RevealsFollowCommits,
         Written, EntryJson, RunHeads;
    var log := RunJson(c, specs);
    ToolDecidesWriterLog(env, c, specs);
    AcceptableLogHasNoReveal(env, log);
    RunJsonLength(c, specs);
    forall i | 0 <= i < |specs|
      ensures log[i] in log && IsEntry(log[i]) && (IsReveal(AsEntry(log[i])) <==> specs[i].eventType == "rng_reveal")
    {
      RunJsonAt(c, specs, i);
      WrittenIsReveal(c, specs[i], RunHeads(c, specs[..i]));
    }
    if forall i | 0 <= i < |specs| :: specs[i].eventType != "rng_reveal" && SpecOk(env, specs[i]) {
      forall j | j in log && IsEntry(j) ensures !IsReveal(AsEntry(j)) {
        var i :| 0 <= i < |log| && log[i] == j;
        assert specs[i].eventType != "rng_reveal";
      }
      NoRevealNothingToFollow(log);
    }
  }

  lemma WrittenIsReveal(c: Config, spec: EventSpec, heads: Heads)
    ensures var j := EntryJson(Written(c, spec, heads));
      IsEntry(j) && (IsReveal(AsEntry(j)) <==> spec.eventType == "rng_reveal")
  {
    hide Written, EntryJson;
    EntryRoundTrip(Written(c, spec, heads));
    WrittenHeader(c, spec, heads);
  }

  // ----- inclusion -----

  /** A log the tool accepts, all of whose entries carry global fields, is accepted
      by the slice verifier from genesis, with the same head. */
  lemma ToolImpliesSliceCheck(env: Env, log: seq<Json>, lastGlobal: string)
    requires Acceptable(env, log) && GlobalHead(env.h, log, lastGlobal)
    requires forall j | j in log :: CarriesGlobal(j)
    ensures LinkedSlice(env.h, log, Some(GENESIS))
    ensures SliceHead(env.h, log, Some(GENESIS)) == Some(lastGlobal)
  {
    CarriedIsWholeChain(env.h, log);
  }
}
