/** What an actor's own chain commits to.  The event hashes need no global fields: the
    head of one actor's chain fixes every entry of that actor. */
module ActorChains {
  import opened Json
  import opened Hashing
  import opened Links
  import opened ChronicleChain
  import opened LogTool

  /** The entries of one actor, in log order. */
  function EntriesBy(log: seq<Json>, actor: string): seq<Entry> {
    if log == [] then []
    else
      var front, last := EntriesBy(log[..|log| - 1], actor), log[|log| - 1];
      if IsEntry(last) && AsEntry(last).actor == actor then front + [AsEntry(last)] else front
  }

  function LinksOf(h: HashFunction, entries: seq<Entry>): seq<Link> {
    seq(|entries|, i requires 0 <= i < |entries| => ActorLink(h, entries[i]))
  }

  lemma {:induction false} LinksAreOfEntries(h: HashFunction, log: seq<Json>, actor: string)
    ensures ActorLinks(h, log, actor) == LinksOf(h, EntriesBy(log, actor))
  {
    hide ActorLink, IsEntry, AsEntry;
    if log != [] { LinksAreOfEntries(h, log[..|log| - 1], actor); }
  }

  /** Entries whose numbers are numerals and whose two hashed texts are among these. */
  ghost predicate Texted(h: HashFunction, entries: seq<Entry>, texts: set<string>) {
    forall e | e in entries ::
      && IsNumeral(e.v) && IsNumeral(e.tick) && WellFormedFields(e.payload)
      && PayloadText(e.payload) in texts
      && EventText(e, PrevEvent(e), ComputePayloadHash(h, e.payload)) in texts
  }

  ghost predicate SameEvent(a: Entry, b: Entry) {
    && a.v == b.v && a.worldId == b.worldId && a.rulebookRoot == b.rulebookRoot && a.tick == b.tick
    && a.eventType == b.eventType && a.actor == b.actor && a.capsHash == b.capsHash
    && Strip(a.payload) == Strip(b.payload) && PrevEvent(a) == PrevEvent(b)
  }

  ghost predicate SameEvents(a: seq<Entry>, b: seq<Entry>) {
    |a| == |b| && forall i | 0 <= i < |a| :: SameEvent(a[i], b[i])
  }

  lemma SameHashSameEvent(h: HashFunction, a: Entry, b: Entry, texts: set<string>)
    requires Texted(h, [a], texts) && Texted(h, [b], texts) && CollisionFree(h, texts)
    requires EventHash(h, a) == EventHash(h, b)
    ensures SameEvent(a, b)
  {
    hide PayloadText, EventText, ComputePayloadHash, EventHash, IsNumeral, WellFormedFields, Strip, CollisionFree;
    assert a in [a] && b in [b];
    EventTextBinds(h, a, b, texts);
    PayloadTextBinds(h, a.payload, b.payload, texts);
  }

  /** The last entry of a chain that starts at genesis, and the chain before it. */
  lemma LastOfChain(h: HashFunction, entries: seq<Entry>)
    requires entries != [] && Chained(LinksOf(h, entries), Some(GENESIS))
    ensures var m := |entries| - 1;
      && Chained(LinksOf(h, entries[..m]), Some(GENESIS))
      && Head(LinksOf(h, entries[..m]), Some(GENESIS)) == Some(PrevEvent(entries[m]))
      && Head(LinksOf(h, entries), Some(GENESIS)) == Some(EventHash(h, entries[m]))
      && EventHash(h, entries[m]) != GENESIS
  {
    hide HashesRecompute, PrevEvent, Chained, EventHash;
    var m := |entries| - 1;
    var front, last := LinksOf(h, entries[..m]), ActorLink(h, entries[m]);
    assert LinksOf(h, entries) == front + [last];
    ChainedSnoc(front, last, Some(GENESIS));
    EventHashIsNotGenesis(h, entries[m]);
  }

  lemma EventHashIsNotGenesis(h: HashFunction, e: Entry)
    ensures EventHash(h, e) != GENESIS
  {
    hide EventText, PrevEvent, ComputePayloadHash;
    PrefixedIsNotGenesis(h, EventText(e, PrevEvent(e), ComputePayloadHash(h, e.payload)));
  }

  lemma {:induction false} HeadBindsEntries(h: HashFunction, a: seq<Entry>, b: seq<Entry>, texts: set<string>)
    requires Chained(LinksOf(h, a), Some(GENESIS)) && Chained(LinksOf(h, b), Some(GENESIS))
    requires Texted(h, a, texts) && Texted(h, b, texts) && CollisionFree(h, texts)
    requires Head(LinksOf(h, a), Some(GENESIS)) == Head(LinksOf(h, b), Some(GENESIS))
    ensures SameEvents(a, b)
  {
    hide Chained, SameEvent, EventHash, PayloadText, EventText, ComputePayloadHash, IsNumeral,
         WellFormedFields, CollisionFree, PrevEvent, ActorLink;
    if a != [] { LastOfChain(h, a); }
    if b != [] { LastOfChain(h, b); }
    if a != [] && b != [] {
      var m, n := |a| - 1, |b| - 1;
      assert a[m] in a && b[n] in b;
      SameHashSameEvent(h, a[m], b[n], texts);
      assert PrevEvent(a[m]) == PrevEvent(b[n]) by { SamePrev(a[m], b[n]); }
      HeadBindsEntries(h, a[..m], b[..n], texts);
      forall i | 0 <= i < |a| ensures SameEvent(a[i], b[i]) {
        if i < m { assert SameEvent(a[..m][i], b[..n][i]); }
      }
    }
  }

  lemma SamePrev(a: Entry, b: Entry)
    requires SameEvent(a, b)
    ensures PrevEvent(a) == PrevEvent(b)
  {
  }

  /** Tamper evidence of the actor's chain.  Two logs the tool accepts in which an actor's
      entries end at the same head hold the same entries of that actor, field by field
      of the header and payload; no entry needs global fields, and what other actors
      wrote in between does not matter. */
  lemma ActorHeadBindsEntries(env: Env, a: seq<Json>, b: seq<Json>, actor: string, texts: set<string>)
    requires Acceptable(env, a) && Acceptable(env, b)
    requires Texted(env.h, EntriesBy(a, actor), texts) && Texted(env.h, EntriesBy(b, actor), texts)
    requires CollisionFree(env.h, texts)
    requires Head(ActorLinks(env.h, a, actor), Some(GENESIS)) == Head(ActorLinks(env.h, b, actor), Some(GENESIS))
    ensures SameEvents(EntriesBy(a, actor), EntriesBy(b, actor))
  {
    hide Chained, Texted, EntriesOk, GlobalChained, RevealsFollowCommits, Head, SameEvents, CollisionFree;
    LinksAreOfEntries(env.h, a, actor);
    LinksAreOfEntries(env.h, b, actor);
    assert Chained(ActorLinks(env.h, a, actor), Some(GENESIS)) && Chained(ActorLinks(env.h, b, actor), Some(GENESIS));
    HeadBindsEntries(env.h, EntriesBy(a, actor), EntriesBy(b, actor), texts);
  }
}
