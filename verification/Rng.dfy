/** The shared RNG texts: commitments and seed derivation are prefixed hashes of
    domain-separated texts; draws are an indexed stream of 32-bit numbers per seed. */
module Rng {
  import opened Json
  import opened CanonicalText
  import opened Hashing

  type u32 = x: int | 0 <= x < 0x1_0000_0000

  /** `rngDrawU32Legacy`: the draw with this index from this seed. */
  type DrawFunction = (string, nat) -> u32

  /** The v0 and v1 commitments use the same domain text. */
  const RNG_COMMIT_DOMAIN := "akalynth:rng:commit:v1\0"
  const RNG_DERIVE_DOMAIN_V2 := "akalynth:rng:v2:derive\0"
  const RNG_INV_COMMIT_DOMAIN := "akalynth:rng:inv:v1"

  function CommitText(seed: string): string {
    RNG_COMMIT_DOMAIN + seed
  }

  function CommitV1Preimage(domain: string, actor: string, secret: string): Json {
    Obj(map["v" := Num("1"), "domain" := Str(domain), "actor" := Str(actor), "reveal" := Str(secret)])
  }

  function CommitV1Text(domain: string, actor: string, secret: string): string {
    RNG_COMMIT_DOMAIN + Print(true, CommitV1Preimage(domain, actor, secret))
  }

  function RngCommit(h: HashFunction, seed: string): string {
    Prefixed(h, CommitText(seed))
  }

  function RngCommitV1(h: HashFunction, domain: string, actor: string, secret: string): string {
    Prefixed(h, CommitV1Text(domain, actor, secret))
  }

  function RngDeriveSeedV2(
    h: HashFunction, secret: string, worldId: string, eventDomain: string, eventPreimageHash: string): string
  {
    Prefixed(h, RNG_DERIVE_DOMAIN_V2 + secret + worldId + eventDomain + eventPreimageHash)
  }

  function InventoryCommit(h: HashFunction, salt: string, items: Json): string {
    Prefixed(h, RNG_INV_COMMIT_DOMAIN + salt + Print(true, items))
  }

  /** `outs[i] === rngDrawU32Legacy(seed, i)` for every i. */
  predicate DrawsMatch(draw: DrawFunction, seed: string, outs: seq<Json>) {
    forall i | 0 <= i < |outs| :: outs[i] == Num(NatText(draw(seed, i)))
  }

  // ----- the two commitment schemes never agree -----

  lemma {:induction false} EscapeNotShorter(s: string)
    ensures |Escape(s)| >= |s|
  {
    if s != "" { EscapeNotShorter(s[1..]); }
  }

  lemma {:induction false} FieldsLongerThanField(compact: bool, j: Json, keys: seq<string>, k: string)
    requires j.Obj? && (forall x | x in keys :: x in j.fields) && k in keys
    ensures |PrintFields(compact, j, keys)| >= |Print(compact, j.fields[k])|
    decreases |keys|
  {
    if keys[0] != k {
      assert k in keys[1..];
      FieldsLongerThanField(compact, j, keys[1..], k);
    }
  }

  lemma V1TextLongerThanReveal(domain: string, actor: string, secret: string)
    ensures |Print(true, CommitV1Preimage(domain, actor, secret))| > |secret|
  {
    var j := CommitV1Preimage(domain, actor, secret);
    assert "reveal" in SortedKeys(j.fields.Keys);
    FieldsLongerThanField(true, j, SortedKeys(j.fields.Keys), "reveal");
    EscapeNotShorter(secret);
    assert Print(true, j.fields["reveal"]) == Quote(secret);
  }

  /** No reveal opens one commitment under both schemes, unless the hash collides on the two texts. */
  lemma SchemesDisagree(h: HashFunction, domain: string, actor: string, secret: string)
    requires CollisionFree(h, {CommitText(secret), CommitV1Text(domain, actor, secret)})
    ensures RngCommit(h, secret) != RngCommitV1(h, domain, actor, secret)
  {
    V1TextLongerThanReveal(domain, actor, secret);
    assert |CommitText(secret)| < |CommitV1Text(domain, actor, secret)|;
    if RngCommit(h, secret) == RngCommitV1(h, domain, actor, secret) {
      PrefixedInjective(h, {CommitText(secret), CommitV1Text(domain, actor, secret)},
                        CommitText(secret), CommitV1Text(domain, actor, secret));
    }
  }

  // ----- what commitments and seeds bind -----

  /** A v1 commitment opens to one domain, one actor and one reveal. */
  lemma CommitV1Binds(
    h: HashFunction, domain: string, actor: string, secret: string, domain': string, actor': string, secret': string)
    requires CollisionFree(h, {CommitV1Text(domain, actor, secret), CommitV1Text(domain', actor', secret')})
    ensures RngCommitV1(h, domain, actor, secret) == RngCommitV1(h, domain', actor', secret')
      <==> domain == domain' && actor == actor' && secret == secret'
  {
    hide Print;
    if RngCommitV1(h, domain, actor, secret) == RngCommitV1(h, domain', actor', secret') {
      var texts := {CommitV1Text(domain, actor, secret), CommitV1Text(domain', actor', secret')};
      var a, b := CommitV1Preimage(domain, actor, secret), CommitV1Preimage(domain', actor', secret');
      PrefixedInjective(h, texts, CommitV1Text(domain, actor, secret), CommitV1Text(domain', actor', secret'));
      LiteralRest(RNG_COMMIT_DOMAIN, Print(true, a), Print(true, b));
      PrintInjective(true, a, b);
      assert a.fields["domain"] == b.fields["domain"] && a.fields["actor"] == b.fields["actor"]
        && a.fields["reveal"] == b.fields["reveal"];
    }
  }

  /** An inventory commitment opens to one salt and one inventory, for salts of one length. */
  lemma InventoryCommitBinds(h: HashFunction, salt: string, items: Json, salt': string, items': Json)
    requires |salt| == |salt'| && WellFormed(items) && WellFormed(items')
    requires CollisionFree(h, {RNG_INV_COMMIT_DOMAIN + salt + Print(true, items),
      RNG_INV_COMMIT_DOMAIN + salt' + Print(true, items')})
    ensures InventoryCommit(h, salt, items) == InventoryCommit(h, salt', items') <==> salt == salt' && items == items'
  {
    hide Print;
    var t, t' := RNG_INV_COMMIT_DOMAIN + salt + Print(true, items), RNG_INV_COMMIT_DOMAIN + salt' + Print(true, items');
    if InventoryCommit(h, salt, items) == InventoryCommit(h, salt', items') {
      PrefixedInjective(h, {t, t'}, t, t');
      var n, m := |RNG_INV_COMMIT_DOMAIN|, |RNG_INV_COMMIT_DOMAIN| + |salt|;
      assert salt == t[n..m] && salt' == t'[n..m];
      assert Print(true, items) == t[m..] && Print(true, items') == t'[m..];
      PrintInjective(true, items, items');
    }
  }

  /** The four parts of a derived seed enter its text without separators. */
  function SeedText(secret: string, worldId: string, eventDomain: string, eventPreimageHash: string): string {
    RNG_DERIVE_DOMAIN_V2 + secret + worldId + eventDomain + eventPreimageHash
  }

  /** So a seed binds all four once their boundaries are known: for secrets, domains
      and preimage hashes of one length, as the server makes them. */
  lemma DerivedSeedBinds(
    h: HashFunction, secret: string, worldId: string, eventDomain: string, preimage: string,
    secret': string, worldId': string, eventDomain': string, preimage': string)
    requires |secret| == |secret'| && |eventDomain| == |eventDomain'| && |preimage| == |preimage'|
    requires CollisionFree(h, {SeedText(secret, worldId, eventDomain, preimage),
      SeedText(secret', worldId', eventDomain', preimage')})
    ensures RngDeriveSeedV2(h, secret, worldId, eventDomain, preimage)
      == RngDeriveSeedV2(h, secret', worldId', eventDomain', preimage')
      <==> secret == secret' && worldId == worldId' && eventDomain == eventDomain' && preimage == preimage'
  {
    var t, t' := SeedText(secret, worldId, eventDomain, preimage), SeedText(secret', worldId', eventDomain', preimage');
    if RngDeriveSeedV2(h, secret, worldId, eventDomain, preimage)
      == RngDeriveSeedV2(h, secret', worldId', eventDomain', preimage') {
      PrefixedInjective(h, {t, t'}, t, t');
      var n := |RNG_DERIVE_DOMAIN_V2|;
      var s, p, d := n + |secret|, |t| - |preimage|, |t| - |preimage| - |eventDomain|;
      assert secret == t[n..s] && secret' == t'[n..s];
      assert worldId == t[s..d] && worldId' == t'[s..d];
      assert eventDomain == t[d..p] && eventDomain' == t'[d..p];
      assert preimage == t[p..] && preimage' == t'[p..];
    }
  }
}
