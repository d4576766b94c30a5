/** Hashing as the model sees it: any function on texts.  No hash with fixed-size
    digests is injective, so the binding theorems speak of the finite set of
    texts that were actually hashed. */
module Hashing {

  type HashFunction = string -> string

  /** The hash function has no collision inside `preimages`. */
  ghost predicate CollisionFree(h: HashFunction, preimages: set<string>) {
    forall x, y | x in preimages && y in preimages && h(x) == h(y) :: x == y
  }

  const PREFIX := "blake3:"

  /** `blake3Prefixed`. */
  function Prefixed(h: HashFunction, text: string): string {
    PREFIX + h(text)
  }

  lemma PrefixedInjective(h: HashFunction, preimages: set<string>, x: string, y: string)
    requires CollisionFree(h, preimages) && x in preimages && y in preimages
    requires Prefixed(h, x) == Prefixed(h, y)
    ensures x == y
  {
    assert h(x) == Prefixed(h, x)[|PREFIX|..] && h(y) == Prefixed(h, y)[|PREFIX|..];
  }

  /** The chains' starting value is not a prefixed digest. */
  lemma PrefixedIsNotGenesis(h: HashFunction, text: string)
    ensures Prefixed(h, text) != "genesis"
  {
    assert Prefixed(h, text)[0] == 'b' && "genesis"[0] == 'g';
  }
}
