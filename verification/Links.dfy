/** Hash chains in the abstract: entries reduced to the hash they carry and the
    hash they name as their predecessor's. */
module Links {
  import opened Json

  datatype Link = Unsound | Link(prev: string, hash: string)

  /** Each link is sound and names the one before it; the first names `start`, if that is given. */
  predicate Chained(links: seq<Link>, start: Option<string>) {
    && (forall i | 0 <= i < |links| :: links[i].Link?)
    && (forall i | 1 <= i < |links| :: links[i].prev == links[i - 1].hash)
    && (links != [] && start.Some? ==> links[0].prev == start.value)
  }

  /** The hash the next link must name; None while nothing fixes it. */
  function Head(links: seq<Link>, start: Option<string>): Option<string>
    requires Chained(links, start)
  {
    if links == [] then start else Some(links[|links| - 1].hash)
  }

  predicate Continues(link: Link, head: Option<string>) {
    link.Link? && (head.Some? ==> link.prev == head.value)
  }

  lemma ChainedSnoc(links: seq<Link>, link: Link, start: Option<string>)
    ensures Chained(links + [link], start)
      <==> Chained(links, start) && Continues(link, Head(links, start))
  {
    var s := links + [link];
    assert forall i | 0 <= i < |links| :: s[i] == links[i];
    assert s[|links|] == link;
    if Chained(s, start) && links != [] { assert s[0] == links[0] && s[|links| - 1] == links[|links| - 1]; }
    if Chained(links, start) && Continues(link, Head(links, start)) && links != [] { assert s[0] == links[0]; }
  }

  lemma {:induction false} ChainedConcat(a: seq<Link>, b: seq<Link>, start: Option<string>)
    ensures Chained(a + b, start) <==> Chained(a, start) && Chained(b, Head(a, start))
    ensures Chained(a + b, start) ==> Head(a + b, start) == Head(b, Head(a, start))
  {
    if b == [] {
      assert a + b == a;
    } else {
      var front, last := b[..|b| - 1], b[|b| - 1];
      assert b == front + [last] && a + b == (a + front) + [last];
      ChainedConcat(a, front, start);
      ChainedSnoc(a + front, last, start);
      if Chained(a, start) { ChainedSnoc(front, last, Head(a, start)); }
    }
  }

  lemma ChainedPrefix(links: seq<Link>, n: nat, start: Option<string>)
    requires Chained(links, start) && n <= |links|
    ensures Chained(links[..n], start)
  {
    assert links == links[..n] + links[n..];
    ChainedConcat(links[..n], links[n..], start);
  }
}
