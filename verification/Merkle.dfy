/** The rulebook Merkle root: a level-by-level reduction that repeats the last
    node of an odd level, over the files sorted by path. */
module Merkle {
  import opened Sorting

  type byte = b: int | 0 <= b < 256
  type bytes = seq<byte>
  type Blake3 = bytes -> bytes

  const LEAF_PREFIX: bytes := [0x6c, 0x65, 0x61, 0x66, 0]  // "leaf\0"
  const NODE_PREFIX: bytes := [0x6e, 0x6f, 0x64, 0x65, 0]  // "node\0"

  /** A manifest entry: the file's path (UTF-8) and its digest. */
  datatype Entry = Entry(path: bytes, fileHash: bytes)

  function LeafText(e: Entry): bytes {
    LEAF_PREFIX + e.path + [0] + e.fileHash
  }

  function NodeText(left: bytes, right: bytes): bytes {
    NODE_PREFIX + left + right
  }

  // ----- reduction, for digests and for trees alike -----

  function Pad<T>(level: seq<T>): seq<T>
    requires level != []
  {
    if |level| % 2 == 1 then level + [level[|level| - 1]] else level
  }

  function Pair<T>(node: (T, T) -> T, level: seq<T>): (r: seq<T>)
    requires |level| % 2 == 0
    ensures 2 * |r| == |level|
  {
    if level == [] then [] else [node(level[0], level[1])] + Pair(node, level[2..])
  }

  function Reduce<T>(node: (T, T) -> T, level: seq<T>): T
    requires level != []
    decreases |level|
  {
    if |level| == 1 then level[0] else Reduce(node, Pair(node, Pad(level)))
  }

  lemma PairStep<T>(node: (T, T) -> T, level: seq<T>, i: nat, done: seq<T>)
    requires |level| % 2 == 0 && i % 2 == 0 && i < |level|
    ensures done + Pair(node, level[i..]) == done + [node(level[i], level[i + 1])] + Pair(node, level[i + 2..])
  {
    assert level[i..][2..] == level[i + 2..];
  }

  function NodeDigest(h: Blake3): (bytes, bytes) -> bytes {
    (l, r) => h(NodeText(l, r))
  }

  function LeafDigests(h: Blake3, entries: seq<Entry>): seq<bytes> {
    seq(|entries|, i requires 0 <= i < |entries| => h(LeafText(entries[i])))
  }

  function Root(h: Blake3, entries: seq<Entry>): bytes {
    if entries == [] then h(NODE_PREFIX) else Reduce(NodeDigest(h), LeafDigests(h, entries))
  }

  /** One pass of the reduction loop: pad an odd level, then hash neighbours. */
  method NextLevel(h: Blake3, current: seq<bytes>) returns (next: seq<bytes>)
    requires current != []
    ensures next == Pair(NodeDigest(h), Pad(current))
  {
    hide Pair, NodeText;
    var level := current;
    if |level| % 2 == 1 {
      level := level + [level[|level| - 1]];
    }
    next := [];
    var i := 0;
    PairBegins(NodeDigest(h), level);
    while i < |level|
      invariant 0 <= i <= |level| && i % 2 == 0
      invariant next + Pair(NodeDigest(h), level[i..]) == Pair(NodeDigest(h), level)
    {
      PairStep(NodeDigest(h), level, i, next);
      next := next + [h(NodeText(level[i], level[i + 1]))];
      i := i + 2;
    }
    PairEnds(NodeDigest(h), level, next);
  }

  lemma PairBegins<T>(node: (T, T) -> T, level: seq<T>)
    requires |level| % 2 == 0
    ensures [] + Pair(node, level[0..]) == Pair(node, level)
  {
    assert level[0..] == level;
  }

  lemma PairEnds<T>(node: (T, T) -> T, level: seq<T>, done: seq<T>)
    ensures done + Pair(node, level[|level|..]) == done
  {
  }

  /** `merkleRootFromEntries`. */
  method MerkleRootFromEntries(h: Blake3, entries: seq<Entry>) returns (root: bytes)
    ensures root == Root(h, entries)
  {
    if |entries| == 0 {
      return h(NODE_PREFIX);
    }
    var level := LeafDigests(h, entries);
    while |level| > 1
      invariant level != []
      invariant Reduce(NodeDigest(h), level) == Root(h, entries)
      decreases |level|
    {
      level := NextLevel(h, level);
    }
    root := level[0];
  }

  // ----- the tree a root stands for -----

  datatype Tree = Leaf(e: Entry) | Node(left: Tree, right: Tree)

  const JOIN: (Tree, Tree) -> Tree := (l, r) => Node(l, r)

  function LeafTrees(entries: seq<Entry>): seq<Tree> {
    seq(|entries|, i requires 0 <= i < |entries| => Leaf(entries[i]))
  }

  function BuildTree(entries: seq<Entry>): Tree
    requires entries != []
  {
    Reduce(JOIN, LeafTrees(entries))
  }

  function Digest(h: Blake3, t: Tree): bytes {
    match t
    case Leaf(e) => h(LeafText(e))
    case Node(l, r) => h(NodeText(Digest(h, l), Digest(h, r)))
  }

  function Digests(h: Blake3, level: seq<Tree>): seq<bytes> {
    seq(|level|, i requires 0 <= i < |level| => Digest(h, level[i]))
  }

  lemma {:induction false} PairDigests(h: Blake3, level: seq<Tree>)
    requires |level| % 2 == 0
    ensures Pair(NodeDigest(h), Digests(h, level)) == Digests(h, Pair(JOIN, level))
  {
    if level != [] {
      PairDigests(h, level[2..]);
      assert Digests(h, level)[2..] == Digests(h, level[2..]);
    }
  }

  lemma {:induction false} ReduceDigests(h: Blake3, level: seq<Tree>)
    requires level != []
    ensures Reduce(NodeDigest(h), Digests(h, level)) == Digest(h, Reduce(JOIN, level))
    decreases |level|
  {
    hide Digests, Pad, Pair, Digest;
    DigestsAt(h, level);
    if |level| > 1 {
      PadDigests(h, level);
      PairDigests(h, Pad(level));
      ReduceDigests(h, Pair(JOIN, Pad(level)));
    }
  }

  lemma DigestsAt(h: Blake3, level: seq<Tree>)
    ensures |Digests(h, level)| == |level| && forall i | 0 <= i < |level| :: Digests(h, level)[i] == Digest(h, level[i])
  {
    hide Digest;
  }

  lemma PadDigests(h: Blake3, level: seq<Tree>)
    requires level != []
    ensures Digests(h, level) != [] && Pad(Digests(h, level)) == Digests(h, Pad(level)) && |Pad(level)| % 2 == 0
    ensures |level| > 1 ==> 2 <= |Pad(level)| < 2 * |level|
  {
    hide Digest;
  }

  lemma RootIsTreeDigest(h: Blake3, entries: seq<Entry>)
    requires entries != []
    ensures Root(h, entries) == Digest(h, BuildTree(entries))
  {
    assert LeafDigests(h, entries) == Digests(h, LeafTrees(entries));
    ReduceDigests(h, LeafTrees(entries));
  }

  // ----- the list a tree stands for -----

  function Leaves(t: Tree): seq<Entry> {
    match t
    case Leaf(e) => [e]
    case Node(l, r) => Leaves(l) + Leaves(r)
  }

  function Flatten(level: seq<Tree>): seq<Entry> {
    if level == [] then [] else Leaves(level[0]) + Flatten(level[1..])
  }

  /** First occurrences, in order. */
  function Dedup<T(==)>(s: seq<T>): seq<T> {
    if s == [] then []
    else
      var front, last := s[..|s| - 1], s[|s| - 1];
      if last in front then Dedup(front) else Dedup(front) + [last]
  }

  lemma {:induction false} FlattenAppend(a: seq<Tree>, b: seq<Tree>)
    ensures Flatten(a + b) == Flatten(a) + Flatten(b)
  {
    if a == [] {
      assert a + b == b;
    } else {
      assert (a + b)[1..] == a[1..] + b;
      FlattenAppend(a[1..], b);
    }
  }

  lemma {:induction false} FlattenPair(level: seq<Tree>)
    requires |level| % 2 == 0
    ensures Flatten(Pair(JOIN, level)) == Flatten(level)
  {
    if level != [] {
      FlattenPair(level[2..]);
      assert level[1..][1..] == level[2..];
      assert Flatten(level) == Leaves(level[0]) + (Leaves(level[1]) + Flatten(level[2..]));
      var paired := Pair(JOIN, level);
      assert paired[1..] == Pair(JOIN, level[2..]);
      assert Leaves(paired[0]) == Leaves(level[0]) + Leaves(level[1]);
    }
  }

  lemma {:induction false} DedupRepeats<T>(s: seq<T>, t: seq<T>)
    requires forall x | x in t :: x in s
    ensures Dedup(s + t) == Dedup(s)
  {
    if t == [] {
      assert s + t == s;
    } else {
      var front := t[..|t| - 1];
      assert (s + t)[..|s + t| - 1] == s + front;
      assert (s + t)[|s + t| - 1] == t[|t| - 1];
      assert t[|t| - 1] in s;
      DedupRepeats(s, front);
    }
  }

  lemma {:induction false} DedupDistinct<T>(s: seq<T>)
    requires Distinct(s)
    ensures Dedup(s) == s
  {
    if s != [] {
      var front := s[..|s| - 1];
      DedupDistinct(front);
      assert s == front + [s[|s| - 1]];
    }
  }

  /** Padding adds only repeats, pairing nothing: the list survives reduction. */
  lemma {:induction false} ReduceKeepsList(level: seq<Tree>)
    requires level != []
    ensures Dedup(Leaves(Reduce(JOIN, level))) == Dedup(Flatten(level))
    decreases |level|
  {
    if |level| == 1 {
      assert level[1..] == [];
      assert Flatten(level) == Leaves(level[0]);
    } else {
      FlattenPad(level);
      FlattenPair(Pad(level));
      ReduceKeepsList(Pair(JOIN, Pad(level)));
    }
  }

  lemma FlattenPad(level: seq<Tree>)
    requires level != []
    ensures Dedup(Flatten(Pad(level))) == Dedup(Flatten(level))
  {
    var last := level[|level| - 1];
    assert [last][1..] == [];
    assert Flatten([last]) == Leaves(last);
    FlattenAppend(level, [last]);
    FlattenAppend(level[..|level| - 1], [last]);
    assert level == level[..|level| - 1] + [last];
    DedupRepeats(Flatten(level), Leaves(last));
  }

  lemma {:induction false} FlattenLeaves(entries: seq<Entry>)
    ensures Flatten(LeafTrees(entries)) == entries
  {
    if entries != [] {
      FlattenLeaves(entries[1..]);
      assert LeafTrees(entries)[1..] == LeafTrees(entries[1..]);
    }
  }

  lemma TreeDeterminesList(entries: seq<Entry>)
    requires entries != []
    ensures Dedup(Leaves(BuildTree(entries))) == Dedup(entries)
  {
    ReduceKeepsList(LeafTrees(entries));
    FlattenLeaves(entries);
  }

  // ----- binding -----

  ghost predicate DigestsAre32Bytes(h: Blake3) {
    forall m :: |h(m)| == 32
  }

  ghost predicate CollisionFree(h: Blake3, preimages: set<bytes>) {
    forall x, y | x in preimages && y in preimages && h(x) == h(y) :: x == y
  }

  predicate FileHashesAre32Bytes(entries: seq<Entry>) {
    forall e | e in entries :: |e.fileHash| == 32
  }

  /** Every message hashed to obtain the digest of the tree. */
  ghost function TreePreimages(h: Blake3, t: Tree): set<bytes> {
    match t
    case Leaf(e) => {LeafText(e)}
    case Node(l, r) => {NodeText(Digest(h, l), Digest(h, r))} + TreePreimages(h, l) + TreePreimages(h, r)
  }

  ghost function RootPreimages(h: Blake3, entries: seq<Entry>): set<bytes> {
    if entries == [] then {NODE_PREFIX} else TreePreimages(h, BuildTree(entries))
  }

  ghost predicate LeavesHave32(t: Tree) {
    forall e | e in Leaves(t) :: |e.fileHash| == 32
  }

  lemma LeafTextUnique(a: Entry, b: Entry)
    requires |a.fileHash| == |b.fileHash| == 32 && LeafText(a) == LeafText(b)
    ensures a == b
  {
    var p, q := LeafText(a), LeafText(b);
    assert a.path == p[5..|p| - 33] && b.path == q[5..|q| - 33];
    assert a.fileHash == p[|p| - 32..] && b.fileHash == q[|q| - 32..];
  }

  lemma NodeTextUnique(a: bytes, b: bytes, c: bytes, d: bytes)
    requires |a| == |c| == 32 && NodeText(a, b) == NodeText(c, d)
    ensures a == c && b == d
  {
    var p, q := NodeText(a, b), NodeText(c, d);
    assert a == p[5..37] && c == q[5..37];
    assert b == p[37..] && d == q[37..];
  }

  /** The message whose digest the tree's digest is. */
  function TopText(h: Blake3, t: Tree): bytes {
    match t
    case Leaf(e) => LeafText(e)
    case Node(l, r) => NodeText(Digest(h, l), Digest(h, r))
  }

  /** The prefixes keep leaves and inner nodes apart. */
  lemma SameShape(h: Blake3, s: Tree, t: Tree)
    requires CollisionFree(h, TreePreimages(h, s) + TreePreimages(h, t)) && Digest(h, s) == Digest(h, t)
    ensures TopText(h, s) == TopText(h, t) && s.Leaf? == t.Leaf?
  {
    assert TopText(h, s) in TreePreimages(h, s) && TopText(h, t) in TreePreimages(h, t);
    assert TopText(h, s)[0] == if s.Leaf? then 0x6c else 0x6e;
    assert TopText(h, t)[0] == if t.Leaf? then 0x6c else 0x6e;
  }

  lemma {:induction false} DigestBindsTree(h: Blake3, s: Tree, t: Tree)
    requires DigestsAre32Bytes(h) && CollisionFree(h, TreePreimages(h, s) + TreePreimages(h, t))
    requires LeavesHave32(s) && LeavesHave32(t)
    requires Digest(h, s) == Digest(h, t)
    ensures s == t
  {
    SameShape(h, s, t);
    if s.Leaf? {
      assert s.e in Leaves(s) && t.e in Leaves(t);
      LeafTextUnique(s.e, t.e);
    } else {
      NodeTextUnique(Digest(h, s.left), Digest(h, s.right), Digest(h, t.left), Digest(h, t.right));
      DigestBindsTree(h, s.left, t.left);
      DigestBindsTree(h, s.right, t.right);
    }
  }

  lemma NoTreeHashesToEmptyRoot(h: Blake3, t: Tree)
    requires DigestsAre32Bytes(h) && CollisionFree(h, {NODE_PREFIX} + TreePreimages(h, t))
    ensures Digest(h, t) != h(NODE_PREFIX)
  {
    match t
    case Leaf(e) => assert LeafText(e)[0] != NODE_PREFIX[0];
    case Node(l, r) => assert |NodeText(Digest(h, l), Digest(h, r))| == 69;
  }

  lemma {:induction false} DedupSameElements<T>(s: seq<T>)
    ensures forall x :: x in Dedup(s) <==> x in s
  {
    if s != [] {
      DedupSameElements(s[..|s| - 1]);
      assert s == s[..|s| - 1] + [s[|s| - 1]];
    }
  }

  lemma BuiltLeavesHave32(entries: seq<Entry>)
    requires entries != [] && FileHashesAre32Bytes(entries)
    ensures LeavesHave32(BuildTree(entries))
  {
    TreeDeterminesList(entries);
    DedupSameElements(entries);
    DedupSameElements(Leaves(BuildTree(entries)));
  }

  /** Merkle binding.  The root determines the list of distinct entries in order,
      for any two lengths, the empty list included; when neither list repeats an
      entry, the lists are equal. */
  lemma RootBindsEntries(h: Blake3, a: seq<Entry>, b: seq<Entry>)
    requires DigestsAre32Bytes(h) && CollisionFree(h, RootPreimages(h, a) + RootPreimages(h, b))
    requires FileHashesAre32Bytes(a) && FileHashesAre32Bytes(b)
    requires Root(h, a) == Root(h, b)
    ensures Dedup(a) == Dedup(b)
    ensures Distinct(a) && Distinct(b) ==> a == b
  {
    if a != [] { RootIsTreeDigest(h, a); BuiltLeavesHave32(a); TreeDeterminesList(a); }
    if b != [] { RootIsTreeDigest(h, b); BuiltLeavesHave32(b); TreeDeterminesList(b); }
    if a != [] && b != [] {
      DigestBindsTree(h, BuildTree(a), BuildTree(b));
    } else if a != [] {
      NoTreeHashesToEmptyRoot(h, BuildTree(a));
    } else if b != [] {
      NoTreeHashesToEmptyRoot(h, BuildTree(b));
    }
    if Distinct(a) && Distinct(b) {
      DedupDistinct(a);
      DedupDistinct(b);
    }
  }

  /** Repeats are where binding of the whole list ends: every list of odd length but
      one shares its root with the list that repeats its last entry, because padding
      puts that very node there. */
  lemma RepeatedEntrySharesRoot(h: Blake3, entries: seq<Entry>)
    requires |entries| % 2 == 1 && |entries| > 1
    ensures Root(h, entries) == Root(h, entries + [entries[|entries| - 1]])
  {
    var longer := entries + [entries[|entries| - 1]];
    var d, d' := LeafDigests(h, entries), LeafDigests(h, longer);
    assert Pad(d) == d' == Pad(d');
  }

  // ----- the sorted file listing -----

  function PathOrder(le: (bytes, bytes) -> bool): (Entry, Entry) -> bool {
    (a: Entry, b: Entry) => le(a.path, b.path)
  }

  /** No two different walked files compare as equal. */
  ghost predicate NoTies(le: (bytes, bytes) -> bool, files: seq<Entry>) {
    forall f, g | f in files && g in files && le(f.path, g.path) && le(g.path, f.path) :: f == g
  }

  /** s is the files in the order of some walk. */
  predicate IsWalk(s: seq<Entry>, files: seq<Entry>) {
    multiset(s) == multiset(files)
  }

  ghost predicate WalkOrderIrrelevant(le: (bytes, bytes) -> bool, files: seq<Entry>) {
    forall s: seq<Entry>, t: seq<Entry> | IsWalk(s, files) && IsWalk(t, files) ::
      Sort(PathOrder(le), s) == Sort(PathOrder(le), t)
  }

  lemma {:induction false} FirstAtLeast(le: (Entry, Entry) -> bool, f: Entry, g: Entry, s: seq<Entry>)
    returns (k: nat)
    requires TotalPreorder(le) && le(f, g) && le(g, f)
    ensures k < |Insert(le, g, s)| && Insert(le, g, s)[k] == g
    ensures forall i | 0 <= i < k :: !le(f, Insert(le, g, s)[i])
  {
    if s == [] || le(g, s[0]) {
      k := 0;
    } else {
      k := FirstAtLeast(le, f, g, s[1..]);
      k := k + 1;
    }
  }

  lemma TieBreaksDeterminism(le: (bytes, bytes) -> bool, files: seq<Entry>, f: Entry, g: Entry)
    requires TotalPreorder(PathOrder(le)) && f in files && g in files && f != g
    requires le(f.path, g.path) && le(g.path, f.path)
    ensures !WalkOrderIrrelevant(le, files)
  {
    hide Sort, Insert;
    var rest := TakeTwo(files, f, g);
    TwoOrders(PathOrder(le), rest, f, g);
    assert IsWalk([f, g] + rest, files) && IsWalk([g, f] + rest, files);
  }

  /** The files other than one f and one g, either of which may be put first. */
  lemma TakeTwo(files: seq<Entry>, f: Entry, g: Entry) returns (rest: seq<Entry>)
    requires f in files && g in files && f != g
    ensures multiset([f, g] + rest) == multiset(files) && multiset([g, f] + rest) == multiset(files)
  {
    rest := Remove(Remove(files, f), g);
    assert multiset(files) == multiset{f} + (multiset{g} + multiset(rest));
  }

  lemma TwoOrders(o: (Entry, Entry) -> bool, rest: seq<Entry>, f: Entry, g: Entry)
    requires TotalPreorder(o) && f != g && o(f, g) && o(g, f)
    ensures Sort(o, [f, g] + rest) != Sort(o, [g, f] + rest)
  {
    var x, y := Insert(o, g, Sort(o, rest)), Insert(o, f, Sort(o, rest));
    SortCons(o, g, rest);
    SortCons(o, f, rest);
    SortCons(o, f, [g] + rest);
    SortCons(o, g, [f] + rest);
    assert [f, g] + rest == [f] + ([g] + rest) && [g, f] + rest == [g] + ([f] + rest);
    InsertsDiffer(o, f, g, x, y);
  }

  lemma SortCons(o: (Entry, Entry) -> bool, x: Entry, rest: seq<Entry>)
    ensures Sort(o, [x] + rest) == Insert(o, x, Sort(o, rest))
  {
    assert ([x] + rest)[1..] == rest;
  }

  lemma InsertsDiffer(o: (Entry, Entry) -> bool, f: Entry, g: Entry, x: seq<Entry>, y: seq<Entry>)
    requires TotalPreorder(o) && f != g && o(f, g) && o(g, f)
    ensures Insert(o, f, x) != Insert(o, g, y)
  {
    var i := FirstAtLeast(o, f, f, x);
    var j := FirstAtLeast(o, f, g, y);
    var a, b := Insert(o, f, x), Insert(o, g, y);
    assert o(f, a[i]) && o(f, b[j]);
    assert i != j ==> a != b;
  }

  function Remove(s: seq<Entry>, x: Entry): (r: seq<Entry>)
    requires x in s
    ensures multiset(s) == multiset{x} + multiset(r)
    ensures forall y | y in s && y != x :: y in r
  {
    assert s == [s[0]] + s[1..];
    if s[0] == x then s[1..] else [s[0]] + Remove(s[1..], x)
  }

  /** The root depends only on which files exist, not on the order the directory
      walk met them, exactly when the path order tells all of them apart. */
  lemma WalkOrderIrrelevantIffNoTies(le: (bytes, bytes) -> bool, files: seq<Entry>)
    requires TotalPreorder(PathOrder(le))
    ensures WalkOrderIrrelevant(le, files) <==> NoTies(le, files)
  {
    var o := PathOrder(le);
    if NoTies(le, files) {
      forall s: seq<Entry>, t: seq<Entry> | IsWalk(s, files) && IsWalk(t, files)
        ensures Sort(o, s) == Sort(o, t)
      {
        SortSorts(o, s);
        SortSorts(o, t);
        SortPermutes(o, s);
        SortPermutes(o, t);
        SameElements(Sort(o, s), files);
        SortedUnique(o, Sort(o, s), Sort(o, t));
      }
    } else {
      var f, g :| f in files && g in files && le(f.path, g.path) && le(g.path, f.path) && f != g;
      TieBreaksDeterminism(le, files, f, g);
    }
  }

  // ----- the root of the walked files -----

  /** Steps 2 to 4 of the generator: sort the walked files by path, then reduce.
      Without ties, any other walk over the same files gives the same root. */
  method RulebookRoot(h: Blake3, le: (bytes, bytes) -> bool, walked: seq<Entry>) returns (root: bytes)
    ensures root == WalkRoot(h, le, walked)
    ensures TotalPreorder(PathOrder(le)) && NoTies(le, walked) ==>
      forall other: seq<Entry> | IsWalk(other, walked) :: root == WalkRoot(h, le, other)
  {
    hide Sort, Root, NoTies;
    root := MerkleRootFromEntries(h, Sort(PathOrder(le), walked));
    if TotalPreorder(PathOrder(le)) {
      WalkOrderIrrelevantIffNoTies(le, walked);
    }
  }

  function WalkRoot(h: Blake3, le: (bytes, bytes) -> bool, walked: seq<Entry>): bytes {
    Root(h, Sort(PathOrder(le), walked))
  }

  /** Every two walks hash without a collision between them. */
  ghost predicate WalksCollisionFree(h: Blake3, le: (bytes, bytes) -> bool, files: seq<Entry>) {
    forall s: seq<Entry>, t: seq<Entry> | IsWalk(s, files) && IsWalk(t, files) ::
      CollisionFree(h, RootPreimages(h, Sort(PathOrder(le), s)) + RootPreimages(h, Sort(PathOrder(le), t)))
  }

  ghost predicate RootIgnoresWalk(h: Blake3, le: (bytes, bytes) -> bool, files: seq<Entry>) {
    forall s: seq<Entry>, t: seq<Entry> | IsWalk(s, files) && IsWalk(t, files) ::
      WalkRoot(h, le, s) == WalkRoot(h, le, t)
  }

  /** Two walks over distinct files have the same root only if they sort alike. */
  lemma RootsOfWalks(h: Blake3, le: (bytes, bytes) -> bool, files: seq<Entry>, s: seq<Entry>, t: seq<Entry>)
    requires Distinct(files) && IsWalk(s, files) && IsWalk(t, files) && FileHashesAre32Bytes(files)
    requires DigestsAre32Bytes(h) && WalksCollisionFree(h, le, files)
    ensures WalkRoot(h, le, s) == WalkRoot(h, le, t) <==> Sort(PathOrder(le), s) == Sort(PathOrder(le), t)
  {
    hide Sort, Root, RootPreimages;
    var x, y := Sort(PathOrder(le), s), Sort(PathOrder(le), t);
    SortPermutes(PathOrder(le), s);
    SortPermutes(PathOrder(le), t);
    PermutationKeepsDistinct(files, x);
    PermutationKeepsDistinct(files, y);
    SameElements(x, files);
    SameElements(y, files);
    if Root(h, x) == Root(h, y) { RootBindsEntries(h, x, y); }
  }

  /** The root of distinct files ignores the order of the walk exactly when the path
      order tells all of them apart. */
  lemma RootIgnoresWalkIffNoTies(h: Blake3, le: (bytes, bytes) -> bool, files: seq<Entry>)
    requires TotalPreorder(PathOrder(le)) && Distinct(files) && FileHashesAre32Bytes(files)
    requires DigestsAre32Bytes(h) && WalksCollisionFree(h, le, files)
    ensures RootIgnoresWalk(h, le, files) <==> NoTies(le, files)
  {
    hide Sort, Root, NoTies, WalksCollisionFree, FileHashesAre32Bytes, DigestsAre32Bytes, Distinct,
         TotalPreorder, WalkRoot, WalkOrderIrrelevant, RootIgnoresWalk;
    WalkOrderIrrelevantIffNoTies(le, files);
    forall s: seq<Entry>, t: seq<Entry> | IsWalk(s, files) && IsWalk(t, files)
      ensures WalkRoot(h, le, s) == WalkRoot(h, le, t) <==> Sort(PathOrder(le), s) == Sort(PathOrder(le), t)
    {
      RootsOfWalks(h, le, files, s, t);
    }
    AllWalksAlike(h, le, files);
  }

  lemma AllWalksAlike(h: Blake3, le: (bytes, bytes) -> bool, files: seq<Entry>)
    requires forall s: seq<Entry>, t: seq<Entry> | IsWalk(s, files) && IsWalk(t, files) ::
      WalkRoot(h, le, s) == WalkRoot(h, le, t) <==> Sort(PathOrder(le), s) == Sort(PathOrder(le), t)
    ensures RootIgnoresWalk(h, le, files) <==> WalkOrderIrrelevant(le, files)
  {
    hide Sort, WalkRoot, IsWalk;
    if !RootIgnoresWalk(h, le, files) {
      var s, t :| IsWalk(s, files) && IsWalk(t, files) && WalkRoot(h, le, s) != WalkRoot(h, le, t);
      assert Sort(PathOrder(le), s) != Sort(PathOrder(le), t);
    }
    if !WalkOrderIrrelevant(le, files) {
      var s, t :| IsWalk(s, files) && IsWalk(t, files) && Sort(PathOrder(le), s) != Sort(PathOrder(le), t);
      assert WalkRoot(h, le, s) != WalkRoot(h, le, t);
    }
  }

  const COMPOSED: bytes := [0xc3, 0xa9]          // U+00E9
  const DECOMPOSED: bytes := [0x65, 0xcc, 0x81]  // U+0065 U+0301

  /** An order that, like a locale's, does not tell the two spellings of one letter apart. */
  const SPELLING_ORDER: (bytes, bytes) -> bool := (a: bytes, b: bytes) => Letter(a) <= Letter(b)

  function Letter(path: bytes): int {
    if path == COMPOSED || path == DECOMPOSED then 1 else 0
  }

  /** Two files named by the two spellings: whichever the walk meets first decides the root. */
  lemma TwoSpellingsTwoRoots(h: Blake3, x: bytes, y: bytes)
    requires |x| == |y| == 32 && DigestsAre32Bytes(h)
    requires WalksCollisionFree(h, SPELLING_ORDER, [Entry(COMPOSED, x), Entry(DECOMPOSED, y)])
    ensures var f, g := Entry(COMPOSED, x), Entry(DECOMPOSED, y);
      WalkRoot(h, SPELLING_ORDER, [f, g]) != WalkRoot(h, SPELLING_ORDER, [g, f])
  {
    hide Sort, WalkRoot, WalksCollisionFree;
    var f, g := Entry(COMPOSED, x), Entry(DECOMPOSED, y);
    assert |f.path| != |g.path|;
    assert [f, g] + [] == [f, g] && [g, f] + [] == [g, f];
    TwoOrders(PathOrder(SPELLING_ORDER), [], f, g);
    assert IsWalk([f, g], [f, g]) && IsWalk([g, f], [f, g]);
    RootsOfWalks(h, SPELLING_ORDER, [f, g], [f, g], [g, f]);
  }

  // ----- inclusion -----

  /** The digest reached from the i-th node of a level along its siblings: a node at an even
      place is hashed on the left, at an odd place on the right. */
  function Climb(h: Blake3, digest: bytes, siblings: seq<bytes>, i: nat): bytes
    decreases |siblings|
  {
    if siblings == [] then digest
    else
      var parent := h([0x6e, 0x6f, 0x64, 0x65, 0] +
        if i % 2 == 0 then digest + siblings[0] else siblings[0] + digest);
      Climb(h, parent, siblings[1..], i / 2)
  }

  lemma PairAt<T>(node: (T, T) -> T, level: seq<T>, i: nat)
    requires |level| % 2 == 0 && 2 * i < |level|
    ensures Pair(node, level)[i] == node(level[2 * i], level[2 * i + 1])
  {
    if i > 0 { PairAt(node, level[2..], i - 1); }
  }

  lemma ParentOf(h: Blake3, level: seq<bytes>, i: nat) returns (sibling: bytes)
    requires i < |level| && |level| > 1
    ensures |Pad(level)| % 2 == 0 && i / 2 < |Pair(NodeDigest(h), Pad(level))|
    ensures Pair(NodeDigest(h), Pad(level))[i / 2] ==
      h([0x6e, 0x6f, 0x64, 0x65, 0] + if i % 2 == 0 then level[i] + sibling else sibling + level[i])
  {
    var padded := Pad(level);
    PairAt(NodeDigest(h), padded, i / 2);
    hide Pair;
    sibling := if i % 2 == 0 then padded[i + 1] else padded[i - 1];
    assert padded[i] == level[i];
    PrefixFirst(level[i], sibling);
    PrefixFirst(sibling, level[i]);
    hide NodeText;
  }

  lemma PrefixFirst(left: bytes, right: bytes)
    ensures NodeText(left, right) == [0x6e, 0x6f, 0x64, 0x65, 0] + (left + right)
  {
  }

  lemma {:induction false} LevelHasPaths(h: Blake3, level: seq<bytes>, i: nat) returns (siblings: seq<bytes>)
    requires i < |level|
    ensures Climb(h, level[i], siblings, i) == Reduce(NodeDigest(h), level)
    ensures |level| <= Power2(|siblings|)
    decreases |level|
  {
    hide NodeDigest, Pad, Pair;
    if |level| == 1 {
      siblings := [];
    } else {
      PadSize(level);
      var sibling := ParentOf(h, level, i);
      var rest := LevelHasPaths(h, Pair(NodeDigest(h), Pad(level)), i / 2);
      siblings := [sibling] + rest;
      assert siblings[1..] == rest;
    }
  }

  lemma PadSize<T>(level: seq<T>)
    requires |level| > 1
    ensures |Pad(level)| % 2 == 0 && |level| <= |Pad(level)| < 2 * |level|
  {
  }

  function Power2(n: nat): nat {
    if n == 0 then 1 else 2 * Power2(n - 1)
  }

  /** Every entry of a list can be shown to be in it: from the hash of "leaf\0", its path, a
      zero byte and its digest, the siblings along its way lead to the root.  The empty
      list has the hash of "node\0" alone. */
  lemma EntryLeadsToRoot(h: Blake3, entries: seq<Entry>, i: nat) returns (siblings: seq<bytes>)
    requires i < |entries|
    ensures Climb(h, h([0x6c, 0x65, 0x61, 0x66, 0] + entries[i].path + [0] + entries[i].fileHash), siblings, i)
      == Root(h, entries)
    ensures |entries| <= Power2(|siblings|)
    ensures Root(h, []) == h([0x6e, 0x6f, 0x64, 0x65, 0])
  {
    assert LEAF_PREFIX == [0x6c, 0x65, 0x61, 0x66, 0] && NODE_PREFIX == [0x6e, 0x6f, 0x64, 0x65, 0];
    assert LeafDigests(h, entries)[i] == h(LeafText(entries[i]));
    hide Reduce, Climb;
    siblings := LevelHasPaths(h, LeafDigests(h, entries), i);
  }
}
