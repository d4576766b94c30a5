/** What the drop selection guarantees. */
module DropTheorems {
  import opened Sorting
  import opened Rng
  import opened DropPolicy

  // ----- filtering -----

  lemma {:induction false} FilterSpec<T>(keep: T -> bool, s: seq<T>)
    ensures forall x :: x in Filter(keep, s) <==> x in s && keep(x)
    ensures |Filter(keep, s)| <= |s|
  {
    if s != [] {
      FilterSpec(keep, s[1..]);
      assert s == [s[0]] + s[1..];
    }
  }

  lemma {:induction false} FilterSplits<T>(keep: T -> bool, drop: T -> bool, s: seq<T>)
    requires forall x :: drop(x) == !keep(x)
    ensures multiset(Filter(keep, s)) + multiset(Filter(drop, s)) == multiset(s)
  {
    if s != [] {
      FilterSplits(keep, drop, s[1..]);
      assert s == [s[0]] + s[1..];
    }
  }

  lemma {:induction false} FilterKeepsDistinctIds(keep: Item -> bool, items: seq<Item>)
    requires Distinct(Ids(items))
    ensures Distinct(Ids(Filter(keep, items)))
  {
    if items != [] {
      var rest := items[1..];
      assert Ids(items) == [items[0].id] + Ids(rest);
      assert Ids(items)[1..] == Ids(rest);
      FilterKeepsDistinctIds(keep, rest);
      FilterSpec(keep, rest);
      var f := Filter(keep, rest);
      if keep(items[0]) {
        forall i | 0 <= i < |f| ensures f[i].id != items[0].id {
          assert f[i] in rest;
          var k :| 0 <= k < |rest| && rest[k] == f[i];
          assert Ids(items)[0] != Ids(items)[k + 1];
        }
        DistinctCons(items[0].id, Ids(f));
        assert Filter(keep, items) == [items[0]] + f;
        assert Ids([items[0]] + f) == [items[0].id] + Ids(f);
      } else {
        assert Filter(keep, items) == f;
      }
    }
  }

  lemma {:induction false} FilterKeepsDistinct<T>(keep: T -> bool, s: seq<T>)
    requires Distinct(s)
    ensures Distinct(Filter(keep, s))
  {
    if s != [] {
      FilterKeepsDistinct(keep, s[1..]);
      FilterSpec(keep, s[1..]);
    }
  }

  lemma DistinctSameElements<T>(a: seq<T>, b: seq<T>)
    requires Distinct(a) && Distinct(b) && forall x :: x in a <==> x in b
    ensures multiset(a) == multiset(b)
  {
    DistinctCount(a);
    DistinctCount(b);
    forall x ensures multiset(a)[x] == multiset(b)[x] {
      assert x in a <==> x in multiset(a);
      assert x in b <==> x in multiset(b);
    }
  }

  // ----- what is dropped -----

  lemma CandidatesSpec(items: seq<Item>)
    ensures forall x | x in Candidates(items) :: x in items && !Protected(x)
    ensures Distinct(Ids(items)) ==> Distinct(Ids(Candidates(items)))
  {
    var isProtected := (item: Item) => Protected(item);
    var ids := IdSet(Filter(isProtected, items));
    FilterSpec(isProtected, items);
    FilterSpec((item: Item) => item.id !in ids, items);
    forall x | x in items && Protected(x) ensures x.id in ids {
      assert x in Filter(isProtected, items);
      var i :| 0 <= i < |Filter(isProtected, items)| && Filter(isProtected, items)[i] == x;
    }
    if Distinct(Ids(items)) { FilterKeepsDistinctIds((item: Item) => item.id !in ids, items); }
  }

  lemma ExposedSpec(weight: Item -> real, items: seq<Item>, slots: int)
    ensures forall x | x in Exposed(weight, items, slots) :: x in items
    ensures Distinct(Ids(items)) ==> Distinct(Ids(Exposed(weight, items, slots)))
  {
    if 0 < slots < |items| {
      var ids := LightestIds(weight, items, slots);
      FilterSpec((item: Item) => item.id !in ids, items);
      if Distinct(Ids(items)) { FilterKeepsDistinctIds((item: Item) => item.id !in ids, items); }
    }
  }

  /** The policy keeps the lightest: no exposed item weighs less than a kept one. */
  lemma PolicyKeepsLightest(weight: Item -> real, items: seq<Item>, slots: int, kept: Item, exposed: Item)
    requires Distinct(Ids(items)) && 0 < slots < |items|
    requires kept in items && kept !in Exposed(weight, items, slots) && exposed in Exposed(weight, items, slots)
    ensures weight(kept) <= weight(exposed)
  {
    var le := (x: Item, y: Item) => weight(x) <= weight(y);
    var sorted := Sort(le, items);
    var ids := LightestIds(weight, items, slots);
    SortPermutes(le, items);
    SortSorts(le, items);
    FilterSpec((item: Item) => item.id !in ids, items);
    assert kept.id in ids && exposed in items && exposed.id !in ids;
    var i :| 0 <= i < slots && sorted[i].id == kept.id;
    SameIdSameItem(items, sorted[i], kept);
    var j :| 0 <= j < |sorted| && sorted[j] == exposed;
    assert forall m | 0 <= m < slots :: sorted[..slots][m].id in ids && sorted[..slots][m] == sorted[m];
    assert j >= slots;
  }

  lemma SameIdSameItem(items: seq<Item>, x: Item, y: Item)
    requires Distinct(Ids(items)) && x in items && y in items && x.id == y.id
    ensures x == y
  {
    var i :| 0 <= i < |items| && items[i] == x;
    var j :| 0 <= j < |items| && items[j] == y;
    DistinctInjective(Ids(items), i, j);
  }

  lemma DistinctInjective<T>(s: seq<T>, i: nat, j: nat)
    requires Distinct(s) && i < |s| && j < |s| && s[i] == s[j]
    ensures i == j
  {
  }

  lemma DistinctCons<T>(x: T, s: seq<T>)
    requires Distinct(s) && x !in s
    ensures Distinct([x] + s)
  {
  }

  lemma TopIdsSpec(keyed: seq<Keyed>, k: nat)
    requires k <= |keyed|
    ensures |TopIds(keyed, k)| == k
    ensures forall id | id in TopIds(keyed, k) :: id in KeyedIds(keyed)
    ensures Distinct(KeyedIds(keyed)) ==> Distinct(TopIds(keyed, k))
  {
    var sorted := Sort(HIGHER_FIRST, keyed);
    SortPermutes(HIGHER_FIRST, keyed);
    var top := TopIds(keyed, k);
    forall i | 0 <= i < k ensures top[i] in KeyedIds(keyed) {
      assert sorted[i] in keyed;
      var j :| 0 <= j < |keyed| && keyed[j] == sorted[i];
      assert KeyedIds(keyed)[j] == top[i];
    }
    if Distinct(KeyedIds(keyed)) {
      assert Distinct(keyed) by {
        forall i, j | 0 <= i < j < |keyed|
          ensures keyed[i] != keyed[j]
        {
          assert KeyedIds(keyed)[i] != KeyedIds(keyed)[j];
        }
      }
      PermutationKeepsDistinct(keyed, sorted);
      forall i, j | 0 <= i < j < k ensures top[i] != top[j] {
        assert sorted[i] in keyed && sorted[j] in keyed;
        var p :| 0 <= p < |keyed| && keyed[p] == sorted[i];
        var q :| 0 <= q < |keyed| && keyed[q] == sorted[j];
        assert KeyedIds(keyed)[p] == top[i] && KeyedIds(keyed)[q] == top[j];
        assert p != q;
        if p < q {
          assert KeyedIds(keyed)[p] != KeyedIds(keyed)[q];
        } else {
          assert KeyedIds(keyed)[q] != KeyedIds(keyed)[p];
        }
      }
    }
  }

  /** The draw picks the top keys: splitting the keyed items into chosen and
      rejected, every chosen key is at least every rejected one. */
  lemma ChosenKeysAreHighest(keyed: seq<Keyed>, k: nat) returns (chosen: seq<Keyed>, rejected: seq<Keyed>)
    requires k <= |keyed|
    ensures KeyedIds(chosen) == TopIds(keyed, k)
    ensures multiset(chosen) + multiset(rejected) == multiset(keyed)
    ensures forall x, y | x in chosen && y in rejected :: x.key >= y.key
  {
    var sorted := Sort(HIGHER_FIRST, keyed);
    SortPermutes(HIGHER_FIRST, keyed);
    SortSorts(HIGHER_FIRST, keyed);
    chosen, rejected := sorted[..k], sorted[k..];
    assert sorted == chosen + rejected;
    forall x, y | x in chosen && y in rejected ensures x.key >= y.key {
      var i :| 0 <= i < k && chosen[i] == x;
      var j :| 0 <= j < |rejected| && rejected[j] == y;
      assert HIGHER_FIRST(sorted[i], sorted[k + j]);
    }
  }

  /** When sampling runs, k ids are dropped, and the key of a dropped candidate,
      `u ^ (1 / w)` for its own draw and weight, is at least that of any candidate left. */
  lemma SampledKeysAreHighest(
    a: Arithmetic, draw: DrawFunction, weight: Item -> real, items: seq<Item>, k: int, seed: string, slots: int,
    i: nat, j: nat)
    requires Distinct(Ids(items)) && 0 < k < |Exposed(weight, Candidates(items), slots)|
    requires i < |Exposed(weight, Candidates(items), slots)| && j < |Exposed(weight, Candidates(items), slots)|
    ensures var exposed := Exposed(weight, Candidates(items), slots);
      var (dropped, rngOut) := Select(a, draw, weight, items, k, seed, slots);
      && |dropped| == k && (forall id | id in dropped :: id in Ids(exposed))
      && rngOut == DrawsTo(draw, seed, |exposed|)
      && (exposed[i].id in dropped && exposed[j].id !in dropped ==>
            a.root(UnitFloat(draw(seed, i)), weight(exposed[i]))
              >= a.root(UnitFloat(draw(seed, j)), weight(exposed[j])))
  {
    hide Sort, Filter, Candidates, Exposed, LightestIds, UnitFloat, TopIds;
    CandidatesSpec(items);
    var candidates := Candidates(items);
    var exposed := Exposed(weight, candidates, slots);
    ExposedSpec(weight, candidates, slots);
    NoMoreExposed(weight, candidates, slots);
    var keyed := Keys(a, draw, weight, seed, exposed);
    assert KeyedIds(keyed) == Ids(exposed);
    TopIdsSpec(keyed, k);
    var chosen, rejected := ChosenKeysAreHighest(keyed, k);
    if exposed[i].id in KeyedIds(chosen) && exposed[j].id !in KeyedIds(chosen) {
      ChosenById(keyed, chosen, rejected, i);
      RejectedById(keyed, chosen, rejected, j);
    }
  }

  /** The dropped ids are listed by falling key: of two, the earlier one's key is at least
      the later one's. */
  lemma DroppedByFallingKey(
    a: Arithmetic, draw: DrawFunction, weight: Item -> real, items: seq<Item>, k: int, seed: string, slots: int,
    i: nat, j: nat, p: nat, q: nat)
    requires Distinct(Ids(items)) && 0 < k < |Exposed(weight, Candidates(items), slots)| && p < q < k
    requires i < |Exposed(weight, Candidates(items), slots)| && j < |Exposed(weight, Candidates(items), slots)|
    ensures var exposed := Exposed(weight, Candidates(items), slots);
      var dropped := Select(a, draw, weight, items, k, seed, slots).0;
      && |dropped| == k
      && (dropped[p] == exposed[i].id && dropped[q] == exposed[j].id ==>
            a.root(UnitFloat(draw(seed, i)), weight(exposed[i]))
              >= a.root(UnitFloat(draw(seed, j)), weight(exposed[j])))
  {
    hide Filter, Candidates, Exposed, LightestIds, UnitFloat, Sort;
    CandidatesSpec(items);
    var candidates := Candidates(items);
    var exposed := Exposed(weight, candidates, slots);
    ExposedSpec(weight, candidates, slots);
    NoMoreExposed(weight, candidates, slots);
    var keyed := Keys(a, draw, weight, seed, exposed);
    assert KeyedIds(keyed) == Ids(exposed);
    SortPermutes(HIGHER_FIRST, keyed);
    SortSorts(HIGHER_FIRST, keyed);
    var sorted := Sort(HIGHER_FIRST, keyed);
    assert HIGHER_FIRST(sorted[p], sorted[q]);
    if sorted[p].id == exposed[i].id && sorted[q].id == exposed[j].id {
      KeyedById(keyed, sorted[p], i);
      KeyedById(keyed, sorted[q], j);
    }
  }

  lemma KeyedById(keyed: seq<Keyed>, x: Keyed, i: nat)
    requires Distinct(KeyedIds(keyed)) && x in keyed && i < |keyed| && x.id == keyed[i].id
    ensures x == keyed[i]
  {
    var n :| 0 <= n < |keyed| && keyed[n] == x;
    assert KeyedIds(keyed)[n] == KeyedIds(keyed)[i];
    DistinctInjective(KeyedIds(keyed), n, i);
  }

  lemma ChosenById(keyed: seq<Keyed>, chosen: seq<Keyed>, rejected: seq<Keyed>, i: nat)
    requires multiset(chosen) + multiset(rejected) == multiset(keyed) && Distinct(KeyedIds(keyed))
    requires i < |keyed| && keyed[i].id in KeyedIds(chosen)
    ensures keyed[i] in chosen
  {
    var m :| 0 <= m < |chosen| && KeyedIds(chosen)[m] == keyed[i].id;
    assert chosen[m] in multiset(chosen) && chosen[m] in multiset(keyed);
    var n :| 0 <= n < |keyed| && keyed[n] == chosen[m];
    assert KeyedIds(keyed)[n] == KeyedIds(keyed)[i];
    DistinctInjective(KeyedIds(keyed), n, i);
  }

  lemma RejectedById(keyed: seq<Keyed>, chosen: seq<Keyed>, rejected: seq<Keyed>, j: nat)
    requires multiset(chosen) + multiset(rejected) == multiset(keyed)
    requires j < |keyed| && keyed[j].id !in KeyedIds(chosen)
    ensures keyed[j] in rejected
  {
    assert keyed[j] in multiset(keyed);
    forall m | 0 <= m < |chosen| ensures chosen[m] != keyed[j] { assert KeyedIds(chosen)[m] == chosen[m].id; }
  }

  lemma NoMoreExposed(weight: Item -> real, items: seq<Item>, slots: int)
    ensures |Exposed(weight, items, slots)| <= |items|
  {
    hide LightestIds, Sort;
    if 0 < slots < |items| { FilterSpec((item: Item) => item.id !in LightestIds(weight, items, slots), items); }
  }

  /** Every dropped id belongs to an unprotected item; no more than k drop, and with
      distinct ids none twice. */
  lemma SelectSpec(
    a: Arithmetic, draw: DrawFunction, weight: Item -> real, items: seq<Item>, k: int, seed: string, slots: int)
    ensures var dropped := Select(a, draw, weight, items, k, seed, slots).0;
      && |dropped| <= Max(0, k)
      && (forall id | id in dropped :: exists x | x in items :: x.id == id && !Protected(x))
      && (Distinct(Ids(items)) ==> Distinct(dropped))
  {
    hide Sort, Filter, TopIds, Candidates, Exposed, LightestIds;
    CandidatesSpec(items);
    var candidates := Candidates(items);
    var exposed := Exposed(weight, candidates, slots);
    ExposedSpec(weight, candidates, slots);
    var keyed := Keys(a, draw, weight, seed, exposed);
    assert KeyedIds(keyed) == Ids(exposed);
    if 0 < k < |exposed| { TopIdsSpec(keyed, k); }
    assert forall id | id in Ids(candidates) :: exists x | x in candidates :: x.id == id;
    assert forall id | id in Ids(exposed) :: exists x | x in exposed :: x.id == id;
  }

  // ----- the whole computation -----

  /** For any policy and any weights: dropped and kept partition the inventory,
      nothing protected drops, and at least min(|items|, protectedSlots) items are kept. */
  lemma SelectionPartitions(
    a: Arithmetic, draw: DrawFunction, weight: Item -> real, items: seq<Item>, reputation: real, seed: string,
    p: Policy)
    requires Distinct(Ids(items))
    ensures var count := DropCount(a, |items|, reputation, p);
      var dropped := Select(a, draw, weight, items, count, seed, p.protectedSlots).0;
      var kept := KeptIds(items, dropped);
      && multiset(dropped) + multiset(kept) == multiset(Ids(items))
      && (forall x | x in items && Protected(x) :: x.id in kept)
      && |dropped| <= Max(0, count)
      && |kept| >= Min(|items|, p.protectedSlots)
  {
    hide Select, DropCount, KeptIds;
    var count := DropCount(a, |items|, reputation, p);
    var dropped := Select(a, draw, weight, items, count, seed, p.protectedSlots).0;
    SelectSpec(a, draw, weight, items, count, seed, p.protectedSlots);
    KeptComplements(items, dropped);
    CountBounded(a, |items|, reputation, p);
    SameSize(dropped, KeptIds(items, dropped), Ids(items));
  }

  /** The same of a death on a map with a policy. */
  lemma DeathDropsPartition(
    a: Arithmetic, draw: DrawFunction, items: seq<Item>, mapName: string, reputation: real, seed: string,
    lookup: HeatMap, ambient: HeatMap)
    requires Distinct(Ids(items)) && PolicyFor(mapName).Some?
    ensures var r := DeathDrops(a, draw, items, mapName, reputation, seed, lookup, ambient);
      && r.Some?
      && multiset(r.value.dropped) + multiset(r.value.kept) == multiset(Ids(items))
      && (forall x | x in items && Protected(x) :: x.id in r.value.kept)
      && r.value.dropCount.Number? && |r.value.dropped| <= Max(0, r.value.dropCount.n)
      && |r.value.kept| >= Min(|items|, PolicyFor(mapName).value.protectedSlots)
  {
    hide Select, ItemWeight, DropCount, KeptIds;
    if items == [] {
      assert Ids(items) == [];
    } else {
      var weight := (item: Item) => ItemWeight(a, item, lookup, ambient);
      SelectionPartitions(a, draw, weight, items, reputation, seed, PolicyFor(mapName).value);
    }
  }

  lemma SameSize(x: seq<string>, y: seq<string>, whole: seq<string>)
    requires multiset(x) + multiset(y) == multiset(whole)
    ensures |x| + |y| == |whole|
  {
    assert |multiset(x)| == |x| && |multiset(y)| == |y| && |multiset(whole)| == |whole|;
  }

  lemma KeptComplements(items: seq<Item>, dropped: seq<string>)
    requires Distinct(Ids(items)) && Distinct(dropped)
    requires forall id | id in dropped :: exists x | x in items :: x.id == id && !Protected(x)
    ensures multiset(dropped) + multiset(KeptIds(items, dropped)) == multiset(Ids(items))
    ensures forall x | x in items && Protected(x) :: x.id in KeptIds(items, dropped)
  {
    var ids := Ids(items);
    var isDropped, isKept := (id: string) => id in dropped, (id: string) => id !in dropped;
    FilterSplits(isKept, isDropped, ids);
    FilterSpec(isDropped, ids);
    FilterSpec(isKept, ids);
    FilterKeepsDistinct(isDropped, ids);
    forall x | x in items ensures x.id in ids {
      var i :| 0 <= i < |items| && items[i] == x;
      assert ids[i] == x.id;
    }
    DistinctSameElements(dropped, Filter(isDropped, ids));
    forall x | x in items && Protected(x) ensures x.id !in dropped {
      forall y | y in items && y.id == x.id ensures y == x { SameIdSameItem(items, x, y); }
    }
  }

  lemma CountBounded(a: Arithmetic, n: int, reputation: real, p: Policy)
    ensures Max(0, DropCount(a, n, reputation, p)) <= Max(0, n - p.protectedSlots)
  {
  }

  /** Nothing ever drops in Rookguard. */
  lemma RookguardIsSafe(
    a: Arithmetic, draw: DrawFunction, items: seq<Item>, reputation: real, seed: string, lookup: HeatMap,
    ambient: HeatMap)
    ensures var r := DeathDrops(a, draw, items, "Rookguard", reputation, seed, lookup, ambient);
      r.Some? && r.value.dropped == [] && r.value.kept == Ids(items)
  {
    hide Sort, ItemWeight, Candidates, Exposed, TopIds;
    if items == [] {
      assert Ids(items) == [];
    } else {
      assert DropCount(a, |items|, reputation, ROOKGUARD) <= 0;
      KeepAll(Ids(items));
    }
  }

  /** A worse reputation never makes fewer items drop. */
  lemma WorseReputationDropsMore(a: Arithmetic, n: int, better: real, worse: real, p: Policy)
    requires forall x: real, y: real | x <= y :: a.exp(x) <= a.exp(y)
    requires worse <= better && p.repBias >= 0.0
    ensures DropCount(a, n, better, p) <= DropCount(a, n, worse, p)
  {
    hide DropRatio, CountFor;
    RatioMonotone(a, n, better, worse, p);
    if n > 0 { CountMonotone(DropRatio(a, n, better, p), DropRatio(a, n, worse, p), n, p); }
  }

  lemma CountMonotone(x: real, y: real, n: int, p: Policy)
    requires x <= y && n >= 0
    ensures CountFor(x, n, p) <= CountFor(y, n, p)
  {
    ScaleMonotone(n as real, x, y);
    RoundMonotone(x * n as real, y * n as real);
  }

  lemma RoundMonotone(x: real, y: real)
    requires x <= y
    ensures Round(x) <= Round(y)
  {
  }

  lemma RatioMonotone(a: Arithmetic, n: int, better: real, worse: real, p: Policy)
    requires forall x: real, y: real | x <= y :: a.exp(x) <= a.exp(y)
    requires worse <= better && p.repBias >= 0.0
    ensures DropRatio(a, n, better, p) <= DropRatio(a, n, worse, p)
  {
    hide ReputationTerm, StackTerm;
    TermMonotone(a, better, worse, p);
  }

  lemma TermMonotone(a: Arithmetic, better: real, worse: real, p: Policy)
    requires forall x: real, y: real | x <= y :: a.exp(x) <= a.exp(y)
    requires worse <= better && p.repBias >= 0.0
    ensures ReputationTerm(a, better, p) <= ReputationTerm(a, worse, p)
  {
    var sb, sw := Saturation(a, Negative(better), 5.0), Saturation(a, Negative(worse), 5.0);
    assert sb <= sw by {
      assert -Negative(worse) / 5.0 <= -Negative(better) / 5.0;
    }
    ScaleMonotone(p.repBias, sb, sw);
  }

  lemma ScaleMonotone(c: real, x: real, y: real)
    requires c >= 0.0 && x <= y
    ensures c * x <= c * y && x * c <= y * c
  {
  }

  // ----- what the result depends on -----

  /** Two inventories are alike for the selection: same ids, same weights, same protection. */
  ghost predicate Alike(wa: Item -> real, wb: Item -> real, xs: seq<Item>, ys: seq<Item>) {
    && |xs| == |ys|
    && forall i | 0 <= i < |xs| ::
         xs[i].id == ys[i].id && wa(xs[i]) == wb(ys[i]) && Protected(xs[i]) == Protected(ys[i])
  }

  lemma AlikeIds(wa: Item -> real, wb: Item -> real, xs: seq<Item>, ys: seq<Item>)
    requires Alike(wa, wb, xs, ys)
    ensures Ids(xs) == Ids(ys) && IdSet(xs) == IdSet(ys)
  {
    assert IdSet(xs) == set i | 0 <= i < |xs| :: ys[i].id;
  }

  lemma {:induction false} AlikeFilter(
    wa: Item -> real, wb: Item -> real, f: Item -> bool, g: Item -> bool, xs: seq<Item>, ys: seq<Item>)
    requires Alike(wa, wb, xs, ys)
    requires forall i | 0 <= i < |xs| :: f(xs[i]) == g(ys[i])
    ensures Alike(wa, wb, Filter(f, xs), Filter(g, ys))
  {
    if xs != [] {
      AlikeFilter(wa, wb, f, g, xs[1..], ys[1..]);
    }
  }

  lemma AlikeWithout(wa: Item -> real, wb: Item -> real, xs: seq<Item>, ys: seq<Item>, ids: set<string>)
    requires Alike(wa, wb, xs, ys)
    ensures Alike(wa, wb, Without(xs, ids), Without(ys, ids))
  {
    AlikeFilter(wa, wb, (item: Item) => item.id !in ids, (item: Item) => item.id !in ids, xs, ys);
  }

  lemma AlikeCandidates(wa: Item -> real, wb: Item -> real, xs: seq<Item>, ys: seq<Item>)
    requires Alike(wa, wb, xs, ys)
    ensures Alike(wa, wb, Candidates(xs), Candidates(ys))
  {
    var isProtected := (item: Item) => Protected(item);
    AlikeFilter(wa, wb, isProtected, isProtected, xs, ys);
    AlikeIds(wa, wb, Filter(isProtected, xs), Filter(isProtected, ys));
    AlikeWithout(wa, wb, xs, ys, IdSet(Filter(isProtected, xs)));
  }

  lemma {:induction false} AlikeInsert(
    wa: Item -> real, wb: Item -> real, x: Item, y: Item, xs: seq<Item>, ys: seq<Item>)
    requires Alike(wa, wb, xs, ys)
    requires x.id == y.id && wa(x) == wb(y) && Protected(x) == Protected(y)
    ensures Alike(wa, wb, Insert((p: Item, q: Item) => wa(p) <= wa(q), x, xs),
      Insert((p: Item, q: Item) => wb(p) <= wb(q), y, ys))
  {
    if xs != [] && !(wa(x) <= wa(xs[0])) {
      AlikeInsert(wa, wb, x, y, xs[1..], ys[1..]);
    }
  }

  lemma {:induction false} AlikeSort(wa: Item -> real, wb: Item -> real, xs: seq<Item>, ys: seq<Item>)
    requires Alike(wa, wb, xs, ys)
    ensures Alike(wa, wb, Sort((p: Item, q: Item) => wa(p) <= wa(q), xs),
      Sort((p: Item, q: Item) => wb(p) <= wb(q), ys))
  {
    if xs != [] {
      AlikeSort(wa, wb, xs[1..], ys[1..]);
      AlikeInsert(wa, wb, xs[0], ys[0], Sort((p: Item, q: Item) => wa(p) <= wa(q), xs[1..]),
        Sort((p: Item, q: Item) => wb(p) <= wb(q), ys[1..]));
    }
  }

  lemma AlikeExposed(wa: Item -> real, wb: Item -> real, xs: seq<Item>, ys: seq<Item>, slots: int)
    requires Alike(wa, wb, xs, ys)
    ensures Alike(wa, wb, Exposed(wa, xs, slots), Exposed(wb, ys, slots))
  {
    if 0 < slots < |xs| {
      var oa, ob := (p: Item, q: Item) => wa(p) <= wa(q), (p: Item, q: Item) => wb(p) <= wb(q);
      AlikeSort(wa, wb, xs, ys);
      SortPermutes(oa, xs);
      SortPermutes(ob, ys);
      AlikeIds(wa, wb, Sort(oa, xs)[..slots], Sort(ob, ys)[..slots]);
      AlikeWithout(wa, wb, xs, ys, LightestIds(wa, xs, slots));
    }
  }

  /** The selection sees ids, weights and protection, nothing else. */
  lemma AlikeSelect(
    a: Arithmetic, draw: DrawFunction, wa: Item -> real, wb: Item -> real,
    xs: seq<Item>, ys: seq<Item>, k: int, seed: string, slots: int)
    requires Alike(wa, wb, xs, ys)
    ensures Select(a, draw, wa, xs, k, seed, slots) == Select(a, draw, wb, ys, k, seed, slots)
  {
    hide Sort, Filter, TopIds, Candidates, Exposed, LightestIds;
    AlikeCandidates(wa, wb, xs, ys);
    AlikeIds(wa, wb, Candidates(xs), Candidates(ys));
    AlikeExposed(wa, wb, Candidates(xs), Candidates(ys), slots);
    var ea, eb := Exposed(wa, Candidates(xs), slots), Exposed(wb, Candidates(ys), slots);
    AlikeIds(wa, wb, ea, eb);
    assert Keys(a, draw, wa, seed, ea) == Keys(a, draw, wb, seed, eb);
  }

  lemma AlikeDrops(
    a: Arithmetic, draw: DrawFunction, xs: seq<Item>, ys: seq<Item>, mapName: string, reputation: real, seed: string,
    lookupA: HeatMap, ambientA: HeatMap, lookupB: HeatMap, ambientB: HeatMap)
    requires Alike((item: Item) => ItemWeight(a, item, lookupA, ambientA),
      (item: Item) => ItemWeight(a, item, lookupB, ambientB), xs, ys)
    ensures DeathDrops(a, draw, xs, mapName, reputation, seed, lookupA, ambientA)
         == DeathDrops(a, draw, ys, mapName, reputation, seed, lookupB, ambientB)
  {
    hide Select, ItemWeight, DropCount;
    var wa, wb := (item: Item) => ItemWeight(a, item, lookupA, ambientA),
      (item: Item) => ItemWeight(a, item, lookupB, ambientB);
    AlikeIds(wa, wb, xs, ys);
    if xs != [] && PolicyFor(mapName).Some? {
      var p := PolicyFor(mapName).value;
      AlikeSelect(a, draw, wa, wb, xs, ys, DropCount(a, |xs|, reputation, p), seed, p.protectedSlots);
    }
  }

  /** With a heat for every legendary item in the lookup, the server's own table
      plays no part: the result can be recomputed offline. */
  lemma LookupMakesItOffline(
    a: Arithmetic, draw: DrawFunction, items: seq<Item>, mapName: string, reputation: real, seed: string,
    lookup: HeatMap, ambientA: HeatMap, ambientB: HeatMap)
    requires forall x | x in items && IsLegendary(x) :: x.id in lookup
    ensures DeathDrops(a, draw, items, mapName, reputation, seed, lookup, ambientA)
         == DeathDrops(a, draw, items, mapName, reputation, seed, lookup, ambientB)
  {
    AlikeDrops(a, draw, items, items, mapName, reputation, seed, lookup, ambientA, lookup, ambientB);
  }
}
