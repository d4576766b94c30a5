/** How many items drop: what reputation, inventory and policy do to the count, and that
    the selection drops exactly that many. */
module DropCounts {
  import opened Json
  import opened Sorting
  import opened Rng
  import opened DropPolicy
  import opened DropTheorems

  /** The exponential: strictly increasing, and 1 at 0. */
  ghost predicate ProperExp(a: Arithmetic) {
    a.exp(0.0) == 1.0 && forall x: real, y: real :: x < y ==> a.exp(x) < a.exp(y)
  }

  // ----- the ratio -----

  lemma SaturationGrows(a: Arithmetic, x: real, y: real, scale: real)
    requires ProperExp(a) && 0.0 <= x < y && scale > 0.0
    ensures 0.0 <= Saturation(a, x, scale) < Saturation(a, y, scale)
    ensures Saturation(a, 0.0, scale) == 0.0
  {
    assert -y / scale < -x / scale <= 0.0 by { DivideGrows(x, y, scale); }
    assert -0.0 / scale == 0.0;
  }

  lemma DivideGrows(x: real, y: real, scale: real)
    requires 0.0 <= x < y && scale > 0.0
    ensures -y / scale < -x / scale <= 0.0
  {
    assert (-x / scale) * scale == -x && (-y / scale) * scale == -y;
  }

  lemma ScaleGrows(c: real, x: real, y: real)
    requires c > 0.0 && x < y
    ensures c * x < c * y
  {
  }

  lemma SaturationNotNegative(a: Arithmetic, x: real, scale: real)
    requires ProperExp(a) && 0.0 <= x && scale > 0.0
    ensures Saturation(a, x, scale) >= 0.0
  {
    if x > 0.0 { SaturationGrows(a, 0.0, x, scale); } else { assert -x / scale == 0.0; }
  }

  lemma StackTermNotNegative(a: Arithmetic, n: int, p: Policy)
    requires ProperExp(a) && p.stackBias >= 0.0
    ensures StackTerm(a, n, p) >= 0.0
  {
    SaturationNotNegative(a, Max(0, n - 3) as real, 4.0);
    hide Saturation;
  }

  lemma ReputationTermNotNegative(a: Arithmetic, reputation: real, p: Policy)
    requires ProperExp(a) && p.repBias >= 0.0
    ensures ReputationTerm(a, reputation, p) >= 0.0
  {
    SaturationNotNegative(a, Negative(reputation), 5.0);
    hide Saturation;
  }

  /** Every point of bad reputation counts: a worse one raises the ratio strictly, until
      it reaches 1. */
  lemma WorseReputationRaisesRatio(a: Arithmetic, n: int, better: real, worse: real, p: Policy)
    requires ProperExp(a) && p.baseDropRatio >= 0.0 && p.repBias > 0.0 && p.stackBias >= 0.0
    requires worse < 0.0 && worse < better
    ensures DropRatio(a, n, better, p) < DropRatio(a, n, worse, p) || DropRatio(a, n, better, p) == 1.0
    ensures DropRatio(a, n, better, p) == 1.0 ==> DropRatio(a, n, worse, p) == 1.0
  {
    StackTermNotNegative(a, n, p);
    ReputationTermNotNegative(a, better, p);
    SaturationGrows(a, Negative(better), Negative(worse), 5.0);
    hide Saturation, StackTerm;
    ScaleGrows(p.repBias, Saturation(a, Negative(better), 5.0), Saturation(a, Negative(worse), 5.0));
    assert ReputationTerm(a, better, p) < ReputationTerm(a, worse, p);
    hide ReputationTerm;
    ClampGrows(p.baseDropRatio + ReputationTerm(a, better, p) + StackTerm(a, n, p),
               p.baseDropRatio + ReputationTerm(a, worse, p) + StackTerm(a, n, p));
  }

  lemma ClampGrows(x: real, y: real)
    requires 0.0 <= x < y
    ensures Clamp01(x) < Clamp01(y) || Clamp01(x) == 1.0
    ensures Clamp01(x) == 1.0 ==> Clamp01(y) == 1.0
  {
  }

  /** Good reputation is no excuse and no burden: from 0 up all count alike. */
  lemma GoodReputationsAlike(a: Arithmetic, n: int, x: real, y: real, p: Policy)
    requires x >= 0.0 && y >= 0.0
    ensures DropCount(a, n, x, p) == DropCount(a, n, y, p)
  {
    hide ReputationTerm, StackTerm, CountFor, Clamp01;
    GoodIsZero(a, x, p);
    GoodIsZero(a, y, p);
  }

  lemma GoodIsZero(a: Arithmetic, reputation: real, p: Policy)
    requires reputation >= 0.0
    ensures ReputationTerm(a, reputation, p) == p.repBias * Saturation(a, 0.0, 5.0)
  {
    hide Saturation;
  }

  /** Each item beyond three raises the ratio strictly, until it reaches 1; the first three do not. */
  lemma MoreItemsRaiseRatio(a: Arithmetic, n: int, m: int, reputation: real, p: Policy)
    requires ProperExp(a) && p.baseDropRatio >= 0.0 && p.repBias >= 0.0 && p.stackBias > 0.0 && n < m
    ensures m <= 3 ==> DropRatio(a, n, reputation, p) == DropRatio(a, m, reputation, p)
    ensures m > 3 ==>
      DropRatio(a, n, reputation, p) < DropRatio(a, m, reputation, p) || DropRatio(a, n, reputation, p) == 1.0
  {
    ReputationTermNotNegative(a, reputation, p);
    StackTermNotNegative(a, n, p);
    hide ReputationTerm;
    if m > 3 {
      var x, y := Max(0, n - 3) as real, Max(0, m - 3) as real;
      SaturationGrows(a, x, y, 4.0);
      hide Saturation;
      ScaleGrows(p.stackBias, Saturation(a, x, 4.0), Saturation(a, y, 4.0));
      assert StackTerm(a, n, p) < StackTerm(a, m, p);
      hide StackTerm;
      ClampGrows(p.baseDropRatio + ReputationTerm(a, reputation, p) + StackTerm(a, n, p),
                 p.baseDropRatio + ReputationTerm(a, reputation, p) + StackTerm(a, m, p));
    }
  }

  /** Without bad reputation and with three items or fewer the ratio is that of the policy. */
  lemma BaseRatio(a: Arithmetic, n: int, reputation: real, p: Policy)
    requires ProperExp(a) && reputation >= 0.0 && n <= 3 && 0.0 <= p.baseDropRatio <= 1.0
    ensures DropRatio(a, n, reputation, p) == p.baseDropRatio
  {
    assert -0.0 / 5.0 == 0.0 && -0.0 / 4.0 == 0.0;
  }

  // ----- the count -----

  /** Rounded to the nearest whole number, halves up. */
  lemma RoundsToNearest(x: real)
    ensures Round(x) as real - 0.5 <= x < Round(x) as real + 0.5
  {
  }

  /** The count is the rounded share, held between the floor and the cap of the policy,
      and leaves the protected slots; the floor holds where the slots allow it. */
  lemma CountIsRoundedShare(a: Arithmetic, n: int, reputation: real, p: Policy)
    requires n > 0 && p.minDrop <= p.maxDrop.GetOr(n)
    ensures var count, share := DropCount(a, n, reputation, p), DropRatio(a, n, reputation, p) * n as real;
      var open := Max(0, n - p.protectedSlots);
      && count <= open && count <= p.maxDrop.GetOr(n)
      && (p.minDrop <= open ==> count >= p.minDrop)
      && (p.minDrop < count < p.maxDrop.GetOr(n) && count < open ==> count as real - 0.5 <= share < count as real + 0.5)
      && (count == p.minDrop && count < p.maxDrop.GetOr(n) && count < open ==> share < count as real + 0.5)
      && (count == p.maxDrop.GetOr(n) && p.minDrop < count ==> count as real - 0.5 <= share)
  {
    hide DropRatio;
    RoundsToNearest(DropRatio(a, n, reputation, p) * n as real);
    hide Round;
  }

  /** One, two or three items at good reputation in Azura: 1, 1 and 2 drop. */
  lemma SmallInventoryInAzura(a: Arithmetic, reputation: real)
    requires ProperExp(a) && reputation >= 0.0
    ensures DropCount(a, 1, reputation, AZURA) == 1
    ensures DropCount(a, 2, reputation, AZURA) == 1
    ensures DropCount(a, 3, reputation, AZURA) == 2
  {
    BaseRatio(a, 1, reputation, AZURA);
    BaseRatio(a, 2, reputation, AZURA);
    BaseRatio(a, 3, reputation, AZURA);
    hide DropRatio;
  }

  /** Ten items in Azura: 7 drop at good reputation, 8 at -20. */
  lemma TenItemsInAzura(a: Arithmetic)
    requires ProperExp(a) && 0.018 <= a.exp(-4.0) <= 0.019 && 0.17 <= a.exp(-1.75) <= 0.18
    ensures DropCount(a, 10, 0.0, AZURA) == 7 && DropCount(a, 10, -20.0, AZURA) == 8
  {
    assert -0.0 / 5.0 == 0.0 && -20.0 / 5.0 == -4.0 && -7.0 / 4.0 == -1.75;
    assert Max(0, 10 - 3) as real == 7.0;
    assert StackTerm(a, 10, AZURA) == 0.1 * (1.0 - a.exp(-1.75));
    assert ReputationTerm(a, 0.0, AZURA) == 0.0;
    assert ReputationTerm(a, -20.0, AZURA) == 0.15 * (1.0 - a.exp(-4.0));
    hide StackTerm, ReputationTerm;
  }

  // ----- that many drop -----

  function Unprotected(items: seq<Item>): seq<Item> {
    Filter((item: Item) => item.slot != Some(Str("protected")), items)
  }

  lemma {:induction false} FilterAlike<T>(f: T -> bool, g: T -> bool, s: seq<T>)
    requires forall x | x in s :: f(x) == g(x)
    ensures Filter(f, s) == Filter(g, s)
  {
    if s != [] { FilterAlike(f, g, s[1..]); }
  }

  /** With distinct ids the candidates are the unprotected items. */
  lemma CandidatesAreUnprotected(items: seq<Item>)
    requires Distinct(Ids(items))
    ensures Candidates(items) == Unprotected(items)
  {
    var isProtected := (item: Item) => Protected(item);
    var ids := IdSet(Filter(isProtected, items));
    FilterSpec(isProtected, items);
    forall x | x in items ensures (x.id !in ids) == !Protected(x) {
      if x.id in ids {
        var i :| 0 <= i < |Filter(isProtected, items)| && Filter(isProtected, items)[i].id == x.id;
        var y := Filter(isProtected, items)[i];
        assert y in Filter(isProtected, items);
        SameIdSameItem(items, x, y);
      }
      if Protected(x) {
        assert x in Filter(isProtected, items);
        var i :| 0 <= i < |Filter(isProtected, items)| && Filter(isProtected, items)[i] == x;
      }
    }
    FilterAlike((item: Item) => item.id !in ids, (item: Item) => item.slot != Some(Str("protected")), items);
  }

  lemma {:induction false} FilterSize<T>(keep: T -> bool, drop: T -> bool, s: seq<T>)
    requires forall x :: drop(x) == !keep(x)
    ensures |Filter(keep, s)| + |Filter(drop, s)| == |s|
  {
    if s != [] { FilterSize(keep, drop, s[1..]); }
  }

  /** The ids of the first m of a list with distinct ids are m ids. */
  lemma {:induction false} DistinctIdSet(items: seq<Item>)
    requires Distinct(Ids(items))
    ensures |IdSet(items)| == |items|
  {
    if items != [] {
      var front, last := items[..|items| - 1], items[|items| - 1];
      assert Ids(front) == Ids(items)[..|items| - 1];
      DistinctIdSet(front);
      assert IdSet(items) == IdSet(front) + {last.id} by {
        forall id ensures id in IdSet(items) <==> id in IdSet(front) + {last.id} {
          if id in IdSet(items) {
            var i :| 0 <= i < |items| && items[i].id == id;
            if i < |front| { assert front[i].id == id; }
          }
          if id in IdSet(front) {
            var i :| 0 <= i < |front| && front[i].id == id;
            assert items[i].id == id;
          }
        }
      }
      assert last.id !in IdSet(front) by {
        forall i | 0 <= i < |front| ensures front[i].id != last.id {
          assert Ids(items)[i] != Ids(items)[|items| - 1];
        }
      }
    }
  }

  lemma {:induction false} ListedSize(items: seq<Item>, ids: set<string>)
    requires Distinct(Ids(items)) && ids <= IdSet(items)
    ensures |Filter((item: Item) => item.id in ids, items)| == |ids|
  {
    if items == [] {
      assert ids == {};
    } else {
      var rest := items[1..];
      var id := items[0].id;
      assert Ids(rest) == Ids(items)[1..];
      assert id !in IdSet(rest) by {
        forall i | 0 <= i < |rest| ensures rest[i].id != id { assert Ids(items)[0] != Ids(items)[i + 1]; }
      }
      assert ids - {id} <= IdSet(rest) by {
        forall k | k in ids - {id} ensures k in IdSet(rest) {
          var i :| 0 <= i < |items| && items[i].id == k;
          assert rest[i - 1].id == k;
        }
      }
      ListedSize(rest, ids - {id});
      forall x | x in rest ensures (x.id in ids) == (x.id in ids - {id}) {
        var i :| 0 <= i < |rest| && rest[i] == x;
        assert x.id in IdSet(rest);
      }
      FilterAlike((item: Item) => item.id in ids, (item: Item) => item.id in ids - {id}, rest);
    }
  }

  /** With distinct ids the policy keeps back exactly its slots. */
  lemma ExposedSize(weight: Item -> real, items: seq<Item>, slots: int)
    requires Distinct(Ids(items))
    ensures |Exposed(weight, items, slots)| == if 0 < slots < |items| then |items| - slots else |items|
  {
    if 0 < slots < |items| {
      var le := (x: Item, y: Item) => weight(x) <= weight(y);
      var sorted := Sort(le, items);
      SortPermutes(le, items);
      SortedIdsDistinct(items, sorted);
      assert Ids(sorted[..slots]) == Ids(sorted)[..slots];
      DistinctIdSet(sorted[..slots]);
      var ids := LightestIds(weight, items, slots);
      assert ids <= IdSet(items) by {
        forall id | id in ids ensures id in IdSet(items) {
          var i :| 0 <= i < slots && sorted[..slots][i].id == id;
          assert sorted[i] in items;
          var j :| 0 <= j < |items| && items[j] == sorted[i];
        }
      }
      ListedSize(items, ids);
      FilterSize((item: Item) => item.id in ids, (item: Item) => item.id !in ids, items);
    }
  }

  lemma SortedIdsDistinct(items: seq<Item>, sorted: seq<Item>)
    requires Distinct(Ids(items)) && multiset(sorted) == multiset(items)
    ensures Distinct(Ids(sorted))
  {
    assert Distinct(items) by {
      forall i, j | 0 <= i < j < |items| ensures items[i] != items[j] { assert Ids(items)[i] != Ids(items)[j]; }
    }
    PermutationKeepsDistinct(items, sorted);
    SameElements(items, sorted);
    forall i, j | 0 <= i < j < |sorted| ensures Ids(sorted)[i] != Ids(sorted)[j] {
      if sorted[i].id == sorted[j].id {
        assert sorted[i] in items && sorted[j] in items;
        SameIdSameItem(items, sorted[i], sorted[j]);
      }
    }
  }

  /** With distinct ids the selection drops exactly k items; all unprotected ones when
      there are no more than k, and all the slots leave when those are fewer. */
  lemma SelectDropsExactly(
    a: Arithmetic, draw: DrawFunction, weight: Item -> real, items: seq<Item>, k: int, seed: string, slots: int)
    requires Distinct(Ids(items))
    ensures var free := |Unprotected(items)|;
      |Select(a, draw, weight, items, k, seed, slots).0| ==
        if k <= 0 then 0
        else if k >= free then free
        else Min(k, if 0 < slots < free then free - slots else free)
  {
    hide Sort, Filter, TopIds, Candidates, LightestIds, Exposed;
    CandidatesSpec(items);
    CandidatesAreUnprotected(items);
    var candidates := Candidates(items);
    ExposedSize(weight, candidates, slots);
    var exposed := Exposed(weight, candidates, slots);
    var keyed := Keys(a, draw, weight, seed, exposed);
    if 0 < k < |exposed| { TopIdsSpec(keyed, k); }
  }

  /** A death in Azura drops exactly the count, or every unprotected item if those are fewer. */
  lemma AzuraDropsExactly(
    a: Arithmetic, draw: DrawFunction, items: seq<Item>, reputation: real, seed: string, lookup: HeatMap,
    ambient: HeatMap)
    requires Distinct(Ids(items))
    ensures var r := DeathDrops(a, draw, items, "Azura", reputation, seed, lookup, ambient);
      && r.Some? && r.value.dropCount == Number(DropCount(a, |items|, reputation, AZURA))
      && |r.value.dropped| == Min(DropCount(a, |items|, reputation, AZURA), |Unprotected(items)|)
      && (Unprotected(items) != [] ==> |r.value.dropped| >= 1)
  {
    hide Select, ItemWeight, KeptIds, Protected, DropRatio, Filter;
    if items == [] {
      assert Unprotected(items) == [] by { NothingFiltered(); }
    } else {
      var weight := (item: Item) => ItemWeight(a, item, lookup, ambient);
      var count := DropCount(a, |items|, reputation, AZURA);
      SelectDropsExactly(a, draw, weight, items, count, seed, 0);
      CountIsRoundedShare(a, |items|, reputation, AZURA);
    }
  }

  lemma NothingFiltered()
    ensures Unprotected([]) == []
  {
  }

  // ----- weights and draws -----

  /** A larger draw is a larger unit, except that 0 counts as 1; the largest is 1. */
  lemma UnitsAscend(u: u32, v: u32)
    requires u < v
    ensures UnitFloat(u) < UnitFloat(v) || (u == 0 && v == 1)
    ensures UnitFloat(0) == UnitFloat(1) && UnitFloat(4294967295) == 1.0
  {
    var x, y := u as real / 4294967295.0, v as real / 4294967295.0;
    assert x * 4294967295.0 == u as real && y * 4294967295.0 == v as real;
  }

  predicate LacksTier(item: Item)
    requires item.meta.Some?
  {
    NumberIn(item.meta.value, "legendary_tier").None?
  }

  /** What an item weighs: 1, a mark token half of that; a legendary item 2.25 times as much
      at tier 1 without heat.  More heat and a higher tier weigh strictly more. */
  lemma Weights(a: Arithmetic, item: Item, lookup: HeatMap, ambient: HeatMap)
    requires ProperExp(a)
    ensures !IsLegendary(item) ==>
      ItemWeight(a, item, lookup, ambient) == if item.itemType == "mark_token" then 0.5 else 1.0
    ensures IsLegendary(item) && LacksTier(item) && HeatOf(item.id, lookup, ambient) == 0.0 ==>
      ItemWeight(a, item, lookup, ambient) == if item.itemType == "mark_token" then 1.125 else 2.25
    ensures forall tier, cool, hot :: cool < hot ==>
      LegendaryMultiplier(a, tier, cool) < LegendaryMultiplier(a, tier, hot)
    ensures forall low, high, heat :: low < high ==>
      LegendaryMultiplier(a, low, heat) < LegendaryMultiplier(a, high, heat)
    ensures forall tier :: LegendaryMultiplier(a, tier, 6.0) == 1.0 + 1.25 * tier + 3.0 * (1.0 - a.exp(-1.0))
  {
    assert -0.0 / 6.0 == 0.0 && -6.0 / 6.0 == -1.0;
    forall tier: real, cool: real, hot: real | cool < hot
      ensures LegendaryMultiplier(a, tier, cool) < LegendaryMultiplier(a, tier, hot)
    {
      assert -hot / 6.0 < -cool / 6.0;
    }
  }

  /** A mark that is false, 0, empty or null makes nothing legendary, any other value does;
      the heat of the lookup hides the server's, which counts where the lookup is silent. */
  lemma MarksAndHeats(item: Item, lookup: HeatMap, ambient: HeatMap, id: string)
    ensures IsLegendary(item) <==>
      && item.meta.Some? && "legendary" in item.meta.value
      && item.meta.value["legendary"] !in {Null, Bool(false), Num("0"), Str("")}
    ensures id in lookup ==> HeatOf(id, lookup, ambient) == lookup[id]
    ensures id !in lookup && id in ambient ==> HeatOf(id, lookup, ambient) == ambient[id]
    ensures id !in lookup && id !in ambient ==> HeatOf(id, lookup, ambient) == 0.0
  {
  }
}
