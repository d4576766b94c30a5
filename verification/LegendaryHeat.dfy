/** The server's heat table for legendary items: fights add heat, time in a safe
    zone takes it away, and the drop weight follows it. */
module LegendaryHeat {
  import opened DropPolicy

  /** `LEGENDARY_HEAT_DECAY_PER_MINUTE`. */
  const DECAY_PER_MINUTE := 0.2

  function Floor(x: real): real {
    if x < 0.0 then 0.0 else x
  }

  function HeatNow(table: HeatMap, id: string): real {
    HeatOf(id, map[], table)
  }

  function Decayed(table: HeatMap, id: string, amount: real): HeatMap {
    if HeatNow(table, id) > 0.0 then table[id := Floor(HeatNow(table, id) - amount)] else table
  }

  /** One minute in a safe zone for the carried items. */
  function Cooled(table: HeatMap, ids: seq<string>, legendary: string -> bool): HeatMap {
    if ids == [] then table
    else
      var before, last := Cooled(table, ids[..|ids| - 1], legendary), ids[|ids| - 1];
      if legendary(last) then Decayed(before, last, DECAY_PER_MINUTE) else before
  }

  datatype Change = Set(id: string, heat: real) | Add(id: string, delta: real) | Decay(id: string, amount: real)

  function Changed(table: HeatMap, c: Change): HeatMap {
    match c
    case Set(id, heat) => table[id := Floor(heat)]
    case Add(id, delta) => table[id := Floor(HeatNow(table, id) + delta)]
    case Decay(id, amount) => Decayed(table, id, amount)
  }

  function AfterAll(table: HeatMap, changes: seq<Change>): HeatMap {
    if changes == [] then table
    else Changed(AfterAll(table, changes[..|changes| - 1]), changes[|changes| - 1])
  }

  class HeatTable {
    var heat: HeatMap

    constructor ()
      ensures heat == map[]
    {
      heat := map[];
    }

    /** `setLegendaryHeat`. */
    method SetHeat(id: string, value: real)
      modifies this
      ensures heat == Changed(old(heat), Set(id, value))
    {
      heat := heat[id := if value < 0.0 then 0.0 else value];
    }

    /** `addLegendaryHeat`. */
    method AddHeat(id: string, delta: real)
      modifies this
      ensures heat == Changed(old(heat), Add(id, delta))
    {
      var current := if id in heat then heat[id] else 0.0;
      SetHeat(id, current + delta);
    }

    /** `decayLegendaryHeat`. */
    method DecayHeat(id: string, amount: real)
      modifies this
      ensures heat == Changed(old(heat), Decay(id, amount))
    {
      var current := if id in heat then heat[id] else 0.0;
      if current > 0.0 {
        SetHeat(id, current - amount);
      }
    }

    /** `decayHeatForCarriedItems`. */
    method DecayCarried(ids: seq<string>, legendary: string -> bool)
      modifies this
      ensures heat == Cooled(old(heat), ids, legendary)
    {
      for k := 0 to |ids|
        invariant heat == Cooled(old(heat), ids[..k], legendary)
      {
        assert ids[..k + 1][..k] == ids[..k];
        if legendary(ids[k]) {
          DecayHeat(ids[k], DECAY_PER_MINUTE);
        }
      }
      assert ids[..|ids|] == ids;
    }
  }

  predicate NonNegative(table: HeatMap) {
    forall id | id in table :: table[id] >= 0.0
  }

  /** No sequence of changes makes a heat negative, whatever the amounts. */
  lemma {:induction false} HeatStaysNonNegative(table: HeatMap, changes: seq<Change>)
    requires NonNegative(table)
    ensures NonNegative(AfterAll(table, changes))
  {
    if changes != [] { HeatStaysNonNegative(table, changes[..|changes| - 1]); }
  }

  /** What one change does to each heat: it is set, raised or lowered, never below zero, and
      the others stay. */
  lemma ChangeIsExact(table: HeatMap, c: Change, id: string)
    requires NonNegative(table)
    ensures HeatNow(Changed(table, c), id) ==
      if c.id != id then HeatNow(table, id)
      else
        var wanted := match c
          case Set(_, heat) => heat
          case Add(_, delta) => HeatNow(table, id) + delta
          case Decay(_, amount) => if HeatNow(table, id) == 0.0 then 0.0 else HeatNow(table, id) - amount;
        if wanted < 0.0 then 0.0 else wanted
  {
  }

  function Times(id: string, ids: seq<string>): nat {
    multiset(ids)[id]
  }

  /** A minute in a safe zone, exactly: a legendary item loses 0.2 for each time it
      is listed and stops at zero; every other heat stays as it is. */
  lemma {:induction false} CoolingIsExact(table: HeatMap, ids: seq<string>, legendary: string -> bool, id: string)
    requires NonNegative(table)
    ensures NonNegative(Cooled(table, ids, legendary))
    ensures HeatNow(Cooled(table, ids, legendary), id) ==
      if !legendary(id) then HeatNow(table, id)
      else if HeatNow(table, id) <= 0.2 * Times(id, ids) as real then 0.0
      else HeatNow(table, id) - 0.2 * Times(id, ids) as real
  {
    if ids != [] {
      var n := |ids| - 1;
      CoolingIsExact(table, ids[..n], legendary, id);
      assert ids == ids[..n] + [ids[n]];
      assert Times(id, ids) == Times(id, ids[..n]) + if ids[n] == id then 1 else 0;
    }
  }

  /** Cooling never makes an item heavier, so never likelier to be drawn. */
  lemma CoolingNeverWeighsMore(a: Arithmetic, item: Item, table: HeatMap, ids: seq<string>, legendary: string -> bool)
    requires NonNegative(table)
    requires forall x, y :: x <= y ==> a.exp(x) <= a.exp(y)
    ensures ItemWeight(a, item, map[], Cooled(table, ids, legendary)) <= ItemWeight(a, item, map[], table)
  {
    CoolingIsExact(table, ids, legendary, item.id);
    var before, after := HeatNow(table, item.id), HeatNow(Cooled(table, ids, legendary), item.id);
    assert 0.0 <= after <= before;
    assert -before / 6.0 <= -after / 6.0;
    assert a.exp(-before / 6.0) <= a.exp(-after / 6.0);
  }
}
