/** What a player's chronicle says about a run: the moves lead from the spawn to the
    player, and every event was raised on its own kind of tile. */
module TutorialTrail {
  import opened Json
  import opened Grid
  import opened Tutorial

  // ----- the way -----

  /** How often the chronicle records a move in this direction. */
  function Moves(chronicle: seq<Record>, d: Direction): nat {
    if chronicle == [] then 0
    else
      var last := chronicle[|chronicle| - 1];
      Moves(chronicle[..|chronicle| - 1], d) + if last.MoveRecord? && last.direction == d then 1 else 0
  }

  lemma MovesSnoc(chronicle: seq<Record>, r: Record, d: Direction)
    ensures Moves(chronicle + [r], d) == Moves(chronicle, d) + if r.MoveRecord? && r.direction == d then 1 else 0
  {
    assert (chronicle + [r])[..|chronicle|] == chronicle;
  }

  /** East and west count along x, south and north along y, downwards. */
  predicate LedHere(spawn: Point, s: State) {
    && s.at.x == spawn.x + Moves(s.chronicle, East) - Moves(s.chronicle, West)
    && s.at.y == spawn.y + Moves(s.chronicle, South) - Moves(s.chronicle, North)
  }

  lemma StepLeadsHere(g: Tiles, spawn: Point, s: State, c: Command)
    requires LedHere(spawn, s)
    ensures LedHere(spawn, Next(g, s, c))
  {
    hide Triggered, Open, Raise;
    var t := Next(g, s, c);
    match c
    case Step(direction) =>
      if direction.Some? && Refuses(g, s.loop, Moved(s.at, direction.value)).None? {
        var q := Moved(s.at, direction.value);
        OpenIsTile(g, q);
        var event := Triggered(s.loop, g[q]);
        var u := AfterTrigger(s.(at := q), event);
        var record := MoveRecord(q, direction.value, event);
        forall d ensures Moves(t.chronicle, d) == Moves(s.chronicle, d) + if d == direction.value then 1 else 0 {
          MovesSnoc(s.chronicle, record, d);
          if event.Some? {
            MovesSnoc(s.chronicle + [record], PlayLoopRecord(q, event.value, u.loop.objective, u.loop.gateOpen), d);
          } else {
            assert s.chronicle + [record] + [] == s.chronicle + [record];
          }
        }
      }
    case Chat(blank) =>
      if !blank {
        var event := if s.at in g then Triggered(s.loop, g[s.at]) else None;
        forall d
          ensures Moves(t.chronicle, d) == Moves(s.chronicle, d)
        {
          MovesSnoc(s.chronicle, ChatRecord(s.at, event), d);
        }
      }
  }

  /** Over every run the recorded moves add up to the way from the spawn to the player. */
  lemma {:induction false} MovesLeadHere(g: Tiles, spawn: Point, commands: seq<Command>)
    ensures LedHere(spawn, RunTo(g, spawn, commands))
  {
    if commands == [] {
      forall d ensures Moves([SessionStarted(spawn)], d) == 0 { MovesSnoc([], SessionStarted(spawn), d); }
      assert [] + [SessionStarted(spawn)] == [SessionStarted(spawn)];
    } else {
      hide LedHere, Next;
      var n := |commands| - 1;
      MovesLeadHere(g, spawn, commands[..n]);
      StepLeadsHere(g, spawn, RunTo(g, spawn, commands[..n]), commands[n]);
    }
  }

  // ----- the events -----

  function EventOf(r: Record): Option<LoopEvent> {
    match r
    case MoveRecord(_, _, event) => event
    case ChatRecord(_, event) => event
    case _ => None
  }

  /** The code of the tile that raises an event: movement anchor, signal, Tem, gate. */
  function CodeOf(e: LoopEvent): int {
    match e
    case MOVEMENT_ANCHOR_REACHED => 5
    case SIGNAL_TILE_REACHED => 6
    case TEM_TILE_CROSSED_GATE_OPEN => 7
    case GATE_ENTERED_RUN_COMPLETE => 8
  }

  /** An event stands beside its own tile, and whoever walked onto an event's tile has the
      flag, unless the run was complete. */
  ghost predicate OnItsTile(g: Tiles, loop: Loop, r: Record) {
    && (EventOf(r).Some? ==> r.at in g && g[r.at] == CodeOf(EventOf(r).value))
    && (r.MoveRecord? ==> forall e :: r.at in g && g[r.at] == CodeOf(e) ==> Raised(loop, e) || loop.complete)
  }

  ghost predicate Faithful(g: Tiles, s: State) {
    (s.loop.tem ==> s.loop.gateOpen) && forall r | r in s.chronicle :: OnItsTile(g, s.loop, r)
  }

  lemma TriggerIsFaithful(g: Tiles, s: State, q: Point, event: Option<LoopEvent>, r: Record)
    requires q in g && event == Triggered(s.loop, g[q]) && (g[q] == GATE ==> s.loop.gateOpen)
    requires s.loop.tem ==> s.loop.gateOpen
    ensures var t := AfterTrigger(s, event);
      && (t.loop.tem ==> t.loop.gateOpen)
      && (EventOf(r) == event && r.at == q ==> OnItsTile(g, t.loop, r))
      && (OnItsTile(g, s.loop, r) ==> OnItsTile(g, t.loop, r))
  {
  }

  lemma ChatIsFaithful(g: Tiles, s: State, q: Point, event: Option<LoopEvent>, r: Record)
    requires event == if q in g then Triggered(s.loop, g[q]) else None
    requires s.loop.tem ==> s.loop.gateOpen
    ensures var t := AfterTrigger(s, event);
      && (t.loop.tem ==> t.loop.gateOpen)
      && (r == ChatRecord(q, event) ==> OnItsTile(g, t.loop, r))
      && (OnItsTile(g, s.loop, r) ==> OnItsTile(g, t.loop, r))
  {
  }

  lemma StepIsFaithful(g: Tiles, s: State, c: Command)
    requires Faithful(g, s)
    ensures Faithful(g, Next(g, s, c))
  {
    hide OnItsTile, Triggered, Raise, Open;
    var t := Next(g, s, c);
    match c
    case Step(direction) =>
      if direction.Some? && Refuses(g, s.loop, Moved(s.at, direction.value)).None? {
        var q := Moved(s.at, direction.value);
        OpenIsTile(g, q);
        var event := Triggered(s.loop, g[q]);
        forall r | r in t.chronicle
          ensures OnItsTile(g, t.loop, r)
        {
          TriggerIsFaithful(g, s.(at := q), q, event, r); PlainRecord(g, t.loop, r);
        }
        TriggerIsFaithful(g, s.(at := q), q, event, MoveRecord(q, direction.value, event));
      }
    case Chat(blank) =>
      if !blank {
        var event := if s.at in g then Triggered(s.loop, g[s.at]) else None;
        forall r | r in t.chronicle ensures OnItsTile(g, t.loop, r) { ChatIsFaithful(g, s, s.at, event, r); }
        ChatIsFaithful(g, s, s.at, event, ChatRecord(s.at, event));
      }
  }

  lemma PlainRecord(g: Tiles, loop: Loop, r: Record)
    ensures r.PlayLoopRecord? || r.SessionStarted? ==> OnItsTile(g, loop, r)
  {
  }

  /** Over every run, wherever it starts: an event was raised on a tile of its kind, and a
      tile of that kind walked onto before completion has raised it. */
  lemma {:induction false} EventsLieOnTheirTiles(g: Tiles, spawn: Point, commands: seq<Command>)
    ensures Faithful(g, RunTo(g, spawn, commands))
  {
    if commands == [] {
      PlainRecord(g, FRESH_LOOP, SessionStarted(spawn));
    } else {
      hide Faithful, Next;
      var n := |commands| - 1;
      EventsLieOnTheirTiles(g, spawn, commands[..n]);
      StepIsFaithful(g, RunTo(g, spawn, commands[..n]), commands[n]);
    }
  }

  // ----- the objective -----

  const ORDER: seq<(LoopEvent, Objective)> := [
    (MOVEMENT_ANCHOR_REACHED, REACH_ANCHOR), (SIGNAL_TILE_REACHED, REACH_SIGNAL),
    (TEM_TILE_CROSSED_GATE_OPEN, CROSS_TEM), (GATE_ENTERED_RUN_COMPLETE, ENTER_GATE)]

  /** Everything before place k is raised, and what stands there is not. */
  predicate FirstMissing(loop: Loop, k: nat)
    requires k < |ORDER|
  {
    !Raised(loop, ORDER[k].0) && forall i | 0 <= i < k :: Raised(loop, ORDER[i].0)
  }

  /** The objective belongs to the first event that is still to come. */
  lemma ObjectiveIsFirstMissing(loop: Loop)
    ensures NextObjective(loop) == RUN_COMPLETE <==> forall e :: Raised(loop, e)
    ensures forall k | 0 <= k < |ORDER| :: NextObjective(loop) == ORDER[k].1 <==> FirstMissing(loop, k)
  {
    assert Raised(loop, ORDER[0].0) == loop.move && Raised(loop, ORDER[1].0) == loop.chat;
    assert Raised(loop, ORDER[2].0) == loop.tem && Raised(loop, ORDER[3].0) == loop.gate;
    forall k | 0 <= k < |ORDER| ensures NextObjective(loop) == ORDER[k].1 <==> FirstMissing(loop, k) {
      assert k == 0 || k == 1 || k == 2 || k == 3;
    }
    if loop.move && loop.chat && loop.tem && loop.gate {
      forall e ensures Raised(loop, e) {}
    }
    if forall e :: Raised(loop, e) {
      assert Raised(loop, MOVEMENT_ANCHOR_REACHED) && Raised(loop, SIGNAL_TILE_REACHED);
      assert Raised(loop, TEM_TILE_CROSSED_GATE_OPEN) && Raised(loop, GATE_ENTERED_RUN_COMPLETE);
    }
  }
}
