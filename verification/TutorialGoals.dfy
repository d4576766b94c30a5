/** Which maps let the tutorial be finished: a question about runs of the state
    machine, answered by two questions about paths on the map. */
module TutorialGoals {
  import opened Json
  import opened Grid
  import opened Tutorial
  import opened Decor
  import opened MapGen
  import Layout
  import Terrain

  const BEFORE_GATE: set<int> := WALKABLE - {GATE}

  /** A Tem tile that can be walked to without crossing a gate tile. */
  ghost predicate TemBeforeGate(g: Tiles, spawn: Point, q: Point) {
    Connected(g, BEFORE_GATE, spawn, q) && q in g && g[q] == TUTORIAL_TEM
  }

  ghost predicate GateReachable(g: Tiles, spawn: Point, q: Point) {
    Reachable(g, spawn, q) && q in g && g[q] == GATE
  }

  ghost predicate Playable(g: Tiles, spawn: Point) {
    Open(g, WALKABLE, spawn) && g[spawn] != GATE
  }

  // ----- what a run shows about the map -----

  /** What the position and the flags of a run prove about the map. */
  ghost predicate Witnessed(g: Tiles, spawn: Point, s: State) {
    && Reachable(g, spawn, s.at)
    && (!s.loop.gateOpen ==> Connected(g, BEFORE_GATE, spawn, s.at))
    && (s.loop.gateOpen ==> exists q :: TemBeforeGate(g, spawn, q))
    && (s.loop.complete ==> exists q :: GateReachable(g, spawn, q))
  }

  lemma MoveWitnessed(g: Tiles, spawn: Point, s: State, d: Direction)
    requires Sane(g, s) && Witnessed(g, spawn, s)
    ensures Witnessed(g, spawn, AfterMove(g, s, Some(d)))
  {
    var q := Moved(s.at, d);
    if Refuses(g, s.loop, q).None? {
      ConnectedStep(g, WALKABLE, spawn, s.at, q);
      if !s.loop.gateOpen { ConnectedStep(g, BEFORE_GATE, spawn, s.at, q); }
      hide Connected, Sane;
      TriggerWitnessed(g, spawn, s.(at := q), Triggered(s.loop, g[q]));
    }
  }

  lemma TriggerWitnessed(g: Tiles, spawn: Point, s: State, event: Option<LoopEvent>)
    requires s.at in g && event == Triggered(s.loop, g[s.at]) && (s.loop.tem <==> s.loop.gateOpen)
    requires Witnessed(g, spawn, s)
    ensures Witnessed(g, spawn, AfterTrigger(s, event))
  {
    hide Connected, Reachable;
    if event == Some(TEM_TILE_CROSSED_GATE_OPEN) { assert TemBeforeGate(g, spawn, s.at); }
    if event == Some(GATE_ENTERED_RUN_COMPLETE) { assert GateReachable(g, spawn, s.at); }
  }

  lemma {:induction false} RunsAreWitnessed(g: Tiles, spawn: Point, commands: seq<Command>)
    requires Playable(g, spawn)
    ensures Witnessed(g, spawn, RunTo(g, spawn, commands))
  {
    if commands == [] {
      ConnectedSelf(g, WALKABLE, spawn);
      ConnectedSelf(g, BEFORE_GATE, spawn);
    } else {
      var front, last := commands[..|commands| - 1], commands[|commands| - 1];
      RunsAreWitnessed(g, spawn, front);
      EveryRunIsSane(g, spawn, front);
      var s := RunTo(g, spawn, front);
      match last
      case Step(None) =>
      case Step(Some(d)) => hide Witnessed, Sane; MoveWitnessed(g, spawn, s, d);
      case Chat(blank) => if !blank { TriggerWitnessed(g, spawn, s, Triggered(s.loop, g[s.at])); }
    }
  }

  // ----- runs that follow a path -----

  lemma DirectionOf(p: Point, q: Point) returns (d: Direction)
    requires Grid.Step(p, q)
    ensures Moved(p, d) == q
  {
    if q.x == p.x + 1 { d := East; }
    else if q.x == p.x - 1 { d := West; }
    else if q.y == p.y + 1 { d := South; }
    else { d := North; }
  }

  lemma FollowStep(g: Tiles, spawn: Point, commands: seq<Command>, ok: set<int>, q: Point) returns (d: Direction)
    requires Playable(g, spawn) && ok <= WALKABLE && Open(g, ok, q)
    requires Grid.Step(RunTo(g, spawn, commands).at, q)
    requires RunTo(g, spawn, commands).loop.gateOpen || GATE !in ok
    ensures RunTo(g, spawn, commands + [Step(Some(d))]).at == q
    ensures RunTo(g, spawn, commands).loop.gateOpen ==> RunTo(g, spawn, commands + [Step(Some(d))]).loop.gateOpen
  {
    var s := RunTo(g, spawn, commands);
    d := DirectionOf(s.at, q);
    EveryRunIsSane(g, spawn, commands);
    RunSnoc(g, spawn, commands, Step(Some(d)));
    hide RunTo, EventsOf, Grid.Step, Moved;
    assert Refuses(g, s.loop, q).None?;
    MoveKeepsSane(g, s, Some(d));
    assert Raised(s.loop, TEM_TILE_CROSSED_GATE_OPEN) ==>
      Raised(AfterMove(g, s, Some(d)).loop, TEM_TILE_CROSSED_GATE_OPEN);
  }

  lemma PathTail(g: Tiles, ok: set<int>, path: seq<Point>)
    requires IsPath(g, ok, path) && |path| > 1
    ensures Grid.Step(path[0], path[1]) && Open(g, ok, path[1]) && IsPath(g, ok, path[1..])
  {
    hide Grid.Step, Open;
    assert Grid.Step(path[0], path[0 + 1]);
    forall i | 0 <= i < |path[1..]| - 1
      ensures Grid.Step(path[1..][i], path[1..][i + 1])
    {
      assert Grid.Step(path[i + 1], path[i + 2]);
    }
  }

  /** From where a run stands, any path can be followed that avoids gate tiles or
      starts after the gate was opened. */
  lemma {:induction false} Follow(g: Tiles, spawn: Point, commands: seq<Command>, ok: set<int>, path: seq<Point>)
    returns (more: seq<Command>)
    requires Playable(g, spawn) && IsPath(g, ok, path) && ok <= WALKABLE
    requires RunTo(g, spawn, commands).at == path[0]
    requires RunTo(g, spawn, commands).loop.gateOpen || GATE !in ok
    ensures RunTo(g, spawn, commands + more).at == path[|path| - 1]
    ensures RunTo(g, spawn, commands).loop.gateOpen ==> RunTo(g, spawn, commands + more).loop.gateOpen
    decreases |path|
  {
    hide RunTo, Grid.Step, Open, Playable, WALKABLE, GATE;
    if |path| == 1 {
      more := [];
      assert commands + [] == commands;
    } else {
      PathTail(g, ok, path);
      hide IsPath;
      var d := FollowStep(g, spawn, commands, ok, path[1]);
      var rest := Follow(g, spawn, commands + [Step(Some(d))], ok, path[1..]);
      more := [Step(Some(d))] + rest;
      assert commands + more == commands + [Step(Some(d))] + rest;
    }
  }

  /** A run that opens the gate. */
  lemma OpenTheGate(g: Tiles, spawn: Point, q: Point) returns (commands: seq<Command>)
    requires Playable(g, spawn) && TemBeforeGate(g, spawn, q)
    ensures RunTo(g, spawn, commands).loop.gateOpen && RunTo(g, spawn, commands).at == q
  {
    var path :| PathFromTo(g, BEFORE_GATE, path, spawn, q);
    assert RunTo(g, spawn, []).at == spawn;
    var walk := Follow(g, spawn, [], BEFORE_GATE, path);
    assert [] + walk == walk;
    // On the Tem tile a chat message raises what the arrival may not have raised.
    commands := walk + [Chat(false)];
    EveryRunIsSane(g, spawn, walk);
    RunSnoc(g, spawn, walk, Chat(false));
    hide Connected, IsPath, RunTo;
  }

  /** A run that completes the tutorial. */
  lemma FinishTheRun(g: Tiles, spawn: Point, q: Point, e: Point) returns (commands: seq<Command>)
    requires Playable(g, spawn) && TemBeforeGate(g, spawn, q) && GateReachable(g, spawn, e)
    ensures RunTo(g, spawn, commands).loop.complete
  {
    var toTem := OpenTheGate(g, spawn, q);
    Widen(g, spawn, q);
    ConnectedSymmetric(g, WALKABLE, spawn, q);
    ConnectedTransitive(g, WALKABLE, q, spawn, e);
    var path :| PathFromTo(g, WALKABLE, path, q, e);
    var toGate := Follow(g, spawn, toTem, WALKABLE, path);
    commands := toTem + toGate;
    EveryRunIsSane(g, spawn, commands);
    hide RunTo, Connected, IsPath;
  }

  lemma Widen(g: Tiles, a: Point, b: Point)
    requires Connected(g, BEFORE_GATE, a, b)
    ensures Reachable(g, a, b)
  {
    hide Grid.Step;
    var path :| PathFromTo(g, BEFORE_GATE, path, a, b);
    forall i | 0 <= i < |path| ensures Open(g, WALKABLE, path[i]) { assert Open(g, BEFORE_GATE, path[i]); }
    assert PathFromTo(g, WALKABLE, path, a, b);
  }

  // ----- the answer -----

  /** Some run opens the gate exactly when a Tem tile can be walked to without
      crossing a gate; some run completes exactly when, besides, a gate tile can be
      walked to at all. */
  lemma RunsReachTheirGoalsIff(g: Tiles, spawn: Point)
    requires Playable(g, spawn)
    ensures (exists commands :: RunTo(g, spawn, commands).loop.gateOpen) <==> exists q :: TemBeforeGate(g, spawn, q)
    ensures (exists commands :: RunTo(g, spawn, commands).loop.complete)
      <==> (exists q :: TemBeforeGate(g, spawn, q)) && exists e :: GateReachable(g, spawn, e)
  {
    hide RunTo, Playable, TemBeforeGate, GateReachable, Sane;
    forall commands
      ensures RunTo(g, spawn, commands).loop.gateOpen ==> exists q :: TemBeforeGate(g, spawn, q)
      ensures RunTo(g, spawn, commands).loop.complete ==>
        (exists q :: TemBeforeGate(g, spawn, q)) && exists e :: GateReachable(g, spawn, e)
    {
      RunsAreWitnessed(g, spawn, commands);
      CompleteMeansOpen(g, spawn, commands);
    }
    if exists q :: TemBeforeGate(g, spawn, q) {
      var q :| TemBeforeGate(g, spawn, q);
      var opening := OpenTheGate(g, spawn, q);
      assert RunTo(g, spawn, opening).loop.gateOpen;
      if exists e :: GateReachable(g, spawn, e) {
        var e :| GateReachable(g, spawn, e);
        var whole := FinishTheRun(g, spawn, q, e);
        assert RunTo(g, spawn, whole).loop.complete;
      }
    }
  }

  lemma CompleteMeansOpen(g: Tiles, spawn: Point, commands: seq<Command>)
    requires Playable(g, spawn)
    ensures RunTo(g, spawn, commands).loop.complete ==> RunTo(g, spawn, commands).loop.gateOpen
  {
    EveryRunIsSane(g, spawn, commands);
    hide RunTo;
  }

  // ----- generated maps -----

  /** The generator lays no Tem tile, whatever decor does afterwards. */
  lemma NoTemOnGeneratedMaps(p: Layout.Params, st: Streams, k: nat, q: Point)
    requires Layout.Valid(p) && q in TilesAfter(p, st, k)
    ensures TilesAfter(p, st, k)[q] != TUTORIAL_TEM
  {
    SiteIsReady(p, st);
    DecorIsSafe(SiteOf(p, st), st.decor, BaseOf(p, st), k);
    hide SiteOf, Attempts, Layout.Districts, Terrain.OnRoadTo, Terrain.InDistrictTo, Layout.SpawnOf,
         Layout.GateOf, AnchorsReached;
  }

  /** So although its gate can be walked to, a generated map taken as it is can never be finished. */
  lemma GeneratedMapNeverOpensItsGate(p: Layout.Params, st: Streams, k: nat, commands: seq<Command>)
    requires Layout.Valid(p)
    ensures var g, spawn := TilesAfter(p, st, k), Layout.SpawnOf(p, st.districts);
      && Playable(g, spawn) && (exists e :: GateReachable(g, spawn, e))
      && !RunTo(g, spawn, commands).loop.gateOpen && !RunTo(g, spawn, commands).loop.complete
  {
    var g, spawn, gate := TilesAfter(p, st, k), Layout.SpawnOf(p, st.districts), Layout.GateOf(p, st.districts);
    EveryAttemptIsSafe(p, st, k);
    Layout.SpawnAndGate(p, st.districts);
    ReachableIsOpen(g, spawn, gate);
    assert BaseOf(p, st)[gate] == GATE && BaseOf(p, st)[spawn] != GATE by {
      hide Layout.Districts, Terrain.OnRoadTo, Terrain.InDistrictTo, Layout.SpawnOf, Layout.GateOf;
    }
    assert SiteOf(p, st).Protected(gate) && SiteOf(p, st).Protected(spawn);
    hide TilesAfter, BaseOf, Layout.SpawnOf, Layout.GateOf, SiteOf, RunTo, Reachable, TUTORIAL_TEM;
    assert GateReachable(g, spawn, gate);
    forall q ensures !TemBeforeGate(g, spawn, q) {
      if q in g { NoTemOnGeneratedMaps(p, st, k, q); }
    }
    RunsReachTheirGoalsIff(g, spawn);
  }
}
