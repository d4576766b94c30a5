/** The phone server's tutorial loop: tiles that raise progress flags, a gate that
    opens, and the player's own chronicle. */
module Tutorial {
  import opened Json
  import opened Grid

  const TUTORIAL_MOVE := 5
  const TUTORIAL_CHAT := 6
  const TUTORIAL_TEM := 7

  datatype Direction = North | South | East | West

  /** `DIRECTION_OFFSETS`. */
  function Moved(p: Point, d: Direction): Point {
    match d
    case North => Point(p.x, p.y - 1)
    case South => Point(p.x, p.y + 1)
    case East => Point(p.x + 1, p.y)
    case West => Point(p.x - 1, p.y)
  }

  datatype LoopEvent =
    | MOVEMENT_ANCHOR_REACHED
    | SIGNAL_TILE_REACHED
    | TEM_TILE_CROSSED_GATE_OPEN
    | GATE_ENTERED_RUN_COMPLETE

  datatype Objective = REACH_ANCHOR | REACH_SIGNAL | CROSS_TEM | ENTER_GATE | RUN_COMPLETE

  datatype Loop = Loop(
    move: bool, chat: bool, tem: bool, gate: bool, complete: bool, gateOpen: bool,
    objective: Objective, lastEvent: Option<LoopEvent>)

  /** `nextObjective`. */
  function NextObjective(loop: Loop): Objective {
    if !loop.move then REACH_ANCHOR
    else if !loop.chat then REACH_SIGNAL
    else if !loop.tem then CROSS_TEM
    else if !loop.gate then ENTER_GATE
    else RUN_COMPLETE
  }

  /** `createLoopProgress`. */
  const FRESH_LOOP := Loop(false, false, false, false, false, false, REACH_ANCHOR, None)

  datatype Record =
    | SessionStarted(at: Point)
    | MoveRecord(at: Point, direction: Direction, event: Option<LoopEvent>)
    | PlayLoopRecord(at: Point, loopEvent: LoopEvent, objective: Objective, gateOpen: bool)
    | ChatRecord(at: Point, event: Option<LoopEvent>)

  datatype State = State(at: Point, loop: Loop, reputation: int, chronicle: seq<Record>)

  datatype Command = Step(direction: Option<Direction>) | Chat(blank: bool)

  datatype MoveResult = MoveResult(ok: bool, at: Point, reason: Option<Refusal>, loop: Loop, event: Option<LoopEvent>)
  datatype Refusal = BAD_DIRECTION | BLOCKED | GATE_LOCKED

  /** `canEnterTile`: the reason against it, if any. */
  function Refuses(g: Tiles, loop: Loop, q: Point): Option<Refusal> {
    if !Open(g, WALKABLE, q) then Some(BLOCKED)
    else if g[q] == GATE && !loop.gateOpen then Some(GATE_LOCKED)
    else None
  }

  /** The event a tile triggers, if any. */
  function Triggered(loop: Loop, code: int): Option<LoopEvent> {
    if loop.complete then None
    else if code == TUTORIAL_MOVE && !loop.move then Some(MOVEMENT_ANCHOR_REACHED)
    else if code == TUTORIAL_CHAT && !loop.chat then Some(SIGNAL_TILE_REACHED)
    else if code == TUTORIAL_TEM && !loop.tem then Some(TEM_TILE_CROSSED_GATE_OPEN)
    else if code == GATE && loop.gateOpen && !loop.gate then Some(GATE_ENTERED_RUN_COMPLETE)
    else None
  }

  function Raise(loop: Loop, event: LoopEvent): Loop {
    var raised := match event
      case MOVEMENT_ANCHOR_REACHED => loop.(move := true)
      case SIGNAL_TILE_REACHED => loop.(chat := true)
      case TEM_TILE_CROSSED_GATE_OPEN => loop.(tem := true, gateOpen := true)
      case GATE_ENTERED_RUN_COMPLETE => loop.(gate := true, complete := true);
    raised.(objective := NextObjective(raised), lastEvent := Some(event))
  }

  function AfterTrigger(s: State, event: Option<LoopEvent>): State {
    match event
    case None => s
    case Some(e) => s.(loop := Raise(s.loop, e),
      reputation := if e == GATE_ENTERED_RUN_COMPLETE then s.reputation + 1 else s.reputation)
  }

  function AfterMove(g: Tiles, s: State, direction: Option<Direction>): State {
    if direction.None? || Refuses(g, s.loop, Moved(s.at, direction.value)).Some? then s
    else
      var q := Moved(s.at, direction.value);
      var event := Triggered(s.loop, g[q]);
      var t := AfterTrigger(s.(at := q), event);
      t.(chronicle := t.chronicle + [MoveRecord(q, direction.value, event)] +
        match event case None => [] case Some(e) => [PlayLoopRecord(q, e, t.loop.objective, t.loop.gateOpen)])
  }

  function AfterChat(g: Tiles, s: State, blank: bool): State {
    if blank then s
    else
      var event := if s.at in g then Triggered(s.loop, g[s.at]) else None;
      var t := AfterTrigger(s, event);
      t.(chronicle := t.chronicle + [ChatRecord(s.at, event)])
  }

  function Next(g: Tiles, s: State, c: Command): State {
    match c
    case Step(direction) => AfterMove(g, s, direction)
    case Chat(blank) => AfterChat(g, s, blank)
  }

  /** `ensurePlayer` for a new session. */
  function Fresh(spawn: Point): State {
    State(spawn, FRESH_LOOP, 0, [SessionStarted(spawn)])
  }

  function RunTo(g: Tiles, spawn: Point, commands: seq<Command>): State {
    if commands == [] then Fresh(spawn)
    else Next(g, RunTo(g, spawn, commands[..|commands| - 1]), commands[|commands| - 1])
  }

  // ----- the player object -----

  class PhonePlayer {
    var at: Point
    var loop: Loop
    var reputation: int
    var chronicle: seq<Record>

    function Value(): State
      reads this
    {
      State(at, loop, reputation, chronicle)
    }

    /** `ensurePlayer`. */
    constructor (spawn: Point)
      ensures Value() == Fresh(spawn)
    {
      at := spawn;
      loop := FRESH_LOOP;
      reputation := 0;
      chronicle := [SessionStarted(spawn)];
    }

    /** `applyTileTrigger`. */
    method ApplyTileTrigger(code: Option<int>) returns (event: Option<LoopEvent>)
      modifies this`loop, this`reputation
      ensures event == if code.None? then None else Triggered(old(loop), code.value)
      ensures Value() == AfterTrigger(old(Value()), event)
    {
      if code.None? || loop.complete {
        return None;
      }
      event := None;
      if code.value == TUTORIAL_MOVE && !loop.move {
        loop := loop.(move := true);
        event := Some(MOVEMENT_ANCHOR_REACHED);
      } else if code.value == TUTORIAL_CHAT && !loop.chat {
        loop := loop.(chat := true);
        event := Some(SIGNAL_TILE_REACHED);
      } else if code.value == TUTORIAL_TEM && !loop.tem {
        loop := loop.(tem := true);
        loop := loop.(gateOpen := true);
        event := Some(TEM_TILE_CROSSED_GATE_OPEN);
      } else if code.value == GATE && loop.gateOpen && !loop.gate {
        loop := loop.(gate := true);
        loop := loop.(complete := true);
        event := Some(GATE_ENTERED_RUN_COMPLETE);
        reputation := reputation + 1;
      }
      if event.None? {
        return;
      }
      loop := loop.(objective := NextObjective(loop));
      loop := loop.(lastEvent := event);
    }

    /** `movePlayer`. */
    method MovePlayer(g: Tiles, direction: Option<Direction>) returns (r: MoveResult)
      modifies this
      ensures Value() == AfterMove(g, old(Value()), direction)
      ensures r.at == at && r.loop == loop
      ensures r.ok <==> direction.Some? && Refuses(g, old(loop), Moved(old(at), direction.value)).None?
      ensures r.event == if r.ok then Triggered(old(loop), g[at]) else None
      ensures r.reason == if direction.None? then Some(BAD_DIRECTION)
        else Refuses(g, old(loop), Moved(old(at), direction.value))
    {
      hide Open, WALKABLE;
      if direction.None? {
        return MoveResult(false, at, Some(BAD_DIRECTION), loop, None);
      }
      var q := Moved(at, direction.value);
      var refusal := Refuses(g, loop, q);
      if refusal.Some? {
        return MoveResult(false, at, refusal, loop, None);
      }
      OpenIsTile(g, q);
      at := q;
      var event := ApplyTileTrigger(Some(g[q]));
      chronicle := chronicle + [MoveRecord(at, direction.value, event)];
      if event.Some? {
        chronicle := chronicle + [PlayLoopRecord(at, event.value, loop.objective, loop.gateOpen)];
      } else {
        assert chronicle + [] == chronicle;
      }
      return MoveResult(true, at, None, loop, event);
    }

    /** The chat message handler; a message of white space is dropped. */
    method HandleChat(g: Tiles, blank: bool)
      modifies this
      ensures Value() == AfterChat(g, old(Value()), blank)
    {
      if blank {
        return;
      }
      var event := ApplyTileTrigger(if at in g then Some(g[at]) else None);
      chronicle := chronicle + [ChatRecord(at, event)];
    }
  }

  lemma OpenIsTile(g: Tiles, q: Point)
    requires Open(g, WALKABLE, q)
    ensures q in g
  {
  }

  // ----- whole runs -----

  function EventsOf(chronicle: seq<Record>): seq<LoopEvent> {
    if chronicle == [] then []
    else
      var front, last := EventsOf(chronicle[..|chronicle| - 1]), chronicle[|chronicle| - 1];
      match last
      case MoveRecord(_, _, Some(e)) => front + [e]
      case ChatRecord(_, Some(e)) => front + [e]
      case _ => front
  }

  predicate Raised(loop: Loop, e: LoopEvent) {
    match e
    case MOVEMENT_ANCHOR_REACHED => loop.move
    case SIGNAL_TILE_REACHED => loop.chat
    case TEM_TILE_CROSSED_GATE_OPEN => loop.tem
    case GATE_ENTERED_RUN_COMPLETE => loop.gate
  }

  /** What holds after every run on a map whose spawn is walkable and not a gate. */
  ghost predicate Sane(g: Tiles, s: State) {
    && Open(g, WALKABLE, s.at)
    && (s.loop.tem <==> s.loop.gateOpen) && (s.loop.gate <==> s.loop.complete)
    && (s.loop.complete ==> s.loop.gateOpen)
    && (g[s.at] == GATE ==> s.loop.gateOpen && s.loop.complete)
    && s.reputation == (if s.loop.complete then 1 else 0)
    && s.loop.objective == NextObjective(s.loop)
    && (forall e :: multiset(EventsOf(s.chronicle))[e] == if Raised(s.loop, e) then 1 else 0)
    && s.chronicle != [] && s.chronicle[|s.chronicle| - 1].at == s.at
  }

  lemma EventsSnoc(chronicle: seq<Record>, r: Record)
    ensures EventsOf(chronicle + [r]) == EventsOf(chronicle) +
      match r case MoveRecord(_, _, Some(e)) => [e] case ChatRecord(_, Some(e)) => [e] case _ => []
  {
    assert (chronicle + [r])[..|chronicle|] == chronicle;
  }

  lemma CountSnoc(events: seq<LoopEvent>, e: LoopEvent)
    ensures multiset(events + [e]) == multiset(events) + multiset{e}
  {
  }

  lemma TriggerKeepsSane(g: Tiles, s: State, q: Point, event: Option<LoopEvent>, events: seq<LoopEvent>)
    requires q in g && event == Triggered(s.loop, g[q])
    requires (s.loop.tem <==> s.loop.gateOpen) && (s.loop.gate <==> s.loop.complete)
    requires (s.loop.complete ==> s.loop.gateOpen)
    requires s.reputation == (if s.loop.complete then 1 else 0) && s.loop.objective == NextObjective(s.loop)
    requires forall e :: multiset(events)[e] == if Raised(s.loop, e) then 1 else 0
    ensures var t := AfterTrigger(s, event);
      && (t.loop.tem <==> t.loop.gateOpen) && (t.loop.gate <==> t.loop.complete)
      && (t.loop.complete ==> t.loop.gateOpen)
      && t.reputation == (if t.loop.complete then 1 else 0) && t.loop.objective == NextObjective(t.loop)
      && (forall e ::
            multiset(events + match event case None => [] case Some(x) => [x])[e] == if Raised(t.loop, e) then 1 else 0)
      && (g[q] == GATE && s.loop.gateOpen ==> t.loop.complete)
      && (forall e :: Raised(s.loop, e) ==> Raised(t.loop, e))
  {
    match event
    case None => assert events + [] == events;
    case Some(x) => CountSnoc(events, x);
  }

  lemma MoveKeepsSane(g: Tiles, s: State, direction: Option<Direction>)
    requires Sane(g, s)
    ensures Sane(g, AfterMove(g, s, direction))
    ensures forall e :: Raised(s.loop, e) ==> Raised(AfterMove(g, s, direction).loop, e)
  {
    if direction.Some? && Refuses(g, s.loop, Moved(s.at, direction.value)).None? {
      var q := Moved(s.at, direction.value);
      var event := Triggered(s.loop, g[q]);
      var record := MoveRecord(q, direction.value, event);
      TriggerKeepsSane(g, s.(at := q), q, event, EventsOf(s.chronicle));
      EventsSnoc(s.chronicle, record);
      var t := AfterTrigger(s.(at := q), event);
      if event.Some? {
        EventsSnoc(s.chronicle + [record], PlayLoopRecord(q, event.value, t.loop.objective, t.loop.gateOpen));
      } else {
        assert s.chronicle + [record] + [] == s.chronicle + [record];
      }
      assert EventsOf(AfterMove(g, s, direction).chronicle) == EventsOf(s.chronicle)
        + match event case None => [] case Some(x) => [x];
    }
  }

  lemma ChatKeepsSane(g: Tiles, s: State, blank: bool)
    requires Sane(g, s)
    ensures Sane(g, AfterChat(g, s, blank))
    ensures forall e :: Raised(s.loop, e) ==> Raised(AfterChat(g, s, blank).loop, e)
  {
    if !blank {
      var event := Triggered(s.loop, g[s.at]);
      TriggerKeepsSane(g, s, s.at, event, EventsOf(s.chronicle));
      EventsSnoc(s.chronicle, ChatRecord(s.at, event));
    }
  }

  /** Every run of moves and chat messages stays sane and never takes a flag back. */
  lemma {:induction false} EveryRunIsSane(g: Tiles, spawn: Point, commands: seq<Command>)
    requires Open(g, WALKABLE, spawn) && g[spawn] != GATE
    ensures Sane(g, RunTo(g, spawn, commands))
    ensures commands != [] ==>
      forall e :: Raised(RunTo(g, spawn, commands[..|commands| - 1]).loop, e) ==>
        Raised(RunTo(g, spawn, commands).loop, e)
  {
    if commands == [] {
      assert EventsOf([SessionStarted(spawn)][..0]) == [];
      assert EventsOf([SessionStarted(spawn)]) == [];
    } else {
      hide Sane, AfterMove, AfterChat;
      var front, last := commands[..|commands| - 1], commands[|commands| - 1];
      EveryRunIsSane(g, spawn, front);
      match last
      case Step(direction) => MoveKeepsSane(g, RunTo(g, spawn, front), direction);
      case Chat(blank) => ChatKeepsSane(g, RunTo(g, spawn, front), blank);
    }
  }

  lemma RunSnoc(g: Tiles, spawn: Point, commands: seq<Command>, c: Command)
    ensures RunTo(g, spawn, commands + [c]) == Next(g, RunTo(g, spawn, commands), c)
  {
    assert (commands + [c])[..|commands|] == commands;
  }

  /** Completion needs the Tem tile and the gate, and nothing else: a run can be
      complete without the movement anchor or the signal tile. */
  lemma CompleteWithoutAnchorOrSignal()
    ensures var g := map[Point(0, 0) := GRASS, Point(1, 0) := TUTORIAL_TEM, Point(2, 0) := GATE];
      var s := RunTo(g, Point(0, 0), [Step(Some(East)), Step(Some(East))]);
      s.loop.complete && !s.loop.move && !s.loop.chat && s.loop.objective == REACH_ANCHOR
  {
    var g := map[Point(0, 0) := GRASS, Point(1, 0) := TUTORIAL_TEM, Point(2, 0) := GATE];
    var east := Step(Some(East));
    RunSnoc(g, Point(0, 0), [], east);
    RunSnoc(g, Point(0, 0), [east], east);
    assert [] + [east] == [east] && [east] + [east] == [east, east];
    assert RunTo(g, Point(0, 0), []) == Fresh(Point(0, 0));
  }

  /** The spawn condition is exact: a player who starts on a gate tile stands on it
      while the gate is shut. */
  lemma AlwaysSaneIffSpawnIsNoGate(g: Tiles, spawn: Point)
    requires Open(g, WALKABLE, spawn)
    ensures (forall commands :: Sane(g, RunTo(g, spawn, commands))) <==> g[spawn] != GATE
  {
    if g[spawn] != GATE {
      forall commands ensures Sane(g, RunTo(g, spawn, commands)) { EveryRunIsSane(g, spawn, commands); }
    } else {
      assert !Sane(g, RunTo(g, spawn, []));
    }
  }
}
