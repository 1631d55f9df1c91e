/**
  The world as a function of its inputs: the players map and the packets that a
  tick emits (src/game/world/world.cpp).
 */
module WorldState {
  import opened Collision
  import opened Physics
  import opened Protocol
  import opened Lists

  type Players = map<nat, PlayerState>

  datatype PlayerConfig = PlayerConfig(width: nat, height: nat, startX: nat, startY: nat, offset: nat)

  datatype Config = Config(tile: nat, gridX: nat, gridY: nat, cells: seq<nat>, player: PlayerConfig)

  /** Tile and player sizes are unsigned bytes, and not zero. */
  ghost predicate ValidConfig(c: Config) {
    && 0 < c.tile <= 0xFF && 0 < c.gridX <= 0xFFFF && 0 < c.gridY <= 0xFF && |c.cells| == c.gridX * c.gridY
    && 0 < c.player.width <= 0xFF && 0 < c.player.height <= 0xFF
  }

  function TileAt(c: Config, i: nat): Tile
    requires c.gridX > 0 && i < |c.cells|
  {
    if c.cells[i] != 0 then Solid(CellBox(c.tile as real, Col(c.gridX, i), Row(c.gridX, i))) else Empty
  }

  function LevelOf(c: Config): Level
    requires c.gridX > 0
  {
    Level(c.tile as real, c.gridX, c.gridY, seq(|c.cells|, i requires 0 <= i < |c.cells| => TileAt(c, i)))
  }

  /** A configured level is valid, and its solid tiles are the non-zero cells, each on its own place. */
  lemma LevelIsValid(c: Config)
    requires ValidConfig(c)
    ensures ValidLevel(LevelOf(c))
    ensures forall i :: 0 <= i < |c.cells| ==> (LevelOf(c).tiles[i].Solid? <==> c.cells[i] != 0)
  {
  }

  function NewPlayer(c: Config, id: nat): PlayerState {
    PlayerState(id,
                (c.player.startX * c.tile + c.player.offset) as real,
                (c.player.startY * c.tile + c.player.offset) as real,
                0.0, 0.0, c.player.width as real, c.player.height as real, false)
  }

  function EntryOf(p: PlayerState): Entry { Entry(p.x, p.y, p.width, p.height) }

  // ------------------------------------------------------------------ inputs

  function OthersOf(ps: Players, id: nat): map<nat, Entry> {
    map d | d in ps && d != id :: EntryOf(ps[d])
  }

  /** What a new player, its client and the other clients are told, once it is stored. */
  function Announcement(ps: Players, p: PlayerState): seq<ServerPacket<Message>> {
    [ServerPacket(CreatePlayerMsg(p.id, EntryOf(p)), p.id, Rpc),
     ServerPacket(SpawnPlayersMsg(OthersOf(ps, p.id)), p.id, Rpc),
     ServerPacket(AddPlayerMsg(p.id, EntryOf(p)), p.id, RpcOthers)]
  }

  function Added(ps: Players, p: PlayerState): (Players, seq<ServerPacket<Message>>) {
    (ps[p.id := p], Announcement(ps[p.id := p], p))
  }

  function Removed(ps: Players, id: nat): (Players, seq<ServerPacket<Message>>) {
    (ps - {id}, [ServerPacket(RemovePlayerMsg(id), id, Broadcast)])
  }

  /** One input is harmless for these live ids: it does not steer a player that is not there. */
  predicate Known(live: set<nat>, input: Input) { Steers(input.opcode) ==> input.id in live }

  /** An opcode that is none of the above changes no player. */
  function ProcessInput(c: Config, ps: Players, input: Input, dt: real): (Players, seq<ServerPacket<Message>>)
    requires Known(ps.Keys, input)
  {
    if input.opcode == CREATE_PLAYER then Added(ps, NewPlayer(c, input.id))
    else if input.opcode == REMOVE_PLAYER then Removed(ps, input.id)
    else if input.id in ps then (ps[input.id := Steer(ps[input.id], input.opcode, dt)], [])
    else (ps, [])
  }

  /** The live ids after the first `n` inputs. */
  function LiveAfter(live: set<nat>, inputs: seq<Input>, n: nat): set<nat>
    requires n <= |inputs|
  {
    if n == 0 then live else
    var before := LiveAfter(live, inputs, n - 1);
    var input := inputs[n - 1];
    if input.opcode == CREATE_PLAYER then before + {input.id}
    else if input.opcode == REMOVE_PLAYER then before - {input.id}
    else before
  }

  /** The code looks a player up before it knows the opcode, and that stores a null player under an unknown id. */
  function NullsNext(live: set<nat>, nulls: set<nat>, input: Input): set<nat> {
    if Reserved(input.opcode) then nulls - {input.id}
    else if input.id in live then nulls
    else nulls + {input.id}
  }

  /** The ids with a null player after the first `n` inputs; there is none before them. */
  function NullsAfter(live: set<nat>, inputs: seq<Input>, n: nat): set<nat>
    requires n <= |inputs|
  {
    if n == 0 then {} else
    NullsNext(LiveAfter(live, inputs, n - 1), NullsAfter(live, inputs, n - 1), inputs[n - 1])
  }

  /**
    One input makes the code dereference no null player: a steering opcode uses
    the player of its id, a creation those of all other ids.
   */
  predicate InputSafe(live: set<nat>, nulls: set<nat>, input: Input) {
    Known(live, input) && (input.opcode == CREATE_PLAYER ==> nulls <= {input.id})
  }

  /** The inputs of a tick make it dereference no null player; the physics that follows uses all players. */
  ghost predicate InputsSafe(live: set<nat>, inputs: seq<Input>) {
    && (forall k :: 0 <= k < |inputs| ==> InputSafe(LiveAfter(live, inputs, k), NullsAfter(live, inputs, k), inputs[k]))
    && NullsAfter(live, inputs, |inputs|) == {}
  }

  function ProcessInputs(c: Config, ps: Players, inputs: seq<Input>, dt: real, n: nat): (r: (Players, seq<ServerPacket<Message>>))
    requires InputsSafe(ps.Keys, inputs) && n <= |inputs|
    ensures r.0.Keys == LiveAfter(ps.Keys, inputs, n)
  {
    if n == 0 then (ps, []) else
    var (qs, out) := ProcessInputs(c, ps, inputs, dt, n - 1);
    var (rs, more) := ProcessInput(c, qs, inputs[n - 1], dt);
    (rs, out + more)
  }

  lemma InputsNone(c: Config, ps: Players, inputs: seq<Input>, dt: real)
    requires InputsSafe(ps.Keys, inputs)
    ensures ProcessInputs(c, ps, inputs, dt, 0) == (ps, [])
    ensures NullsAfter(ps.Keys, inputs, 0) == {} && NullsAfter(ps.Keys, inputs, |inputs|) == {}
  {
  }

  lemma InputsNext(c: Config, ps: Players, inputs: seq<Input>, dt: real, n: nat)
    requires InputsSafe(ps.Keys, inputs) && n < |inputs|
    ensures var qs, out := ProcessInputs(c, ps, inputs, dt, n).0, ProcessInputs(c, ps, inputs, dt, n).1;
      && InputSafe(qs.Keys, NullsAfter(ps.Keys, inputs, n), inputs[n])
      && NullsAfter(ps.Keys, inputs, n + 1) == NullsNext(qs.Keys, NullsAfter(ps.Keys, inputs, n), inputs[n])
      && ProcessInputs(c, ps, inputs, dt, n + 1).0 == ProcessInput(c, qs, inputs[n], dt).0
      && ProcessInputs(c, ps, inputs, dt, n + 1).1 == out + ProcessInput(c, qs, inputs[n], dt).1
  {
  }

  // -------------------------------------------------------------------- ticks

  function Stopped(ps: Players): (r: Players)
    ensures r.Keys == ps.Keys
  {
    map id | id in ps :: ps[id].(velX := 0.0)
  }

  /** The players as the inputs of the tick leave them. */
  function Steered(c: Config, ps: Players, inputs: seq<Input>, dt: real): Players
    requires InputsSafe(ps.Keys, inputs)
  {
    ProcessInputs(c, Stopped(ps), inputs, dt, |inputs|).0
  }

  function Updated(c: Config, p: PlayerState, dt: real): PlayerState
    requires c.tile > 0 && c.gridX > 0
  {
    Moved(LevelOf(c), Accelerated(p, dt))
  }

  function AllUpdated(c: Config, ps: Players, dt: real): (r: Players)
    requires c.tile > 0 && c.gridX > 0
    ensures r.Keys == ps.Keys
  {
    map id | id in ps :: Updated(c, ps[id], dt)
  }

  function MovePacket(p: PlayerState): ServerPacket<Message> {
    ServerPacket(MovePlayerMsg(p.id, p.x, p.y), p.id, Broadcast)
  }

  /** The move packets, in the order in which the hash table yields the players. */
  function MovePackets(ps: Players, order: seq<nat>): seq<ServerPacket<Message>>
    requires forall id :: id in order ==> id in ps
  {
    seq(|order|, i requires 0 <= i < |order| => MovePacket(ps[order[i]]))
  }

  lemma MovesNone(ps: Players)
    ensures MovePackets(ps, []) == []
  {
  }

  lemma MovesExtend(ps: Players, qs: Players, order: seq<nat>, id: nat)
    requires id in qs && forall d :: d in order ==> d in ps && d in qs && ps[d] == qs[d]
    ensures MovePackets(qs, order + [id]) == MovePackets(ps, order) + [MovePacket(qs[id])]
  {
  }

  /** One tick: how long it is, what the input queue held, and in what order players were updated. */
  datatype Event = Event(dt: real, inputs: seq<Input>, order: seq<nat>)

  ghost predicate EventValid(live: set<nat>, e: Event) {
    e.dt > 0.0 && InputsSafe(live, e.inputs) && IsOrder(e.order, LiveAfter(live, e.inputs, |e.inputs|))
  }

  function Tick(c: Config, ps: Players, inputs: seq<Input>, dt: real): Players
    requires c.tile > 0 && c.gridX > 0 && InputsSafe(ps.Keys, inputs)
  {
    AllUpdated(c, Steered(c, ps, inputs, dt), dt)
  }

  function TickPackets(c: Config, ps: Players, e: Event): seq<ServerPacket<Message>>
    requires c.tile > 0 && c.gridX > 0 && InputsSafe(ps.Keys, e.inputs)
    requires forall id :: id in e.order ==> id in LiveAfter(ps.Keys, e.inputs, |e.inputs|)
  {
    ProcessInputs(c, Stopped(ps), e.inputs, e.dt, |e.inputs|).1 + MovePackets(Tick(c, ps, e.inputs, e.dt), e.order)
  }

  // --------------------------------------------------------------------- runs

  /** The events form a run from `ps`: each is valid for the players that are live when it happens. */
  ghost predicate IsRun(c: Config, ps: Players, events: seq<Event>)
    requires c.tile > 0 && c.gridX > 0
    decreases |events|
  {
    events == [] ||
    (EventValid(ps.Keys, events[0]) && IsRun(c, Tick(c, ps, events[0].inputs, events[0].dt), events[1..]))
  }

  /** The players after the first `k` ticks of a run. */
  ghost function After(c: Config, ps: Players, events: seq<Event>, k: nat): Players
    requires c.tile > 0 && c.gridX > 0 && IsRun(c, ps, events) && k <= |events|
    decreases k
  {
    if k == 0 then ps else After(c, Tick(c, ps, events[0].inputs, events[0].dt), events[1..], k - 1)
  }

  lemma {:induction false} AfterNext(c: Config, ps: Players, events: seq<Event>, k: nat)
    requires c.tile > 0 && c.gridX > 0 && IsRun(c, ps, events) && k < |events|
    ensures var e := events[k];
      && EventValid(After(c, ps, events, k).Keys, e)
      && After(c, ps, events, k + 1) == Tick(c, After(c, ps, events, k), e.inputs, e.dt)
    decreases k
  {
    hide Tick, InputsSafe;
    if k == 0 {
    } else {
      AfterNext(c, Tick(c, ps, events[0].inputs, events[0].dt), events[1..], k - 1);
    }
  }

  /** The players as the `k`-th tick hands them to `MovePlayer`. */
  ghost function AtMove(c: Config, ps: Players, events: seq<Event>, k: nat): Players
    requires c.tile > 0 && c.gridX > 0 && IsRun(c, ps, events) && k < |events|
  {
    AfterNext(c, ps, events, k);
    var qs := Steered(c, After(c, ps, events, k), events[k].inputs, events[k].dt);
    map id | id in qs :: Accelerated(qs[id], events[k].dt)
  }

  // ------------------------------------------------ players are independent

  /** What `id` sends in these inputs after its last creation or removal, if it has any. */
  function OwnOpcodes(inputs: seq<Input>, id: nat, n: nat): seq<nat>
    requires n <= |inputs|
  {
    if n == 0 then [] else
    var input := inputs[n - 1];
    if input.id != id then OwnOpcodes(inputs, id, n - 1)
    else if Reserved(input.opcode) then []
    else OwnOpcodes(inputs, id, n - 1) + [input.opcode]
  }

  /** `id` was live before these inputs and is neither created nor removed by them. */
  predicate Undisturbed(live: set<nat>, inputs: seq<Input>, id: nat, n: nat)
    requires n <= |inputs|
  {
    id in live && forall k :: 0 <= k < n && inputs[k].id == id ==> !Reserved(inputs[k].opcode)
  }

  /** One input concerns one player, and only creates, removes or steers it. */
  lemma InputActsAlone(c: Config, ps: Players, input: Input, dt: real, id: nat)
    requires Known(ps.Keys, input) && id in ProcessInput(c, ps, input, dt).0
    ensures var p := ProcessInput(c, ps, input, dt).0[id];
      if input.id == id && Reserved(input.opcode) then p == NewPlayer(c, id)
      else id in ps && p == if input.id == id then Steer(ps[id], input.opcode, dt) else ps[id]
  {
  }

  /** A player after the inputs is its old or its freshly created self, steered by its own opcodes only. */
  lemma {:induction false} InputsActAlone(c: Config, ps: Players, inputs: seq<Input>, dt: real, n: nat, id: nat)
    requires InputsSafe(ps.Keys, inputs) && n <= |inputs|
    requires id in ProcessInputs(c, ps, inputs, dt, n).0
    ensures var p := ProcessInputs(c, ps, inputs, dt, n).0[id];
      && (Undisturbed(ps.Keys, inputs, id, n) ==> p == SteerAll(ps[id], OwnOpcodes(inputs, id, n), dt))
      && (!Undisturbed(ps.Keys, inputs, id, n) ==> p == SteerAll(NewPlayer(c, id), OwnOpcodes(inputs, id, n), dt))
  {
    hide ProcessInput, InputsSafe, LiveAfter, NewPlayer, Steer;
    if n == 0 {
    } else {
      var input := inputs[n - 1];
      InputsNext(c, ps, inputs, dt, n - 1);
      InputActsAlone(c, ProcessInputs(c, ps, inputs, dt, n - 1).0, input, dt, id);
      if input.id == id && Reserved(input.opcode) {
        assert !Undisturbed(ps.Keys, inputs, id, n);
      } else {
        InputsActAlone(c, ps, inputs, dt, n - 1, id);
        var own := OwnOpcodes(inputs, id, n - 1);
        assert (own + [input.opcode])[..|own|] == own;
      }
    }
  }

  /** The state that a tick starts from for player `id`: its own, or the spawn state if it was (re)created. */
  ghost function StartOf(c: Config, ps: Players, inputs: seq<Input>, id: nat): PlayerState {
    if Undisturbed(ps.Keys, inputs, id, |inputs|) then ps[id] else NewPlayer(c, id)
  }

  /**
    A tick of the world is, for each live player, a tick of that player alone:
    no other player and no other player's input changes its motion.
   */
  lemma TickIsPlayerTick(c: Config, ps: Players, inputs: seq<Input>, dt: real, id: nat)
    requires ValidConfig(c) && InputsSafe(ps.Keys, inputs) && id in Tick(c, ps, inputs, dt)
    ensures var p, own := StartOf(c, ps, inputs, id), OwnOpcodes(inputs, id, |inputs|);
      && id in Steered(c, ps, inputs, dt)
      && Accelerated(Steered(c, ps, inputs, dt)[id], dt) == BeforeMove(p, own, dt)
      && Tick(c, ps, inputs, dt)[id] == PlayerTick(LevelOf(c), p, own, dt)
  {
    InputsActAlone(c, Stopped(ps), inputs, dt, |inputs|, id);
    var n := NewPlayer(c, id);
    assert n.(velX := 0.0) == n;
  }

  // -------------------------------------------------------- what runs preserve

  /** A property of single players, and one of tick lengths. */
  type Prop = PlayerState -> bool
  type Lengths = real -> bool

  ghost predicate All(ps: Players, P: Prop) { forall id :: id in ps ==> P(ps[id]) }

  /** New players have `P`; a player tick of an admitted length keeps it and has `B` when it starts to move. */
  ghost predicate Inductive(c: Config, P: Prop, B: Prop, D: Lengths)
    requires c.tile > 0 && c.gridX > 0
  {
    && (forall id: nat :: P(NewPlayer(c, id)))
    && (forall p: PlayerState, own: seq<nat>, dt: real {:trigger PlayerTick(LevelOf(c), p, own, dt)} ::
          P(p) && dt > 0.0 && D(dt) ==> P(PlayerTick(LevelOf(c), p, own, dt)) && B(BeforeMove(p, own, dt)))
  }

  lemma TickPreserves(c: Config, ps: Players, e: Event, P: Prop, B: Prop, D: Lengths)
    requires ValidConfig(c) && EventValid(ps.Keys, e) && D(e.dt)
    requires All(ps, P) && Inductive(c, P, B, D)
    ensures All(Tick(c, ps, e.inputs, e.dt), P)
    ensures var qs := Steered(c, ps, e.inputs, e.dt); forall id :: id in qs ==> B(Accelerated(qs[id], e.dt))
  {
    forall id | id in Tick(c, ps, e.inputs, e.dt)
      ensures P(Tick(c, ps, e.inputs, e.dt)[id]) && B(Accelerated(Steered(c, ps, e.inputs, e.dt)[id], e.dt))
    {
      TickIsPlayerTick(c, ps, e.inputs, e.dt, id);
      assert P(StartOf(c, ps, e.inputs, id));
    }
  }

  /**
    Induction over runs: what new players have and every player tick keeps,
    every player has at every tick boundary, and what every player tick has
    when it starts to move holds at every move of the run.
   */
  lemma {:induction false} RunPreserves(
      c: Config, ps: Players, events: seq<Event>, k: nat, P: Prop, B: Prop, D: Lengths)
    requires ValidConfig(c) && IsRun(c, ps, events) && k <= |events|
    requires forall e :: e in events ==> D(e.dt)
    requires All(ps, P) && Inductive(c, P, B, D)
    ensures All(After(c, ps, events, k), P)
    ensures k < |events| ==> All(AtMove(c, ps, events, k), B)
    decreases k
  {
    hide Inductive, Tick, Steered, InputsSafe, BeforeMove;
    if events == [] {
    } else {
      TickPreserves(c, ps, events[0], P, B, D);
      if k > 0 {
        RunPreserves(c, Tick(c, ps, events[0].inputs, events[0].dt), events[1..], k - 1, P, B, D);
      }
    }
  }
}
