/**
  Runs in rooms of one free cell that show where the theorems about runs end: the
  exact tick length, ceilings that count as ground, and a flight of full height.
 */
module Witnesses {
  import opened SweptMath
  import opened Collision
  import opened Physics
  import opened Border
  import opened Protocol
  import opened WorldState
  import opened Runs

  /** Three by three cells, all solid but the one in the middle. */
  const WALLS: seq<nat> := [1, 1, 1, 1, 0, 1, 1, 1, 1]

  /** A room with tiles of 32 units and a player of 15 by 25 units. */
  const ROOM := Config(32, 3, 3, WALLS, PlayerConfig(15, 25, 1, 1, 5))

  /** A room whose player fills the free cell. */
  function Cell(tile: nat): Config { Config(tile, 3, 3, WALLS, PlayerConfig(tile, tile, 1, 1, 0)) }

  /** The player of the room at height `y`. */
  function PlayerAt(y: real, velY: real, onGround: bool): PlayerState {
    PlayerState(0, 37.0, y, 0.0, velY, 15.0, 25.0, onGround)
  }

  const CEILING := Box(32.0, 0.0, 32.0, 32.0)
  const FLOOR := Box(32.0, 64.0, 32.0, 32.0)

  lemma RoomTiles()
    ensures ValidConfig(ROOM) && ValidLevel(LevelOf(ROOM))
    ensures var lv := LevelOf(ROOM);
      && lv.tile == 32.0 && lv.gridX == 3 && lv.gridY == 3 && |lv.tiles| == 9
      && lv.tiles[1] == Solid(CEILING) && lv.tiles[7] == Solid(FLOOR) && !lv.tiles[4].Solid?
      && forall i :: 0 <= i < 9 && lv.tiles[i].Solid? ==>
           lv.tiles[i].box == CellBox(32.0, i % 3, i / 3)
  {
    LevelIsValid(ROOM);
  }

  /** The room is closed, and players start inside it. */
  lemma RoomIsClosed()
    ensures ValidConfig(ROOM) && ValidLevel(LevelOf(ROOM))
    ensures Bordered(LevelOf(ROOM)) && Enclosed(LevelOf(ROOM), NewPlayer(ROOM, 0).Body()) && SpawnFree(ROOM)
    ensures NewPlayer(ROOM, 0) == PlayerAt(37.0, 0.0, false)
  {
    hide LevelOf, ValidLevel, Bordered, Free;
    RoomTiles();
    WallsAreABorder(ROOM);
    StartIsFree();
  }

  lemma WallsAreABorder(c: Config)
    requires ValidConfig(c) && c.gridX == c.gridY == 3 && c.cells == WALLS
    ensures Bordered(LevelOf(c))
  {
    LevelIsValid(c);
    var lv := LevelOf(c);
    forall x: nat, y: nat | x < 3 && y < 3 && OnRing(lv, x, y)
      ensures Index(3, x, y) < 9 && lv.tiles[Index(3, x, y)].Solid?
    {
      assert Index(3, x, y) != 4;
    }
  }

  lemma StartIsFree()
    ensures Free(LevelOf(ROOM), PlayerAt(37.0, 0.0, false).Body())
  {
    hide LevelOf;
    RoomTiles();
    var lv := LevelOf(ROOM);
    forall i | 0 <= i < |lv.tiles| && lv.tiles[i].Solid? ensures !Overlaps(PlayerAt(37.0, 0.0, false).Body(), lv.tiles[i].box) {
    }
  }

  /** Above and below the player there are only the ceiling and the floor. */
  lemma ColumnTiles(i: nat)
    requires i < |LevelOf(ROOM).tiles| && LevelOf(ROOM).tiles[i].Solid?
    requires var b := LevelOf(ROOM).tiles[i].box; 37.0 < b.Right() && b.x < 52.0
    ensures LevelOf(ROOM).tiles[i].box == CEILING || LevelOf(ROOM).tiles[i].box == FLOOR
  {
    RoomTiles();
  }

  /** A vertical leg in the room that hits something stops exactly at the floor or at the ceiling. */
  lemma RoomHit(y: real, velY: real)
    requires 32.0 <= y <= 39.0 && velY != 0.0
    ensures LevelOf(ROOM).tile > 0.0 && LevelOf(ROOM).gridX > 0
    ensures var s := Swept(LevelOf(ROOM), PlayerAt(y, 0.0, false).Body(), 0.0, velY);
      && 0.0 <= s.entryTime <= 1.0 && (s.hit <==> s.entryTime < 1.0)
      && (s.hit ==> velY * s.entryTime == if velY > 0.0 then 39.0 - y else 32.0 - y)
      && s.entryTime <= SweptAABB(PlayerAt(y, 0.0, false).Body(), if velY > 0.0 then FLOOR else CEILING, 0.0, velY).entryTime
  {
    hide ValidLevel, LevelOf, SweptAABB, Swept;
    RoomGrid();
    var lv, box := LevelOf(ROOM), PlayerAt(y, 0.0, false).Body();
    SweptFacts(lv, box, 0.0, velY);
    var s := Swept(lv, box, 0.0, velY);
    assert lv.tiles[1].box == CEILING && lv.tiles[7].box == FLOOR;
    if s.hit {
      var i :| 0 <= i < |lv.tiles| && lv.tiles[i].Solid? && s == SweptAABB(box, lv.tiles[i].box, 0.0, velY);
      RoomHitBy(y, velY, i);
    }
  }

  lemma RoomHitBy(y: real, velY: real, i: nat)
    requires 32.0 <= y <= 39.0 && velY != 0.0
    requires i < |LevelOf(ROOM).tiles| && LevelOf(ROOM).tiles[i].Solid?
    requires var s := SweptAABB(PlayerAt(y, 0.0, false).Body(), LevelOf(ROOM).tiles[i].box, 0.0, velY);
      s.hit && 0.0 <= s.entryTime <= 1.0
    ensures var s := SweptAABB(PlayerAt(y, 0.0, false).Body(), LevelOf(ROOM).tiles[i].box, 0.0, velY);
      velY * s.entryTime == if velY > 0.0 then 39.0 - y else 32.0 - y
  {
    hide LevelOf, SweptAABB;
    var box, b := PlayerAt(y, 0.0, false).Body(), LevelOf(ROOM).tiles[i].box;
    VerticalHitTouches(box, b, velY);
    ColumnTiles(i);
    var t := SweptAABB(box, b, 0.0, velY).entryTime;
    StopsAt(y, velY, t, velY * t, b);
  }

  lemma RoomGrid()
    ensures var lv := LevelOf(ROOM);
      && ValidLevel(lv) && lv.tile > 0.0 && lv.gridX > 0
      && |lv.tiles| == 9 && lv.tiles[1] == Solid(CEILING) && lv.tiles[7] == Solid(FLOOR)
  {
    RoomTiles();
  }

  lemma StopsAt(y: real, velY: real, t: real, dy: real, b: Box)
    requires 32.0 <= y <= 39.0 && velY != 0.0 && 0.0 <= t <= 1.0 && dy == velY * t && (b == CEILING || b == FLOOR)
    requires if velY > 0.0 then y + 25.0 + dy == b.y else y + dy == b.Bottom()
    ensures dy == if velY > 0.0 then 39.0 - y else 32.0 - y
  {
    ScaledDown(velY, t);
  }

  /** The first tick of a player in the room, if it takes 0.3: it lands on the floor. */
  lemma Landing(id: nat)
    ensures LevelOf(ROOM).tile > 0.0 && LevelOf(ROOM).gridX > 0
    ensures PlayerTick(LevelOf(ROOM), PlayerAt(37.0, 0.0, false).(id := id), [], 0.3) == PlayerAt(39.0, 0.0, true).(id := id)
  {
    hide LevelOf, Swept;
    RoomHit(37.0, 2.94);
    assert BeforeMove(PlayerAt(37.0, 0.0, false).(id := id), [], 0.3) == PlayerAt(37.0, 2.94, false).(id := id);
    assert SweptAABB(PlayerAt(37.0, 0.0, false).Body(), FLOOR, 0.0, 2.94).entryTime < 1.0;
  }

  /** The tick length at which a jump takes the player of the room exactly to the ceiling. */
  const EXACT := 7.0 / 390.2

  /** The jump touches the ceiling at time 1, which is no hit: the upward velocity stays. */
  lemma Touching()
    ensures LevelOf(ROOM).tile > 0.0 && LevelOf(ROOM).gridX > 0
    ensures PlayerTick(LevelOf(ROOM), PlayerAt(39.0, 0.0, true), [JUMP], EXACT) == PlayerAt(32.0, -7.0, false)
  {
    hide LevelOf, Swept, SweptAABB, BeforeMove;
    JumpStart(PlayerAt(39.0, 0.0, true), EXACT);
    RoomHit(39.0, -7.0);
  }

  /** In the next tick the player pushes against the ceiling, stops at time 0, and counts as on the ground. */
  lemma Hanging()
    ensures LevelOf(ROOM).tile > 0.0 && LevelOf(ROOM).gridX > 0
    ensures PlayerTick(LevelOf(ROOM), PlayerAt(32.0, -7.0, false), [], EXACT) == PlayerAt(32.0, 0.0, true)
  {
    hide LevelOf, Swept;
    var v := -7.0 + GRAVITY * EXACT;
    assert v < 0.0;
    RoomHit(32.0, v);
    assert BeforeMove(PlayerAt(32.0, -7.0, false), [], EXACT) == PlayerAt(32.0, v, false);
    assert SweptAABB(PlayerAt(32.0, 0.0, false).Body(), CEILING, 0.0, v).entryTime == 0.0;
  }

  // ---------------------------------------------------------- as runs of the world

  /** A tick that creates the first player. */
  lemma SpawnTick(c: Config, dt: real)
    requires ValidConfig(c) && dt > 0.0
    ensures var e := Event(dt, [Input(0, CREATE_PLAYER)], [0]);
      && LevelOf(c).tile > 0.0 && EventValid({}, e)
      && Tick(c, map[], e.inputs, dt) == map[0 := PlayerTick(LevelOf(c), NewPlayer(c, 0), [], dt)]
  {
    hide PlayerTick;
    var inputs := [Input(0, CREATE_PLAYER)];
    var nobody: Players := map[];
    assert nobody.Keys == {};
    assert LiveAfter({}, inputs, 0) == {} && NullsAfter({}, inputs, 0) == {};
    assert LiveAfter({}, inputs, 1) == {0} && NullsAfter({}, inputs, 1) == {};
    assert InputsSafe({}, inputs);
    TickKeys(c, nobody, inputs, dt);
    TickIsPlayerTick(c, nobody, inputs, dt, 0);
  }

  /** A tick of a player who is alone. */
  lemma LonelyTick(c: Config, p: PlayerState, inputs: seq<Input>, dt: real)
    requires ValidConfig(c) && p.id == 0 && dt > 0.0 && (inputs == [] || inputs == [Input(0, JUMP)])
    ensures var e := Event(dt, inputs, [0]);
      var own := if inputs == [] then [] else [JUMP];
      && LevelOf(c).tile > 0.0 && EventValid({0}, e)
      && InputsSafe((map[0 := p]).Keys, inputs)
      && Tick(c, map[0 := p], inputs, dt) == map[0 := PlayerTick(LevelOf(c), p, own, dt)]
      && 0 in Steered(c, map[0 := p], inputs, dt)
      && Accelerated(Steered(c, map[0 := p], inputs, dt)[0], dt) == BeforeMove(p, own, dt)
  {
    hide PlayerTick;
    var ps: Players := map[0 := p];
    assert ps.Keys == {0};
    assert LiveAfter({0}, inputs, 0) == {0} && NullsAfter({0}, inputs, 0) == {};
    assert LiveAfter({0}, inputs, |inputs|) == {0} && NullsAfter({0}, inputs, |inputs|) == {};
    assert InputsSafe({0}, inputs);
    assert OwnOpcodes(inputs, 0, 0) == [];
    TickKeys(c, ps, inputs, dt);
    TickIsPlayerTick(c, ps, inputs, dt, 0);
  }

  lemma RunGrows(c: Config, ps: Players, e: Event, events: seq<Event>, k: nat)
    requires ValidConfig(c) && EventValid(ps.Keys, e) && k <= |events|
    requires IsRun(c, Tick(c, ps, e.inputs, e.dt), events)
    ensures IsRun(c, ps, [e] + events)
    ensures After(c, ps, [e] + events, k + 1) == After(c, Tick(c, ps, e.inputs, e.dt), events, k)
  {
    hide EventValid, Tick;
    assert ([e] + events)[1..] == events;
  }

  /** A first tick that creates a player, and what follows. */
  lemma AfterSpawn(c: Config, dt: real, p: PlayerState, events: seq<Event>, k: nat)
    requires ValidConfig(c) && dt > 0.0 && LevelOf(c).tile > 0.0 && p == PlayerTick(LevelOf(c), NewPlayer(c, 0), [], dt)
    requires IsRun(c, map[0 := p], events) && k <= |events|
    ensures var run := [Event(dt, [Input(0, CREATE_PLAYER)], [0])] + events;
      IsRun(c, map[], run) && After(c, map[], run, k + 1) == After(c, map[0 := p], events, k)
  {
    hide IsRun, After, Tick, EventValid, PlayerTick;
    var nobody: Players := map[];
    assert nobody.Keys == {};
    SpawnTick(c, dt);
    RunGrows(c, nobody, Event(dt, [Input(0, CREATE_PLAYER)], [0]), events, k);
  }

  lemma EmptyRun(c: Config, ps: Players)
    requires ValidConfig(c)
    ensures IsRun(c, ps, [])
  {
  }

  lemma EmptyAfter(c: Config, ps: Players, events: seq<Event>)
    requires ValidConfig(c) && IsRun(c, ps, events)
    ensures After(c, ps, events, 0) == ps
  {
  }

  // -------------------------------------------------------- the tick length

  /** The player that fills its cell. */
  function Filler(tile: nat, velY: real, onGround: bool): PlayerState {
    PlayerState(0, tile as real, tile as real, 0.0, velY, tile as real, tile as real, onGround)
  }

  lemma CellIsClosed(tile: nat)
    requires 0 < tile <= 0xFF
    ensures var c, lv := Cell(tile), LevelOf(Cell(tile));
      && ValidConfig(c) && ValidLevel(lv) && lv.tile == tile as real && lv.gridX == 3
      && Bordered(lv) && Enclosed(lv, NewPlayer(c, 0).Body()) && NewPlayer(c, 0) == Filler(tile, 0.0, false)
      && |lv.tiles| == 9 && lv.tiles[7] == Solid(CellBox(tile as real, 1, 2))
  {
    hide Bordered;
    LevelIsValid(Cell(tile));
    WallsAreABorder(Cell(tile));
    assert Col(3, 7) == 1 && Row(3, 7) == 2;
  }

  /** However long its first tick, the player has no room to fall and is on the ground. */
  lemma CellLanding(tile: nat, dt: real)
    requires 0 < tile <= 0xFF && dt > 0.0
    ensures LevelOf(Cell(tile)).tile > 0.0 && LevelOf(Cell(tile)).gridX > 0
    ensures PlayerTick(LevelOf(Cell(tile)), Filler(tile, 0.0, false), [], dt) == Filler(tile, 0.0, true)
  {
    hide LevelOf, Swept, ValidLevel, Bordered;
    CellIsClosed(tile);
    var lv, p, v := LevelOf(Cell(tile)), Filler(tile, 0.0, false), GRAVITY * dt;
    assert v > 0.0;
    assert BeforeMove(p, [], dt) == Filler(tile, v, false);
    SweptFacts(lv, p.Body(), 0.0, v);
    assert lv.tiles[7].Solid?;
    StandsOn(p.Body(), lv.tiles[7].box, v);
  }

  lemma StandsOn(a: Box, b: Box, v: real)
    requires v > 0.0 && a.Bottom() == b.y && b.height > 0.0 && a.height > 0.0 && a.x < b.Right() && b.x < a.Right()
    ensures SweptAABB(a, b, 0.0, v).entryTime == 0.0
  {
    DivCompare(b.Bottom() - a.y, v, 0.0);
  }

  lemma JumpStart(p: PlayerState, dt: real)
    requires p.onGround && p.velX == 0.0
    ensures BeforeMove(p, [JUMP], dt) == p.(velY := -(390.2 * dt), onGround := false)
  {
    SteeredGround(p, [JUMP], dt);
    SteeredVelocity(p, [JUMP], dt);
    assert [JUMP][..0] == [];
  }

  lemma UpwardUnderflow(tile: nat, dt: real)
    requires 0 < tile <= 0xFF && dt > tile as real / 390.2
    ensures LevelOf(Cell(tile)).tile > 0.0 && LevelOf(Cell(tile)).gridX > 0
    ensures !MoveCastsDefined(LevelOf(Cell(tile)), Filler(tile, -(390.2 * dt), false))
  {
    hide LevelOf, ValidLevel, Bordered;
    CellIsClosed(tile);
    BoundsNonNegative(tile as real, Filler(tile, 0.0, false).Body(), 0.0, -(390.2 * dt));
  }

  /** Create a player, and let it jump in the next tick. */
  function CreateAndJump(dt: real): seq<Event> {
    [Event(dt, [Input(0, CREATE_PLAYER)], [0]), Event(dt, [Input(0, JUMP)], [0])]
  }

  /**
    The limit on the tick length is needed, for every tile size and every longer
    tick: in a closed room a player is created inside, lands, and jumps; the sweep
    of that jump converts a negative bound to an unsigned integer.
   */
  lemma LongTickUnderflows(tile: nat, dt: real)
    requires 0 < tile <= 0xFF && dt > tile as real / 390.2
    ensures ValidConfig(Cell(tile)) && IsRun(Cell(tile), map[], CreateAndJump(dt))
    ensures var qs := AtMove(Cell(tile), map[], CreateAndJump(dt), 1);
      LevelOf(Cell(tile)).tile > 0.0 && 0 in qs && !MoveCastsDefined(LevelOf(Cell(tile)), qs[0])
  {
    hide IsRun, After, Tick, EventValid, BeforeMove, Steered, Bordered, Enclosed, PlayerTick, LevelOf, MoveCastsDefined;
    var c, p := Cell(tile), Filler(tile, 0.0, true);
    var jump := Event(dt, [Input(0, JUMP)], [0]);
    var ps: Players := map[0 := p];
    assert ps.Keys == {0};
    CellIsClosed(tile);
    LonelyTick(c, p, jump.inputs, dt);
    EmptyRun(c, Tick(c, ps, jump.inputs, dt));
    RunGrows(c, ps, jump, [], 0);
    assert [jump] + [] == [jump] && [CreateAndJump(dt)[0]] + [jump] == CreateAndJump(dt);
    EmptyAfter(c, ps, [jump]);
    CellLanding(tile, dt);
    AfterSpawn(c, dt, p, [jump], 0);
    AfterNext(c, map[], CreateAndJump(dt), 1);
    JumpStart(p, dt);
    UpwardUnderflow(tile, dt);
  }

  /** A run from no players, on a bordered map with tiles of this size, of ticks no longer than `limit`. */
  ghost predicate BorderedRun(tile: nat, limit: real, c: Config, events: seq<Event>) {
    && c.tile == tile && ValidConfig(c) && Bordered(LevelOf(c)) && Enclosed(LevelOf(c), NewPlayer(c, 0).Body())
    && IsRun(c, map[], events) && forall e :: e in events ==> e.dt <= limit
  }

  /** Every conversion of every move in the `k`-th tick is defined. */
  ghost predicate CastsDefinedAt(c: Config, events: seq<Event>, k: nat)
    requires ValidConfig(c) && IsRun(c, map[], events) && k < |events|
  {
    var qs := AtMove(c, map[], events, k);
    forall id :: id in qs ==> MoveCastsDefined(LevelOf(c), qs[id])
  }

  /** The exact limit on the length of a tick, for every tile size: 1/390.2 of a tile. */
  lemma TickLimitExactly(tile: nat, limit: real)
    requires 0 < tile <= 0xFF && limit > 0.0
    ensures (forall c: Config, events: seq<Event>, k: nat ::
               BorderedRun(tile, limit, c, events) && k < |events| ==> CastsDefinedAt(c, events, k))
            <==> limit <= tile as real / 390.2
  {
    hide IsRun, AtMove, Bordered, Enclosed, MoveCastsDefined, LevelOf;
    if limit <= tile as real / 390.2 {
      forall c: Config, events: seq<Event>, k: nat | BorderedRun(tile, limit, c, events) && k < |events|
        ensures CastsDefinedAt(c, events, k)
      {
        RunStaysContained(c, map[], events, k);
      }
    } else {
      CellIsClosed(tile);
      LongTickUnderflows(tile, limit);
      assert BorderedRun(tile, limit, Cell(tile), CreateAndJump(limit));
      assert !CastsDefinedAt(Cell(tile), CreateAndJump(limit), 1);
    }
  }

  // -------------------------------------------------------- a flight of full height

  /** A jump, and nothing for the next thirty-nine ticks. */
  const FLIGHT: seq<seq<nat>> := [[JUMP]] + seq(39, _ => [])

  lemma {:induction false} RiseIsPositive(k: nat)
    requires k <= 40
    ensures Rise(k) >= 0.0
  {
    if k == 0 {
    } else {
      RiseIsPositive(k - 1);
    }
  }

  /** A sweep upward that ends below the ceiling meets nothing. */
  lemma RoomClimb(y: real, v: real)
    requires 32.0 <= y <= 39.0 && v < 0.0 && y + v > 32.0
    ensures LevelOf(ROOM).tile > 0.0 && LevelOf(ROOM).gridX > 0
    ensures Moved(LevelOf(ROOM), PlayerAt(y, v, false)) == PlayerAt(y + v, v, false)
  {
    hide LevelOf, Swept, SweptAABB;
    RoomHit(y, v);
    var t := Swept(LevelOf(ROOM), PlayerAt(y, 0.0, false).Body(), 0.0, v).entryTime;
    ScaledDown(v, t);
    ScaledFully(v);
  }

  /** In the room, with ticks so short that the ceiling is out of reach, the flight is unhindered. */
  lemma {:induction false} FlightInRoom(dt: real, k: nat)
    requires dt > 0.0 && 7964.0 * dt < 7.0 && 1 <= k <= 40
    ensures LevelOf(ROOM).tile > 0.0 && LevelOf(ROOM).gridX > 0
    ensures PlayerRun(LevelOf(ROOM), PlayerAt(39.0, 0.0, true), FLIGHT, dt, k)
            == PlayerAt(39.0 - Height(k, dt), Climb(k, dt), false)
  {
    hide LevelOf, Moved, Height, Climb, BeforeMove;
    RoomGrid();
    var y, v := 39.0 - Height(k - 1, dt), Climb(k, dt);
    var before := PlayerRun(LevelOf(ROOM), PlayerAt(39.0, 0.0, true), FLIGHT, dt, k - 1);
    ClimbStep(k, dt);
    HeightAtMost(k, dt);
    HeightAtMost(k - 1, dt);
    RiseIsPositive(k - 1);
    HeightIsPositive(k - 1, dt);
    TakeOff(dt);
    if k == 1 {
      JumpStart(before, dt);
    } else {
      FlightInRoom(dt, k - 1);
      Gliding(before, dt);
    }
    RoomClimb(y, v);
  }

  lemma HeightIsPositive(k: nat, dt: real)
    requires Rise(k) >= 0.0 && dt > 0.0
    ensures Height(k, dt) >= 0.0
  {
    Scales(0.0, Rise(k), dt);
  }

  lemma Gliding(p: PlayerState, dt: real)
    requires p.velX == 0.0
    ensures BeforeMove(p, [], dt) == p.(velY := p.velY + GRAVITY * dt)
  {
  }

  /**
    The bound on the height of a jump is tight: in the room, for every tick length
    that keeps the player below the ceiling, forty ticks after an accepted jump it
    is exactly 7964 dt above its take-off.
   */
  lemma JumpHeightIsReached(dt: real)
    requires dt > 0.0 && 7964.0 * dt < 7.0
    ensures var lv, p := LevelOf(ROOM), PlayerAt(39.0, 0.0, true);
      && ValidLevel(lv) && JumpAccepted(p, FLIGHT[0])
      && (forall j :: 1 <= j < 40 ==> !JumpAccepted(PlayerRun(lv, p, FLIGHT, dt, j), FLIGHT[j]))
      && PlayerRun(lv, p, FLIGHT, dt, 40).y == p.y - 7964.0 * dt
  {
    hide LevelOf, PlayerRun, Height, Climb, ValidLevel;
    RoomGrid();
    var lv, p := LevelOf(ROOM), PlayerAt(39.0, 0.0, true);
    forall j | 1 <= j <= 40
      ensures !PlayerRun(lv, p, FLIGHT, dt, j).onGround && PlayerRun(lv, p, FLIGHT, dt, j).velY != 0.0
    {
      FlightInRoom(dt, j);
      ClimbStep(j, dt);
    }
    UnhinderedFlight(lv, p, FLIGHT, dt, 40);
  }

  // ------------------------------------------------- ceilings that count as ground

  const SPAWN: Event := Event(0.3, [Input(0, CREATE_PLAYER)], [0])
  const EXACT_JUMP: Event := Event(EXACT, [Input(0, JUMP)], [0])
  const REST: Event := Event(EXACT, [], [0])

  /**
    The ground flag does not always mean a floor: a jump that ends exactly at the
    ceiling keeps its velocity, and in the next tick the player, who hangs below
    the ceiling and stands on nothing, counts as on the ground.
   */
  lemma CeilingCountsAsGround()
    ensures ValidConfig(ROOM) && IsRun(ROOM, map[], [SPAWN, EXACT_JUMP, REST])
    ensures After(ROOM, map[], [SPAWN, EXACT_JUMP, REST], 3) == map[0 := PlayerAt(32.0, 0.0, true)]
    ensures Contact(LevelOf(ROOM), PlayerAt(32.0, 0.0, true), 1, false)
    ensures forall i: nat :: !Contact(LevelOf(ROOM), PlayerAt(32.0, 0.0, true), i, true)
  {
    hide IsRun, After, Tick, EventValid, BeforeMove, Steered, PlayerTick, LevelOf;
    RoomGrid();
    RoomIsClosed();
    var a, b, c := PlayerAt(39.0, 0.0, true), PlayerAt(32.0, -7.0, false), PlayerAt(32.0, 0.0, true);
    var pa: Players, pb: Players, pc: Players := map[0 := a], map[0 := b], map[0 := c];
    assert pa.Keys == {0} && pb.Keys == {0};
    assert [REST] + [] == [REST] && [EXACT_JUMP] + [REST] == [EXACT_JUMP, REST]
        && [SPAWN] + [EXACT_JUMP, REST] == [SPAWN, EXACT_JUMP, REST];
    EmptyRun(ROOM, pc);
    EmptyAfter(ROOM, pc, []);
    LonelyTick(ROOM, b, [], EXACT);
    Hanging();
    RunGrows(ROOM, pb, REST, [], 0);
    LonelyTick(ROOM, a, [Input(0, JUMP)], EXACT);
    Touching();
    RunGrows(ROOM, pa, EXACT_JUMP, [REST], 1);
    Landing(0);
    AfterSpawn(ROOM, 0.3, a, [EXACT_JUMP, REST], 2);
    NoFloorAtCeiling();
  }

  lemma NoFloorAtCeiling()
    ensures forall i: nat :: !Contact(LevelOf(ROOM), PlayerAt(32.0, 0.0, true), i, true)
  {
    hide LevelOf;
    forall i: nat ensures !Contact(LevelOf(ROOM), PlayerAt(32.0, 0.0, true), i, true) {
      if Contact(LevelOf(ROOM), PlayerAt(32.0, 0.0, true), i, true) { ColumnTiles(i); }
    }
  }
}
