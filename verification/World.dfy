/**
  The game world as the program runs it: players, level and queues that the
  methods update in place (src/game/world/world.cpp, src/game/player).
 */
module World {
  import opened SweptMath
  import opened Collision
  import opened Physics
  import opened Protocol
  import opened WorldState
  import opened Lists
  import opened Queues

  class Player {
    const id: nat
    const width: real
    const height: real
    var x: real
    var y: real
    var velX: real
    var velY: real
    var onGround: bool

    ghost function State(): PlayerState
      reads this
    {
      PlayerState(id, x, y, velX, velY, width, height, onGround)
    }

    constructor (id: nat, x: real, y: real, velX: real, velY: real, width: real, height: real)
      ensures State() == PlayerState(id, x, y, velX, velY, width, height, false)
    {
      this.id, this.x, this.y, this.velX, this.velY := id, x, y, velX, velY;
      this.width, this.height, this.onGround := width, height, false;
    }

    method Move(dx: real, dy: real)
      modifies this
      ensures State() == old(State()).(x := old(x) + dx, y := old(y) + dy)
    {
      x := x + dx;
      y := y + dy;
    }

    method SetVel(velX: real, velY: real)
      modifies this
      ensures State() == old(State()).(velX := velX, velY := velY)
    {
      this.velX := velX;
      this.velY := velY;
    }

    method SetOnGround(state: bool)
      modifies this
      ensures State() == old(State()).(onGround := state)
    {
      onGround := state;
    }
  }

  class World {
    const config: Config
    const gameIn: TSQueue<Input>
    const gameOut: TSQueue<ServerPacket<Message>>
    const netIn: TSQueue<Input>
    const netOut: TSQueue<ServerPacket<Message>>
    var players: map<nat, Player?>
    var tiles: seq<Tile>

    function LevelNow(): Level
      reads this`tiles
    {
      Level(config.tile as real, config.gridX, config.gridY, tiles)
    }

    ghost predicate LevelBuilt()
      reads this`tiles
    {
      ValidConfig(config) && LevelNow() == LevelOf(config)
    }

    /** Each player is stored under its own id, so no two ids share a player; an entry may be null. */
    ghost predicate Valid()
      reads this, players.Values
    {
      && LevelBuilt() && config.tile > 0 && config.gridX > 0
      && gameIn != netIn && gameOut != netOut
      && (forall id :: id in players && players[id] != null ==> players[id].id == id)
    }

    /** The ids under which a null player is stored; between ticks there is none. */
    ghost function Nulls(): set<nat>
      reads this`players
    {
      set id | id in players && players[id] == null
    }

    ghost function View(): (ps: Players)
      reads this, players.Values
      ensures ps.Keys == players.Keys - Nulls()
    {
      map id | id in players && players[id] != null :: players[id].State()
    }

    /** Builds the level from the configured cells. */
    constructor (config: Config, gameIn: TSQueue<Input>, gameOut: TSQueue<ServerPacket<Message>>,
                 netIn: TSQueue<Input>, netOut: TSQueue<ServerPacket<Message>>)
      requires ValidConfig(config) && gameIn != netIn && gameOut != netOut
      ensures Valid() && Nulls() == {} && View() == map[] && LevelNow() == LevelOf(config) && ValidLevel(LevelNow())
      ensures this.gameIn == gameIn && this.gameOut == gameOut && this.netIn == netIn && this.netOut == netOut
    {
      this.config := config;
      this.gameIn, this.gameOut, this.netIn, this.netOut := gameIn, gameOut, netIn, netOut;
      players := map[];
      tiles := seq(config.gridX * config.gridY, _ => Empty);
      new;
      LevelIsValid(config);
      var y := 0;
      while y < config.gridY
        invariant 0 <= y <= config.gridY
        invariant |tiles| == |config.cells| && players == map[]
        invariant forall i :: 0 <= i < |tiles| ==>
                    tiles[i] == if Row(config.gridX, i) < y then TileAt(config, i) else Empty
      {
        var x := 0;
        while x < config.gridX
          invariant 0 <= x <= config.gridX
          invariant |tiles| == |config.cells| && players == map[]
          invariant forall i :: 0 <= i < |tiles| ==>
                      tiles[i] == if Row(config.gridX, i) < y || (Row(config.gridX, i) == y && Col(config.gridX, i) < x)
                                  then TileAt(config, i) else Empty
        {
          var index := Index(config.gridX, x, y);
          IndexOfCell(config.gridX, config.gridY, x, y);
          SameCell(config.gridX, config.gridY, x, y);
          if config.cells[index] != 0 {
            tiles := tiles[index := Solid(CellBox(config.tile as real, x, y))];
          }
          x := x + 1;
        }
        y := y + 1;
      }
      forall i | 0 <= i < |tiles| ensures tiles[i] == TileAt(config, i) {
        CellOfIndex(config.gridX, config.gridY, i);
      }
    }

    /** The horizontal leg; the scaled velocity outlives it. */
    method MoveAlongX(player: Player) returns (velX: real)
      requires LevelBuilt()
      modifies player
      ensures player.State() == MovedX(LevelOf(config), old(player.State())).0
      ensures velX == MovedX(LevelOf(config), old(player.State())).1
    {
      hide ValidLevel, LevelOf, Swept, ScanAll;
      LevelIsValid(config);
      var lv := LevelNow();
      HasGrid(lv);
      velX := player.velX;
      var velY := player.velY;
      if velX != 0.0 {
        var swept := SweptAxis(lv, Box(player.x, player.y, player.width, player.height), velX, 0.0);
        velX := velX * swept.entryTime;
        player.Move(velX, 0.0);
        if swept.hit {
          player.SetVel(0.0, velY);
        }
      }
    }

    method MoveAlongY(player: Player, velX: real)
      requires LevelBuilt()
      modifies player
      ensures player.State() == MovedY(LevelOf(config), old(player.State()), velX)
    {
      hide ValidLevel, LevelOf, Swept, ScanAll;
      LevelIsValid(config);
      var lv := LevelNow();
      HasGrid(lv);
      var velY := player.velY;
      if velY != 0.0 {
        var swept := SweptAxis(lv, Box(player.x, player.y, player.width, player.height), 0.0, velY);
        velY := velY * swept.entryTime;
        player.Move(0.0, velY);
        player.SetOnGround(false);
        if swept.hit {
          if velY >= 0.0 {
            player.SetOnGround(true);
          }
          player.SetVel(velX, 0.0);
        }
      }
    }

    /** The X-then-Y move. */
    method MovePlayer(player: Player)
      requires LevelBuilt()
      modifies player
      ensures player.State() == Moved(LevelOf(config), old(player.State()))
    {
      hide LevelOf, MovedX, MovedY;
      var velX := MoveAlongX(player);
      MoveAlongY(player, velX);
    }

    method Update(player: Player, dt: real)
      requires LevelBuilt()
      modifies player, gameOut
      ensures player.State() == Updated(config, old(player.State()), dt)
      ensures gameOut.data == old(gameOut.data) + [MovePacket(player.State())]
    {
      player.SetVel(player.velX, player.velY + GRAVITY * dt);
      MovePlayer(player);
      gameOut.Push(ServerPacket(MovePlayerMsg(player.id, player.x, player.y), player.id, Broadcast));
    }

    /** A push to the outgoing queue leaves the players alone. */
    method Emit(packet: ServerPacket<Message>)
      requires Valid()
      modifies gameOut
      ensures gameOut.data == old(gameOut.data) + [packet]
      ensures Valid() && View() == old(View())
    {
      hide LevelBuilt;
      gameOut.Push(packet);
    }

    /** The loop over the players that fills the spawn packet. */
    method Others(id: nat) returns (others: map<nat, Entry>)
      requires Nulls() <= {id}
      ensures others == OthersOf(View(), id)
    {
      others := map[];
      var left := players.Keys;
      while left != {}
        invariant left <= players.Keys
        invariant others == map d | d in View() && d !in left && d != id :: EntryOf(View()[d])
        decreases left
      {
        var d :| d in left;
        if d != id {
          assert d !in Nulls();
          var p := players[d];
          others := others[d := Entry(p.x, p.y, p.width, p.height)];
        }
        left := left - {d};
      }
    }

    method Announce(player: Player)
      requires Valid() && Nulls() <= {player.id}
      modifies gameOut
      ensures Valid() && View() == old(View())
      ensures gameOut.data == old(gameOut.data) + Announcement(View(), player.State())
    {
      hide LevelBuilt, View, OthersOf;
      var entry := Entry(player.x, player.y, player.width, player.height);
      Emit(ServerPacket(CreatePlayerMsg(player.id, entry), player.id, Rpc));
      var others := Others(player.id);
      Emit(ServerPacket(SpawnPlayersMsg(others), player.id, Rpc));
      Emit(ServerPacket(AddPlayerMsg(player.id, entry), player.id, RpcOthers));
    }

    /** Stores the player, tells its own client about it and about all others, and tells all others about it. */
    method AddPlayer(player: Player)
      requires Valid() && Nulls() <= {player.id}
      modifies this`players, gameOut
      ensures Valid() && players == old(players)[player.id := player]
      ensures View() == Added(old(View()), player.State()).0
      ensures gameOut.data == old(gameOut.data) + Added(old(View()), player.State()).1
    {
      hide LevelBuilt, Announcement;
      players := players[player.id := player];
      assert View() == old(View())[player.id := player.State()];
      Announce(player);
    }

    method RemovePlayer(id: nat)
      requires Valid()
      modifies this`players, gameOut
      ensures Valid() && players == old(players) - {id}
      ensures View() == Removed(old(View()), id).0
      ensures gameOut.data == old(gameOut.data) + Removed(old(View()), id).1
    {
      players := players - {id};
      Emit(ServerPacket(RemovePlayerMsg(id), id, Broadcast));
    }

    /** operator[] of the players map. */
    method Lookup(id: nat)
      requires Valid()
      modifies this`players
      ensures Valid() && View() == old(View())
      ensures players == if id in old(players) then old(players) else old(players)[id := null]
      ensures Nulls() == old(Nulls()) + if id in old(players) then {} else {id}
    {
      hide LevelBuilt;
      if id !in players {
        players := players[id := null];
      }
    }

    /** The three steering cases of the opcode switch. */
    method SteerPlayer(player: Player, opcode: nat, dt: real)
      modifies player
      ensures player.State() == Steer(old(player.State()), opcode, dt)
    {
      var speed := SPEED * dt;
      var jumpForce := JUMP_FORCE * dt;
      if opcode == MOVE_LEFT {
        player.SetVel(-speed, player.velY);
      } else if opcode == MOVE_RIGHT {
        player.SetVel(speed, player.velY);
      } else if opcode == JUMP {
        if player.onGround {
          player.SetVel(player.velX, -jumpForce);
          player.SetOnGround(false);
        }
      }
    }

    /** A new player at the start position. */
    method CreatePlayer(id: nat)
      requires Valid() && Nulls() <= {id}
      modifies this`players, gameOut
      ensures Valid() && fresh(players.Values - old(players.Values)) && Nulls() == {}
      ensures View() == Added(old(View()), NewPlayer(config, id)).0
      ensures gameOut.data == old(gameOut.data) + Added(old(View()), NewPlayer(config, id)).1
    {
      hide LevelBuilt, Added;
      var c := config.player;
      var player := new Player(id, (c.startX * config.tile + c.offset) as real,
                               (c.startY * config.tile + c.offset) as real, 0.0, 0.0, c.width as real, c.height as real);
      AddPlayer(player);
    }

    /** Looks the player up, which stores null under an unknown id, and then switches on the opcode. */
    method ProcessInput(packet: Input, dt: real)
      requires Valid() && InputSafe(View().Keys, Nulls(), packet)
      modifies this`players, players.Values, gameOut
      ensures Valid() && fresh(players.Values - old(players.Values) - {null})
      ensures Nulls() == NullsNext(old(View().Keys), old(Nulls()), packet)
      ensures View() == WorldState.ProcessInput(config, old(View()), packet, dt).0
      ensures gameOut.data == old(gameOut.data) + WorldState.ProcessInput(config, old(View()), packet, dt).1
    {
      hide LevelBuilt, Added, Removed, Steer, NewPlayer;
      Lookup(packet.id);
      if packet.opcode == CREATE_PLAYER {
        CreatePlayer(packet.id);
      } else if packet.opcode == REMOVE_PLAYER {
        RemovePlayer(packet.id);
      } else if Steers(packet.opcode) {
        SteerPlayer(players[packet.id], packet.opcode, dt);
      } else {
        OnlySteeringSteers(packet.opcode, dt);
      }
    }

    // ------------------------------------------------------------------ a tick

    /** Takes over what the network threads have pushed. */
    method SwapIn()
      requires Valid()
      modifies gameIn, netIn
      ensures Valid() && View() == old(View())
      ensures gameIn.data == old(netIn.data) && netIn.data == old(gameIn.data)
    {
      hide LevelBuilt;
      TSSwap(gameIn, netIn);
    }

    /** Clears every horizontal velocity. */
    method StopAll()
      requires Valid() && Nulls() == {}
      modifies players.Values
      ensures Valid() && View() == Stopped(old(View()))
    {
      hide LevelBuilt;
      assert forall id :: id in players ==> id !in Nulls();
      var left := players.Keys;
      while left != {}
        invariant left <= players.Keys && forall id :: id in players ==> players[id] != null
        invariant forall id :: id in players ==>
          players[id].State() == if id in left then old(players[id].State()) else old(players[id].State()).(velX := 0.0)
        decreases left
      {
        var id :| id in left;
        players[id].SetVel(0.0, players[id].velY);
        left := left - {id};
      }
    }

    /** Empties the inbound queue, one packet at a time, in order. */
    method DrainInputs(dt: real)
      requires Valid() && Nulls() == {} && InputsSafe(View().Keys, gameIn.data)
      modifies this`players, players.Values, gameIn, gameOut
      ensures Valid() && Nulls() == {} && gameIn.data == [] && fresh(players.Values - old(players.Values) - {null})
      ensures var r := ProcessInputs(config, old(View()), old(gameIn.data), dt, |old(gameIn.data)|);
        View() == r.0 && gameOut.data == old(gameOut.data) + r.1
    {
      hide Valid, View, Nulls, WorldState.ProcessInput, ProcessInputs, InputsSafe, LiveAfter, NullsAfter, NullsNext;
      ghost var inputs, before := gameIn.data, View();
      ghost var n := 0;
      InputsNone(config, before, inputs, dt);
      var empty := gameIn.Empty();
      while !empty
        invariant Valid() && fresh(players.Values - old(players.Values) - {null})
        invariant 0 <= n <= |inputs| && gameIn.data == inputs[n..] && (empty <==> gameIn.data == [])
        invariant View() == ProcessInputs(config, before, inputs, dt, n).0
        invariant Nulls() == NullsAfter(before.Keys, inputs, n)
        invariant gameOut.data == old(gameOut.data) + ProcessInputs(config, before, inputs, dt, n).1
        decreases |gameIn.data|
      {
        var packet := gameIn.TryPop();
        if packet.Some? {
          InputsNext(config, before, inputs, dt, n);
          ProcessInput(packet.value, dt);
          n := n + 1;
        }
        empty := gameIn.Empty();
      }
    }

    method UpdateOne(id: nat, dt: real)
      requires Valid() && id in players && players[id] != null
      modifies players[id], gameOut
      ensures Valid() && View() == old(View())[id := Updated(config, old(View())[id], dt)]
      ensures gameOut.data == old(gameOut.data) + [MovePacket(View()[id])]
    {
      hide LevelBuilt, Updated;
      Update(players[id], dt);
    }

    /** Updates every player once, in whatever order the hash table yields them. */
    method UpdateAll(dt: real) returns (ghost order: seq<nat>)
      requires Valid() && Nulls() == {}
      modifies players.Values, gameOut
      ensures Valid() && IsOrder(order, players.Keys)
      ensures View() == AllUpdated(config, old(View()), dt)
      ensures gameOut.data == old(gameOut.data) + MovePackets(View(), order)
    {
      hide LevelBuilt, View, Updated, MovePackets;
      ghost var ps := View();
      MovesNone(ps);
      order := [];
      var left := players.Keys;
      while left != {}
        invariant Valid() && left <= players.Keys && IsOrder(order, players.Keys - left)
        invariant forall id :: id in ps ==> View()[id] == if id in left then ps[id] else Updated(config, ps[id], dt)
        invariant gameOut.data == old(gameOut.data) + MovePackets(View(), order)
        decreases left
      {
        var id :| id in left;
        ghost var before := View();
        UpdateOne(id, dt);
        MovesExtend(before, View(), order, id);
        order := order + [id];
        left := left - {id};
      }
    }

    /** Hands everything that was emitted to the network side. */
    method Flush()
      requires Valid()
      modifies gameOut, netOut
      ensures Valid() && View() == old(View())
      ensures gameOut.data == [] && netOut.data == old(netOut.data) + old(gameOut.data)
    {
      hide LevelBuilt;
      ghost var n := 0;
      var empty := gameOut.Empty();
      while !empty
        invariant 0 <= n <= |old(gameOut.data)| && gameOut.data == old(gameOut.data)[n..]
        invariant netOut.data == old(netOut.data) + old(gameOut.data)[..n]
        invariant empty <==> gameOut.data == []
        decreases |gameOut.data|
      {
        var packet := gameOut.TryPop();
        netOut.Push(packet.value);
        n := n + 1;
        empty := gameOut.Empty();
      }
    }

    /** One tick of the game thread. */
    method Tick(dt: real) returns (ghost order: seq<nat>)
      requires Valid() && Nulls() == {} && InputsSafe(View().Keys, netIn.data)
      modifies this`players, players.Values, gameIn, gameOut, netIn, netOut
      ensures Valid() && Nulls() == {} && gameIn.data == [] && gameOut.data == [] && netIn.data == old(gameIn.data)
      ensures IsOrder(order, LiveAfter(old(View().Keys), old(netIn.data), |old(netIn.data)|))
      ensures View() == WorldState.Tick(config, old(View()), old(netIn.data), dt)
      ensures netOut.data == old(netOut.data) + old(gameOut.data)
                             + TickPackets(config, old(View()), Event(dt, old(netIn.data), order))
    {
      hide LevelBuilt, View, ProcessInputs, AllUpdated, MovePackets, Stopped, LiveAfter, NullsAfter, InputsSafe;
      SwapIn();
      StopAll();
      DrainInputs(dt);
      ghost var emitted := gameOut.data[|old(gameOut.data)|..];
      order := UpdateAll(dt);
      ghost var moves := MovePackets(View(), order);
      Flush();
      assert TickPackets(config, old(View()), Event(dt, old(netIn.data), order)) == emitted + moves;
      assert netOut.data == old(netOut.data) + old(gameOut.data) + (emitted + moves);
    }
  }

  lemma OnlySteeringSteers(opcode: nat, dt: real)
    requires !Steers(opcode)
    ensures forall p :: Steer(p, opcode, dt) == p
  {
  }

  lemma SameCell(gridX: nat, gridY: nat, x: nat, y: nat)
    requires x < gridX && y < gridY
    ensures forall i: nat :: i < gridX * gridY && Row(gridX, i) == y && Col(gridX, i) == x ==> i == Index(gridX, x, y)
  {
    forall i: nat | i < gridX * gridY && Row(gridX, i) == y && Col(gridX, i) == x ensures i == Index(gridX, x, y) {
      CellOfIndex(gridX, gridY, i);
    }
  }
}
