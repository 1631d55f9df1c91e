/**
  The world as a replicated state machine. The packets that a tick emits are
  routed to the sessions (`Sender` in src/net/server/server.cpp); a client that
  applies, in order, those addressed to it holds a copy of the players map.
 */
module Replication {
  import opened Physics
  import opened Protocol
  import opened WorldState
  import opened Lists

  /** The routing rule: which sessions get a packet. */
  predicate Addressed<M>(packet: ServerPacket<M>, client: nat) {
    match packet.kind
    case Rpc => packet.id == client
    case Broadcast => true
    case RpcOthers => packet.id != client
  }

  /** The players as a client knows them. */
  type Sight = map<nat, Entry>

  function Applied(v: Sight, msg: Message): Sight {
    match msg
    case CreatePlayerMsg(id, entry) => v[id := entry]
    case SpawnPlayersMsg(others) => v + others
    case AddPlayerMsg(id, entry) => v[id := entry]
    case RemovePlayerMsg(id) => v - {id}
    case MovePlayerMsg(id, x, y) => if id in v then v[id := v[id].(x := x, y := y)] else v
  }

  /** What a client knows after the packets of `log`, skipping those for others. */
  function Fold(v: Sight, log: seq<ServerPacket<Message>>, client: nat): Sight
    decreases |log|
  {
    if log == [] then v else
    var n := |log| - 1;
    var u := Fold(v, log[..n], client);
    if Addressed(log[n], client) then Applied(u, log[n].msg) else u
  }

  lemma FoldOne(v: Sight, log: seq<ServerPacket<Message>>, p: ServerPacket<Message>, client: nat)
    ensures var u := Fold(v, log, client);
      Fold(v, log + [p], client) == if Addressed(p, client) then Applied(u, p.msg) else u
  {
    assert (log + [p])[..|log|] == log;
  }

  lemma {:induction false} FoldConcat(v: Sight, a: seq<ServerPacket<Message>>, b: seq<ServerPacket<Message>>, client: nat)
    ensures Fold(v, a + b, client) == Fold(Fold(v, a, client), b, client)
    decreases |b|
  {
    if b == [] {
      assert a + b == a;
    } else {
      var n := |b| - 1;
      FoldConcat(v, a, b[..n], client);
      FoldOne(v, a + b[..n], b[n], client);
      assert a + b == (a + b[..n]) + [b[n]];
    }
  }

  /** The messages of a log that are routed to a client. */
  function Inbox<M>(log: seq<ServerPacket<M>>, client: nat): seq<M>
    decreases |log|
  {
    if log == [] then [] else
    var n := |log| - 1;
    Inbox(log[..n], client) + if Addressed(log[n], client) then [log[n].msg] else []
  }

  function AppliedAll(v: Sight, msgs: seq<Message>): Sight
    decreases |msgs|
  {
    if msgs == [] then v else Applied(AppliedAll(v, msgs[..|msgs| - 1]), msgs[|msgs| - 1])
  }

  /** Folding the log is applying, one by one, what arrives in the client's own queue. */
  lemma {:induction false} FoldIsInbox(v: Sight, log: seq<ServerPacket<Message>>, client: nat)
    ensures Fold(v, log, client) == AppliedAll(v, Inbox(log, client))
    decreases |log|
  {
    if log == [] {
    } else {
      var n := |log| - 1;
      FoldIsInbox(v, log[..n], client);
      var inbox := Inbox(log[..n], client);
      assert Addressed(log[n], client) ==> (inbox + [log[n].msg])[..|inbox|] == inbox;
      assert inbox + [] == inbox;
    }
  }

  function Entries(ps: Players): Sight { map id | id in ps :: EntryOf(ps[id]) }

  ghost predicate KeysMatch(ps: Players) { forall id :: id in ps ==> ps[id].id == id }

  /**
    The invariant between a client and the world: nothing the client knows is
    out of date, and once its own player is live it knows everything.
   */
  ghost predicate Tracks(v: Sight, ps: Players, client: nat) {
    && KeysMatch(ps)
    && (forall d :: d in v ==> d in ps && v[d] == EntryOf(ps[d]))
    && (client in ps ==> v == Entries(ps))
  }

  // ------------------------------------------------------------------- inputs

  lemma AnnouncementTracks(v: Sight, ps: Players, p: PlayerState, client: nat)
    requires Tracks(v, ps, client)
    ensures Tracks(Fold(v, Announcement(ps[p.id := p], p), client), ps[p.id := p], client)
  {
    hide Fold;
    FoldNone(v, client);
    var qs := ps[p.id := p];
    var out := Announcement(qs, p);
    FoldOne(v, [], out[0], client);
    FoldOne(v, [out[0]], out[1], client);
    FoldOne(v, [out[0], out[1]], out[2], client);
    assert [] + [out[0]] == [out[0]] && [out[0]] + [out[1]] == [out[0], out[1]] && [out[0], out[1]] + [out[2]] == out;
    var u := Fold(v, out, client);
    if client == p.id {
      assert u == v[p.id := EntryOf(p)] + OthersOf(qs, p.id);
      assert u == Entries(qs);
    } else {
      assert u == v[p.id := EntryOf(p)];
      assert client in qs ==> u == Entries(qs);
    }
  }

  lemma RemovalTracks(v: Sight, ps: Players, id: nat, client: nat)
    requires Tracks(v, ps, client)
    ensures var r := Removed(ps, id); Tracks(Fold(v, r.1, client), r.0, client)
  {
    hide Fold;
    FoldNone(v, client);
    var r := Removed(ps, id);
    FoldOne(v, [], r.1[0], client);
    assert [] + [r.1[0]] == r.1;
    assert client in r.0 ==> v - {id} == Entries(r.0);
  }

  lemma SteeringTracks(v: Sight, ps: Players, id: nat, opcode: nat, dt: real, client: nat)
    requires Tracks(v, ps, client) && id in ps
    ensures Tracks(v, ps[id := Steer(ps[id], opcode, dt)], client)
  {
    assert client in ps ==> Entries(ps[id := Steer(ps[id], opcode, dt)]) == Entries(ps);
  }

  lemma InputTracks(c: Config, v: Sight, ps: Players, input: Input, dt: real, client: nat)
    requires Tracks(v, ps, client) && Known(ps.Keys, input)
    ensures var r := ProcessInput(c, ps, input, dt); Tracks(Fold(v, r.1, client), r.0, client)
  {
    hide Tracks, Fold, NewPlayer, Announcement, Removed, Steer;
    FoldNone(v, client);
    if input.opcode == CREATE_PLAYER {
      AnnouncementTracks(v, ps, NewPlayer(c, input.id), client);
    } else if input.opcode == REMOVE_PLAYER {
      RemovalTracks(v, ps, input.id, client);
    } else if input.id in ps {
      SteeringTracks(v, ps, input.id, input.opcode, dt, client);
    }
  }

  lemma {:induction false} InputsTrack(c: Config, v: Sight, ps: Players, inputs: seq<Input>, dt: real, n: nat, client: nat)
    requires Tracks(v, ps, client) && InputsSafe(ps.Keys, inputs) && n <= |inputs|
    ensures var r := ProcessInputs(c, ps, inputs, dt, n); Tracks(Fold(v, r.1, client), r.0, client)
  {
    hide Tracks, InputsSafe, LiveAfter, ProcessInput, Fold;
    if n == 0 {
      InputsNone(c, ps, inputs, dt);
      FoldNone(v, client);
    } else {
      InputsTrack(c, v, ps, inputs, dt, n - 1, client);
      InputsNext(c, ps, inputs, dt, n - 1);
      var r := ProcessInputs(c, ps, inputs, dt, n - 1);
      var s := ProcessInput(c, r.0, inputs[n - 1], dt);
      InputTracks(c, Fold(v, r.1, client), r.0, inputs[n - 1], dt, client);
      FoldConcat(v, r.1, s.1, client);
    }
  }

  lemma FoldNone(v: Sight, client: nat)
    ensures Fold(v, [], client) == v
  {
  }

  // -------------------------------------------------------------------- moves

  lemma UpdateKeepsBody(c: Config, p: PlayerState, dt: real)
    requires c.tile > 0 && c.gridX > 0
    ensures var q := Updated(c, p, dt); q.id == p.id && q.width == p.width && q.height == p.height
  {
  }

  function Relocated(v: Sight, ps: Players, order: seq<nat>): Sight
    requires forall id :: id in order ==> id in ps
  {
    map d | d in v :: if d in order then v[d].(x := ps[d].x, y := ps[d].y) else v[d]
  }

  /** The move packets set the coordinates of the players they name, in any order. */
  lemma {:induction false} FoldMoves(v: Sight, ps: Players, order: seq<nat>, client: nat)
    requires KeysMatch(ps) && forall id :: id in order ==> id in ps
    ensures Fold(v, MovePackets(ps, order), client) == Relocated(v, ps, order)
    decreases |order|
  {
    hide Fold, MovePackets;
    if order == [] {
      MovesNone(ps);
      FoldNone(v, client);
      assert Relocated(v, ps, order) == v;
    } else {
      var n := |order| - 1;
      var rest, d := order[..n], order[n];
      FoldMoves(v, ps, rest, client);
      assert order == rest + [d];
      MovesExtend(ps, ps, rest, d);
      FoldOne(v, MovePackets(ps, rest), MovePacket(ps[d]), client);
      assert Relocated(v, ps, order) == Applied(Relocated(v, ps, rest), MovePacket(ps[d]).msg);
    }
  }

  lemma MovesTrack(c: Config, v: Sight, ps: Players, order: seq<nat>, dt: real, client: nat)
    requires c.tile > 0 && c.gridX > 0 && Tracks(v, ps, client) && IsOrder(order, ps.Keys)
    ensures var qs := AllUpdated(c, ps, dt); Tracks(Fold(v, MovePackets(qs, order), client), qs, client)
  {
    hide Updated, Fold, MovePackets;
    var qs := AllUpdated(c, ps, dt);
    forall id | id in ps ensures qs[id].id == id && qs[id].width == ps[id].width && qs[id].height == ps[id].height {
      UpdateKeepsBody(c, ps[id], dt);
    }
    FoldMoves(v, qs, order, client);
    var u := Fold(v, MovePackets(qs, order), client);
    assert client in qs ==> u == Entries(qs);
  }

  // --------------------------------------------------------------------- runs

  lemma StoppedTracks(v: Sight, ps: Players, client: nat)
    requires Tracks(v, ps, client)
    ensures Tracks(v, Stopped(ps), client)
  {
    assert client in ps ==> Entries(Stopped(ps)) == Entries(ps);
  }

  lemma TickTracks(c: Config, v: Sight, ps: Players, e: Event, client: nat)
    requires ValidConfig(c) && EventValid(ps.Keys, e) && Tracks(v, ps, client)
    ensures Tracks(Fold(v, TickPackets(c, ps, e), client), Tick(c, ps, e.inputs, e.dt), client)
  {
    hide Tracks, InputsSafe, ProcessInputs, Fold, AllUpdated, Stopped, MovePackets;
    StoppedTracks(v, ps, client);
    InputsTrack(c, v, Stopped(ps), e.inputs, e.dt, |e.inputs|, client);
    var r := ProcessInputs(c, Stopped(ps), e.inputs, e.dt, |e.inputs|);
    MovesTrack(c, Fold(v, r.1, client), r.0, e.order, e.dt, client);
    FoldConcat(v, r.1, MovePackets(Tick(c, ps, e.inputs, e.dt), e.order), client);
  }

  /** All packets emitted in the first `k` ticks of a run. */
  ghost function Log(c: Config, ps: Players, events: seq<Event>, k: nat): seq<ServerPacket<Message>>
    requires ValidConfig(c) && IsRun(c, ps, events) && k <= |events|
    decreases k
  {
    if k == 0 then [] else
    TickPackets(c, ps, events[0]) + Log(c, Tick(c, ps, events[0].inputs, events[0].dt), events[1..], k - 1)
  }

  lemma {:induction false} RunTracks(c: Config, v: Sight, ps: Players, events: seq<Event>, k: nat, client: nat)
    requires ValidConfig(c) && IsRun(c, ps, events) && k <= |events| && Tracks(v, ps, client)
    ensures Tracks(Fold(v, Log(c, ps, events, k), client), After(c, ps, events, k), client)
    decreases k
  {
    hide Tracks, Fold, TickPackets, Tick, InputsSafe;
    if k == 0 {
      FoldNone(v, client);
    } else {
      var packets := TickPackets(c, ps, events[0]);
      var qs := Tick(c, ps, events[0].inputs, events[0].dt);
      TickTracks(c, v, ps, events[0], client);
      RunTracks(c, Fold(v, packets, client), qs, events[1..], k - 1, client);
      FoldConcat(v, packets, Log(c, qs, events[1..], k - 1), client);
    }
  }

  /**
    Replication. Take any run, from any point of the server's life, and a client
    that starts listening there with nothing: at the end of every tick at which
    its player is live, what it has folded from the packets addressed to it is
    exactly the world's map of ids, positions and sizes. Whenever its player is
    not live, what it knows is still correct.
   */
  lemma ClientSeesWorld(c: Config, ps: Players, events: seq<Event>, k: nat, client: nat)
    requires ValidConfig(c) && KeysMatch(ps) && client !in ps
    requires IsRun(c, ps, events) && k <= |events|
    ensures var v, qs := Fold(map[], Log(c, ps, events, k), client), After(c, ps, events, k);
      && (client in qs ==> v == Entries(qs))
      && (forall d :: d in v ==> d in qs && v[d] == EntryOf(qs[d]))
  {
    RunTracks(c, map[], ps, events, k, client);
  }
}
