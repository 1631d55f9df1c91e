/**
  What a run tells its clients: every size is a byte, because the configuration
  says so, and a new client is told of at most four others exactly if at most five
  players are live at its join (AddPlayer in src/game/world/world.cpp).
 */
module Joins {
  import opened Physics
  import opened Protocol
  import opened WorldState
  import opened Replication
  import opened Encoding

  // ------------------------------------------------------------------- sizes

  ghost predicate PlayersSized(ps: Players) { forall id :: id in ps ==> EntrySized(EntryOf(ps[id])) }

  ghost predicate LogSized(log: seq<ServerPacket<Message>>) { forall p :: p in log ==> MessageSized(p.msg) }

  lemma ConfiguredSize(n: nat)
    requires n <= 0xFF
    ensures ByteSized(n as real)
  {
  }

  lemma InputIsSized(c: Config, ps: Players, input: Input, dt: real)
    requires ValidConfig(c) && PlayersSized(ps) && Known(ps.Keys, input)
    ensures var r := ProcessInput(c, ps, input, dt); PlayersSized(r.0) && LogSized(r.1)
  {
    ConfiguredSize(c.player.width);
    ConfiguredSize(c.player.height);
  }

  lemma {:induction false} InputsAreSized(c: Config, ps: Players, inputs: seq<Input>, dt: real, n: nat)
    requires ValidConfig(c) && PlayersSized(ps) && InputsSafe(ps.Keys, inputs) && n <= |inputs|
    ensures var r := ProcessInputs(c, ps, inputs, dt, n); PlayersSized(r.0) && LogSized(r.1)
  {
    hide PlayersSized, InputsSafe, LiveAfter, ProcessInput, MessageSized;
    if n == 0 {
      InputsNone(c, ps, inputs, dt);
    } else {
      InputsAreSized(c, ps, inputs, dt, n - 1);
      InputsNext(c, ps, inputs, dt, n - 1);
      InputIsSized(c, ProcessInputs(c, ps, inputs, dt, n - 1).0, inputs[n - 1], dt);
    }
  }

  lemma UpdatesAreSized(c: Config, ps: Players, dt: real)
    requires ValidConfig(c) && PlayersSized(ps)
    ensures PlayersSized(AllUpdated(c, ps, dt))
  {
    hide Updated;
    forall id | id in ps ensures EntrySized(EntryOf(Updated(c, ps[id], dt))) {
      UpdateKeepsBody(c, ps[id], dt);
    }
  }

  lemma TickIsSized(c: Config, ps: Players, e: Event)
    requires ValidConfig(c) && PlayersSized(ps) && EventValid(ps.Keys, e)
    ensures PlayersSized(Tick(c, ps, e.inputs, e.dt)) && LogSized(TickPackets(c, ps, e))
  {
    hide InputsSafe, LiveAfter, ProcessInputs, AllUpdated;
    assert PlayersSized(Stopped(ps));
    InputsAreSized(c, Stopped(ps), e.inputs, e.dt, |e.inputs|);
    UpdatesAreSized(c, Steered(c, ps, e.inputs, e.dt), e.dt);
  }

  /** In every run every message has byte sizes, because the configured sizes are bytes and never change. */
  lemma {:induction false} RunIsSized(c: Config, ps: Players, events: seq<Event>, k: nat)
    requires ValidConfig(c) && PlayersSized(ps) && IsRun(c, ps, events) && k <= |events|
    ensures LogSized(Log(c, ps, events, k))
    decreases k
  {
    hide PlayersSized, MessageSized, TickPackets, Tick, InputsSafe;
    if k == 0 {
    } else {
      TickIsSized(c, ps, events[0]);
      RunIsSized(c, Tick(c, ps, events[0].inputs, events[0].dt), events[1..], k - 1);
    }
  }

  lemma {:induction false} InboxIsSized(log: seq<ServerPacket<Message>>, client: nat)
    requires LogSized(log)
    ensures AllSized(Inbox(log, client))
    decreases |log|
  {
    hide MessageSized;
    if log == [] {
    } else {
      InboxIsSized(log[..|log| - 1], client);
    }
  }

  // ------------------------------------------------------------------- joins

  /** Right after each join of `client` among the first `n` inputs at most five players are live. */
  ghost predicate RoomyInputs(live: set<nat>, inputs: seq<Input>, client: nat, n: nat)
    requires n <= |inputs|
  {
    forall j :: 0 <= j < n && inputs[j] == Input(client, CREATE_PLAYER) ==> |LiveAfter(live, inputs, j + 1)| <= 5
  }

  /** The same for the first `k` ticks: a condition on what the server was sent, not on what it answers. */
  ghost predicate RoomyJoins(live: set<nat>, events: seq<Event>, client: nat, k: nat)
    requires k <= |events|
    decreases k
  {
    k == 0 ||
    (var inputs := events[0].inputs;
     RoomyInputs(live, inputs, client, |inputs|) && RoomyJoins(LiveAfter(live, inputs, |inputs|), events[1..], client, k - 1))
  }

  /** The log holds no crowded message for the client. */
  ghost predicate Roomy(log: seq<ServerPacket<Message>>, client: nat) {
    forall p :: p in log && Addressed(p, client) ==> Uncrowded(p.msg)
  }

  lemma RoomyConcat(a: seq<ServerPacket<Message>>, b: seq<ServerPacket<Message>>, client: nat)
    ensures Roomy(a + b, client) <==> Roomy(a, client) && Roomy(b, client)
  {
    assert forall p :: p in a + b <==> p in a || p in b;
  }

  lemma {:induction false} RoomyInbox(log: seq<ServerPacket<Message>>, client: nat)
    ensures Roomy(log, client) <==> forall m :: m in Inbox(log, client) ==> Uncrowded(m)
    decreases |log|
  {
    hide Uncrowded;
    if log == [] {
    } else {
      var n := |log| - 1;
      RoomyInbox(log[..n], client);
      RoomyConcat(log[..n], [log[n]], client);
      assert log == log[..n] + [log[n]];
    }
  }

  /** A spawn message names all players but one. */
  lemma AnnouncementCrowds(ps: Players, p: PlayerState, client: nat)
    requires p.id in ps
    ensures Roomy(Announcement(ps, p), client) <==> (p.id == client ==> |ps.Keys| <= 5)
  {
    var out := Announcement(ps, p);
    assert OthersOf(ps, p.id).Keys == ps.Keys - {p.id};
    assert |OthersOf(ps, p.id)| == |OthersOf(ps, p.id).Keys| == |ps.Keys| - 1;
    assert out[1] in out && (Addressed(out[1], client) <==> p.id == client);
  }

  lemma InputCrowds(c: Config, ps: Players, input: Input, dt: real, client: nat)
    requires Known(ps.Keys, input)
    ensures var r := ProcessInput(c, ps, input, dt);
      Roomy(r.1, client) <==> (input == Input(client, CREATE_PLAYER) ==> |r.0.Keys| <= 5)
  {
    hide Announcement;
    if input.opcode == CREATE_PLAYER {
      var p := NewPlayer(c, input.id);
      AnnouncementCrowds(ps[p.id := p], p, client);
    }
  }

  lemma {:induction false} InputsCrowd(c: Config, ps: Players, inputs: seq<Input>, dt: real, n: nat, client: nat)
    requires InputsSafe(ps.Keys, inputs) && n <= |inputs|
    ensures Roomy(ProcessInputs(c, ps, inputs, dt, n).1, client) <==> RoomyInputs(ps.Keys, inputs, client, n)
  {
    hide Roomy, InputsSafe, ProcessInput, LiveAfter;
    if n == 0 {
      InputsNone(c, ps, inputs, dt);
      NothingIsRoomy(client);
    } else {
      InputsCrowd(c, ps, inputs, dt, n - 1, client);
      InputsNext(c, ps, inputs, dt, n - 1);
      var r := ProcessInputs(c, ps, inputs, dt, n - 1);
      InputCrowds(c, r.0, inputs[n - 1], dt, client);
      RoomyConcat(r.1, ProcessInput(c, r.0, inputs[n - 1], dt).1, client);
      assert ProcessInputs(c, ps, inputs, dt, n).0.Keys == LiveAfter(ps.Keys, inputs, n);
    }
  }

  lemma NothingIsRoomy(client: nat)
    ensures Roomy([], client)
  {
  }

  lemma MovesAreRoomy(ps: Players, order: seq<nat>, client: nat)
    requires forall id :: id in order ==> id in ps
    ensures Roomy(MovePackets(ps, order), client)
  {
  }

  lemma TickCrowds(c: Config, ps: Players, e: Event, client: nat)
    requires ValidConfig(c) && EventValid(ps.Keys, e)
    ensures Roomy(TickPackets(c, ps, e), client) <==> RoomyInputs(ps.Keys, e.inputs, client, |e.inputs|)
    ensures Tick(c, ps, e.inputs, e.dt).Keys == LiveAfter(ps.Keys, e.inputs, |e.inputs|)
  {
    hide Roomy, RoomyInputs, InputsSafe, LiveAfter, ProcessInputs, AllUpdated, MovePackets;
    InputsCrowd(c, Stopped(ps), e.inputs, e.dt, |e.inputs|, client);
    MovesAreRoomy(Tick(c, ps, e.inputs, e.dt), e.order, client);
    var told := ProcessInputs(c, Stopped(ps), e.inputs, e.dt, |e.inputs|).1;
    RoomyConcat(told, MovePackets(Tick(c, ps, e.inputs, e.dt), e.order), client);
  }

  lemma {:induction false} RunCrowds(c: Config, ps: Players, events: seq<Event>, k: nat, client: nat)
    requires ValidConfig(c) && IsRun(c, ps, events) && k <= |events|
    ensures Roomy(Log(c, ps, events, k), client) <==> RoomyJoins(ps.Keys, events, client, k)
    decreases k
  {
    hide Roomy, RoomyInputs, TickPackets, Tick, InputsSafe, LiveAfter;
    if k == 0 {
      NothingIsRoomy(client);
    } else {
      var e := events[0];
      var qs := Tick(c, ps, e.inputs, e.dt);
      TickCrowds(c, ps, e, client);
      RunCrowds(c, qs, events[1..], k - 1, client);
      RoomyConcat(TickPackets(c, ps, e), Log(c, qs, events[1..], k - 1), client);
    }
  }

  /**
    In every run: no message for a client is too crowded for the wire if and only
    if, right after each input that creates its player, at most five players live.
   */
  lemma JoinsDecideCrowding(c: Config, ps: Players, events: seq<Event>, k: nat, client: nat)
    requires ValidConfig(c) && IsRun(c, ps, events) && k <= |events|
    ensures (forall m :: m in Inbox(Log(c, ps, events, k), client) ==> Uncrowded(m)) <==> RoomyJoins(ps.Keys, events, client, k)
  {
    hide Roomy, Log, IsRun, Uncrowded, Inbox, RoomyJoins;
    RunCrowds(c, ps, events, k, client);
    RoomyInbox(Log(c, ps, events, k), client);
  }
}
