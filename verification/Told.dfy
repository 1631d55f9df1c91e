/**
  Who is told what, said without the routing rule: a new player's own client gets
  the creation and the others, every other client gets an addition, and removals
  and moves reach everybody (AddPlayer, RemovePlayer and Update in
  src/game/world/world.cpp; Sender in src/net/server/server.cpp).
 */
module Told {
  import opened Lists
  import opened Physics
  import opened Protocol
  import opened WorldState
  import opened Replication

  // --------------------------------------------------------- one input, one tick

  /** Where the configuration puts a new player, and how large it is. */
  function StartEntry(c: Config): Entry {
    Entry((c.player.startX * c.tile + c.player.offset) as real, (c.player.startY * c.tile + c.player.offset) as real,
          c.player.width as real, c.player.height as real)
  }

  /** The player that a creation (0x0003) stores: at the configured cell, at rest and in the air. */
  lemma CreationPlaces(c: Config, ps: Players, id: nat, dt: real)
    ensures var qs := ProcessInput(c, ps, Input(id, 0x0003), dt).0;
      && qs.Keys == ps.Keys + {id} && (forall d :: d in ps && d != id ==> qs[d] == ps[d])
      && qs[id].x == (c.player.startX * c.tile + c.player.offset) as real
      && qs[id].y == (c.player.startY * c.tile + c.player.offset) as real
      && qs[id].width == c.player.width as real && qs[id].height == c.player.height as real
      && qs[id].id == id && qs[id].velX == qs[id].velY == 0.0 && !qs[id].onGround
  {
  }

  lemma {:induction false} InboxConcat<M>(a: seq<ServerPacket<M>>, b: seq<ServerPacket<M>>, client: nat)
    ensures Inbox(a + b, client) == Inbox(a, client) + Inbox(b, client)
    decreases |b|
  {
    hide Addressed;
    if b == [] {
      assert a + b == a;
    } else {
      var n := |b| - 1;
      InboxConcat(a, b[..n], client);
      assert (a + b)[..|a| + n] == a + b[..n];
    }
  }

  lemma InboxOne<M>(p: ServerPacket<M>, client: nat)
    ensures Inbox([p], client) == if Addressed(p, client) then [p.msg] else []
  {
    assert [p][..0] == [];
    assert Inbox([p][..0], client) == [];
  }

  /** What the client of a new player is told, and what every other client is told. */
  lemma CreationIsHeard(c: Config, ps: Players, id: nat, dt: real, client: nat)
    ensures var heard := Inbox(ProcessInput(c, ps, Input(id, 0x0003), dt).1, client);
      if id == client then
        && |heard| == 2 && heard[0] == CreatePlayerMsg(id, StartEntry(c))
        && heard[1] == SpawnPlayersMsg(map d | d in ps && d != id :: Entry(ps[d].x, ps[d].y, ps[d].width, ps[d].height))
      else heard == [AddPlayerMsg(id, StartEntry(c))]
  {
    hide Inbox;
    var p := NewPlayer(c, id);
    var out := ProcessInput(c, ps, Input(id, 0x0003), dt).1;
    assert out == Announcement(ps[id := p], p) && p.id == id && EntryOf(p) == StartEntry(c);
    InboxConcat([out[0]], [out[1]], client);
    InboxConcat([out[0], out[1]], [out[2]], client);
    assert [out[0]] + [out[1]] == [out[0], out[1]] && [out[0], out[1]] + [out[2]] == out;
    InboxOne(out[0], client);
    InboxOne(out[1], client);
    InboxOne(out[2], client);
    assert OthersOf(ps[id := p], id) == map d | d in ps && d != id :: Entry(ps[d].x, ps[d].y, ps[d].width, ps[d].height);
  }

  /** A removal (0x0017) is told to everybody, whether the player was there or not, and nothing else is told. */
  lemma OtherInputIsHeard(c: Config, ps: Players, input: Input, dt: real, client: nat)
    requires Known(ps.Keys, input) && input.opcode != 0x0003
    ensures var heard := Inbox(ProcessInput(c, ps, input, dt).1, client);
      heard == if input.opcode == 0x0017 then [RemovePlayerMsg(input.id)] else []
  {
    hide Inbox;
    var out := ProcessInput(c, ps, input, dt).1;
    if input.opcode == REMOVE_PLAYER {
      assert out == [out[0]];
      InboxOne(out[0], client);
    } else {
      InboxNone(out, client);
    }
  }

  lemma InboxNone<M>(log: seq<ServerPacket<M>>, client: nat)
    requires log == []
    ensures Inbox(log, client) == []
  {
  }

  /** Every client hears of every player once at the end of a tick, with its new coordinates. */
  lemma {:induction false} MovesAreHeard(ps: Players, order: seq<nat>, client: nat)
    requires KeysMatch(ps) && forall id :: id in order ==> id in ps
    ensures var heard := Inbox(MovePackets(ps, order), client);
      |heard| == |order| && forall i :: 0 <= i < |order| ==> heard[i] == MovePlayerMsg(order[i], ps[order[i]].x, ps[order[i]].y)
    decreases |order|
  {
    hide Inbox, MovePackets;
    if order == [] {
      MovesNone(ps);
      InboxNone(MovePackets(ps, order), client);
    } else {
      var n := |order| - 1;
      MovesAreHeard(ps, order[..n], client);
      MovesExtend(ps, ps, order[..n], order[n]);
      InboxConcat(MovePackets(ps, order[..n]), [MovePacket(ps[order[n]])], client);
      InboxOne(MovePacket(ps[order[n]]), client);
      assert order == order[..n] + [order[n]];
    }
  }

  // ---------------------------------------------------------------- in every run

  /** A creation is about the client itself and an addition about somebody else, both at the start position. */
  predicate Proper(c: Config, client: nat, m: Message) {
    match m
    case CreatePlayerMsg(id, e) => id == client && e == StartEntry(c)
    case AddPlayerMsg(id, e) => id != client && e == StartEntry(c)
    case SpawnPlayersMsg(others) => client !in others
    case _ => true
  }

  ghost predicate AllProper(c: Config, client: nat, ms: seq<Message>) { forall m :: m in ms ==> Proper(c, client, m) }

  /** How many messages of each kind. */
  datatype Tally = Tally(creates: nat, spawns: nat, adds: nat, removes: nat, moves: nat) {
    function Plus(t: Tally): Tally {
      Tally(creates + t.creates, spawns + t.spawns, adds + t.adds, removes + t.removes, moves + t.moves)
    }

    function Total(): nat { creates + spawns + adds + removes + moves }
  }

  const NOTHING := Tally(0, 0, 0, 0, 0)

  function OfKind(m: Message): Tally {
    match m
    case CreatePlayerMsg(_, _) => Tally(1, 0, 0, 0, 0)
    case SpawnPlayersMsg(_) => Tally(0, 1, 0, 0, 0)
    case AddPlayerMsg(_, _) => Tally(0, 0, 1, 0, 0)
    case RemovePlayerMsg(_) => Tally(0, 0, 0, 1, 0)
    case MovePlayerMsg(_, _, _) => Tally(0, 0, 0, 0, 1)
  }

  function TallyOf(ms: seq<Message>): Tally
    decreases |ms|
  {
    if ms == [] then NOTHING else TallyOf(ms[..|ms| - 1]).Plus(OfKind(ms[|ms| - 1]))
  }

  lemma TallyNext(ms: seq<Message>, m: Message)
    ensures TallyOf([]) == NOTHING && TallyOf(ms + [m]) == TallyOf(ms).Plus(OfKind(m))
  {
    assert (ms + [m])[..|ms|] == ms;
  }

  lemma PlusAssociates(a: Tally, b: Tally, c: Tally)
    ensures a.Plus(b).Plus(c) == a.Plus(b.Plus(c)) && a.Plus(NOTHING) == a == NOTHING.Plus(a)
    ensures a.Plus(b).Total() == a.Total() + b.Total()
  {
  }

  lemma {:induction false} TallyConcat(a: seq<Message>, b: seq<Message>)
    ensures TallyOf(a + b) == TallyOf(a).Plus(TallyOf(b))
    decreases |b|
  {
    hide *;
    PlusAssociates(TallyOf(a), NOTHING, NOTHING);
    if b == [] {
      assert a + b == a && b == [];
      TallyNone();
    } else {
      var n := |b| - 1;
      TallyConcat(a, b[..n]);
      assert a + b == (a + b[..n]) + [b[n]] && b == b[..n] + [b[n]];
      TallyNext(a + b[..n], b[n]);
      TallyNext(b[..n], b[n]);
      PlusAssociates(TallyOf(a), TallyOf(b[..n]), OfKind(b[n]));
    }
  }

  lemma TallyNone()
    ensures TallyOf([]) == NOTHING && NOTHING.Total() == 0
  {
  }

  lemma {:induction false} TallyTotal(ms: seq<Message>)
    ensures TallyOf(ms).Total() == |ms|
    decreases |ms|
  {
    hide *;
    if ms == [] {
      TallyNone();
    } else {
      var n := |ms| - 1;
      assert ms == ms[..n] + [ms[n]];
      TallyTotal(ms[..n]);
      TallyNext(ms[..n], ms[n]);
      PlusAssociates(TallyOf(ms[..n]), OfKind(ms[n]), NOTHING);
      KindIsOne(ms[n]);
    }
  }

  lemma KindIsOne(m: Message)
    ensures OfKind(m).Total() == 1
  {
  }

  /** What an input has to tell `client`: two messages for its own creation, one for any other creation or a removal. */
  function DueForInput(input: Input, client: nat): Tally {
    if input == Input(client, 0x0003) then Tally(1, 1, 0, 0, 0)
    else if input.opcode == 0x0003 then Tally(0, 0, 1, 0, 0)
    else if input.opcode == 0x0017 then Tally(0, 0, 0, 1, 0)
    else NOTHING
  }

  function DueForInputs(inputs: seq<Input>, client: nat, n: nat): Tally
    requires n <= |inputs|
  {
    if n == 0 then NOTHING else DueForInputs(inputs, client, n - 1).Plus(DueForInput(inputs[n - 1], client))
  }

  /** What the first `k` ticks have to tell `client`, from the inputs alone: theirs, and a move for each live player. */
  function Due(live: set<nat>, events: seq<Event>, client: nat, k: nat): Tally
    requires k <= |events|
    decreases k
  {
    if k == 0 then NOTHING else
    var inputs := events[0].inputs;
    var next := LiveAfter(live, inputs, |inputs|);
    DueForInputs(inputs, client, |inputs|).Plus(Tally(0, 0, 0, 0, |next|)).Plus(Due(next, events[1..], client, k - 1))
  }

  lemma InputIsDue(c: Config, ps: Players, input: Input, dt: real, client: nat)
    requires Known(ps.Keys, input)
    ensures var heard := Inbox(ProcessInput(c, ps, input, dt).1, client);
      TallyOf(heard) == DueForInput(input, client) && AllProper(c, client, heard)
  {
    hide Inbox, ProcessInput, TallyOf, StartEntry, AllProper;
    if input.opcode == 0x0003 {
      assert input == Input(input.id, 0x0003);
      CreationIsDue(c, ps, input.id, dt, client);
    } else {
      OtherInputIsHeard(c, ps, input, dt, client);
      NothingHeard(client);
      NoneProper(c, client);
      RemovalTally(c, client, input.id);
    }
  }

  lemma CreationIsDue(c: Config, ps: Players, id: nat, dt: real, client: nat)
    ensures var heard := Inbox(ProcessInput(c, ps, Input(id, 0x0003), dt).1, client);
      && TallyOf(heard) == (if id == client then Tally(1, 1, 0, 0, 0) else Tally(0, 0, 1, 0, 0))
      && AllProper(c, client, heard)
  {
    hide Inbox, ProcessInput, TallyOf, StartEntry;
    var heard := Inbox(ProcessInput(c, ps, Input(id, 0x0003), dt).1, client);
    CreationIsHeard(c, ps, id, dt, client);
    if id == client {
      PairTally(heard[0], heard[1]);
      assert heard == [heard[0], heard[1]];
    } else {
      SingleTally(heard[0]);
    }
  }

  lemma NoneProper(c: Config, client: nat)
    ensures AllProper(c, client, [])
  {
  }

  lemma RemovalTally(c: Config, client: nat, id: nat)
    ensures TallyOf([RemovePlayerMsg(id)]) == Tally(0, 0, 0, 1, 0) && AllProper(c, client, [RemovePlayerMsg(id)])
  {
    hide TallyOf;
    SingleTally(RemovePlayerMsg(id));
  }

  lemma SingleTally(m: Message)
    ensures TallyOf([m]) == OfKind(m)
  {
    hide TallyOf, OfKind;
    assert [m] == [] + [m];
    TallyNext([], m);
  }

  lemma PairTally(m: Message, n: Message)
    requires m.CreatePlayerMsg? && n.SpawnPlayersMsg?
    ensures TallyOf([m, n]) == Tally(1, 1, 0, 0, 0)
  {
    hide TallyOf;
    SingleTally(m);
    assert [m, n] == [m] + [n];
    TallyNext([m], n);
  }

  lemma {:induction false} InputsAreDue(c: Config, ps: Players, inputs: seq<Input>, dt: real, n: nat, client: nat)
    requires InputsSafe(ps.Keys, inputs) && n <= |inputs|
    ensures var heard := Inbox(ProcessInputs(c, ps, inputs, dt, n).1, client);
      TallyOf(heard) == DueForInputs(inputs, client, n) && AllProper(c, client, heard)
  {
    hide Inbox, TallyOf, Proper, InputsSafe, ProcessInput, LiveAfter, DueForInput;
    if n == 0 {
      InputsNone(c, ps, inputs, dt);
      NothingHeard(client);
    } else {
      InputsAreDue(c, ps, inputs, dt, n - 1, client);
      InputsNext(c, ps, inputs, dt, n - 1);
      var r := ProcessInputs(c, ps, inputs, dt, n - 1);
      var more := ProcessInput(c, r.0, inputs[n - 1], dt).1;
      InputIsDue(c, r.0, inputs[n - 1], dt, client);
      InboxConcat(r.1, more, client);
      TallyConcat(Inbox(r.1, client), Inbox(more, client));
    }
  }

  lemma NothingHeard(client: nat)
    ensures Inbox<Message>([], client) == [] && TallyOf([]) == NOTHING
  {
  }

  lemma {:induction false} MovesAreDue(c: Config, ms: seq<Message>, client: nat)
    requires forall i :: 0 <= i < |ms| ==> ms[i].MovePlayerMsg?
    ensures TallyOf(ms) == Tally(0, 0, 0, 0, |ms|) && AllProper(c, client, ms)
    decreases |ms|
  {
    if ms == [] {
    } else {
      MovesAreDue(c, ms[..|ms| - 1], client);
    }
  }

  lemma TickKeepsKeys(c: Config, ps: Players, e: Event)
    requires ValidConfig(c) && KeysMatch(ps) && EventValid(ps.Keys, e)
    ensures var qs := Tick(c, ps, e.inputs, e.dt); qs.Keys == LiveAfter(ps.Keys, e.inputs, |e.inputs|) && KeysMatch(qs)
  {
    hide InputsSafe, ProcessInputs, AllUpdated, Fold, TickPackets;
    TickTracks(c, Entries(ps), ps, e, 0);
  }

  lemma TickIsDue(c: Config, ps: Players, e: Event, client: nat)
    requires ValidConfig(c) && KeysMatch(ps) && EventValid(ps.Keys, e)
    ensures var heard := Inbox(TickPackets(c, ps, e), client);
      && TallyOf(heard) ==
         DueForInputs(e.inputs, client, |e.inputs|).Plus(Tally(0, 0, 0, 0, |LiveAfter(ps.Keys, e.inputs, |e.inputs|)|))
      && AllProper(c, client, heard)
  {
    hide Inbox, TallyOf, Proper, InputsSafe, LiveAfter, ProcessInputs, Tick, MovePackets, DueForInputs, KeysMatch;
    var qs := Tick(c, ps, e.inputs, e.dt);
    var told := ProcessInputs(c, Stopped(ps), e.inputs, e.dt, |e.inputs|).1;
    TickKeepsKeys(c, ps, e);
    var moves := MovePackets(qs, e.order);
    InputsAreDue(c, Stopped(ps), e.inputs, e.dt, |e.inputs|, client);
    MovesAreHeard(qs, e.order, client);
    MovesAreDue(c, Inbox(moves, client), client);
    OrderSize(e.order, qs.Keys);
    InboxConcat(told, moves, client);
    TallyConcat(Inbox(told, client), Inbox(moves, client));
  }

  /**
    In every run a client hears of its own creation as such and of others as
    additions, never the other way round, and as often as the inputs say: two
    messages for each input that creates its player, one for each that creates
    another, one for each removal, and one per tick for each live player.
   */
  lemma {:induction false} RunTellsExactly(c: Config, ps: Players, events: seq<Event>, k: nat, client: nat)
    requires ValidConfig(c) && KeysMatch(ps) && IsRun(c, ps, events) && k <= |events|
    ensures var heard := Inbox(Log(c, ps, events, k), client);
      TallyOf(heard) == Due(ps.Keys, events, client, k) && AllProper(c, client, heard)
    decreases k
  {
    hide Inbox, TallyOf, Proper, TickPackets, Tick, InputsSafe, LiveAfter, DueForInputs, KeysMatch;
    if k == 0 {
      NothingHeard(client);
    } else {
      var e := events[0];
      var qs := Tick(c, ps, e.inputs, e.dt);
      var rest := Log(c, qs, events[1..], k - 1);
      TickKeepsKeys(c, ps, e);
      TickIsDue(c, ps, e, client);
      RunTellsExactly(c, qs, events[1..], k - 1, client);
      InboxConcat(TickPackets(c, ps, e), rest, client);
      TallyConcat(Inbox(TickPackets(c, ps, e), client), Inbox(rest, client));
    }
  }
}
