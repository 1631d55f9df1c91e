/**
  Six players in the room of the witnesses: the sixth client is told of five
  others, which no packet can carry.
 */
module Crowd {
  import opened Lists
  import opened Physics
  import opened Collision
  import opened Protocol
  import opened WorldState
  import opened Runs
  import opened Replication
  import opened Wire
  import opened Framing
  import opened Encoding
  import opened Joins
  import opened Delivery
  import opened Witnesses

  /** Whole numbers are their own bit patterns; no others occur here. */
  const WHOLE: Doubles := Doubles((x: real) => if x.Floor < 0 then 0 else x.Floor, (n: nat) => n as real)

  const CREATIONS: seq<Input> := seq(6, i requires 0 <= i < 6 => Input(i, CREATE_PLAYER))

  /** A tick in which six clients join. */
  const RUSH: Event := Event(0.3, CREATIONS, Upto(6))

  function Upto(n: nat): seq<nat> { if n == 0 then [] else Upto(n - 1) + [n - 1] }

  function FirstIds(n: nat): set<nat>
    ensures forall i: nat :: i in FirstIds(n) <==> i < n
  {
    if n == 0 then {} else FirstIds(n - 1) + {n - 1}
  }

  lemma {:induction false} Joining(n: nat)
    requires n <= 6
    ensures LiveAfter({}, CREATIONS, n) == FirstIds(n) && NullsAfter({}, CREATIONS, n) == {}
  {
    if n == 0 {
    } else {
      Joining(n - 1);
    }
  }

  lemma {:induction false} HowMany(n: nat)
    ensures |FirstIds(n)| == n && IsOrder(Upto(n), FirstIds(n))
  {
    hide IsOrder;
    if n == 0 {
      OrderEmpty();
    } else {
      HowMany(n - 1);
      OrderGrows(Upto(n - 1), FirstIds(n - 1), n - 1);
    }
  }

  lemma RushIsSafe()
    ensures InputsSafe({}, CREATIONS)
  {
    hide LiveAfter, NullsAfter;
    forall k | 0 <= k < 6 ensures InputSafe(LiveAfter({}, CREATIONS, k), NullsAfter({}, CREATIONS, k), CREATIONS[k]) {
      Joining(k);
    }
    Joining(6);
  }

  lemma RushIsValid()
    ensures InputsSafe({}, CREATIONS) && EventValid({}, RUSH)
  {
    hide LiveAfter, NullsAfter, InputsSafe, IsOrder, FirstIds, Upto;
    RushIsSafe();
    Joining(6);
    HowMany(6);
  }

  lemma RushIsARun()
    ensures ValidConfig(ROOM) && InputsSafe({}, CREATIONS) && EventValid({}, RUSH) && IsRun(ROOM, map[], [RUSH])
  {
    hide Tick, EventValid, IsRun;
    RushIsValid();
    var nobody: Players := map[];
    assert nobody.Keys == {} && [RUSH] + [] == [RUSH];
    EmptyRun(ROOM, Tick(ROOM, nobody, RUSH.inputs, RUSH.dt));
    RunGrows(ROOM, nobody, RUSH, [], 0);
  }

  /** The sixth client joins when five others are live. */
  lemma RushIsCrowded()
    ensures !RoomyJoins({}, [RUSH], 5, 1)
  {
    hide LiveAfter;
    Joining(6);
    HowMany(6);
    assert CREATIONS[5] == Input(5, CREATE_PLAYER);
    assert !RoomyInputs({}, CREATIONS, 5, 6);
  }

  // ---------------------------------------------- everything in it can be sent

  const START_ENTRY: Entry := Entry(37.0, 37.0, 15.0, 25.0)

  /** A message of the rush: players at their start, or where they land. */
  ghost predicate Plain(m: Message) {
    match m
    case CreatePlayerMsg(id, e) => id < 6 && e == START_ENTRY
    case AddPlayerMsg(id, e) => id < 6 && e == START_ENTRY
    case SpawnPlayersMsg(others) => forall id :: id in others ==> id < 6 && others[id] == START_ENTRY
    case MovePlayerMsg(id, x, y) => id < 6 && x == 37.0 && y == 39.0
    case RemovePlayerMsg(_) => false
  }

  lemma PlainIsRepresentable(m: Message)
    requires Plain(m)
    ensures Representable(WHOLE, m)
  {
    PowerOfEight();
    assert Exact(WHOLE, 37.0) && Exact(WHOLE, 39.0);
    if m.SpawnPlayersMsg? {
      HowMany(6);
      Subset(m.others.Keys, FirstIds(6));
      assert |m.others| == |m.others.Keys|;
    }
  }

  lemma {:induction false} Subset(a: set<nat>, b: set<nat>)
    requires a <= b
    ensures |a| <= |b|
    decreases a
  {
    if a == {} {
    } else {
      var x :| x in a;
      Subset(a - {x}, b - {x});
    }
  }

  ghost predicate AllPlain(log: seq<ServerPacket<Message>>) { forall p :: p in log ==> Plain(p.msg) }

  function Newcomers(n: nat): Players
    ensures forall i: nat :: i in Newcomers(n) <==> i < n
    ensures forall i: nat :: i < n ==> Newcomers(n)[i] == NewPlayer(ROOM, i)
  {
    if n == 0 then map[] else Newcomers(n - 1)[n - 1 := NewPlayer(ROOM, n - 1)]
  }

  lemma NextJoin(n: nat)
    requires n < 6
    ensures var r := ProcessInput(ROOM, Newcomers(n), CREATIONS[n], 0.3); r.0 == Newcomers(n + 1) && AllPlain(r.1)
  {
    assert forall i: nat :: EntryOf(NewPlayer(ROOM, i)) == START_ENTRY;
  }

  lemma {:induction false} AllJoin(n: nat)
    requires n <= 6 && InputsSafe({}, CREATIONS)
    ensures var nobody: Players := map[]; InputsSafe(nobody.Keys, CREATIONS)
    ensures var r := ProcessInputs(ROOM, map[], CREATIONS, 0.3, n); r.0 == Newcomers(n) && AllPlain(r.1)
  {
    hide ProcessInput, Plain, InputsSafe;
    var nobody: Players := map[];
    assert nobody.Keys == {};
    if n == 0 {
    } else {
      AllJoin(n - 1);
      InputsNext(ROOM, nobody, CREATIONS, 0.3, n - 1);
      NextJoin(n - 1);
    }
  }

  lemma {:induction false} NobodySteers(id: nat, n: nat)
    requires n <= 6
    ensures OwnOpcodes(CREATIONS, id, n) == []
  {
    if n == 0 {
    } else {
      NobodySteers(id, n - 1);
    }
  }

  lemma AllLand(id: nat)
    requires ValidConfig(ROOM) && InputsSafe({}, CREATIONS) && id < 6
    ensures var nobody: Players := map[]; InputsSafe(nobody.Keys, CREATIONS)
    ensures var qs := Tick(ROOM, map[], CREATIONS, 0.3);
      id in qs && qs[id].id == id && qs[id].x == 37.0 && qs[id].y == 39.0
  {
    hide InputsSafe, PlayerTick, LiveAfter, Tick;
    var nobody: Players := map[];
    assert nobody.Keys == {};
    TickKeys(ROOM, nobody, CREATIONS, 0.3);
    Joining(6);
    TickIsPlayerTick(ROOM, nobody, CREATIONS, 0.3, id);
    NobodySteers(id, 6);
    Landing(id);
    assert StartOf(ROOM, nobody, CREATIONS, id) == PlayerAt(37.0, 0.0, false).(id := id);
  }

  /** The packets of a tick are plain if those of its inputs are and its players land. */
  lemma TickIsPlain(c: Config, ps: Players, e: Event)
    requires ValidConfig(c) && EventValid(ps.Keys, e)
    requires AllPlain(ProcessInputs(c, Stopped(ps), e.inputs, e.dt, |e.inputs|).1)
    requires var qs := Tick(c, ps, e.inputs, e.dt);
      forall id :: id in e.order ==> id in qs && Plain(MovePacket(qs[id]).msg)
    ensures AllPlain(TickPackets(c, ps, e))
  {
    hide InputsSafe, Tick, ProcessInputs, LiveAfter, Plain, MovePacket;
    assert AllPlain(MovePackets(Tick(c, ps, e.inputs, e.dt), e.order));
  }

  lemma RushLands(id: nat)
    requires id in RUSH.order && ValidConfig(ROOM) && InputsSafe({}, CREATIONS)
    ensures var nobody: Players := map[]; InputsSafe(nobody.Keys, CREATIONS)
    ensures var qs := Tick(ROOM, map[], CREATIONS, 0.3); id in qs && Plain(MovePacket(qs[id]).msg)
  {
    hide InputsSafe, Tick, IsOrder, Upto;
    HowMany(6);
    OrderMembers(RUSH.order, FirstIds(6), id);
    AllLand(id);
  }

  lemma RushPacketsArePlain(nobody: Players)
    requires nobody == map[] && ValidConfig(ROOM) && InputsSafe({}, CREATIONS) && EventValid({}, RUSH)
    ensures nobody.Keys == {} && 5 in Tick(ROOM, nobody, CREATIONS, 0.3) && AllPlain(TickPackets(ROOM, nobody, RUSH))
  {
    hide InputsSafe, Tick, ProcessInputs, LiveAfter, TickPackets, IsOrder, Upto, FirstIds, Newcomers, Plain, MovePacket,
      AllPlain, EventValid;
    assert nobody.Keys == {} && Stopped(nobody) == nobody;
    AllJoin(6);
    forall id | id in RUSH.order
      ensures id in Tick(ROOM, nobody, CREATIONS, 0.3) && Plain(MovePacket(Tick(ROOM, nobody, CREATIONS, 0.3)[id]).msg)
    {
      RushLands(id);
    }
    AllLand(5);
    TickIsPlain(ROOM, nobody, RUSH);
  }

  lemma OrderMembers(order: seq<nat>, ids: set<nat>, id: nat)
    requires IsOrder(order, ids)
    ensures id in order <==> id in ids
  {
  }

  lemma RushIsPlain()
    ensures ValidConfig(ROOM) && IsRun(ROOM, map[], [RUSH])
    ensures AllPlain(Log(ROOM, map[], [RUSH], 1)) && 5 in After(ROOM, map[], [RUSH], 1)
  {
    hide Tick, TickPackets, EventValid, Plain;
    RushIsARun();
    var nobody: Players := map[];
    RushPacketsArePlain(nobody);
    assert Log(ROOM, nobody, [RUSH], 1) == TickPackets(ROOM, nobody, RUSH) + [];
    AfterNext(ROOM, nobody, [RUSH], 0);
  }

  lemma {:induction false} PlainInbox(log: seq<ServerPacket<Message>>, client: nat)
    requires AllPlain(log)
    ensures forall m :: m in Inbox(log, client) ==> Plain(m)
    decreases |log|
  {
    hide Plain;
    if log == [] {
    } else {
      PlainInbox(log[..|log| - 1], client);
    }
  }

  /** The bytes for the sixth client exist, and so does a way of reading them. */
  lemma SixthIsSent(ms: seq<Message>) returns (packets: seq<Packet>, chunks: seq<seq<Byte>>)
    requires forall m :: m in ms ==> Plain(m)
    ensures EncodesAll(WHOLE, ms, packets) && Admissible(START, chunks) && Flat(chunks) == Stream(packets)
  {
    hide EncodesAll, Admissible, Stream, Flat, Representable, Plain;
    forall m | m in ms ensures Representable(WHOLE, m) { PlainIsRepresentable(m); }
    packets := PacketsExist(WHOLE, ms);
    chunks := StreamCanBeRead(START, Stream(packets));
  }

  /**
    The limit of five is real: in the room six clients join in one tick, a run that
    the server can receive. The messages for the sixth can all be encoded and their
    bytes can all be read, but what it receives are not the packets sent to it.
   */
  lemma SixthJoinIsLost() returns (c: Config, run: seq<Event>, packets: seq<Packet>, chunks: seq<seq<Byte>>)
    ensures ValidConfig(c) && IsRun(c, map[], run) && 5 in After(c, map[], run, |run|)
    ensures EncodesAll(WHOLE, Inbox(Log(c, map[], run, |run|), 5), packets)
    ensures Admissible(START, chunks) && Flat(chunks) == Stream(packets)
    ensures Emitted(START, chunks) != Frames(packets)
    ensures |run| == 1 && run[0].inputs == CREATIONS
  {
    hide IsRun, After, Log, EncodesAll, Emitted, Admissible, Stream, Inbox, Flat, Frames, Plain, RoomyJoins;
    c, run := ROOM, [RUSH];
    RushIsPlain();
    RushIsCrowded();
    PlainInbox(Log(c, map[], run, 1), 5);
    packets, chunks := SixthIsSent(Inbox(Log(c, map[], run, 1), 5));
    var nobody: Players := map[];
    assert nobody.Keys == {} && PlayersSized(nobody);
    ArrivesExactly(WHOLE, c, nobody, run, 1, 5, packets, chunks);
  }
}
