/**
  The messages as bytes: the packet builders (src/shared/protocol/net_packet.cpp),
  what a client reads from them, and replication over the byte stream.
 */
module Encoding {
  import opened Options
  import opened Lists
  import opened Protocol
  import opened Wire
  import opened Spawn
  import opened Framing
  import opened WorldState
  import opened Replication

  /** How a double lies in memory: its bit pattern, and the number that a pattern stands for. */
  datatype Doubles = Doubles(bits: real -> nat, number: nat -> real)

  /** The number is a double. */
  predicate Exact(d: Doubles, x: real) { d.bits(x) < Pow256(8) && d.number(d.bits(x)) == x }

  /** The sizes of players are unsigned bytes. */
  predicate ByteSized(x: real) { 0 <= x.Floor < 256 && x.Floor as real == x }

  function ByteOf(x: real): nat { x.Floor % 256 }

  /** The id has 64 bits and the coordinates are doubles. */
  predicate Placed(d: Doubles, id: nat, e: Entry) { id < Pow256(8) && Exact(d, e.x) && Exact(d, e.y) }

  predicate EntrySized(e: Entry) { ByteSized(e.width) && ByteSized(e.height) }

  predicate EntryFits(d: Doubles, id: nat, e: Entry) { Placed(d, id, e) && EntrySized(e) }

  /** The program can hold the message: 64-bit ids, doubles, a body below 4 GiB. */
  predicate Representable(d: Doubles, m: Message) {
    match m
    case CreatePlayerMsg(id, e) => Placed(d, id, e)
    case AddPlayerMsg(id, e) => Placed(d, id, e)
    case RemovePlayerMsg(id) => id < Pow256(8)
    case MovePlayerMsg(id, x, y) => id < Pow256(8) && Exact(d, x) && Exact(d, y)
    case SpawnPlayersMsg(others) =>
      8 + 26 * |others| < 0x1_0000_0000 && forall id :: id in others ==> Placed(d, id, others[id])
  }

  /** The sizes in the message are bytes; `Joins.RunIsSized` derives this from the configuration. */
  predicate MessageSized(m: Message) {
    match m
    case CreatePlayerMsg(_, e) => EntrySized(e)
    case AddPlayerMsg(_, e) => EntrySized(e)
    case SpawnPlayersMsg(others) => forall id :: id in others ==> EntrySized(others[id])
    case _ => true
  }

  predicate MessageFits(d: Doubles, m: Message) { Representable(d, m) && MessageSized(m) }

  // ----------------------------------------------------------------- writing

  function RecordOf(d: Doubles, id: nat, e: Entry): Record {
    Record(id, d.bits(e.x), d.bits(e.y), ByteOf(e.width), ByteOf(e.height))
  }

  function RecordMap(d: Doubles, entries: map<nat, Entry>): map<nat, Record> {
    map id | id in entries :: RecordOf(d, id, entries[id])
  }

  /** A packet with this opcode into which these values were pushed. */
  function Built(opcode: nat, vs: seq<Value>): Packet { PushedAll(WithOpcode(BLANK, opcode), vs) }

  function MoveValues(id: nat, x: nat, y: nat): seq<Value> { [Value(8, id), Value(8, x), Value(8, y)] }

  /** The packet is what the program makes of the message; the hash table decides the order of the others. */
  ghost predicate Encodes(d: Doubles, m: Message, p: Packet) {
    match m
    case CreatePlayerMsg(id, e) => p == Built(CREATE_PLAYER, RecordValues(RecordOf(d, id, e)))
    case AddPlayerMsg(id, e) => p == Built(ADD_PLAYER, RecordValues(RecordOf(d, id, e)))
    case RemovePlayerMsg(id) => p == Built(REMOVE_PLAYER, [Value(8, id)])
    case MovePlayerMsg(id, x, y) => p == Built(MOVE_PLAYER, MoveValues(id, d.bits(x), d.bits(y)))
    case SpawnPlayersMsg(others) =>
      exists order :: IsOrder(order, others.Keys) && p == SpawnPacket(|order|, Records(RecordMap(d, others), order))
  }

  method CreatePlayerPacket(r: Record) returns (p: Packet)
    ensures p == Built(CREATE_PLAYER, RecordValues(r))
  {
    hide PushedAll;
    var packet := new NetPacket();
    packet.SetHeadOpcode(CREATE_PLAYER);
    PushRecord(packet, r);
    p := Packet(packet.head, packet.body);
  }

  method AddPlayerPacket(r: Record) returns (p: Packet)
    ensures p == Built(ADD_PLAYER, RecordValues(r))
  {
    hide PushedAll;
    var packet := new NetPacket();
    packet.SetHeadOpcode(ADD_PLAYER);
    PushRecord(packet, r);
    p := Packet(packet.head, packet.body);
  }

  method RemovePlayerPacket(id: nat) returns (p: Packet)
    ensures p == Built(REMOVE_PLAYER, [Value(8, id)])
  {
    hide Pushed;
    var packet := new NetPacket();
    packet.SetHeadOpcode(REMOVE_PLAYER);
    packet.Push(Value(8, id));
    PushedMore(WithOpcode(BLANK, REMOVE_PLAYER), [], Value(8, id));
    assert [] + [Value(8, id)] == [Value(8, id)];
    p := Packet(packet.head, packet.body);
  }

  method MovePlayerPacket(id: nat, x: nat, y: nat) returns (p: Packet)
    ensures p == Built(MOVE_PLAYER, MoveValues(id, x, y))
  {
    hide Pushed;
    var packet := new NetPacket();
    packet.SetHeadOpcode(MOVE_PLAYER);
    packet.Push(Value(8, id));
    packet.Push(Value(8, x));
    packet.Push(Value(8, y));
    ghost var start, vs := WithOpcode(BLANK, MOVE_PLAYER), MoveValues(id, x, y);
    assert vs[..1] == [] + [vs[0]] && vs[..2] == vs[..1] + [vs[1]] && vs == vs[..2] + [vs[2]];
    PushedMore(start, [], vs[0]);
    PushedMore(start, vs[..1], vs[1]);
    PushedMore(start, vs[..2], vs[2]);
    p := Packet(packet.head, packet.body);
  }

  // ----------------------------------------------------------------- reading

  /** A received frame as a packet to pop from. */
  function PacketOf(f: Frame): Packet { Packet(NetBytes(f.opcode, 2) + SizeBytes(|f.payload|), Some(f.payload)) }

  function EntryOfRecord(d: Doubles, r: Record): Entry {
    Entry(d.number(r.x), d.number(r.y), r.width as real, r.height as real)
  }

  function Collected(d: Doubles, rs: seq<Record>): map<nat, Entry>
    decreases |rs|
  {
    if rs == [] then map[] else
    var n := |rs| - 1;
    Collected(d, rs[..n])[rs[n].id := EntryOfRecord(d, rs[n])]
  }

  /** What a client makes of a frame, popping the fields in reverse. */
  function Decode(d: Doubles, f: Frame): Option<Message> {
    var p := PacketOf(f);
    if f.opcode == CREATE_PLAYER || f.opcode == ADD_PLAYER then
      match ReadRecords(p, 1)
      case Some((_, rs)) =>
        if |rs| != 1 then None
        else if f.opcode == CREATE_PLAYER then Some(CreatePlayerMsg(rs[0].id, EntryOfRecord(d, rs[0])))
        else Some(AddPlayerMsg(rs[0].id, EntryOfRecord(d, rs[0])))
      case None => None
    else if f.opcode == REMOVE_PLAYER then
      match PoppedAll(p, [Value(8, 0)])
      case Some((_, vs)) => if |vs| != 1 then None else Some(RemovePlayerMsg(vs[0].value))
      case None => None
    else if f.opcode == MOVE_PLAYER then
      match PoppedAll(p, MoveValues(0, 0, 0))
      case Some((_, vs)) =>
        if |vs| != 3 then None else Some(MovePlayerMsg(vs[0].value, d.number(vs[1].value), d.number(vs[2].value)))
      case None => None
    else if f.opcode == SPAWN_PLAYERS then
      match ReadSpawn(p)
      case Some(rs) => Some(SpawnPlayersMsg(Collected(d, rs)))
      case None => None
    else None
  }

  // -------------------------------------------------------------- round trip

  /** Pushes leave the opcode bytes alone and keep the size bytes up to date. */
  lemma {:induction false} PushesKeepHead(p: Packet, vs: seq<Value>)
    ensures var q := PushedAll(p, vs);
      && q.head[..2] == p.head[..2]
      && (vs != [] ==> q.body.Some? && q.head[2..] == SizeBytes(|q.body.value|))
    decreases |vs|
  {
    hide NetBytes, SizeBytes;
    if vs == [] {
    } else {
      PushesKeepHead(p, vs[..|vs| - 1]);
    }
  }

  /** A built packet has a body, its opcode reads back, and a frame of it can be popped like the packet itself. */
  lemma BuiltFacts(opcode: nat, vs: seq<Value>)
    requires vs != [] && opcode < 0x1_0000
    ensures var p := Built(opcode, vs);
      && p.body.Some? && HeadOpcode(p) == opcode && PacketOf(FrameOf(p)) == p
      && HeadSize(p) == |BodyOf(p)| % 0x1_0000_0000
  {
    hide NetBytes, PushedAll, NetValue;
    var p := Built(opcode, vs);
    PushesKeepHead(WithOpcode(BLANK, opcode), vs);
    HeaderRoundTrip(BLANK, opcode, 0);
    assert WithOpcode(BLANK, opcode).head[..2] == NetBytes(opcode, 2);
    assert p.head == p.head[..2] + p.head[2..];
    HeaderRoundTrip(p, 0, |BodyOf(p)|);
    assert WithSize(p, |BodyOf(p)|).head == p.head;
  }

  lemma BuiltPops(opcode: nat, vs: seq<Value>, widths: seq<Value>)
    requires vs != [] && forall v :: v in vs ==> Fits(v)
    requires |vs| == |widths| && forall i :: 0 <= i < |vs| ==> vs[i].width == widths[i].width
    ensures var r := PoppedAll(Built(opcode, vs), widths); r.Some? && r.value.1 == vs
  {
    hide PushedAll, PoppedAll, Fits;
    StackRoundTrip(WithOpcode(BLANK, opcode), vs);
    PopsDependOnWidths(Built(opcode, vs), widths, vs);
  }

  lemma RecordOfFits(d: Doubles, id: nat, e: Entry)
    requires EntryFits(d, id, e)
    ensures RecordFits(RecordOf(d, id, e)) && RecordOf(d, id, e).id == id && EntryOfRecord(d, RecordOf(d, id, e)) == e
  {
    assert Pow256(1) == 256;
  }

  /** One player: the five fields come back. */
  lemma PlayerIsRead(d: Doubles, opcode: nat, id: nat, e: Entry)
    requires EntryFits(d, id, e)
    ensures var r := ReadRecords(Built(opcode, RecordValues(RecordOf(d, id, e))), 1);
      r.Some? && r.value.1 == [RecordOf(d, id, e)]
  {
    hide Built, PoppedAll, EntryFits, Exact, ByteOf;
    var r := RecordOf(d, id, e);
    RecordOfFits(d, id, e);
    BuiltPops(opcode, RecordValues(r), RECORD_TYPE);
    var q := PoppedAll(Built(opcode, RecordValues(r)), RECORD_TYPE).value.0;
    assert ReadRecords(q, 0) == Some((q, []));
  }

  lemma {:induction false} CollectedAll(d: Doubles, entries: map<nat, Entry>, order: seq<nat>)
    requires forall id :: id in order ==> id in entries && EntryFits(d, id, entries[id])
    ensures Collected(d, Records(RecordMap(d, entries), order)) == map id | id in order :: entries[id]
    decreases |order|
  {
    hide EntryFits, RecordOf, EntryOfRecord, RecordFits;
    var rs := Records(RecordMap(d, entries), order);
    if order == [] {
    } else {
      var n := |order| - 1;
      CollectedAll(d, entries, order[..n]);
      assert rs[..n] == Records(RecordMap(d, entries), order[..n]);
      RecordOfFits(d, order[n], entries[order[n]]);
      assert forall id :: id in order <==> id in order[..n] || id == order[n];
    }
  }

  lemma SpawnDecodes(d: Doubles, others: map<nat, Entry>, order: seq<nat>)
    requires MessageFits(d, SpawnPlayersMsg(others)) && IsOrder(order, others.Keys)
    ensures var p := SpawnPacket(|order|, Records(RecordMap(d, others), order));
      && ReadSpawn(p) == Some(Records(RecordMap(d, others), order))
      && Collected(d, Records(RecordMap(d, others), order)) == others
      && |BodyOf(p)| == 8 + 26 * |others| && |order| == |others|
  {
    hide SpawnPacket, Records, ReadSpawn, Collected, Placed, EntrySized, RecordOf, RecordFits;
    OrderSize(order, others.Keys);
    assert |others.Keys| == |others|;
    var m := RecordMap(d, others);
    forall id | id in order ensures id in m && RecordFits(m[id]) {
      RecordOfFits(d, id, others[id]);
    }
    assert |order| < Pow256(8) by { PowerOfEight(); }
    SpawnIsRead(m, order);
    SpawnLength(|order|, Records(m, order));
    RecordsAreOfPlayers(m, order);
    CollectedAll(d, others, order);
    assert (map id | id in order :: others[id]) == others;
  }

  lemma PowerOfEight()
    ensures Pow256(8) == 0x1_0000_0000_0000_0000
  {
    assert Pow256(2) == 0x1_0000 && Pow256(4) == 0x1_0000_0000 && Pow256(6) == 0x1_0000_0000_0000;
  }

  /** At most four others fit into a spawn packet; every other packet is small. */
  predicate Uncrowded(m: Message) { m.SpawnPlayersMsg? ==> |m.others| <= 4 }

  /** Every message is decoded from the frame of its packet, and the packet survives transmission exactly if it is uncrowded. */
  ghost predicate WellSent(d: Doubles, m: Message, p: Packet) {
    p.body.Some? && HeaderAgrees(p) && Decode(d, FrameOf(p)) == Some(m) && (Sendable(p) <==> Uncrowded(m))
  }

  lemma PlayerWellSent(d: Doubles, m: Message, p: Packet)
    requires m.CreatePlayerMsg? || m.AddPlayerMsg?
    requires MessageFits(d, m) && Encodes(d, m, p)
    ensures WellSent(d, m, p)
  {
    hide Built, ReadRecords, RecordFits, Placed, EntrySized, PacketOf, NetValue;
    var opcode := if m.CreatePlayerMsg? then CREATE_PLAYER else ADD_PLAYER;
    var r := RecordOf(d, m.id, m.entry);
    BuiltFacts(opcode, RecordValues(r));
    PlayerIsRead(d, opcode, m.id, m.entry);
    RecordOfFits(d, m.id, m.entry);
    BuiltLength(opcode, RecordValues(r));
    RecordLength(r);
  }

  lemma BuiltLength(opcode: nat, vs: seq<Value>)
    ensures |BodyOf(Built(opcode, vs))| == |NetBytesAll(vs)|
  {
    PushedBody(WithOpcode(BLANK, opcode), vs);
  }

  lemma {:induction false} LengthOfEights(vs: seq<Value>)
    requires forall v :: v in vs ==> v.width == 8
    ensures |NetBytesAll(vs)| == 8 * |vs|
    decreases |vs|
  {
    hide NetBytes;
    if vs == [] {
    } else {
      LengthOfEights(vs[..|vs| - 1]);
    }
  }

  lemma RemoveWellSent(d: Doubles, id: nat, p: Packet)
    requires MessageFits(d, RemovePlayerMsg(id)) && Encodes(d, RemovePlayerMsg(id), p)
    ensures WellSent(d, RemovePlayerMsg(id), p)
  {
    hide Built, PoppedAll, PacketOf, NetValue, Pow256, NetBytesAll;
    var vs := [Value(8, id)];
    BuiltFacts(REMOVE_PLAYER, vs);
    BuiltPops(REMOVE_PLAYER, vs, [Value(8, 0)]);
    BuiltLength(REMOVE_PLAYER, vs);
    LengthOfEights(vs);
  }

  lemma MoveWellSent(d: Doubles, id: nat, x: real, y: real, p: Packet)
    requires MessageFits(d, MovePlayerMsg(id, x, y)) && Encodes(d, MovePlayerMsg(id, x, y), p)
    ensures WellSent(d, MovePlayerMsg(id, x, y), p)
  {
    hide Built, PoppedAll, PacketOf, NetValue, Pow256, NetBytesAll;
    var vs := MoveValues(id, d.bits(x), d.bits(y));
    BuiltFacts(MOVE_PLAYER, vs);
    BuiltPops(MOVE_PLAYER, vs, MoveValues(0, 0, 0));
    BuiltLength(MOVE_PLAYER, vs);
    LengthOfEights(vs);
  }

  lemma SpawnFacts(count: nat, rs: seq<Record>)
    ensures var p := SpawnPacket(count, rs);
      && p.body.Some? && HeadOpcode(p) == SPAWN_PLAYERS && PacketOf(FrameOf(p)) == p
      && HeadSize(p) == |BodyOf(p)| % 0x1_0000_0000
  {
    hide PushedAll, PacketOf, NetValue;
    assert SpawnValues(count, rs) != [];
    BuiltFacts(SPAWN_PLAYERS, SpawnValues(count, rs));
  }

  lemma SpawnPacketWellSent(d: Doubles, others: map<nat, Entry>, order: seq<nat>, p: Packet)
    requires MessageFits(d, SpawnPlayersMsg(others)) && IsOrder(order, others.Keys)
    requires p == SpawnPacket(|order|, Records(RecordMap(d, others), order))
    ensures WellSent(d, SpawnPlayersMsg(others), p)
  {
    hide Records, ReadSpawn, PacketOf, NetValue, Placed, EntrySized, RecordMap, Collected, SpawnPacket, IsOrder;
    SpawnDecodes(d, others, order);
    OpcodeAndSize(d, others, order);
  }

  lemma OpcodeAndSize(d: Doubles, others: map<nat, Entry>, order: seq<nat>)
    requires IsOrder(order, others.Keys)
    ensures var p := SpawnPacket(|order|, Records(RecordMap(d, others), order));
      && p.body.Some? && HeadOpcode(p) == SPAWN_PLAYERS && PacketOf(FrameOf(p)) == p
      && HeadSize(p) == |BodyOf(p)| % 0x1_0000_0000
  {
    hide SpawnPacket, PacketOf;
    SpawnFacts(|order|, Records(RecordMap(d, others), order));
  }

  lemma SpawnWellSent(d: Doubles, others: map<nat, Entry>, p: Packet)
    requires MessageFits(d, SpawnPlayersMsg(others)) && Encodes(d, SpawnPlayersMsg(others), p)
    ensures WellSent(d, SpawnPlayersMsg(others), p)
  {
    hide WellSent, SpawnPacket, Records;
    var order :| IsOrder(order, others.Keys) && p == SpawnPacket(|order|, Records(RecordMap(d, others), order));
    SpawnPacketWellSent(d, others, order, p);
  }

  /** The codec of all five messages. */
  lemma MessageRoundTrip(d: Doubles, m: Message, p: Packet)
    requires MessageFits(d, m) && Encodes(d, m, p)
    ensures WellSent(d, m, p)
  {
    hide MessageFits, Encodes, WellSent;
    match m
    case CreatePlayerMsg(_, _) => PlayerWellSent(d, m, p);
    case AddPlayerMsg(_, _) => PlayerWellSent(d, m, p);
    case RemovePlayerMsg(id) => RemoveWellSent(d, id, p);
    case MovePlayerMsg(id, x, y) => MoveWellSent(d, id, x, y, p);
    case SpawnPlayersMsg(others) => SpawnWellSent(d, others, p);
  }

  /** A join is told to the new client within the payload limit exactly if at most five players are then live. */
  lemma JoinFits(d: Doubles, ps: Players, self: nat, p: Packet)
    requires self in ps && MessageFits(d, SpawnPlayersMsg(OthersOf(ps, self)))
    requires Encodes(d, SpawnPlayersMsg(OthersOf(ps, self)), p)
    ensures Sendable(p) <==> |ps| <= 5
  {
    hide MessageFits, Encodes, Decode, HeaderAgrees, Sendable;
    MessageRoundTrip(d, SpawnPlayersMsg(OthersOf(ps, self)), p);
    assert OthersOf(ps, self).Keys == ps.Keys - {self};
    assert |OthersOf(ps, self).Keys| == |ps.Keys| - 1;
    assert |OthersOf(ps, self)| == |OthersOf(ps, self).Keys| && |ps| == |ps.Keys|;
  }

  // ------------------------------------------------------------ whole streams

  ghost predicate EncodesAll(d: Doubles, ms: seq<Message>, ps: seq<Packet>) {
    |ms| == |ps| && forall i :: 0 <= i < |ms| ==> Representable(d, ms[i]) && Encodes(d, ms[i], ps[i])
  }

  ghost predicate AllSized(ms: seq<Message>) { forall m :: m in ms ==> MessageSized(m) }

  /** Whatever the messages, there are packets that encode them. */
  lemma {:induction false} PacketsExist(d: Doubles, ms: seq<Message>) returns (ps: seq<Packet>)
    requires forall m :: m in ms ==> Representable(d, m)
    ensures EncodesAll(d, ms, ps)
    decreases |ms|
  {
    hide Representable, Encodes;
    if ms == [] {
      ps := [];
    } else {
      var n := |ms| - 1;
      var init := PacketsExist(d, ms[..n]);
      var last := PacketExists(d, ms[n]);
      ps := init + [last];
    }
  }

  lemma PacketExists(d: Doubles, m: Message) returns (p: Packet)
    ensures Encodes(d, m, p)
  {
    hide Built, SpawnPacket, Records;
    match m
    case CreatePlayerMsg(id, e) => p := Built(CREATE_PLAYER, RecordValues(RecordOf(d, id, e)));
    case AddPlayerMsg(id, e) => p := Built(ADD_PLAYER, RecordValues(RecordOf(d, id, e)));
    case RemovePlayerMsg(id) => p := Built(REMOVE_PLAYER, [Value(8, id)]);
    case MovePlayerMsg(id, x, y) => p := Built(MOVE_PLAYER, MoveValues(id, d.bits(x), d.bits(y)));
    case SpawnPlayersMsg(others) =>
      var order := OrderExists(others.Keys);
      p := SpawnPacket(|order|, Records(RecordMap(d, others), order));
  }

  /** The packets that leave the world, as messages and as bytes. */
  ghost predicate EncodesLog(d: Doubles, log: seq<ServerPacket<Message>>, out: seq<ServerPacket<Packet>>) {
    && |log| == |out|
    && forall i :: 0 <= i < |log| ==>
         && log[i].id == out[i].id && log[i].kind == out[i].kind
         && Representable(d, log[i].msg) && Encodes(d, log[i].msg, out[i].msg)
  }

  /** Routing looks at the envelope only, so it commutes with encoding. */
  lemma {:induction false} InboxEncodes(d: Doubles, log: seq<ServerPacket<Message>>, out: seq<ServerPacket<Packet>>, client: nat)
    requires EncodesLog(d, log, out)
    ensures EncodesAll(d, Inbox(log, client), Inbox(out, client))
    decreases |log|
  {
    hide Representable, Encodes;
    if log == [] {
    } else {
      var n := |log| - 1;
      InboxEncodes(d, log[..n], out[..n], client);
      assert Addressed(log[n], client) <==> Addressed(out[n], client);
    }
  }

  /** The messages that a client understands, in order. */
  function DecodeAll(d: Doubles, fs: seq<Frame>): seq<Message>
    decreases |fs|
  {
    if fs == [] then [] else
    var n := |fs| - 1;
    DecodeAll(d, fs[..n]) + match Decode(d, fs[n]) case Some(m) => [m] case None => []
  }

  lemma {:induction false} FramesDecode(d: Doubles, ms: seq<Message>, ps: seq<Packet>)
    requires EncodesAll(d, ms, ps) && AllSized(ms)
    ensures DecodeAll(d, Frames(ps)) == ms
    decreases |ms|
  {
    hide Representable, MessageSized, Encodes, Decode;
    if ms == [] {
      assert Frames(ps) == [];
    } else {
      var n := |ms| - 1;
      FramesDecode(d, ms[..n], ps[..n]);
      MessageRoundTrip(d, ms[n], ps[n]);
      assert Frames(ps)[..n] == Frames(ps[..n]);
      assert ms == ms[..n] + [ms[n]];
    }
  }

  /**
    Messages over the wire, cut into arbitrary reads: the frames that come out
    are those of the packets sent if and only if no spawn packet is crowded, and
    then the messages decoded from them are the messages sent.
   */
  lemma MessagesArrive(d: Doubles, ms: seq<Message>, ps: seq<Packet>, chunks: seq<seq<Byte>>)
    requires EncodesAll(d, ms, ps) && AllSized(ms) && Admissible(START, chunks) && Flat(chunks) == Stream(ps)
    ensures Emitted(START, chunks) == Frames(ps) <==> forall m :: m in ms ==> Uncrowded(m)
    ensures (forall m :: m in ms ==> Uncrowded(m)) ==> DecodeAll(d, Emitted(START, chunks)) == ms
  {
    hide Decode, Representable, MessageSized, Encodes, Admissible, Emitted, Stream, Uncrowded, Sendable, HeaderAgrees, Parse;
    SessionParsesStream(chunks);
    forall i | 0 <= i < |ps| ensures HeaderAgrees(ps[i]) && (Sendable(ps[i]) <==> Uncrowded(ms[i])) {
      MessageRoundTrip(d, ms[i], ps[i]);
    }
    forall p | p in ps ensures Sendable(p) <==> p.body.Some? && HeadOpcode(p) < 0x0FFF && |p.body.value| < 128 {
      SendableMeans(p);
    }
    TransmissionIsExact(ps);
    FramesDecode(d, ms, ps);
    if forall p :: p in ps ==> Sendable(p) {
    } else {
      var i :| 0 <= i < |ps| && !Sendable(ps[i]);
      assert ms[i] in ms;
    }
  }
}
