/**
  The protocol byte by byte: what the flat buffer of each message looks like
  (src/shared/protocol/net_packet.hpp and the builders in net_packet.cpp).
 */
module Layout {
  import opened Lists
  import opened Protocol
  import opened Wire
  import opened Spawn
  import opened Framing
  import opened Encoding

  /** A number in `width` bytes, highest byte first. */
  function Big(v: nat, width: nat): (s: seq<Byte>)
    ensures |s| == width
  {
    seq(width, i requires 0 <= i < width => v / Pow256(width - 1 - i) % 256)
  }

  lemma DivisionNests(v: nat, m: nat)
    requires m > 0
    ensures v / 256 / m == v / (256 * m)
  {
    var q, low := v / 256 / m, v / 256 % m;
    assert v == 256 * (q * m + low) + v % 256;
    assert v == q * (256 * m) + (256 * low + v % 256);
    assert 256 * low + v % 256 < 256 * m;
    Quotient(v, 256 * m, q, 256 * low + v % 256);
  }

  lemma Quotient(v: nat, m: nat, q: nat, r: nat)
    requires r < m && v == q * m + r
    ensures v / m == q
  {
    var d: int := v / m - q;
    assert d * m == r - v % m;
    assert d >= 1 ==> d * m >= m;
    assert d <= -1 ==> d * m + m <= 0;
  }

  lemma {:induction false} HostByte(v: nat, width: nat, i: nat)
    requires i < width
    ensures HostBytes(v, width)[i] == v / Pow256(i) % 256
    decreases width
  {
    if i > 0 {
      HostByte(v / 256, width - 1, i - 1);
      DivisionNests(v, Pow256(i - 1));
    }
  }

  lemma {:induction false} ReversedByte(s: seq<Byte>, i: nat)
    requires i < |s|
    ensures Reversed(s)[i] == s[|s| - 1 - i]
    decreases |s|
  {
    if i < |s| - 1 { ReversedByte(s[1..], i); }
  }

  /** What `<<` appends is the value with its highest byte first. */
  lemma NetBytesAreBig(v: nat, width: nat)
    ensures NetBytes(v, width) == Big(v, width)
  {
    NetBytesReversed(v, width);
    forall i | 0 <= i < width ensures NetBytes(v, width)[i] == Big(v, width)[i] {
      ReversedByte(HostBytes(v, width), i);
      HostByte(v, width, width - 1 - i);
    }
  }

  // ---------------------------------------------------------------- messages

  /** One player: id and the patterns of the coordinates in eight bytes each, width and height in one. */
  function PlayerBytes(d: Doubles, id: nat, e: Entry): seq<Byte> {
    Big(id, 8) + Big(d.bits(e.x), 8) + Big(d.bits(e.y), 8) + Big(ByteOf(e.width), 1) + Big(ByteOf(e.height), 1)
  }

  function AllPlayerBytes(d: Doubles, entries: map<nat, Entry>, order: seq<nat>): seq<Byte>
    requires forall id :: id in order ==> id in entries
    decreases |order|
  {
    if order == [] then [] else
    var n := |order| - 1;
    AllPlayerBytes(d, entries, order[..n]) + PlayerBytes(d, order[n], entries[order[n]])
  }

  /** A buffer: two bytes of opcode, four of the length of the payload, the payload. */
  function Framed(opcode: nat, payload: seq<Byte>): seq<Byte> {
    Big(opcode, 2) + Big(|payload| % 0x1_0000_0000, 4) + payload
  }

  lemma BuiltBuffer(opcode: nat, vs: seq<Value>)
    requires vs != []
    ensures MakeBuffer(Built(opcode, vs)) == Framed(opcode, NetBytesAll(vs))
  {
    hide NetBytes, Big, PushedAll, NetBytesAll;
    var start, p := WithOpcode(BLANK, opcode), Built(opcode, vs);
    PushesKeepHead(start, vs);
    PushedBody(start, vs);
    assert [] + NetBytesAll(vs) == NetBytesAll(vs);
    assert start.head[..2] == NetBytes(opcode, 2);
    NetBytesAreBig(opcode, 2);
    NetBytesAreBig(|NetBytesAll(vs)| % 0x1_0000_0000, 4);
    assert p.head == p.head[..2] + p.head[2..];
  }

  lemma BytesMore(vs: seq<Value>, v: Value)
    ensures NetBytesAll([]) == [] && NetBytesAll(vs + [v]) == NetBytesAll(vs) + Big(v.value, v.width)
  {
    assert (vs + [v])[..|vs|] == vs;
    NetBytesAreBig(v.value, v.width);
  }

  lemma {:induction false} BytesConcat(a: seq<Value>, b: seq<Value>)
    ensures NetBytesAll(a + b) == NetBytesAll(a) + NetBytesAll(b)
    decreases |b|
  {
    hide *;
    if b == [] {
      assert a + b == a;
      BytesMore(a, Value(0, 0));
      assert NetBytesAll(a) + [] == NetBytesAll(a);
    } else {
      var n := |b| - 1;
      BytesConcat(a, b[..n]);
      assert a + b == (a + b[..n]) + [b[n]] && b == b[..n] + [b[n]];
      BytesMore(a + b[..n], b[n]);
      BytesMore(b[..n], b[n]);
    }
  }

  lemma MoveBytes(id: nat, x: nat, y: nat)
    ensures NetBytesAll(MoveValues(id, x, y)) == Big(id, 8) + Big(x, 8) + Big(y, 8)
  {
    hide Big, NetBytesAll;
    var vs := MoveValues(id, x, y);
    assert [] + [vs[0]] == vs[..1] && vs[..1] + [vs[1]] == vs[..2] && vs[..2] + [vs[2]] == vs;
    BytesMore([], vs[0]);
    BytesMore(vs[..1], vs[1]);
    BytesMore(vs[..2], vs[2]);
  }

  lemma RecordBytes(d: Doubles, id: nat, e: Entry)
    ensures NetBytesAll(RecordValues(RecordOf(d, id, e))) == PlayerBytes(d, id, e)
  {
    hide Big, NetBytesAll, ByteOf;
    var r := RecordOf(d, id, e);
    var vs := RecordValues(r);
    var moved := MoveValues(id, r.x, r.y);
    assert moved + [vs[3]] == vs[..4] && vs[..4] + [vs[4]] == vs;
    MoveBytes(id, r.x, r.y);
    BytesMore(moved, vs[3]);
    BytesMore(vs[..4], vs[4]);
  }

  lemma {:induction false} SpawnBytes(d: Doubles, entries: map<nat, Entry>, count: nat, order: seq<nat>)
    requires forall id :: id in order ==> id in entries
    ensures NetBytesAll(SpawnValues(count, Records(RecordMap(d, entries), order)))
      == Big(count, 8) + AllPlayerBytes(d, entries, order)
    decreases |order|
  {
    hide Big, NetBytesAll, RecordValues, RecordOf, PlayerBytes;
    var rs := Records(RecordMap(d, entries), order);
    if order == [] {
      assert [] + [Value(8, count)] == [Value(8, count)];
      BytesMore([], Value(8, count));
    } else {
      var n := |order| - 1;
      SpawnBytes(d, entries, count, order[..n]);
      assert rs[..n] == Records(RecordMap(d, entries), order[..n]);
      RecordBytes(d, order[n], entries[order[n]]);
      BytesConcat(SpawnValues(count, rs[..n]), RecordValues(rs[n]));
    }
  }

  /** Every message, byte by byte; the hash table decides only the order of the others in a spawn. */
  ghost predicate LaidOut(d: Doubles, m: Message, buffer: seq<Byte>) {
    match m
    case CreatePlayerMsg(id, e) => buffer == Framed(0x0003, PlayerBytes(d, id, e))
    case AddPlayerMsg(id, e) => buffer == Framed(0x0016, PlayerBytes(d, id, e))
    case RemovePlayerMsg(id) => buffer == Framed(0x0017, Big(id, 8))
    case MovePlayerMsg(id, x, y) => buffer == Framed(0x0015, Big(id, 8) + Big(d.bits(x), 8) + Big(d.bits(y), 8))
    case SpawnPlayersMsg(others) =>
      exists order :: IsOrder(order, others.Keys)
        && buffer == Framed(0x0004, Big(|others|, 8) + AllPlayerBytes(d, others, order))
  }

  lemma MessageLayout(d: Doubles, m: Message, p: Packet)
    requires Encodes(d, m, p)
    ensures LaidOut(d, m, MakeBuffer(p))
  {
    hide MakeBuffer, Built, Framed, Big, NetBytesAll, RecordOf;
    match m
    case CreatePlayerMsg(id, e) =>
      BuiltBuffer(CREATE_PLAYER, RecordValues(RecordOf(d, id, e)));
      RecordBytes(d, id, e);
    case AddPlayerMsg(id, e) =>
      BuiltBuffer(ADD_PLAYER, RecordValues(RecordOf(d, id, e)));
      RecordBytes(d, id, e);
    case RemovePlayerMsg(id) =>
      BuiltBuffer(REMOVE_PLAYER, [Value(8, id)]);
      assert [] + [Value(8, id)] == [Value(8, id)];
      BytesMore([], Value(8, id));
      assert [] + Big(id, 8) == Big(id, 8);
    case MovePlayerMsg(id, x, y) =>
      BuiltBuffer(MOVE_PLAYER, MoveValues(id, d.bits(x), d.bits(y)));
      MoveBytes(id, d.bits(x), d.bits(y));
    case SpawnPlayersMsg(others) =>
      var order :| IsOrder(order, others.Keys) && p == SpawnPacket(|order|, Records(RecordMap(d, others), order));
      SpawnLayout(d, others, order);
  }

  lemma SpawnLayout(d: Doubles, others: map<nat, Entry>, order: seq<nat>)
    requires IsOrder(order, others.Keys)
    ensures var p := SpawnPacket(|order|, Records(RecordMap(d, others), order));
      MakeBuffer(p) == Framed(0x0004, Big(|others|, 8) + AllPlayerBytes(d, others, order))
  {
    hide MakeBuffer, Framed, Big, NetBytesAll, RecordOf;
    var vs := SpawnValues(|order|, Records(RecordMap(d, others), order));
    OrderSize(order, others.Keys);
    assert |others.Keys| == |others|;
    SpawnBytes(d, others, |order|, order);
    BuiltBuffer(SPAWN_PLAYERS, vs);
  }
}
