/**
  The SpawnPlayers packet (AddPlayer in src/game/world/world.cpp): a count and
  one record for every other player, written in whatever order the hash table
  yields them. A coordinate is the 64-bit pattern of its double.
 */
module Spawn {
  import opened Options
  import opened Wire
  import opened Protocol
  import opened Lists

  datatype Record = Record(id: nat, x: nat, y: nat, width: nat, height: nat)

  function RecordValues(r: Record): seq<Value> {
    [Value(8, r.id), Value(8, r.x), Value(8, r.y), Value(1, r.width), Value(1, r.height)]
  }

  ghost predicate RecordFits(r: Record) { forall v :: v in RecordValues(r) ==> Fits(v) }

  /** Everything that is pushed for these records, count first. */
  function SpawnValues(count: nat, rs: seq<Record>): seq<Value>
    decreases |rs|
  {
    if rs == [] then [Value(8, count)]
    else SpawnValues(count, rs[..|rs| - 1]) + RecordValues(rs[|rs| - 1])
  }

  const BLANK := Packet([0, 0, 0, 0, 0, 0], None)

  function SpawnPacket(count: nat, rs: seq<Record>): Packet {
    PushedAll(WithOpcode(BLANK, SPAWN_PLAYERS), SpawnValues(count, rs))
  }

  // ------------------------------------------------------------------ writing

  function Records(players: map<nat, Record>, order: seq<nat>): seq<Record>
    requires forall id :: id in order ==> id in players
  {
    seq(|order|, i requires 0 <= i < |order| => players[order[i]])
  }

  lemma PushedMore(p: Packet, vs: seq<Value>, v: Value)
    ensures PushedAll(p, vs + [v]) == Pushed(PushedAll(p, vs), v)
  {
    assert (vs + [v])[..|vs|] == vs;
  }

  /** Pushes the five fields of a record. */
  method PushRecord(packet: NetPacket, r: Record)
    modifies packet
    ensures packet.View() == PushedAll(old(packet.View()), RecordValues(r))
  {
    hide Pushed;
    ghost var p, vs := packet.View(), RecordValues(r);
    assert vs[..1] == [] + [vs[0]] && vs[..2] == vs[..1] + [vs[1]] && vs[..3] == vs[..2] + [vs[2]]
        && vs[..4] == vs[..3] + [vs[3]] && vs == vs[..4] + [vs[4]];
    PushedMore(p, [], vs[0]);
    PushedMore(p, vs[..1], vs[1]);
    PushedMore(p, vs[..2], vs[2]);
    PushedMore(p, vs[..3], vs[3]);
    PushedMore(p, vs[..4], vs[4]);
    packet.Push(Value(8, r.id));
    packet.Push(Value(8, r.x));
    packet.Push(Value(8, r.y));
    packet.Push(Value(1, r.width));
    packet.Push(Value(1, r.height));
  }

  /** The loop that writes one record for every player but `self`. */
  method PushOthers(spawn: NetPacket, players: map<nat, Record>, self: nat) returns (ghost order: seq<nat>)
    requires self in players && spawn.View() == SpawnPacket(|players| - 1, [])
    modifies spawn
    ensures IsOrder(order, players.Keys - {self})
    ensures spawn.View() == SpawnPacket(|players| - 1, Records(players, order))
  {
    hide SpawnPacket, PushedAll, Records, IsOrder;
    order := [];
    RecordsGrow(players, [], self);
    OrderEmpty();
    var left := players.Keys;
    ghost var done: set<nat> := {};
    while left != {}
      invariant left <= players.Keys && done == players.Keys - left - {self}
      invariant IsOrder(order, done) && forall id :: id in order ==> id in players
      invariant spawn.View() == SpawnPacket(|players| - 1, Records(players, order))
      decreases left
    {
      var id :| id in left;
      if id != self {
        PushRecord(spawn, players[id]);
        SpawnGrows(|players| - 1, Records(players, order), players[id]);
        RecordsGrow(players, order, id);
        OrderGrows(order, done, id);
        order, done := order + [id], done + {id};
      }
      left := left - {id};
    }
    assert done == players.Keys - {self};
  }

  /**
    Builds the packet for player `self`, who is already among the players. The
    count that is written first is the number of records that follow, one for
    each other player.
   */
  method MakeSpawnPacket(players: map<nat, Record>, self: nat) returns (packet: Packet, ghost order: seq<nat>)
    requires self in players
    ensures IsOrder(order, players.Keys - {self}) && |order| == |players| - 1
    ensures packet == SpawnPacket(|order|, Records(players, order))
    ensures |BodyOf(packet)| == 8 + 26 * (|players| - 1)
    ensures |players| <= Pow256(8) && (forall id :: id in players ==> RecordFits(players[id])) ==>
      ReadSpawn(packet) == Some(Records(players, order))
  {
    hide SpawnPacket, PushedAll, Pushed, Records, ReadSpawn, RecordFits, Pow256;
    var spawn := new NetPacket();
    spawn.SetHeadOpcode(SPAWN_PLAYERS);
    spawn.Push(Value(8, |players| - 1));
    SpawnStart(|players| - 1);
    order := PushOthers(spawn, players, self);
    OrderSize(order, players.Keys - {self});
    RecordsGrow(players, order, self);
    SpawnLength(|order|, Records(players, order));
    packet := Packet(spawn.head, spawn.body);
    if |players| <= Pow256(8) && forall id :: id in players ==> RecordFits(players[id]) {
      SpawnIsRead(players, order);
    }
  }

  lemma {:induction false} PushedConcat(p: Packet, a: seq<Value>, b: seq<Value>)
    ensures PushedAll(p, a + b) == PushedAll(PushedAll(p, a), b)
    decreases |b|
  {
    hide Pushed;
    if b == [] {
      assert a + b == a;
    } else {
      var n := |b| - 1;
      PushedConcat(p, a, b[..n]);
      assert a + b == (a + b[..n]) + [b[n]];
      PushedMore(p, a + b[..n], b[n]);
    }
  }

  lemma SpawnStart(count: nat)
    ensures SpawnPacket(count, []) == Pushed(WithOpcode(BLANK, SPAWN_PLAYERS), Value(8, count))
  {
    PushedMore(WithOpcode(BLANK, SPAWN_PLAYERS), [], Value(8, count));
    assert [] + [Value(8, count)] == SpawnValues(count, []);
  }

  lemma RecordsGrow(players: map<nat, Record>, order: seq<nat>, id: nat)
    requires id in players && forall d :: d in order ==> d in players
    ensures Records(players, order + [id]) == Records(players, order) + [players[id]]
    ensures Records(players, []) == [] && |Records(players, order)| == |order|
  {
  }

  lemma SpawnGrows(count: nat, rs: seq<Record>, r: Record)
    ensures SpawnPacket(count, rs + [r]) == PushedAll(SpawnPacket(count, rs), RecordValues(r))
  {
    assert (rs + [r])[..|rs|] == rs;
    PushedConcat(WithOpcode(BLANK, SPAWN_PLAYERS), SpawnValues(count, rs), RecordValues(r));
  }

  lemma RecordLength(r: Record)
    ensures |NetBytesAll(RecordValues(r))| == 26
  {
    hide NetBytes;
    var vs := RecordValues(r);
    assert |NetBytesAll(vs[..0])| == 0;
    assert vs[..1][..0] == vs[..0] && vs[..2][..1] == vs[..1] && vs[..3][..2] == vs[..2] && vs[..4][..3] == vs[..3] && vs[..5] == vs;
    assert |NetBytesAll(vs[..1])| == 8;
    assert |NetBytesAll(vs[..2])| == 16;
    assert |NetBytesAll(vs[..3])| == 24;
    assert |NetBytesAll(vs[..4])| == 25;
  }

  lemma {:induction false} SpawnLength(count: nat, rs: seq<Record>)
    ensures |BodyOf(SpawnPacket(count, rs))| == 8 + 26 * |rs|
    decreases |rs|
  {
    hide SpawnPacket, PushedAll, BodyOf, NetBytes, NetBytesAll;
    if rs == [] {
      CountField(count);
    } else {
      var n := |rs| - 1;
      SpawnLength(count, rs[..n]);
      SpawnGrows(count, rs[..n], rs[n]);
      assert rs == rs[..n] + [rs[n]];
      PushedBody(SpawnPacket(count, rs[..n]), RecordValues(rs[n]));
      RecordLength(rs[n]);
    }
  }

  // ------------------------------------------------------------------ reading

  /** Only the widths matter to a reader. */
  const RECORD_TYPE := RecordValues(Record(0, 0, 0, 0, 0))

  /** Pops `n` records, last first, and lists them in the order they were written. */
  function ReadRecords(p: Packet, n: nat): Option<(Packet, seq<Record>)>
    decreases n
  {
    if n == 0 then Some((p, [])) else
    match PoppedAll(p, RECORD_TYPE)
    case None => None
    case Some((q, vs)) =>
      if |vs| != 5 then None else
      match ReadRecords(q, n - 1)
      case None => None
      case Some((r, rs)) =>
        Some((r, rs + [Record(vs[0].value, vs[1].value, vs[2].value, vs[3].value, vs[4].value)]))
  }

  lemma {:induction false} PopsDependOnWidths(p: Packet, vs: seq<Value>, us: seq<Value>)
    requires |vs| == |us| && forall i :: 0 <= i < |vs| ==> vs[i].width == us[i].width
    ensures PoppedAll(p, vs) == PoppedAll(p, us)
    decreases |vs|
  {
    if vs == [] {
    } else {
      var n := |vs| - 1;
      if vs[n].width <= |BodyOf(p)| {
        PopsDependOnWidths(Popped(p, vs[n].width).0, vs[..n], us[..n]);
      }
    }
  }

  lemma {:induction false} LastPushSettles(count: nat, rs: seq<Record>)
    ensures Settled(SpawnPacket(count, rs)) == SpawnPacket(count, rs)
  {
    hide Settled, Pushed;
    var vs := SpawnValues(count, rs);
    var n := |vs| - 1;
    PushSettles(PushedAll(WithOpcode(BLANK, SPAWN_PLAYERS), vs[..n]), vs[n]);
  }

  /** What remains below the records is the count, and it reads back. */
  lemma CountField(count: nat)
    ensures BodyOf(SpawnPacket(count, [])) == NetBytes(count, 8)
    ensures count < Pow256(8) ==> ReadValue(NetBytes(count, 8)) == count
  {
    SpawnStart(count);
    if count < Pow256(8) { WireRoundTrip(count, 8); }
  }

  /** A reader that knows how many records there are pops every other player exactly once. */
  lemma {:induction false} SpawnRoundTrip(count: nat, rs: seq<Record>)
    requires forall r :: r in rs ==> RecordFits(r)
    ensures ReadRecords(SpawnPacket(count, rs), |rs|) == Some((SpawnPacket(count, []), rs))
    decreases |rs|
  {
    hide SpawnPacket, PushedAll, PoppedAll, Settled, Fits;
    if rs == [] {
    } else {
      var n := |rs| - 1;
      var p, r := SpawnPacket(count, rs[..n]), rs[n];
      assert rs == rs[..n] + [r] && RecordFits(r);
      SpawnGrows(count, rs[..n], r);
      StackRoundTrip(p, RecordValues(r));
      LastPushSettles(count, rs[..n]);
      PopsDependOnWidths(SpawnPacket(count, rs), RECORD_TYPE, RecordValues(r));
      SpawnRoundTrip(count, rs[..n]);
    }
  }

  /** The whole reader: the count from the bottom of the stack, then as many records. */
  function ReadSpawn(p: Packet): Option<seq<Record>> {
    if |BodyOf(p)| < 8 then None else
    match ReadRecords(p, ReadValue(BodyOf(p)[..8]))
    case None => None
    case Some((_, rs)) => Some(rs)
  }

  lemma {:induction false} CountIsAtBottom(count: nat, rs: seq<Record>)
    ensures |BodyOf(SpawnPacket(count, rs))| >= 8 && BodyOf(SpawnPacket(count, rs))[..8] == NetBytes(count, 8)
    decreases |rs|
  {
    hide SpawnPacket, PushedAll, BodyOf, NetBytes;
    if rs == [] {
      CountField(count);
    } else {
      var n := |rs| - 1;
      CountIsAtBottom(count, rs[..n]);
      SpawnGrows(count, rs[..n], rs[n]);
      assert rs == rs[..n] + [rs[n]];
      PushedBody(SpawnPacket(count, rs[..n]), RecordValues(rs[n]));
    }
  }

  lemma RecordsAreOfPlayers(players: map<nat, Record>, order: seq<nat>)
    requires forall id :: id in order ==> id in players && RecordFits(players[id])
    ensures |Records(players, order)| == |order| && forall r :: r in Records(players, order) ==> RecordFits(r)
  {
  }

  /** Writer and reader together: the records of the listed players come back, each once and in order. */
  lemma SpawnIsRead(players: map<nat, Record>, order: seq<nat>)
    requires |order| < Pow256(8) && forall id :: id in order ==> id in players && RecordFits(players[id])
    ensures ReadSpawn(SpawnPacket(|order|, Records(players, order))) == Some(Records(players, order))
  {
    hide SpawnPacket, Records, RecordFits, Pow256, ReadRecords, NetBytes, ReadValue;
    var rs := Records(players, order);
    RecordsAreOfPlayers(players, order);
    SpawnRoundTrip(|order|, rs);
    CountIsAtBottom(|order|, rs);
    WireRoundTrip(|order|, 8);
  }
}
