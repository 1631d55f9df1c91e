/**
  The wire format: a six-byte header and a body used as a big-endian stack of
  values (src/shared/protocol/net_packet.hpp and net_packet.cpp). The host is
  little-endian, as the byte swaps of the code suppose.
 */
module Wire {
  import opened Options

  type Byte = b: int | 0 <= b < 256

  const HEAD_SIZE := 6
  const MAX_OPCODE := 0x0FFF
  const MAX_PAYLOAD_SIZE := 128

  // ------------------------------------------------------------------- bytes

  function Pow256(n: nat): (r: nat)
    ensures r > 0
  {
    if n == 0 then 1 else 256 * Pow256(n - 1)
  }

  /** The memory of a `width`-byte unsigned value on the host, lowest byte first. */
  function HostBytes(v: nat, width: nat): (s: seq<Byte>)
    ensures |s| == width
    decreases width
  {
    if width == 0 then [] else [v % 256] + HostBytes(v / 256, width - 1)
  }

  function HostValue(s: seq<Byte>): nat
    decreases |s|
  {
    if s == [] then 0 else s[0] + 256 * HostValue(s[1..])
  }

  function Reversed(s: seq<Byte>): (r: seq<Byte>)
    ensures |r| == |s|
    decreases |s|
  {
    if s == [] then [] else Reversed(s[1..]) + [s[0]]
  }

  /** The value of bytes in network order, highest byte first. */
  function NetValue(s: seq<Byte>): nat
    decreases |s|
  {
    if s == [] then 0 else 256 * NetValue(s[..|s| - 1]) + s[|s| - 1]
  }

  /** Reverses the bytes of a value in memory. */
  function SwapEndian(v: nat, width: nat): nat { HostValue(Reversed(HostBytes(v, width))) }

  /** What `<<` appends: the memory of the swapped value. */
  function NetBytes(v: nat, width: nat): (s: seq<Byte>)
    ensures |s| == width
  {
    HostBytes(SwapEndian(v, width), width)
  }

  lemma {:induction false} HostRoundTrip(v: nat, width: nat)
    requires v < Pow256(width)
    ensures HostValue(HostBytes(v, width)) == v
    decreases width
  {
    if width == 0 {
    } else {
      assert v / 256 < Pow256(width - 1);
      HostRoundTrip(v / 256, width - 1);
      assert HostBytes(v, width)[1..] == HostBytes(v / 256, width - 1);
    }
  }

  lemma LowestByte(b: Byte, rest: nat)
    ensures (b + 256 * rest) % 256 == b && (b + 256 * rest) / 256 == rest
  {
  }

  lemma {:induction false} BytesRoundTrip(s: seq<Byte>)
    ensures HostValue(s) < Pow256(|s|) && HostBytes(HostValue(s), |s|) == s
    decreases |s|
  {
    if s == [] {
    } else {
      BytesRoundTrip(s[1..]);
      LowestByte(s[0], HostValue(s[1..]));
    }
  }

  lemma {:induction false} ReversedSnoc(s: seq<Byte>, b: Byte)
    ensures Reversed(s + [b]) == [b] + Reversed(s)
    decreases |s|
  {
    if s == [] {
      assert [] + [b] == [b] && Reversed([b]) == Reversed([]) + [b];
    } else {
      assert (s + [b])[1..] == s[1..] + [b];
      ReversedSnoc(s[1..], b);
    }
  }

  lemma {:induction false} ReversedTwice(s: seq<Byte>)
    ensures Reversed(Reversed(s)) == s
    decreases |s|
  {
    if s == [] {
    } else {
      ReversedTwice(s[1..]);
      ReversedSnoc(Reversed(s[1..]), s[0]);
    }
  }

  /** The appended bytes are the value in network order; that is, big-endian. */
  lemma NetBytesReversed(v: nat, width: nat)
    ensures NetBytes(v, width) == Reversed(HostBytes(v, width))
    ensures NetValue(NetBytes(v, width)) == HostValue(HostBytes(v, width))
  {
    BytesRoundTrip(Reversed(HostBytes(v, width)));
    NetOfReversed(HostBytes(v, width));
  }

  lemma {:induction false} NetOfReversed(s: seq<Byte>)
    ensures NetValue(Reversed(s)) == HostValue(s)
    decreases |s|
  {
    if s == [] {
    } else {
      NetOfReversed(s[1..]);
      assert Reversed(s)[..|s| - 1] == Reversed(s[1..]);
    }
  }

  /** What `>>` makes of bytes: it copies them into a value and swaps that. */
  function ReadValue(s: seq<Byte>): nat { SwapEndian(HostValue(s), |s|) }

  /** Reading takes bytes as network order, so it inverts writing on every value of the width. */
  lemma ReadIsNetValue(s: seq<Byte>)
    ensures ReadValue(s) == NetValue(s)
  {
    BytesRoundTrip(s);
    ReversedTwice(s);
    NetOfReversed(Reversed(s));
  }

  lemma WireRoundTrip(v: nat, width: nat)
    requires v < Pow256(width)
    ensures ReadValue(NetBytes(v, width)) == v && NetValue(NetBytes(v, width)) == v
  {
    NetBytesReversed(v, width);
    HostRoundTrip(v, width);
    ReadIsNetValue(NetBytes(v, width));
  }

  // ------------------------------------------------------------------ packets

  /** The raw memory of the header: two bytes of opcode and four of size, in network order. */
  type Head = h: seq<Byte> | |h| == HEAD_SIZE witness [0, 0, 0, 0, 0, 0]

  /** A packet as a value: its header and its body, if one was allocated. */
  datatype Packet = Packet(head: Head, body: Option<seq<Byte>>)

  function HeadOpcode(p: Packet): nat { NetValue(p.head[..2]) }
  function HeadSize(p: Packet): nat { NetValue(p.head[2..]) }
  function BodyOf(p: Packet): seq<Byte> { if p.body.None? then [] else p.body.value }

  function WithOpcode(p: Packet, opcode: nat): Packet {
    p.(head := NetBytes(opcode, 2) + p.head[2..])
  }

  /** The four size bytes; the size is converted to 32 bits on the way. */
  function SizeBytes(size: nat): (s: seq<Byte>)
    ensures |s| == 4
  {
    NetBytes(size % 0x1_0000_0000, 4)
  }

  function WithSize(p: Packet, size: nat): Packet {
    p.(head := p.head[..2] + SizeBytes(size))
  }

  /** Setting one header field reads back and leaves the other alone. */
  lemma HeaderRoundTrip(p: Packet, opcode: nat, size: nat)
    ensures opcode < 0x1_0000 ==> HeadOpcode(WithOpcode(p, opcode)) == opcode
    ensures HeadSize(WithOpcode(p, opcode)) == HeadSize(p)
    ensures HeadSize(WithSize(p, size)) == size % 0x1_0000_0000
    ensures HeadOpcode(WithSize(p, size)) == HeadOpcode(p)
  {
    assert Pow256(1) == 256 && Pow256(2) == 0x1_0000 && Pow256(3) == 0x100_0000 && Pow256(4) == 0x1_0000_0000;
    if opcode < 0x1_0000 {
      WireRoundTrip(opcode, 2);
      assert WithOpcode(p, opcode).head[..2] == NetBytes(opcode, 2);
    }
    assert WithOpcode(p, opcode).head[2..] == p.head[2..];
    WireRoundTrip(size % 0x1_0000_0000, 4);
    assert WithSize(p, size).head[2..] == SizeBytes(size);
    assert WithSize(p, size).head[..2] == p.head[..2];
  }

  // ------------------------------------------------------------ the byte stack

  /** A value of some width, as the templates of the code take it. */
  datatype Value = Value(width: nat, value: nat)

  ghost predicate Fits(v: Value) { v.value < Pow256(v.width) }

  function Pushed(p: Packet, v: Value): Packet {
    var body := BodyOf(p) + NetBytes(v.value, v.width);
    WithSize(p.(body := Some(body)), |body|)
  }

  /** Popping takes as many bytes as the type of the variable it fills. */
  function Popped(p: Packet, width: nat): (Packet, Value)
    requires width <= |BodyOf(p)|
  {
    var offset := |BodyOf(p)| - width;
    (WithSize(p.(body := Some(BodyOf(p)[..offset])), offset), Value(width, ReadValue(BodyOf(p)[offset..])))
  }

  function PushedAll(p: Packet, vs: seq<Value>): Packet
    decreases |vs|
  {
    if vs == [] then p else Pushed(PushedAll(p, vs[..|vs| - 1]), vs[|vs| - 1])
  }

  /** Pops values of the widths of `vs`, last first, and lists them in the order of `vs`. */
  function PoppedAll(p: Packet, vs: seq<Value>): Option<(Packet, seq<Value>)>
    decreases |vs|
  {
    if vs == [] then Some((p, [])) else
    var last := vs[|vs| - 1];
    if |BodyOf(p)| < last.width then None else
    var (q, v) := Popped(p, last.width);
    match PoppedAll(q, vs[..|vs| - 1])
    case None => None
    case Some((r, rest)) => Some((r, rest + [v]))
  }

  /** The packet with an allocated body and a header size that agrees with it. */
  function Settled(p: Packet): Packet { WithSize(p.(body := Some(BodyOf(p))), |BodyOf(p)|) }

  /** A push undone by a pop: the value comes back, and the packet with its size settled. */
  lemma PushPop(p: Packet, v: Value)
    requires Fits(v)
    ensures var q := Pushed(p, v);
      && v.width <= |BodyOf(q)|
      && Popped(q, v.width) == (Settled(p), v)
      && HeadSize(q) == |BodyOf(q)| % 0x1_0000_0000 && HeadOpcode(q) == HeadOpcode(p)
  {
    var bytes := NetBytes(v.value, v.width);
    var body := BodyOf(p) + bytes;
    HeaderRoundTrip(p.(body := Some(body)), 0, |body|);
    assert body[|body| - v.width..] == bytes && body[..|body| - v.width] == BodyOf(p);
    WireRoundTrip(v.value, v.width);
    assert Pushed(p, v).head[..2] == p.head[..2];
  }

  /** A push leaves the packet settled. */
  lemma PushSettles(p: Packet, v: Value)
    ensures Settled(Pushed(p, v)) == Pushed(p, v)
  {
    var q := Pushed(p, v);
    assert q.head[..2] + SizeBytes(|BodyOf(q)|) == q.head;
  }

  /**
    Any list of values of mixed widths, pushed with << and popped in reverse
    with >>, comes back value for value, and leaves the packet as it was, with
    its size settled; after every push the header size is the body length, in
    32 bits, and the opcode is untouched.
   */
  lemma {:induction false} StackRoundTrip(p: Packet, vs: seq<Value>)
    requires forall v :: v in vs ==> Fits(v)
    ensures var q := PushedAll(p, vs);
      && HeadOpcode(q) == HeadOpcode(p)
      && (vs != [] ==> HeadSize(q) == |BodyOf(q)| % 0x1_0000_0000)
      && PoppedAll(q, vs) == Some((if vs == [] then p else Settled(p), vs))
    decreases |vs|
  {
    hide Pushed, Popped, NetValue, NetBytes;
    if vs == [] {
    } else {
      var n := |vs| - 1;
      var init, v := vs[..n], vs[n];
      assert vs == init + [v];
      StackRoundTrip(p, init);
      PushPop(PushedAll(p, init), v);
      if init != [] {
        PushSettles(PushedAll(p, init[..n - 1]), init[n - 1]);
      }
    }
  }

  /** The pushes concatenate: the body grows by each value in network order. */
  function NetBytesAll(vs: seq<Value>): seq<Byte>
    decreases |vs|
  {
    if vs == [] then [] else NetBytesAll(vs[..|vs| - 1]) + NetBytes(vs[|vs| - 1].value, vs[|vs| - 1].width)
  }

  lemma {:induction false} PushedBody(p: Packet, vs: seq<Value>)
    ensures BodyOf(PushedAll(p, vs)) == BodyOf(p) + NetBytesAll(vs)
    decreases |vs|
  {
    hide NetBytes, SizeBytes;
    if vs == [] {
      assert BodyOf(p) + [] == BodyOf(p);
    } else {
      var n := |vs| - 1;
      PushedBody(p, vs[..n]);
      assert BodyOf(Pushed(PushedAll(p, vs[..n]), vs[n])) == BodyOf(p) + NetBytesAll(vs[..n]) + NetBytes(vs[n].value, vs[n].width);
    }
  }

  // ------------------------------------------------------------- in place

  /** The packet object, whose operators update it in place. */
  class NetPacket {
    var head: Head
    var body: Option<seq<Byte>>

    ghost function View(): Packet
      reads this
    {
      Packet(head, body)
    }

    constructor ()
      ensures View() == Packet([0, 0, 0, 0, 0, 0], None)
    {
      head, body := [0, 0, 0, 0, 0, 0], None;
    }

    method SetHeadOpcode(opcode: nat)
      modifies this
      ensures View() == WithOpcode(old(View()), opcode)
    {
      head := NetBytes(opcode, 2) + head[2..];
    }

    method SetHeadSize(size: nat)
      modifies this
      ensures View() == WithSize(old(View()), size)
    {
      head := head[..2] + NetBytes(size % 0x1_0000_0000, 4);
    }

    /** Grows with zeroes or cuts off. */
    method ResizeBody(size: nat)
      modifies this
      ensures head == old(head) && body.Some? && |body.value| == size
      ensures forall i :: 0 <= i < size ==> body.value[i] == if i < |BodyOf(old(View()))| then BodyOf(old(View()))[i] else 0
    {
      if body.None? {
        body := Some(seq(size, _ => 0));
      } else if size <= |body.value| {
        body := Some(body.value[..size]);
      } else {
        body := Some(body.value + seq(size - |body.value|, _ => 0));
      }
    }

    /** operator<< */
    method Push(v: Value)
      modifies this
      ensures View() == Pushed(old(View()), v)
    {
      ghost var was := BodyOf(View());
      if body.None? {
        body := Some([]);
      }
      var bytes := NetBytes(v.value, v.width);
      var offset := |body.value|;
      ResizeBody(offset + v.width);
      body := Some(body.value[..offset] + bytes);
      assert body.value == was + bytes;
      SetHeadSize(|body.value|);
    }

    /** operator>>; the body must hold at least as many bytes as the value takes. */
    method Pop(width: nat) returns (v: Value)
      requires width <= |BodyOf(View())|
      modifies this
      ensures (View(), v) == Popped(old(View()), width)
    {
      ghost var was := BodyOf(View());
      var data := if body.None? then [] else body.value;
      var offset := |data| - width;
      v := Value(width, ReadValue(data[offset..]));
      ResizeBody(offset);
      assert body.value == was[..offset];
      SetHeadSize(offset);
    }
  }
}
