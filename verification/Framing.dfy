/**
  Reassembly of frames from a byte stream that arrives in arbitrary pieces:
  the packet handler and the read loop of a session
  (src/net/session/packet_handler.cpp, packet_handler.hpp, session.cpp), and
  the flat buffers that are sent (MakeBuffer in src/shared/protocol/net_packet.cpp).
 */
module Framing {
  import opened Options
  import opened Lists
  import opened Wire

  datatype Frame = Frame(opcode: nat, payload: seq<Byte>)

  predicate ValidHeader(head: Head) {
    NetValue(head[..2]) < MAX_OPCODE && NetValue(head[2..]) < MAX_PAYLOAD_SIZE
  }

  function PayloadSize(head: Head): nat { NetValue(head[2..]) }

  // ---------------------------------------------------- the one-shot parser

  /** All frames of a complete stream: an invalid header is skipped, an incomplete tail is dropped. */
  function Parse(s: seq<Byte>): seq<Frame>
    decreases |s|
  {
    if |s| < HEAD_SIZE then [] else
    var head: Head := s[..HEAD_SIZE];
    if !ValidHeader(head) then Parse(s[HEAD_SIZE..]) else
    var end := HEAD_SIZE + PayloadSize(head);
    if |s| < end then []
    else [Frame(NetValue(head[..2]), s[HEAD_SIZE..end])] + Parse(s[end..])
  }

  // -------------------------------------------------- the incremental reader

  /** The packet under construction, how much of it was read, and which read is outstanding. */
  datatype Reader = Reader(head: Head, headRead: nat, body: Option<seq<Byte>>, bodyRead: nat, inBody: bool)

  const START := Reader([0, 0, 0, 0, 0, 0], 0, None, 0, false)

  ghost predicate ReaderValid(r: Reader) {
    if r.inBody then
      r.headRead == HEAD_SIZE && ValidHeader(r.head)
      && r.body.Some? && |r.body.value| == PayloadSize(r.head) && r.bodyRead < |r.body.value|
    else
      r.headRead < HEAD_SIZE && r.bodyRead == 0 && r.body.None?
  }

  /** The most that the next read may deliver; it is never zero, so the loop never asks for nothing. */
  function Left(r: Reader): int {
    if r.inBody then (if r.body.None? then 0 else |r.body.value|) - r.bodyRead else HEAD_SIZE - r.headRead
  }

  /** A chunk lands in the buffer at the cursor, inside its bounds. */
  function Landed(buffer: seq<Byte>, at: nat, chunk: seq<Byte>): (r: seq<Byte>)
    requires at + |chunk| <= |buffer|
    ensures |r| == |buffer|
  {
    buffer[..at] + chunk + buffer[at + |chunk|..]
  }

  /** Moving the packet out keeps its opcode bytes, clears its size and takes its body away. */
  function Extracted(r: Reader): (Reader, Option<Frame>)
    requires r.body.Some?
  {
    (Reader(r.head[..2] + [0, 0, 0, 0], 0, None, 0, false), Some(Frame(NetValue(r.head[..2]), r.body.value)))
  }

  /** What the completion handler of a read does with the bytes it got. */
  function Received(r: Reader, chunk: seq<Byte>): (Reader, Option<Frame>)
    requires ReaderValid(r) && |chunk| <= Left(r)
  {
    if !r.inBody then
      var head: Head := Landed(r.head, r.headRead, chunk);
      var headRead := r.headRead + |chunk|;
      if headRead < HEAD_SIZE then (r.(head := head, headRead := headRead), None)
      else if !ValidHeader(head) then (r.(head := head, headRead := 0), None)
      else
        var full := r.(head := head, headRead := headRead, body := Some(seq(PayloadSize(head), _ => 0)));
        if PayloadSize(head) > 0 then (full.(inBody := true), None) else Extracted(full)
    else
      var filled := r.(body := Some(Landed(r.body.value, r.bodyRead, chunk)), bodyRead := r.bodyRead + |chunk|);
      if filled.bodyRead < PayloadSize(r.head) then (filled, None) else Extracted(filled)
  }

  /** The bytes that were received but do not make a frame yet. */
  ghost function Pending(r: Reader): seq<Byte>
    requires ReaderValid(r)
  {
    if r.inBody then r.head + r.body.value[..r.bodyRead] else r.head[..r.headRead]
  }

  function Listed(f: Option<Frame>): seq<Frame> { if f.Some? then [f.value] else [] }

  lemma HeadStep(r: Reader, chunk: seq<Byte>, rest: seq<Byte>)
    requires ReaderValid(r) && !r.inBody && |chunk| <= Left(r)
    ensures var (q, f) := Received(r, chunk);
      ReaderValid(q) && Parse(Pending(r) + chunk + rest) == Listed(f) + Parse(Pending(q) + rest)
  {
    var (q, f) := Received(r, chunk);
    var all := Pending(r) + chunk + rest;
    var head: Head := Landed(r.head, r.headRead, chunk);
    if r.headRead + |chunk| < HEAD_SIZE {
      assert Pending(q) + rest == all;
    } else {
      assert all[..HEAD_SIZE] == head && all[HEAD_SIZE..] == rest;
      if !ValidHeader(head) {
        assert Pending(q) + rest == rest;
      } else if PayloadSize(head) > 0 {
        assert Pending(q) + rest == all;
      } else {
        assert Pending(q) + rest == rest;
        assert f.value.payload == all[HEAD_SIZE..HEAD_SIZE];
      }
    }
  }

  /** A payload that is complete: the parser takes it off the front of the stream. */
  lemma ParseFrame(head: Head, body: seq<Byte>, rest: seq<Byte>)
    requires ValidHeader(head) && |body| == PayloadSize(head)
    ensures Parse(head + body + rest) == [Frame(NetValue(head[..2]), body)] + Parse(rest)
  {
    var s, end := head + body + rest, HEAD_SIZE + |body|;
    assert s[..HEAD_SIZE] == head && s[HEAD_SIZE..end] == body && s[end..] == rest;
  }

  lemma BodyStep(r: Reader, chunk: seq<Byte>, rest: seq<Byte>)
    requires ReaderValid(r) && r.inBody && |chunk| <= Left(r)
    ensures var (q, f) := Received(r, chunk);
      ReaderValid(q) && Parse(Pending(r) + chunk + rest) == Listed(f) + Parse(Pending(q) + rest)
  {
    hide Parse, NetValue;
    var (q, f) := Received(r, chunk);
    var all := Pending(r) + chunk + rest;
    var body := Landed(r.body.value, r.bodyRead, chunk);
    if r.bodyRead + |chunk| < |body| {
      assert Pending(q) + rest == all;
    } else {
      assert body == r.body.value[..r.bodyRead] + chunk;
      assert all == r.head + body + rest;
      ParseFrame(r.head, body, rest);
      assert Pending(q) + rest == rest;
    }
  }

  /** One read moves the boundary between what was parsed and what is still to come. */
  lemma ReadStep(r: Reader, chunk: seq<Byte>, rest: seq<Byte>)
    requires ReaderValid(r) && |chunk| <= Left(r)
    ensures var (q, f) := Received(r, chunk);
      ReaderValid(q) && Parse(Pending(r) + chunk + rest) == Listed(f) + Parse(Pending(q) + rest)
  {
    if r.inBody { BodyStep(r, chunk, rest); } else { HeadStep(r, chunk, rest); }
  }

  // -------------------------------------------------------- whole streams

  /** Every chunk is no longer than what the reader asked for at that moment. */
  ghost predicate Admissible(r: Reader, chunks: seq<seq<Byte>>)
    requires ReaderValid(r)
    decreases |chunks|
  {
    chunks == [] ||
    (|chunks[0]| <= Left(r) && (ReadStep(r, chunks[0], []); Admissible(Received(r, chunks[0]).0, chunks[1..])))
  }

  ghost function Emitted(r: Reader, chunks: seq<seq<Byte>>): seq<Frame>
    requires ReaderValid(r) && Admissible(r, chunks)
    decreases |chunks|
  {
    if chunks == [] then [] else
    ReadStep(r, chunks[0], []);
    Listed(Received(r, chunks[0]).1) + Emitted(Received(r, chunks[0]).0, chunks[1..])
  }

  lemma PendingIsIncomplete(r: Reader)
    requires ReaderValid(r)
    ensures Parse(Pending(r)) == []
  {
    if r.inBody { assert Pending(r)[..HEAD_SIZE] == r.head; }
  }

  lemma {:induction false} ReaderParses(r: Reader, chunks: seq<seq<Byte>>)
    requires ReaderValid(r) && Admissible(r, chunks)
    ensures Emitted(r, chunks) == Parse(Pending(r) + Flat(chunks))
    decreases |chunks|
  {
    hide Parse, Pending, Received, Left;
    if chunks == [] {
      assert Pending(r) + [] == Pending(r);
      PendingIsIncomplete(r);
    } else {
      var rest := Flat(chunks[1..]);
      ReadStep(r, chunks[0], rest);
      ReaderParses(Received(r, chunks[0]).0, chunks[1..]);
      assert Pending(r) + chunks[0] + rest == Pending(r) + (chunks[0] + rest);
    }
  }

  /**
    For every byte stream and every way of cutting it into reads, the session
    emits exactly the frames of the one-shot parser, in order.
   */
  lemma SessionParsesStream(chunks: seq<seq<Byte>>)
    requires Admissible(START, chunks)
    ensures Emitted(START, chunks) == Parse(Flat(chunks))
  {
    ReaderParses(START, chunks);
    assert Pending(START) + Flat(chunks) == Flat(chunks);
  }

  /** Every stream can be read, if only byte by byte. */
  lemma {:induction false} StreamCanBeRead(r: Reader, s: seq<Byte>) returns (chunks: seq<seq<Byte>>)
    requires ReaderValid(r)
    ensures Admissible(r, chunks) && Flat(chunks) == s
    decreases |s|
  {
    hide Received, Parse, Pending;
    if s == [] {
      chunks := [];
    } else {
      ReadStep(r, [s[0]], []);
      var rest := StreamCanBeRead(Received(r, [s[0]]).0, s[1..]);
      chunks := [[s[0]]] + rest;
      assert chunks[1..] == rest;
    }
  }

  // ------------------------------------------------------------- sending

  /** The flat buffer; a packet that never got a body yields nothing at all. */
  function MakeBuffer(p: Packet): seq<Byte> {
    if p.body.None? then [] else p.head + p.body.value
  }

  function Stream(ps: seq<Packet>): seq<Byte>
    decreases |ps|
  {
    if ps == [] then [] else MakeBuffer(ps[0]) + Stream(ps[1..])
  }

  /** The flat buffers, one for each packet. */
  function Buffers(ps: seq<Packet>): seq<seq<Byte>> { seq(|ps|, i requires 0 <= i < |ps| => MakeBuffer(ps[i])) }

  lemma {:induction false} StreamIsFlat(ps: seq<Packet>)
    ensures Flat(Buffers(ps)) == Stream(ps)
    decreases |ps|
  {
    hide MakeBuffer;
    if ps == [] {
    } else {
      StreamIsFlat(ps[1..]);
      assert Buffers(ps)[1..] == Buffers(ps[1..]);
    }
  }

  function FrameOf(p: Packet): Frame { Frame(HeadOpcode(p), BodyOf(p)) }

  function Frames(ps: seq<Packet>): seq<Frame> { seq(|ps|, i requires 0 <= i < |ps| => FrameOf(ps[i])) }

  /** The header agrees with the body, as it does after every push and pop of a body below 4 GiB. */
  ghost predicate HeaderAgrees(p: Packet) { HeadSize(p) == |BodyOf(p)| }

  predicate Small(p: Packet) { HeadOpcode(p) < MAX_OPCODE && |BodyOf(p)| < MAX_PAYLOAD_SIZE }

  /** What survives transmission: a body, an opcode below the limit and a payload below the limit. */
  predicate Sendable(p: Packet) { p.body.Some? && Small(p) }

  lemma SendableMeans(p: Packet)
    ensures Sendable(p) <==> p.body.Some? && HeadOpcode(p) < 0x0FFF && |p.body.value| < 128
  {
  }

  /** The frames of the packets that have a body. */
  function Delivered(ps: seq<Packet>): seq<Frame>
    decreases |ps|
  {
    if ps == [] then [] else (if ps[0].body.Some? then [FrameOf(ps[0])] else []) + Delivered(ps[1..])
  }

  lemma ParseBuffer(p: Packet, rest: seq<Byte>)
    requires Sendable(p) && HeaderAgrees(p)
    ensures Parse(MakeBuffer(p) + rest) == [FrameOf(p)] + Parse(rest)
  {
    hide Parse, NetValue;
    ParseFrame(p.head, p.body.value, rest);
  }

  lemma {:induction false} ParseStream(ps: seq<Packet>)
    requires forall p :: p in ps ==> Small(p) && HeaderAgrees(p)
    ensures Parse(Stream(ps)) == Delivered(ps)
    decreases |ps|
  {
    hide Parse, MakeBuffer, HeaderAgrees;
    if ps == [] {
      NothingParses();
    } else {
      ParseStream(ps[1..]);
      if ps[0].body.Some? {
        ParseBuffer(ps[0], Stream(ps[1..]));
      } else {
        NoBodyNoBuffer(ps[0]);
        assert [] + Stream(ps[1..]) == Stream(ps[1..]);
      }
    }
  }

  lemma NothingParses() ensures Parse([]) == [] {}

  lemma NoBodyNoBuffer(p: Packet)
    requires p.body.None?
    ensures MakeBuffer(p) == []
  {
  }

  lemma {:induction false} AllDelivered(ps: seq<Packet>)
    ensures |Delivered(ps)| <= |ps|
    ensures (forall p :: p in ps ==> p.body.Some?) ==> Delivered(ps) == Frames(ps)
    ensures |Delivered(ps)| == |ps| ==> forall p :: p in ps ==> p.body.Some?
    decreases |ps|
  {
    if ps == [] {
    } else {
      AllDelivered(ps[1..]);
      assert Frames(ps) == [FrameOf(ps[0])] + Frames(ps[1..]);
      assert forall p :: p in ps <==> p == ps[0] || p in ps[1..];
    }
  }

  /** The parser yields only frames within the limits. */
  lemma {:induction false} ParsedFramesAreSmall(s: seq<Byte>)
    ensures forall f :: f in Parse(s) ==> f.opcode < MAX_OPCODE && |f.payload| < MAX_PAYLOAD_SIZE
    decreases |s|
  {
    if |s| < HEAD_SIZE {
    } else {
      var head: Head := s[..HEAD_SIZE];
      if !ValidHeader(head) {
        ParsedFramesAreSmall(s[HEAD_SIZE..]);
      } else if |s| >= HEAD_SIZE + PayloadSize(head) {
        ParsedFramesAreSmall(s[HEAD_SIZE + PayloadSize(head)..]);
      }
    }
  }

  /**
    Sending is exact: a list of packets comes out of the parser as the same list
    of opcodes and payloads if and only if each of them has a body, an opcode
    below 0x0FFF and a payload of less than 128 bytes.
   */
  lemma TransmissionIsExact(ps: seq<Packet>)
    requires forall p :: p in ps ==> HeaderAgrees(p)
    ensures Parse(Stream(ps)) == Frames(ps) <==>
      forall p :: p in ps ==> p.body.Some? && HeadOpcode(p) < 0x0FFF && |p.body.value| < 128
  {
    hide Parse, HeaderAgrees, Stream;
    AllDelivered(ps);
    if forall p :: p in ps ==> Small(p) {
      ParseStream(ps);
    } else {
      var i :| 0 <= i < |ps| && !Small(ps[i]);
      ParsedFramesAreSmall(Stream(ps));
      assert Frames(ps)[i] == FrameOf(ps[i]) && FrameOf(ps[i]) in Frames(ps);
    }
  }

  /** Both halves together: what is sent is what a session at the other end emits, however it is cut. */
  lemma SentIsReceived(ps: seq<Packet>, chunks: seq<seq<Byte>>)
    requires forall p :: p in ps ==> HeaderAgrees(p) && Sendable(p)
    requires Admissible(START, chunks) && Flat(chunks) == Stream(ps)
    ensures Emitted(START, chunks) == Frames(ps)
  {
    SessionParsesStream(chunks);
    TransmissionIsExact(ps);
  }

  // ------------------------------------------------------------- in place

  /** The packet handler of a session together with the read that the session has outstanding. */
  class PacketHandler {
    var head: Head
    var headRead: nat
    var body: Option<seq<Byte>>
    var bodyRead: nat
    var inBody: bool

    ghost function State(): Reader
      reads this
    {
      Reader(head, headRead, body, bodyRead, inBody)
    }

    constructor ()
      ensures State() == START && ReaderValid(State())
    {
      head, headRead, body, bodyRead, inBody := [0, 0, 0, 0, 0, 0], 0, None, 0, false;
    }

    function HeadSizeLeft(): (n: int)
      reads this
      ensures ReaderValid(State()) && !inBody ==> n == Left(State()) && 0 < n && headRead + n == |head|
    {
      HEAD_SIZE - headRead
    }

    function BodySizeLeft(): (n: int)
      reads this
      ensures ReaderValid(State()) && inBody ==> n == Left(State()) && 0 < n && bodyRead + n == |body.value|
    {
      (if body.None? then 0 else |body.value|) - bodyRead
    }

    /** Counts header bytes; true once the header is complete and valid, and the body is allocated. */
    method UpdateHeadSize(size: nat) returns (complete: bool)
      requires body.None? && headRead + size <= HEAD_SIZE
      modifies this`headRead, this`body
      ensures complete <==> old(headRead) + size == HEAD_SIZE && ValidHeader(head)
      ensures headRead == if old(headRead) + size == HEAD_SIZE && !complete then 0 else old(headRead) + size
      ensures body == if complete then Some(seq(PayloadSize(head), _ => 0)) else None
    {
      headRead := headRead + size;
      if headRead < HEAD_SIZE {
        return false;
      }
      if !ValidHeader(head) {
        headRead := 0;
        return false;
      }
      body := Some(seq(PayloadSize(head), _ => 0));
      return true;
    }

    /** Counts payload bytes; true once the payload is complete. */
    method UpdateBodySize(size: nat) returns (complete: bool)
      modifies this`headRead, this`bodyRead
      ensures complete <==> old(bodyRead) + size >= PayloadSize(head)
      ensures complete ==> headRead == 0 && bodyRead == 0
      ensures !complete ==> headRead == old(headRead) && bodyRead == old(bodyRead) + size
    {
      bodyRead := bodyRead + size;
      if bodyRead < PayloadSize(head) {
        return false;
      }
      headRead, bodyRead := 0, 0;
      return true;
    }

    /** Moves the packet out. */
    method ExtractPacket() returns (frame: Frame)
      requires body.Some?
      modifies this`head, this`headRead, this`body, this`bodyRead
      ensures frame == Frame(NetValue(old(head)[..2]), old(body).value)
      ensures head == old(head)[..2] + [0, 0, 0, 0] && headRead == 0 && bodyRead == 0 && body.None?
    {
      headRead, bodyRead := 0, 0;
      frame := Frame(NetValue(head[..2]), body.value);
      head, body := head[..2] + [0, 0, 0, 0], None;
    }

    /** The completion of a read, of the header or of the payload, whichever is outstanding. */
    method OnRead(chunk: seq<Byte>) returns (frame: Option<Frame>)
      requires ReaderValid(State()) && |chunk| <= Left(State())
      modifies this
      ensures (State(), frame) == Received(old(State()), chunk) && ReaderValid(State())
    {
      ReadStep(State(), chunk, []);
      hide Parse;
      if !inBody {
        head := Landed(head, headRead, chunk);
        var complete := UpdateHeadSize(|chunk|);
        if !complete {
          return None;
        }
        if BodySizeLeft() > 0 {
          inBody := true;
          return None;
        }
        var packet := ExtractPacket();
        return Some(packet);
      } else {
        body := Some(Landed(body.value, bodyRead, chunk));
        var complete := UpdateBodySize(|chunk|);
        if !complete {
          return None;
        }
        var packet := ExtractPacket();
        inBody := false;
        return Some(packet);
      }
    }
  }

  /** The read loop over a whole connection. */
  method ReadAll(chunks: seq<seq<Byte>>) returns (frames: seq<Frame>)
    requires Admissible(START, chunks)
    ensures frames == Parse(Flat(chunks))
  {
    hide Parse, Received, Left;
    SessionParsesStream(chunks);
    var handler := new PacketHandler();
    frames := [];
    var k := 0;
    while k < |chunks|
      invariant 0 <= k <= |chunks| && ReaderValid(handler.State())
      invariant Admissible(handler.State(), chunks[k..])
      invariant frames + Emitted(handler.State(), chunks[k..]) == Emitted(START, chunks)
    {
      assert chunks[k..][1..] == chunks[k + 1..] && chunks[k..][0] == chunks[k];
      var frame := handler.OnRead(chunks[k]);
      if frame.Some? {
        frames := frames + [frame.value];
      }
      k := k + 1;
    }
  }
}
