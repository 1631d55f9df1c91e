/**
  What a session reads, said about the bytes alone: every stream is a list of
  refused headers and whole packets and a piece of a packet at its end, and the
  session emits the packets (src/net/session/packet_handler.cpp).
 */
module Pieces {
  import opened Options
  import opened Lists
  import opened Wire
  import opened Framing

  /** Six bytes that are dropped, or a packet with its payload. */
  datatype Piece = Junk(head: Head) | Whole(opcode: nat, payload: seq<Byte>)

  /** An opcode of 0x0FFF or more, or a payload of 128 bytes or more. */
  predicate Refused(head: Head) {
    256 * (head[0] as int) + head[1] >= 0x0FFF || head[2] != 0 || head[3] != 0 || head[4] != 0 || head[5] >= 128
  }

  predicate WellFormed(piece: Piece) {
    match piece
    case Junk(head) => Refused(head)
    case Whole(opcode, payload) => opcode < 0x0FFF && |payload| < 128
  }

  /** The bytes of a piece: two of the opcode and four of the size, highest first, then the payload. */
  function BytesOf(piece: Piece): seq<Byte>
    requires WellFormed(piece)
  {
    match piece
    case Junk(head) => head
    case Whole(opcode, payload) => [opcode / 256, opcode % 256, 0, 0, 0, |payload|] + payload
  }

  ghost predicate AllWellFormed(pieces: seq<Piece>) { forall p :: p in pieces ==> WellFormed(p) }

  function AllBytes(pieces: seq<Piece>): seq<Byte>
    requires AllWellFormed(pieces)
    decreases |pieces|
  {
    if pieces == [] then [] else BytesOf(pieces[0]) + AllBytes(pieces[1..])
  }

  /** The packets among the pieces. */
  function Packets(pieces: seq<Piece>): seq<Frame>
    decreases |pieces|
  {
    if pieces == [] then [] else
    (if pieces[0].Whole? then [Frame(pieces[0].opcode, pieces[0].payload)] else []) + Packets(pieces[1..])
  }

  /** Less than a header, or an accepted header with less than its payload. */
  predicate Unfinished(tail: seq<Byte>) { |tail| < 6 || (!Refused(tail[..6]) && |tail| < 6 + tail[5]) }

  // -------------------------------------------------------------- the header

  lemma HeaderNumbers(head: Head)
    ensures NetValue(head[..2]) == 256 * (head[0] as int) + head[1]
    ensures NetValue(head[2..]) ==
      0x100_0000 * (head[2] as int) + 0x1_0000 * (head[3] as int) + 0x100 * (head[4] as int) + head[5]
  {
    TwoBytes(head[..2]);
    var size := head[2..];
    TwoBytes(size[..2]);
    assert NetValue(size) == 256 * NetValue(size[..3]) + size[3] && size[..3][..2] == size[..2];
    assert NetValue(size[..3]) == 256 * NetValue(size[..2]) + size[2];
  }

  lemma TwoBytes(s: seq<Byte>)
    requires |s| == 2
    ensures NetValue(s) == 256 * (s[0] as int) + s[1]
  {
    assert NetValue(s) == 256 * NetValue(s[..1]) + s[1];
    assert NetValue(s[..1]) == 256 * NetValue(s[..1][..0]) + s[0];
  }

  lemma RefusedIsInvalid(head: Head)
    ensures Refused(head) <==> !ValidHeader(head)
    ensures !Refused(head) ==> PayloadSize(head) == head[5]
  {
    HeaderNumbers(head);
  }

  // ---------------------------------------------------------------- one piece

  lemma PieceParses(piece: Piece, rest: seq<Byte>)
    requires WellFormed(piece)
    ensures Parse(BytesOf(piece) + rest) == Packets([piece]) + Parse(rest)
  {
    hide NetValue, ValidHeader, PayloadSize, Refused;
    var s := BytesOf(piece) + rest;
    match piece
    case Junk(head) =>
      RefusedIsInvalid(head);
      assert s[..6] == head && s[6..] == rest;
    case Whole(opcode, payload) =>
      var head: Head := [opcode / 256, opcode % 256, 0, 0, 0, |payload|];
      HeaderOfWhole(opcode, |payload|);
      ParseFrame(head, payload, rest);
  }

  lemma HeaderOfWhole(opcode: nat, size: nat)
    requires opcode < 0x0FFF && size < 128
    ensures var head: Head := [opcode / 256, opcode % 256, 0, 0, 0, size];
      ValidHeader(head) && PayloadSize(head) == size && NetValue(head[..2]) == opcode
  {
    var head: Head := [opcode / 256, opcode % 256, 0, 0, 0, size];
    RefusedIsInvalid(head);
    HeaderNumbers(head);
  }

  lemma TailParses(tail: seq<Byte>)
    requires Unfinished(tail)
    ensures Parse(tail) == []
  {
    if |tail| >= 6 { RefusedIsInvalid(tail[..6]); }
  }

  lemma {:induction false} PiecesParse(pieces: seq<Piece>, tail: seq<Byte>)
    requires AllWellFormed(pieces) && Unfinished(tail)
    ensures Parse(AllBytes(pieces) + tail) == Packets(pieces)
    decreases |pieces|
  {
    hide Parse, WellFormed, BytesOf, Unfinished;
    if pieces == [] {
      TailParses(tail);
      assert [] + tail == tail;
    } else {
      var rest := AllBytes(pieces[1..]) + tail;
      PiecesParse(pieces[1..], tail);
      PieceParses(pieces[0], rest);
      assert AllBytes(pieces) + tail == BytesOf(pieces[0]) + rest;
    }
  }

  // --------------------------------------------------------------- every stream

  /** The first piece of a stream that is not unfinished. */
  lemma FirstPiece(s: seq<Byte>) returns (piece: Piece, rest: seq<Byte>)
    requires !Unfinished(s)
    ensures WellFormed(piece) && s == BytesOf(piece) + rest && |rest| < |s|
  {
    var head: Head := s[..6];
    if Refused(head) {
      piece, rest := Junk(head), s[6..];
    } else {
      piece, rest := Whole(256 * (s[0] as int) + s[1], s[6..6 + s[5] as int]), s[6 + s[5] as int..];
      assert s == head + piece.payload + rest;
      assert [piece.opcode / 256, piece.opcode % 256, 0, 0, 0, |piece.payload|] == head;
    }
  }

  lemma {:induction false} StreamHasPieces(s: seq<Byte>) returns (pieces: seq<Piece>, tail: seq<Byte>)
    ensures AllWellFormed(pieces) && Unfinished(tail) && s == AllBytes(pieces) + tail
    decreases |s|
  {
    hide WellFormed, BytesOf, Unfinished;
    if Unfinished(s) {
      pieces, tail := [], s;
    } else {
      var piece, rest := FirstPiece(s);
      var more;
      more, tail := StreamHasPieces(rest);
      pieces := [piece] + more;
      assert pieces[1..] == more;
    }
  }

  /**
    The framing of the protocol. Whatever bytes arrive and however they are cut,
    they are refused headers, whole packets and an unfinished piece at the end; a
    refused header costs exactly its six bytes, and the session emits exactly the
    packets, in order.
   */
  lemma SessionEmitsPackets(chunks: seq<seq<Byte>>, pieces: seq<Piece>, tail: seq<Byte>)
    requires Admissible(START, chunks)
    requires AllWellFormed(pieces) && Unfinished(tail) && Flat(chunks) == AllBytes(pieces) + tail
    ensures Emitted(START, chunks) == Packets(pieces)
  {
    SessionParsesStream(chunks);
    PiecesParse(pieces, tail);
  }

  /** A packet that survives transmission is one such piece. */
  lemma BufferIsPiece(p: Packet)
    requires Sendable(p) && HeaderAgrees(p)
    ensures var piece := Whole(HeadOpcode(p), p.body.value); WellFormed(piece) && BytesOf(piece) == MakeBuffer(p)
  {
    HeaderNumbers(p.head);
  }
}
