/**
  From the world to the client: the emitted packets are encoded and routed
  (src/net/server/server.cpp), queued and written by the threads of the session
  (src/net/session/session.cpp), and read in pieces at the other end.
 */
module Delivery {
  import opened Lists
  import opened Steps
  import opened Protocol
  import opened Wire
  import opened Framing
  import opened WorldState
  import opened Replication
  import opened Encoding
  import opened Joins
  import opened Told
  import SendProtocol

  /** The session has run to its end, which `SendProtocol.SendingComesToRest` makes it do, and nothing went wrong. */
  ghost predicate AtRest(s: SendProtocol.Session<seq<Byte>>) {
    SendProtocol.Exhausted(s) && !s.mem.everDisconnected && !SendProtocol.Leaked(s)
  }

  /** However the threads of a session interleave, at rest it has written the stream of the packets handed to it. */
  lemma SessionWritesStream(packets: seq<Packet>, sends: seq<SendProtocol.Step<seq<Byte>>>)
    requires Executes(SendProtocol.Next, SendProtocol.Initial(), sends)
    requires var s := Result(SendProtocol.Next, SendProtocol.Initial(), sends); AtRest(s) && s.mem.pushed == Buffers(packets)
    ensures Flat(Result(SendProtocol.Next, SendProtocol.Initial(), sends).mem.written) == Stream(packets)
  {
    hide Executes, Result, SendProtocol.Exhausted, Stream, Flat;
    SendProtocol.ExhaustedIsIdle(Result(SendProtocol.Next, SendProtocol.Initial(), sends));
    SendProtocol.NothingIsLeftBehind(sends);
    StreamIsFlat(packets);
  }

  /**
    What a session is handed in a run, counted from the inputs: two buffers for
    each creation of its own player, one for every other creation, one for every
    removal, and one per tick for each live player.
   */
  lemma ShareIsDue(d: Doubles, c: Config, ps: Players, events: seq<Event>, k: nat, client: nat, out: seq<ServerPacket<Packet>>)
    requires ValidConfig(c) && KeysMatch(ps) && IsRun(c, ps, events) && k <= |events|
    requires EncodesLog(d, Log(c, ps, events, k), out)
    ensures var due := Due(ps.Keys, events, client, k);
      |Buffers(Inbox(out, client))| == due.creates + due.spawns + due.adds + due.removes + due.moves
  {
    hide IsRun, Log, EncodesLog, Inbox, Due;
    InboxEncodes(d, Log(c, ps, events, k), out, client);
    RunTellsExactly(c, ps, events, k, client);
    TallyTotal(Inbox(Log(c, ps, events, k), client));
  }

  /** What the packets of a run for one client amount to at its end of the wire. */
  lemma InboxFacts(d: Doubles, c: Config, ps: Players, events: seq<Event>, k: nat, client: nat,
                   packets: seq<Packet>, chunks: seq<seq<Byte>>)
    requires ValidConfig(c) && PlayersSized(ps) && IsRun(c, ps, events) && k <= |events|
    requires EncodesAll(d, Inbox(Log(c, ps, events, k), client), packets)
    requires Admissible(START, chunks) && Flat(chunks) == Stream(packets)
    ensures Emitted(START, chunks) == Frames(packets) <==> RoomyJoins(ps.Keys, events, client, k)
    ensures RoomyJoins(ps.Keys, events, client, k) ==>
      DecodeAll(d, Emitted(START, chunks)) == Inbox(Log(c, ps, events, k), client)
  {
    hide IsRun, Log, EncodesAll, DecodeAll, Emitted, Admissible, Stream, Inbox, Uncrowded, LogSized, AllSized, RoomyJoins, Flat;
    var log := Log(c, ps, events, k);
    RunIsSized(c, ps, events, k);
    InboxIsSized(log, client);
    JoinsDecideCrowding(c, ps, events, k, client);
    MessagesArrive(d, Inbox(log, client), packets, chunks);
  }

  /**
    The limit of the protocol, exactly: in every run, whatever packets the program
    makes of the messages for a client and however the network cuts their bytes,
    the client receives the frames of all of them if and only if at most five
    players are live right after each input that creates its player.
   */
  lemma ArrivesExactly(d: Doubles, c: Config, ps: Players, events: seq<Event>, k: nat, client: nat,
                       packets: seq<Packet>, chunks: seq<seq<Byte>>)
    requires ValidConfig(c) && PlayersSized(ps) && IsRun(c, ps, events) && k <= |events|
    requires EncodesAll(d, Inbox(Log(c, ps, events, k), client), packets)
    requires Admissible(START, chunks) && Flat(chunks) == Stream(packets)
    ensures Emitted(START, chunks) == Frames(packets) <==> RoomyJoins(ps.Keys, events, client, k)
  {
    InboxFacts(d, c, ps, events, k, client, packets, chunks);
  }

  /**
    Replication down to the bytes: in every run, whatever packets the program
    makes of the messages for a client and however the network cuts their bytes,
    a client whose player is live, and that never joined when more than four
    others were live, decodes and folds exactly the world's map.
   */
  lemma ClientSeesWorldOverTheWire(d: Doubles, c: Config, ps: Players, events: seq<Event>, k: nat, client: nat,
                                   packets: seq<Packet>, chunks: seq<seq<Byte>>)
    requires ValidConfig(c) && KeysMatch(ps) && PlayersSized(ps) && client !in ps
    requires IsRun(c, ps, events) && k <= |events| && client in After(c, ps, events, k)
    requires RoomyJoins(ps.Keys, events, client, k)
    requires EncodesAll(d, Inbox(Log(c, ps, events, k), client), packets)
    requires Admissible(START, chunks) && Flat(chunks) == Stream(packets)
    ensures AppliedAll(map[], DecodeAll(d, Emitted(START, chunks))) == Entries(After(c, ps, events, k))
  {
    hide IsRun, After, Log, EncodesAll, DecodeAll, Emitted, Admissible, Stream, Inbox, Fold, AppliedAll, Entries, RoomyJoins, Flat;
    InboxFacts(d, c, ps, events, k, client, packets, chunks);
    ClientSeesWorld(c, ps, events, k, client);
    FoldIsInbox(map[], Log(c, ps, events, k), client);
  }

  /**
    Replication from end to end. Take any run of the world, any order in which
    the hash table yields the players, any interleaving of the threads that send,
    and any way in which the network cuts the bytes that were written. Once the
    session has run to its end in good health, a client whose player is live, and
    that never joined when more than four others were live, has decoded and folded
    exactly the world's map.
   */
  lemma ClientSeesWorldInTheEnd(
      d: Doubles, c: Config, ps: Players, events: seq<Event>, client: nat,
      out: seq<ServerPacket<Packet>>, sends: seq<SendProtocol.Step<seq<Byte>>>, chunks: seq<seq<Byte>>)
    requires ValidConfig(c) && KeysMatch(ps) && PlayersSized(ps) && client !in ps
    requires IsRun(c, ps, events) && client in After(c, ps, events, |events|)
    requires RoomyJoins(ps.Keys, events, client, |events|)
    requires EncodesLog(d, Log(c, ps, events, |events|), out)
    requires Executes(SendProtocol.Next, SendProtocol.Initial(), sends)
    requires var s := Result(SendProtocol.Next, SendProtocol.Initial(), sends);
      AtRest(s) && s.mem.pushed == Buffers(Inbox(out, client)) && Flat(chunks) == Flat(s.mem.written)
    requires Admissible(START, chunks)
    ensures AppliedAll(map[], DecodeAll(d, Emitted(START, chunks))) == Entries(After(c, ps, events, |events|))
  {
    hide Executes, Result, IsRun, After, Log, Inbox, Stream, Flat, Buffers, EncodesLog, EncodesAll,
      AtRest, Admissible, Emitted, DecodeAll, AppliedAll, Entries, RoomyJoins, PlayersSized, KeysMatch;
    var packets := Inbox(out, client);
    InboxEncodes(d, Log(c, ps, events, |events|), out, client);
    SessionWritesStream(packets, sends);
    ClientSeesWorldOverTheWire(d, c, ps, events, |events|, client, packets, chunks);
  }
}
