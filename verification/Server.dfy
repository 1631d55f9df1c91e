/**
  Sessions and the session table as the handlers update them in place
  (PushToSend, Send and the write handler in src/net/session/session.cpp;
  src/net/server/server.cpp).
 */
module Server {
  import opened Queues
  import opened Protocol
  import opened Replication
  import opened Wire
  import opened Framing
  import opened Lifecycle
  import SendProtocol

  type Buffer = seq<Byte>

  /** The sending side of a session; the ghost fields are its history. */
  class Session {
    var outQueue: seq<Buffer>
    var sending: bool
    var status: SendProtocol.Status
    var outstanding: seq<Buffer>
    ghost var pushed: seq<Buffer>
    ghost var written: seq<Buffer>
    ghost var failed: bool
    ghost var drained: bool
    ghost var everDisconnected: bool

    ghost function Memory(): SendProtocol.Memory<Buffer>
      reads this
    {
      SendProtocol.Memory(outQueue, sending, status, outstanding, pushed, written, failed, drained, everDisconnected)
    }

    constructor ()
      ensures Memory() == SendProtocol.Initial().mem
    {
      outQueue, sending, status, outstanding := [], false, SendProtocol.Connecting, [];
      pushed, written, failed, drained, everDisconnected := [], [], false, false, false;
    }

    method Send()
      modifies this
      ensures Memory() == SendProtocol.SendAlone(old(Memory()))
    {
      if status == SendProtocol.Disconnected {
        return;
      }
      if |outQueue| == 0 {
        return;
      }
      var wasSending := sending;
      sending := true;
      if wasSending {
        return;
      }
      var buf := outQueue[0];
      outQueue := outQueue[1..];
      outstanding := outstanding + [buf];
      written := written + [buf];
    }

    method PushToSend(buf: Buffer)
      modifies this
      ensures Memory() == SendProtocol.PushAlone(old(Memory()), buf)
    {
      outQueue := outQueue + [buf];
      pushed := pushed + [buf];
      Send();
    }

    /** The completion handler of a write, as far as the session itself is concerned. */
    method OnWritten(ok: bool)
      requires |outstanding| == 1
      modifies this
      ensures Memory() == SendProtocol.CompleteAlone(old(Memory()), ok)
    {
      outstanding := [];
      if !ok {
        failed := true;
        status := SendProtocol.Disconnecting;
        status, everDisconnected := SendProtocol.Disconnected, true;
        return;
      }
      sending := false;
      if |outQueue| > 0 {
        Send();
      }
    }
  }

  /** The share of session `id` in the first `n` packets. */
  function Share(log: seq<ServerPacket<Packet>>, n: nat, id: nat): seq<Buffer>
    requires n <= |log|
  {
    Buffers(Inbox(log[..n], id))
  }

  lemma ShareGrows(log: seq<ServerPacket<Packet>>, n: nat, id: nat)
    requires n < |log|
    ensures var p := log[n];
      Share(log, n + 1, id) == Share(log, n, id) +
        if p.kind == Broadcast || (p.kind == Rpc && id == p.id) || (p.kind == RpcOthers && id != p.id)
        then [MakeBuffer(p.msg)] else []
  {
    assert log[..n + 1][..n] == log[..n];
  }

  lemma ShareEnds(log: seq<ServerPacket<Packet>>, id: nat)
    ensures Share(log, 0, id) == [] && Share(log, |log|, id) == Buffers(Inbox(log, id))
  {
    assert log[..|log|] == log;
  }

  /** The session table and the inbound queue. */
  class Server {
    var sessions: map<nat, Session>
    const inQueue: TSQueue<Queued>

    constructor (inQueue: TSQueue<Queued>)
      ensures sessions == map[] && this.inQueue == inQueue
    {
      sessions := map[];
      this.inQueue := inQueue;
    }

    /** Every id has a session of its own. */
    ghost predicate Valid()
      reads this
    {
      forall i, j :: i in sessions && j in sessions && i != j ==> sessions[i] != sessions[j]
    }

    method AddSession(id: nat, session: Session)
      requires Valid() && session !in sessions.Values
      modifies this, inQueue
      ensures Valid() && sessions == old(sessions)[id := session]
      ensures inQueue.data == old(inQueue.data) + [Joined(id)]
    {
      sessions := sessions[id := session];
      inQueue.Push(Joined(id));
    }

    method PushPacket(id: nat, opcode: nat)
      modifies inQueue
      ensures inQueue.data == old(inQueue.data) + [Sent(id, opcode)]
    {
      inQueue.Push(Sent(id, opcode));
    }

    method CloseSession(id: nat)
      requires Valid()
      modifies this, inQueue
      ensures Valid() && sessions == old(sessions) - {id}
      ensures (sessions.Keys, inQueue.data) == Closed(old(sessions.Keys), old(inQueue.data), id)
    {
      if id in sessions {
        sessions := sessions - {id};
        inQueue.Push(Departed(id));
      }
    }

    /** The completion handler of a write, with what a failure does to the session table and the inbound queue. */
    method OnWriteDone(id: nat, session: Session, ok: bool)
      requires Valid() && |session.outstanding| == 1
      modifies this, inQueue, session
      ensures Valid() && session.Memory() == SendProtocol.CompleteAlone(old(session.Memory()), ok)
      ensures ok ==> sessions == old(sessions) && inQueue.data == old(inQueue.data)
      ensures !ok ==> (sessions.Keys, inQueue.data) == Closed(old(sessions.Keys), old(inQueue.data), id)
      ensures !ok ==> sessions == old(sessions) - {id}
    {
      session.OnWritten(ok);
      if !ok {
        CloseSession(id);
      }
    }

    /**
      One turn of the sender: the flat buffer of the packet is handed, once, to the
      session it names, to all of them, or to all but that one, as its kind says,
      and each starts to send; the others keep their state.
     */
    method Dispatch(packet: ServerPacket<Packet>)
      requires Valid() && (packet.kind == Rpc ==> packet.id in sessions)
      modifies sessions.Values
      ensures Valid() && forall id :: id in sessions ==>
        sessions[id].Memory() ==
          if packet.kind == Broadcast || (packet.kind == Rpc && id == packet.id) || (packet.kind == RpcOthers && id != packet.id)
          then SendProtocol.PushAlone(old(sessions[id].Memory()), MakeBuffer(packet.msg))
          else old(sessions[id].Memory())
    {
      hide SendProtocol.PushAlone, MakeBuffer;
      var buf := MakeBuffer(packet.msg);
      if packet.kind == Rpc {
        sessions[packet.id].PushToSend(buf);
      } else {
        var left := sessions.Keys;
        while left != {}
          invariant left <= sessions.Keys
          invariant forall id :: id in sessions ==>
            sessions[id].Memory() ==
              if id !in left && (packet.kind == Broadcast || id != packet.id) then SendProtocol.PushAlone(old(sessions[id].Memory()), buf)
              else old(sessions[id].Memory())
          decreases left
        {
          var id :| id in left;
          if packet.kind == Broadcast || id != packet.id {
            sessions[id].PushToSend(buf);
          }
          left := left - {id};
        }
      }
    }

    /** One packet of the log is dispatched; `before` is what had been pushed when the sender started. */
    method DispatchNext(packet: ServerPacket<Packet>, ghost log: seq<ServerPacket<Packet>>, ghost n: nat,
                        ghost before: map<nat, seq<Buffer>>)
      requires Valid() && n < |log| && packet == log[n] && (packet.kind == Rpc ==> packet.id in sessions)
      requires forall id :: id in sessions ==> id in before && sessions[id].pushed == before[id] + Share(log, n, id)
      modifies sessions.Values
      ensures Valid()
      ensures forall id :: id in sessions ==> id in before && sessions[id].pushed == before[id] + Share(log, n + 1, id)
    {
      hide MakeBuffer, Share, SendProtocol.PushAlone;
      Dispatch(packet);
      SendProtocol.PushesAppend<Buffer>();
      forall id | id in sessions ensures sessions[id].pushed == before[id] + Share(log, n + 1, id) {
        ShareGrows(log, n, id);
      }
    }

    /** The sender works its way through the packets that the world has emitted. */
    method Sender(outQueue: TSQueue<ServerPacket<Packet>>)
      requires Valid() && forall p :: p in outQueue.data && p.kind == Rpc ==> p.id in sessions
      modifies outQueue, sessions.Values
      ensures Valid() && outQueue.data == []
      ensures forall id :: id in sessions ==>
        sessions[id].pushed == old(sessions[id].pushed) + Buffers(Inbox(old(outQueue.data), id))
    {
      hide Share, Inbox, Addressed;
      ghost var log := outQueue.data;
      ghost var n := 0;
      ghost var before := map id | id in sessions :: sessions[id].pushed;
      forall id | id in sessions ensures Share(log, 0, id) == [] && Share(log, |log|, id) == Buffers(Inbox(log, id)) {
        ShareEnds(log, id);
      }
      while |outQueue.data| > 0
        invariant 0 <= n <= |log| && outQueue.data == log[n..]
        invariant forall id :: id in sessions ==> sessions[id].pushed == before[id] + Share(log, n, id)
        decreases |outQueue.data|
      {
        var packet := outQueue.WaitAndPop();
        assert packet == log[n] && packet in log;
        DispatchNext(packet, log, n, before);
        n := n + 1;
      }
    }
  }
}
