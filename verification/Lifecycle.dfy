/**
  Sessions over their lifetime: the session table of the server and the packets
  it queues for the world (src/net/server/server.cpp; Run, ProcessState and the
  read and write handlers of src/net/session/session.cpp).
 */
module Lifecycle {
  import opened Steps
  import opened Options

  /** What is pushed to the inbound queue: the server's own packets and those read from clients. */
  datatype Queued = Joined(id: nat) | Departed(id: nat) | Sent(id: nat, opcode: nat)

  /** How far the handlers of a session have got; they run one at a time. */
  datatype Stage =
    | Handshake     // the websocket accept is outstanding
    | Inserting     // it succeeded: about to enter the session table
    | Announcing    // about to push CreatePlayer and to start reading
    | Running       // between handlers
    | Closing       // a handler reported an error: about to call CloseSession

  datatype Conn = Conn(stage: Stage, reading: bool, writes: nat)

  /** The server; `entered` records every insertion into the table, in order. */
  datatype State = State(nextId: nat, conns: map<nat, Conn>, table: set<nat>, entered: seq<nat>, log: seq<Queued>)

  datatype Step =
    | Accept                                // a tcp connection: a fresh id
    | HandshakeDone(id: nat, ok: bool)
    | Insert(id: nat)
    | Announce(id: nat)
    | ReadDone(id: nat, packet: Option<nat>)   // a read succeeded and completed at most one packet
    | ReadFailed(id: nat)
    | WriteStarted(id: nat)
    | WriteDone(id: nat, ok: bool)
    | Close(id: nat)

  predicate At(s: State, id: nat, stage: Stage) { id in s.conns && s.conns[id].stage == stage }

  predicate Enabled(s: State, step: Step) {
    match step
    case Accept => true
    case HandshakeDone(id, _) => At(s, id, Handshake)
    case Insert(id) => At(s, id, Inserting)
    case Announce(id) => At(s, id, Announcing)
    case ReadDone(id, _) => At(s, id, Running) && s.conns[id].reading
    case ReadFailed(id) => At(s, id, Running) && s.conns[id].reading
    case WriteStarted(id) => id in s.conns && (id in s.table || s.conns[id].writes > 0)
    case WriteDone(id, _) => At(s, id, Running) && s.conns[id].writes > 0
    case Close(id) => At(s, id, Closing)
  }

  function With(s: State, id: nat, c: Conn): State { s.(conns := s.conns[id := c]) }

  /** Erases the session and queues RemovePlayer, unless the session is not in the table. */
  function Closed(table: set<nat>, log: seq<Queued>, id: nat): (set<nat>, seq<Queued>) {
    if id in table then (table - {id}, log + [Departed(id)]) else (table, log)
  }

  function Next(s: State, step: Step): State
    requires Enabled(s, step)
  {
    match step
    case Accept => With(s.(nextId := s.nextId + 1), s.nextId, Conn(Handshake, false, 0))
    case HandshakeDone(id, ok) => With(s, id, s.conns[id].(stage := if ok then Inserting else Closing))
    case Insert(id) => With(s.(table := s.table + {id}, entered := s.entered + [id]), id, s.conns[id].(stage := Announcing))
    case Announce(id) => With(s.(log := s.log + [Joined(id)]), id, s.conns[id].(stage := Running, reading := true))
    case ReadDone(id, packet) => if packet.None? then s else s.(log := s.log + [Sent(id, packet.value)])
    case ReadFailed(id) => With(s, id, s.conns[id].(stage := Closing, reading := false))
    case WriteStarted(id) => With(s, id, s.conns[id].(writes := s.conns[id].writes + 1))
    case WriteDone(id, ok) =>
      With(s, id, s.conns[id].(writes := s.conns[id].writes - 1, stage := if ok then Running else Closing))
    case Close(id) =>
      var (table, log) := Closed(s.table, s.log, id);
      With(s.(table := table, log := log), id, s.conns[id].(stage := Running))
  }

  const INITIAL := State(0, map[], {}, [], [])

  // ---------------------------------------------------------------- invariant

  /** One creation and at most one removal per id, and everything about an id comes after its creation. */
  ghost predicate Story(log: seq<Queued>) {
    && (forall i, j :: 0 <= i < j < |log| && log[i].Joined? ==> log[i] != log[j])
    && (forall i, j :: 0 <= i < j < |log| && log[i].Departed? ==> log[i] != log[j])
    && (forall j :: 0 <= j < |log| && !log[j].Joined? ==> Joined(log[j].id) in log[..j])
  }

  ghost predicate Distinct(s: seq<nat>) { forall i, j :: 0 <= i < j < |s| ==> s[i] != s[j] }

  predicate Early(stage: Stage) { stage == Handshake || stage == Inserting }
  predicate Late(stage: Stage) { stage == Running || stage == Closing }

  ghost predicate ConnInvariant(s: State, id: nat) {
    && (id in s.conns ==> id < s.nextId)
    && (id !in s.conns || Early(s.conns[id].stage) ==> id !in s.entered)
    && (id in s.table <==> id in s.entered && Departed(id) !in s.log)
    && (Joined(id) in s.log ==> id in s.entered && id in s.conns && Late(s.conns[id].stage))
    && (At(s, id, Announcing) ==> id in s.table && Joined(id) !in s.log)
    && (id in s.table && !At(s, id, Announcing) ==> Joined(id) in s.log)
    && (id in s.conns && s.conns[id].reading ==> Joined(id) in s.log)
    && (Departed(id) in s.log ==> Joined(id) in s.log)
    && (id in s.table && At(s, id, Running) ==> s.conns[id].reading)
    && (id in s.conns && s.conns[id].writes > 0 ==> id in s.entered)
  }

  ghost predicate Invariant(s: State) {
    Story(s.log) && Distinct(s.entered) && forall id :: ConnInvariant(s, id)
  }

  lemma InitialInvariant()
    ensures Invariant(INITIAL)
  {
  }

  lemma StoryGrows(log: seq<Queued>, e: Queued)
    requires Story(log)
    requires e.Joined? || e.Departed? ==> e !in log
    requires !e.Joined? ==> Joined(e.id) in log
    ensures Story(log + [e])
  {
    var more := log + [e];
    forall j | 0 <= j < |more| && !more[j].Joined? ensures Joined(more[j].id) in more[..j] {
      assert more[..j] == log[..j];
      if j == |log| { assert log[..j] == log; }
    }
  }

  /** A step leaves every other connection, and what is queued about it, alone. */
  lemma OtherConnStep(s: State, step: Step, id: nat)
    requires Enabled(s, step) && ConnInvariant(s, id) && if step.Accept? then id != s.nextId else id != step.id
    ensures ConnInvariant(Next(s, step), id)
  {
    var n := Next(s, step);
    assert n.nextId >= s.nextId && (id in n.conns <==> id in s.conns) && (id in s.conns ==> n.conns[id] == s.conns[id]);
    assert (id in n.table <==> id in s.table) && (id in n.entered <==> id in s.entered);
    assert (Joined(id) in n.log <==> Joined(id) in s.log) && (Departed(id) in n.log <==> Departed(id) in s.log);
  }

  lemma ConnStep(s: State, step: Step, id: nat)
    requires Invariant(s) && Enabled(s, step)
    ensures ConnInvariant(Next(s, step), id)
  {
    assert ConnInvariant(s, id);
    if step.Accept? && id == s.nextId {
    } else if !step.Accept? && id == step.id {
      OwnConnStep(s, step);
    } else {
      hide ConnInvariant;
      OtherConnStep(s, step, id);
    }
  }

  lemma OwnConnStep(s: State, step: Step)
    requires Enabled(s, step) && !step.Accept? && ConnInvariant(s, step.id)
    ensures ConnInvariant(Next(s, step), step.id)
  {
  }

  lemma StepKeepsInvariant(s: State, step: Step)
    requires Invariant(s) && Enabled(s, step)
    ensures Invariant(Next(s, step))
  {
    var n := Next(s, step);
    forall id ensures ConnInvariant(n, id) {
      ConnStep(s, step, id);
    }
    if !step.Accept? {
      assert ConnInvariant(s, step.id);
      if step.Announce? {
        StoryGrows(s.log, Joined(step.id));
      } else if step.ReadDone? && step.packet.Some? {
        StoryGrows(s.log, Sent(step.id, step.packet.value));
      } else if step.Close? && step.id in s.table {
        StoryGrows(s.log, Departed(step.id));
      }
    }
  }

  lemma RunKeepsInvariant(s: State, steps: seq<Step>)
    requires Invariant(s) && Executes(Next, s, steps)
    ensures Invariant(Result(Next, s, steps))
  {
    hide Invariant, Enabled;
    forall r: State, a: Step | Invariant(r) && Enabled(r, a) ensures Invariant(Next(r, a)) {
      StepKeepsInvariant(r, a);
    }
    ExecutionKeeps(Next, (r: State) => Invariant(r), s, steps);
  }

  /**
    In every run of accepts, handshakes, reads, writes and their failures: an id
    enters the session table at most once, CreatePlayer is queued at most once
    and before everything else of that id, RemovePlayer at most once; and the
    table holds exactly the ids that entered it and were not removed.
   */
  lemma LifecycleIsOrderly(steps: seq<Step>)
    requires Executes(Next, INITIAL, steps)
    ensures var s := Result(Next, INITIAL, steps);
      && Distinct(s.entered) && Story(s.log)
      && (forall id :: id in s.table <==> id in s.entered && Departed(id) !in s.log)
  {
    InitialInvariant();
    RunKeepsInvariant(INITIAL, steps);
    var s := Result(Next, INITIAL, steps);
    forall id ensures id in s.table <==> id in s.entered && Departed(id) !in s.log {
      assert ConnInvariant(s, id);
    }
  }

  // ------------------------------------------------------ every failure closes

  /** A session in the table is being opened, or reads, or is about to be removed: a lost client does not go unnoticed. */
  lemma TableIsWatched(steps: seq<Step>, id: nat)
    requires Executes(Next, INITIAL, steps) && id in Result(Next, INITIAL, steps).table
    ensures var s := Result(Next, INITIAL, steps);
      || (At(s, id, Announcing) && Enabled(s, Announce(id)))
      || (At(s, id, Closing) && Enabled(s, Close(id)))
      || (At(s, id, Running) && Enabled(s, ReadFailed(id)) && forall p: Option<nat> :: Enabled(s, ReadDone(id, p)))
  {
    InitialInvariant();
    RunKeepsInvariant(INITIAL, steps);
    assert ConnInvariant(Result(Next, INITIAL, steps), id);
  }

  /**
    Once a handler has reported an error, the only handler that can run for that
    session is the one that closes it; it stays possible until it runs, takes the
    session out of the table and queues RemovePlayer if it was in there.
   */
  lemma ClosingOnlyCloses(s: State, id: nat, step: Step)
    requires Invariant(s) && At(s, id, Closing) && Enabled(s, step)
    ensures Enabled(s, Close(id))
    ensures !step.Accept? && step.id == id ==> step == Close(id) || step == WriteStarted(id)
    ensures step != Close(id) ==> At(Next(s, step), id, Closing) && (id in Next(s, step).table <==> id in s.table)
    ensures step == Close(id) ==> id !in Next(s, step).table
    ensures step == Close(id) ==> Next(s, step).log == s.log + if id in s.table then [Departed(id)] else []
  {
    assert ConnInvariant(s, id);
    assert ConnInvariant(s, s.nextId);
  }

  /** A failed handshake, read or write makes the session one that closes. */
  lemma FailureCloses(s: State, id: nat, step: Step)
    requires Enabled(s, step) && step in {HandshakeDone(id, false), ReadFailed(id), WriteDone(id, false)}
    ensures At(Next(s, step), id, Closing) && Next(s, step).table == s.table && Next(s, step).log == s.log
  {
  }

  /** What the steps of a run say about one id, and nothing but the steps. */
  ghost predicate History(s: State, steps: seq<Step>, id: nat) {
    && (HandshakeDone(id, true) in steps <==> At(s, id, Inserting) || id in s.entered)
    && (HandshakeDone(id, false) in steps <==> id in s.conns && Late(s.conns[id].stage) && id !in s.entered)
    && (Insert(id) in steps <==> id in s.entered)
    && (ReadFailed(id) in steps || WriteDone(id, false) in steps <==>
          Departed(id) in s.log || (At(s, id, Closing) && id in s.table))
    && (Departed(id) in s.log <==> id in s.entered && Close(id) in steps)
    && (Close(id) in steps ==> id in s.conns && Late(s.conns[id].stage))
  }

  /** A session reads from its announcement to its first failed read, and each of its writes is outstanding until it is done. */
  ghost predicate Traffic(s: State, steps: seq<Step>, id: nat) {
    && (Announce(id) in steps <==> Joined(id) in s.log)
    && (id in s.conns && s.conns[id].reading <==> Announce(id) in steps && ReadFailed(id) !in steps)
    && var count := multiset(steps);
       Writes(s, id) + count[WriteDone(id, true)] + count[WriteDone(id, false)] == count[WriteStarted(id)]
  }

  function Writes(s: State, id: nat): nat { if id in s.conns then s.conns[id].writes else 0 }

  /** What is queued for the world, in order: creations, packets as they were read, and the first close of an inserted id. */
  function LogOf(steps: seq<Step>): seq<Queued>
    decreases |steps|
  {
    if steps == [] then [] else
    var before, last := steps[..|steps| - 1], steps[|steps| - 1];
    LogOf(before) + match last
    case Announce(id) => [Joined(id)]
    case ReadDone(id, Some(opcode)) => [Sent(id, opcode)]
    case Close(id) => if Insert(id) in before && Close(id) !in before then [Departed(id)] else []
    case _ => []
  }

  lemma HistoryGrows(s: State, steps: seq<Step>, step: Step, id: nat)
    requires Invariant(s) && Enabled(s, step) && History(s, steps, id)
    ensures History(Next(s, step), steps + [step], id)
  {
    assert ConnInvariant(s, id);
    if !step.Accept? && id == step.id {
      OwnHistoryGrows(s, steps, step);
    } else {
      OtherHistoryGrows(s, steps, step, id);
    }
  }

  lemma TrafficGrows(s: State, steps: seq<Step>, step: Step, id: nat)
    requires Invariant(s) && Enabled(s, step) && History(s, steps, id) && Traffic(s, steps, id)
    ensures Traffic(Next(s, step), steps + [step], id)
  {
    hide Traffic, History;
    assert ConnInvariant(s, id);
    if !step.Accept? && id == step.id {
      OwnTrafficGrows(s, steps, step);
    } else {
      OtherTrafficGrows(s, steps, step, id);
    }
  }

  lemma OwnTrafficGrows(s: State, steps: seq<Step>, step: Step)
    requires Enabled(s, step) && !step.Accept? && ConnInvariant(s, step.id)
    requires History(s, steps, step.id) && Traffic(s, steps, step.id)
    ensures Traffic(Next(s, step), steps + [step], step.id)
  {
    assert forall a :: a in steps + [step] <==> a in steps || a == step;
    assert multiset(steps + [step]) == multiset(steps) + multiset{step};
  }

  lemma OtherTrafficGrows(s: State, steps: seq<Step>, step: Step, id: nat)
    requires Enabled(s, step) && (step.Accept? || id != step.id) && ConnInvariant(s, id) && Traffic(s, steps, id)
    ensures Traffic(Next(s, step), steps + [step], id)
  {
    var n := Next(s, step);
    assert forall a :: a in steps + [step] <==> a in steps || a == step;
    assert multiset(steps + [step]) == multiset(steps) + multiset{step};
    assert Joined(id) in n.log <==> Joined(id) in s.log;
    assert Writes(n, id) == Writes(s, id);
  }

  lemma OwnHistoryGrows(s: State, steps: seq<Step>, step: Step)
    requires Enabled(s, step) && !step.Accept? && ConnInvariant(s, step.id) && History(s, steps, step.id)
    ensures History(Next(s, step), steps + [step], step.id)
  {
    assert forall a :: a in steps + [step] <==> a in steps || a == step;
  }

  lemma OtherHistoryGrows(s: State, steps: seq<Step>, step: Step, id: nat)
    requires Enabled(s, step) && (step.Accept? || id != step.id) && ConnInvariant(s, id) && History(s, steps, id)
    ensures History(Next(s, step), steps + [step], id)
  {
    var n := Next(s, step);
    assert forall a :: a in steps + [step] <==> a in steps || a == step;
    assert (id in n.table <==> id in s.table) && (id in n.entered <==> id in s.entered);
    assert Departed(id) in n.log <==> Departed(id) in s.log;
  }

  lemma LogGrows(s: State, steps: seq<Step>, step: Step)
    requires Invariant(s) && Enabled(s, step) && (step.Close? ==> History(s, steps, step.id))
    requires s.log == LogOf(steps)
    ensures Next(s, step).log == LogOf(steps + [step])
  {
    assert (steps + [step])[..|steps|] == steps;
    if step.Close? { assert ConnInvariant(s, step.id); }
  }

  lemma {:induction false} HistoryHolds(steps: seq<Step>)
    requires Executes(Next, INITIAL, steps)
    ensures var s := Result(Next, INITIAL, steps);
      s.log == LogOf(steps) && forall id :: History(s, steps, id) && Traffic(s, steps, id)
    decreases |steps|
  {
    hide History, Traffic, Invariant, LogOf;
    if steps == [] {
      NoHistory();
    } else {
      var n := |steps| - 1;
      var before, step := steps[..n], steps[n];
      assert steps == before + [step];
      ExecutionExtends(Next, INITIAL, before, step);
      HistoryHolds(before);
      InitialInvariant();
      RunKeepsInvariant(INITIAL, before);
      var s := Result(Next, INITIAL, before);
      LogGrows(s, before, step);
      forall id ensures History(Next(s, step), steps, id) && Traffic(Next(s, step), steps, id) {
        HistoryGrows(s, before, step, id);
        TrafficGrows(s, before, step, id);
      }
    }
  }

  lemma NoHistory()
    ensures LogOf([]) == INITIAL.log && forall id :: History(INITIAL, [], id) && Traffic(INITIAL, [], id)
  {
  }

  /**
    What the world is told follows from what happened to the connections: every
    failed read or write of an id has queued its RemovePlayer or is about to, and
    nothing else has; an id is in the table, and announced, only if its handshake
    succeeded, and never if it failed; packets are queued as they were read.
   */
  lemma FailuresAreRemovals(steps: seq<Step>, id: nat)
    requires Executes(Next, INITIAL, steps)
    ensures var s := Result(Next, INITIAL, steps);
      && s.log == LogOf(steps)
      && (ReadFailed(id) in steps || WriteDone(id, false) in steps <==>
            Departed(id) in s.log || (At(s, id, Closing) && id in s.table))
      && (HandshakeDone(id, true) in steps <==> At(s, id, Inserting) || id in s.entered)
      && (HandshakeDone(id, false) in steps ==> id !in s.entered && Joined(id) !in s.log)
  {
    hide Invariant, LogOf;
    HistoryHolds(steps);
    InitialInvariant();
    RunKeepsInvariant(INITIAL, steps);
    var s := Result(Next, INITIAL, steps);
    assert History(s, steps, id);
    if Joined(id) in s.log { JoinedEntered(s, id); }
  }

  /**
    In every run a session goes on reading exactly from its announcement to its
    first failed read, and it has as many writes outstanding as were started and
    not completed.
   */
  lemma TrafficIsCounted(steps: seq<Step>, id: nat)
    requires Executes(Next, INITIAL, steps)
    ensures var s := Result(Next, INITIAL, steps);
      && (id in s.conns && s.conns[id].reading <==> Announce(id) in steps && ReadFailed(id) !in steps)
      && (id in s.conns ==> var count := multiset(steps);
            s.conns[id].writes + count[WriteDone(id, true)] + count[WriteDone(id, false)] == count[WriteStarted(id)])
  {
    hide History, LogOf;
    HistoryHolds(steps);
    assert Traffic(Result(Next, INITIAL, steps), steps, id);
  }

  lemma JoinedEntered(s: State, id: nat)
    requires Invariant(s) && Joined(id) in s.log
    ensures id in s.entered
  {
    assert ConnInvariant(s, id);
  }

  // ------------------------------------------------------------- reachability

  /** The server with one connection, whose id is 0. */
  function Single(c: Conn, table: set<nat>, entered: seq<nat>, log: seq<Queued>): State {
    State(1, map[0 := c], table, entered, log)
  }

  lemma ConnectionOpens(t: State)
    requires Reaches(Next, Single(Conn(Running, true, 0), {0}, [0], [Joined(0)]), t)
    ensures Reaches(Next, INITIAL, t)
  {
    hide Reaches;
    var s1 := Single(Conn(Handshake, false, 0), {}, [], []);
    var s2 := Single(Conn(Inserting, false, 0), {}, [], []);
    var s3 := Single(Conn(Announcing, false, 0), {0}, [0], []);
    assert Next(s3, Announce(0)) == Single(Conn(Running, true, 0), {0}, [0], [Joined(0)]);
    ReachesBy(Next, s3, Announce(0), t);
    assert Next(s2, Insert(0)) == s3;
    ReachesBy(Next, s2, Insert(0), t);
    assert Next(s1, HandshakeDone(0, true)) == s2;
    ReachesBy(Next, s1, HandshakeDone(0, true), t);
    assert Next(INITIAL, Accept) == s1;
    ReachesBy(Next, INITIAL, Accept, t);
  }
}
