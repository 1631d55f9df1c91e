/**
  The concurrent send path of a session (PushToSend and Send in
  src/net/session/session.cpp): an atomic flag, a locked queue and asynchronous
  writes, as interleaved atomic steps of any number of threads.
 */
module SendProtocol {
  import opened Steps
  import opened Options

  datatype Status = Connecting | Connected | Disconnecting | Disconnected | User

  /** Where a thread stands: each constructor is the atomic action it performs next. */
  datatype Pc<T> =
    | AtConnected        // test that the session is not Disconnected
    | AtEmpty            // test that the queue is not empty
    | AtTestAndSet       // test_and_set on the sending flag
    | AtPop              // TryPop
    | AtWrite(buf: T)    // start the asynchronous write
    | AtClear            // a write succeeded: clear the flag
    | AtRecheck          // ... and test the queue again
    | AtFail             // a write failed: SetDisconnecting
    | AtClose            // ... and SetDisconnected

  /** The shared memory of the session and, in the last five fields, its history. */
  datatype Memory<T> = Memory(
    queue: seq<T>, sending: bool, status: Status, outstanding: seq<T>,
    pushed: seq<T>, written: seq<T>, failed: bool, drained: bool, everDisconnected: bool)

  datatype Session<T> = Session(mem: Memory<T>, agents: map<nat, Pc<T>>)

  datatype Step<T> =
    | Call(thread: nat, buf: T)                       // a thread enters PushToSend and pushes
    | Run(thread: nat)                                // a thread performs its next action
    | Complete(thread: nat, index: nat, ok: bool)     // an io thread enters a completion handler
    | SetStatus(status: Status)                       // accept and read handlers change the state

  predicate Enabled<T>(s: Session<T>, step: Step<T>) {
    match step
    case Call(t, _) => t !in s.agents
    case Run(t) => t in s.agents
    case Complete(t, i, _) => t !in s.agents && i < |s.mem.outstanding|
    case SetStatus(_) => true
  }

  /** What an action does to the memory, and where it leaves the thread; `None` when it returns. */
  function Acted<T>(m: Memory<T>, pc: Pc<T>): (Memory<T>, Option<Pc<T>>) {
    match pc
    case AtConnected => (m, if m.status == Disconnected then None else Some(AtEmpty))
    case AtEmpty => (m, if |m.queue| == 0 then None else Some(AtTestAndSet))
    case AtTestAndSet => if m.sending then (m, None) else (m.(sending := true), Some(AtPop))
    case AtPop =>
      // the branch that the code calls impossible leaves the flag set
      if |m.queue| == 0 then (m.(drained := true), None)
      else (m.(queue := m.queue[1..]), Some(AtWrite(m.queue[0])))
    case AtWrite(b) => (m.(outstanding := m.outstanding + [b], written := m.written + [b]), None)
    case AtClear => (m.(sending := false), Some(AtRecheck))
    case AtRecheck => (m, if |m.queue| == 0 then None else Some(AtConnected))
    case AtFail => (m.(status := Disconnecting), Some(AtClose))
    case AtClose => (m.(status := Disconnected, everDisconnected := true), None)
  }

  function Next<T>(s: Session<T>, step: Step<T>): Session<T>
    requires Enabled(s, step)
  {
    var m := s.mem;
    match step
    case Call(t, b) =>
      Session(m.(queue := m.queue + [b], pushed := m.pushed + [b]), s.agents[t := AtConnected])
    case Run(t) =>
      var (n, pc) := Acted(m, s.agents[t]);
      Session(n, if pc.None? then s.agents - {t} else s.agents[t := pc.value])
    case Complete(t, i, ok) =>
      var rest := m.(outstanding := m.outstanding[..i] + m.outstanding[i + 1..]);
      if ok then Session(rest, s.agents[t := AtClear]) else Session(rest.(failed := true), s.agents[t := AtFail])
    case SetStatus(status) =>
      s.(mem := m.(status := status, everDisconnected := m.everDisconnected || status == Disconnected))
  }

  function Initial<T>(): Session<T> {
    Session(Memory([], false, Connecting, [], [], [], false, false, false), map[])
  }

  // ---------------------------------------------------------------- invariant

  /** A thread between its successful test_and_set and the write, or about to clear the flag. */
  predicate Owns<T>(pc: Pc<T>) { pc.AtPop? || pc.AtWrite? || pc.AtClear? }

  /** A thread that will still look at the queue and the flag. */
  predicate Watches<T>(pc: Pc<T>) { pc.AtConnected? || pc.AtEmpty? || pc.AtTestAndSet? || pc.AtRecheck? }

  ghost predicate Owner<T>(s: Session<T>, t: nat) { t in s.agents && Owns(s.agents[t]) }
  ghost predicate Watcher<T>(s: Session<T>, t: nat) { t in s.agents && Watches(s.agents[t]) }

  /** The flag has no owner any more and will never be cleared. */
  predicate Leaked<T>(s: Session<T>) { s.mem.failed || s.mem.drained }

  /** At most one thread owns the flag, and then there is no write besides it. */
  ghost predicate OwnersInvariant<T>(s: Session<T>) {
    && (forall t, u :: Owner(s, t) && Owner(s, u) ==> t == u)
    && (forall t :: Owner(s, t) ==> s.mem.sending && s.mem.outstanding == [] && !Leaked(s))
  }

  /** At most one write, and only under a set flag that has not leaked. */
  ghost predicate WritesInvariant<T>(s: Session<T>) {
    && |s.mem.outstanding| <= 1
    && (s.mem.outstanding != [] ==> s.mem.sending && !Leaked(s))
    && (Leaked(s) ==> s.mem.sending)
  }

  /** A set flag has leaked, or a write or a thread holds it. */
  ghost predicate Held<T>(s: Session<T>) {
    s.mem.sending ==> Leaked(s) || s.mem.outstanding != [] || exists t :: Owner(s, t)
  }

  /** The flag is held by exactly one of: an owner thread, an outstanding write, or nobody for ever. */
  ghost predicate FlagInvariant<T>(s: Session<T>) { OwnersInvariant(s) && WritesInvariant(s) && Held(s) }

  /** The buffers handed to writes, then the one a thread carries, then the queue: the push order. */
  ghost predicate OrderInvariant<T>(s: Session<T>) {
    && (forall t :: t in s.agents && s.agents[t].AtWrite? ==> s.mem.written + [s.agents[t].buf] + s.mem.queue == s.mem.pushed)
    && ((forall t :: t in s.agents ==> !s.agents[t].AtWrite?) ==> s.mem.written + s.mem.queue == s.mem.pushed)
  }

  /** No lost wake-up: work in the queue and a clear flag mean that somebody is still going to look. */
  ghost predicate WakeInvariant<T>(s: Session<T>) {
    s.mem.queue != [] && !s.mem.sending && !s.mem.everDisconnected ==> exists t :: Watcher(s, t)
  }

  ghost predicate StatusInvariant<T>(s: Session<T>) { s.mem.status == Disconnected ==> s.mem.everDisconnected }

  ghost predicate Invariant<T>(s: Session<T>) {
    FlagInvariant(s) && OrderInvariant(s) && WakeInvariant(s) && StatusInvariant(s)
  }

  /** A step moves at most the thread that performs it. */
  lemma OthersStay<T>(s: Session<T>, step: Step<T>, t: nat)
    requires Enabled(s, step) && (step.SetStatus? || t != step.thread)
    ensures var n := Next(s, step); (t in n.agents <==> t in s.agents) && (t in s.agents ==> n.agents[t] == s.agents[t])
  {
  }

  /** How a step changes the ownership of the flag. */
  lemma OwnersAfter<T>(s: Session<T>, step: Step<T>)
    requires FlagInvariant(s) && Enabled(s, step)
    ensures OwnersInvariant(Next(s, step))
  {
    var n := Next(s, step);
    forall t | step.SetStatus? || t != step.thread ensures Owner(n, t) <==> Owner(s, t) {
      OthersStay(s, step, t);
    }
    if step.Complete? {
      assert s.mem.outstanding == [s.mem.outstanding[step.index]];
    } else if step.Run? && Owns(s.agents[step.thread]) {
      assert Owner(s, step.thread);
    }
    if !step.SetStatus? && Owner(n, step.thread) && !Owner(s, step.thread) {
      assert step.Run? ==> s.agents[step.thread].AtTestAndSet? && !s.mem.sending;
      assert forall t :: !Owner(s, t);
    }
  }

  lemma RunKeepsHeld<T>(s: Session<T>, t: nat)
    requires FlagInvariant(s) && t in s.agents
    ensures Held(Next(s, Run(t)))
  {
    var n, pc := Next(s, Run(t)), s.agents[t];
    if Owns(pc) {
      assert Owner(s, t);
      assert pc.AtPop? && s.mem.queue != [] ==> Owner(n, t);
    } else if pc.AtTestAndSet? && !s.mem.sending {
      assert Owner(n, t);
    } else if s.mem.sending && !Leaked(s) && s.mem.outstanding == [] {
      var o :| Owner(s, o);
      OthersStay(s, Run(t), o);
      assert Owner(n, o);
    }
  }

  lemma EntryKeepsHeld<T>(s: Session<T>, step: Step<T>)
    requires FlagInvariant(s) && Enabled(s, step) && !step.Run?
    ensures Held(Next(s, step))
  {
    var n := Next(s, step);
    if step.Complete? {
      assert step.ok ==> Owner(n, step.thread);
    } else if s.mem.sending && !Leaked(s) && s.mem.outstanding == [] {
      var o :| Owner(s, o);
      OthersStay(s, step, o);
      assert Owner(n, o);
    }
  }

  lemma RunKeepsWrites<T>(s: Session<T>, t: nat)
    requires FlagInvariant(s) && t in s.agents
    ensures WritesInvariant(Next(s, Run(t)))
  {
    var n, pc := Next(s, Run(t)), s.agents[t];
    assert n.mem == Acted(s.mem, pc).0;
    if Owns(pc) { assert Owner(s, t); }
  }

  lemma CompletionKeepsWrites<T>(s: Session<T>, step: Step<T>)
    requires FlagInvariant(s) && Enabled(s, step) && step.Complete?
    ensures WritesInvariant(Next(s, step))
  {
    assert s.mem.outstanding == [s.mem.outstanding[0]] && step.index == 0;
    assert Next(s, step).mem.outstanding == [];
  }

  lemma WritesAfter<T>(s: Session<T>, step: Step<T>)
    requires FlagInvariant(s) && Enabled(s, step)
    ensures WritesInvariant(Next(s, step))
  {
    match step
    case Run(t) => RunKeepsWrites(s, t);
    case Complete(_, _, _) => CompletionKeepsWrites(s, step);
    case Call(_, _) =>
    case SetStatus(_) =>
  }

  lemma FlagStep<T>(s: Session<T>, step: Step<T>)
    requires FlagInvariant(s) && Enabled(s, step)
    ensures FlagInvariant(Next(s, step))
  {
    hide Next, Owner, Leaked;
    OwnersAfter(s, step);
    WritesAfter(s, step);
    if step.Run? { RunKeepsHeld(s, step.thread); } else { EntryKeepsHeld(s, step); }
  }

  /** While a thread owns the flag no other thread carries a buffer. */
  lemma OnlyOwnerCarries<T>(s: Session<T>, o: nat)
    requires FlagInvariant(s) && Owner(s, o)
    ensures forall t :: t in s.agents && s.agents[t].AtWrite? ==> t == o
  {
    forall t | t in s.agents && s.agents[t].AtWrite? ensures t == o {
      assert Owner(s, t);
    }
  }

  lemma PopKeepsOrder<T>(s: Session<T>, o: nat)
    requires FlagInvariant(s) && OrderInvariant(s)
    requires o in s.agents && s.agents[o].AtPop? && s.mem.queue != []
    ensures OrderInvariant(Next(s, Run(o)))
  {
    assert Owner(s, o);
    OnlyOwnerCarries(s, o);
    var n := Next(s, Run(o));
    assert n.agents[o] == AtWrite(s.mem.queue[0]);
    assert s.mem.queue == [s.mem.queue[0]] + s.mem.queue[1..];
    assert n.mem.written + [s.mem.queue[0]] + n.mem.queue == s.mem.written + s.mem.queue;
  }

  lemma WriteKeepsOrder<T>(s: Session<T>, o: nat)
    requires FlagInvariant(s) && OrderInvariant(s)
    requires o in s.agents && s.agents[o].AtWrite?
    ensures OrderInvariant(Next(s, Run(o)))
  {
    assert Owner(s, o);
    OnlyOwnerCarries(s, o);
  }

  lemma CallKeepsOrder<T>(s: Session<T>, t: nat, b: T)
    requires OrderInvariant(s) && t !in s.agents
    ensures OrderInvariant(Next(s, Call(t, b)))
  {
    var n := Next(s, Call(t, b));
    forall u | u in n.agents && n.agents[u].AtWrite? ensures n.mem.written + [n.agents[u].buf] + n.mem.queue == n.mem.pushed {
      assert n.mem.written + [n.agents[u].buf] + n.mem.queue == (s.mem.written + [s.agents[u].buf] + s.mem.queue) + [b];
    }
    assert forall u :: u in s.agents ==> n.agents[u] == s.agents[u];
    assert n.mem.written + n.mem.queue == (s.mem.written + s.mem.queue) + [b];
  }

  lemma OrderStep<T>(s: Session<T>, step: Step<T>)
    requires FlagInvariant(s) && OrderInvariant(s) && Enabled(s, step)
    ensures OrderInvariant(Next(s, step))
  {
    if step.Run? && s.agents[step.thread].AtPop? && s.mem.queue != [] {
      PopKeepsOrder(s, step.thread);
    } else if step.Run? && s.agents[step.thread].AtWrite? {
      WriteKeepsOrder(s, step.thread);
    } else if step.Call? {
      CallKeepsOrder(s, step.thread, step.buf);
    } else {
      var n := Next(s, step);
      assert n.mem.queue == s.mem.queue && n.mem.written == s.mem.written && n.mem.pushed == s.mem.pushed;
      forall t ensures t in n.agents && n.agents[t].AtWrite? <==> t in s.agents && s.agents[t].AtWrite? {
      }
    }
  }

  lemma WakeStep<T>(s: Session<T>, step: Step<T>)
    requires Invariant(s) && Enabled(s, step)
    ensures WakeInvariant(Next(s, step))
  {
    var n := Next(s, step);
    if n.mem.queue != [] && !n.mem.sending && !n.mem.everDisconnected {
      if step.Call? || (step.Run? && s.agents[step.thread].AtClear?) {
        assert Watcher(n, step.thread);
      } else {
        assert step.Run? && s.agents[step.thread].AtPop? ==> Owner(s, step.thread);
        var w :| Watcher(s, w);
        if step == Run(w) {
          assert Watcher(n, w);
        } else if step.SetStatus? || w != step.thread {
          OthersStay(s, step, w);
          assert Watcher(n, w);
        }
      }
    }
  }

  lemma StatusStep<T>(s: Session<T>, step: Step<T>)
    requires StatusInvariant(s) && Enabled(s, step)
    ensures StatusInvariant(Next(s, step))
  {
  }

  lemma StepKeepsInvariant<T>(s: Session<T>, step: Step<T>)
    requires Invariant(s) && Enabled(s, step)
    ensures Invariant(Next(s, step))
  {
    hide FlagInvariant, OrderInvariant, WakeInvariant, StatusInvariant, Next, Enabled;
    StatusStep(s, step);
    FlagStep(s, step);
    OrderStep(s, step);
    WakeStep(s, step);
  }

  lemma RunKeepsInvariant<T(!new)>(s: Session<T>, steps: seq<Step<T>>)
    requires Invariant(s) && Executes(Next, s, steps)
    ensures Invariant(Result(Next, s, steps))
  {
    hide Invariant, Enabled;
    forall r: Session<T>, a: Step<T> | Invariant(r) && Enabled(r, a) ensures Invariant(Next(r, a)) {
      StepKeepsInvariant(r, a);
    }
    ExecutionKeeps(Next, (r: Session<T>) => Invariant(r), s, steps);
  }

  // ----------------------------------------------------------------- theorems

  /**
    In every interleaving: at most one write is outstanding; no buffer is lost,
    duplicated or reordered; a non-empty queue with a clear flag on a session
    that was never disconnected has a thread about to look at it; and the flag
    is set without an owner exactly after a failed write or an empty TryPop.
   */
  lemma SendIsSafe<T(!new)>(steps: seq<Step<T>>)
    requires Executes(Next, Initial<T>(), steps)
    ensures var s := Result(Next, Initial<T>(), steps);
      && |s.mem.outstanding| <= 1
      && (forall t :: t in s.agents && s.agents[t].AtWrite? ==> s.mem.written + [s.agents[t].buf] + s.mem.queue == s.mem.pushed)
      && ((forall t :: t in s.agents ==> !s.agents[t].AtWrite?) ==> s.mem.written + s.mem.queue == s.mem.pushed)
      && (s.mem.queue != [] && !s.mem.sending && !s.mem.everDisconnected ==> exists t :: Watcher(s, t))
      && (s.mem.sending && s.mem.outstanding == [] && (forall t :: !Owner(s, t)) <==> Leaked(s))
  {
    RunKeepsInvariant(Initial<T>(), steps);
    var s := Result(Next, Initial<T>(), steps);
    assert Invariant(s);
  }

  /** Nobody is at work and nothing is outstanding. */
  predicate Idle<T>(s: Session<T>) { s.agents == map[] && s.mem.outstanding == [] }

  /** At rest, and in good health, everything that was pushed has been written. */
  lemma NothingIsLeftBehind<T(!new)>(steps: seq<Step<T>>)
    requires Executes(Next, Initial<T>(), steps)
    ensures var s := Result(Next, Initial<T>(), steps);
      Idle(s) && !s.mem.everDisconnected && !Leaked(s) ==> s.mem.written == s.mem.pushed
  {
    SendIsSafe(steps);
  }

  /** Once the flag has leaked nothing is ever written again. */
  lemma {:induction false} LeakIsForever<T>(s: Session<T>, steps: seq<Step<T>>)
    requires Invariant(s) && Leaked(s) && Executes(Next, s, steps)
    ensures var n := Result(Next, s, steps); Leaked(n) && n.mem.written == s.mem.written && n.mem.outstanding == []
    decreases |steps|
  {
    if steps == [] {
    } else {
      var n := Next(s, steps[0]);
      assert steps[0].Run? ==> !Owner(s, steps[0].thread);
      StepKeepsInvariant(s, steps[0]);
      assert Leaked(n) && n.mem.written == s.mem.written;
      LeakIsForever(n, steps[1..]);
    }
  }

  // ------------------------------------------------------- rest is reached

  /** How many more actions a thread can perform on its own account; a write in its hands is not done with it. */
  function Rank<T>(pc: Pc<T>): nat {
    match pc
    case AtWrite(_) => 8
    case AtClear => 6
    case AtRecheck => 5
    case AtConnected => 4
    case AtEmpty => 3
    case AtTestAndSet => 2
    case AtPop => 1
    case AtFail => 2
    case AtClose => 1
  }

  ghost function Ranks<T>(agents: map<nat, Pc<T>>): nat
    decreases |agents|
  {
    if agents == map[] then 0 else
    var t :| t in agents;
    Rank(agents[t]) + Ranks(agents - {t})
  }

  /** The sum does not depend on the order of the threads. */
  lemma {:induction false} RanksWithout<T>(agents: map<nat, Pc<T>>, t: nat)
    requires t in agents
    ensures Ranks(agents) == Rank(agents[t]) + Ranks(agents - {t})
    decreases |agents|
  {
    hide Rank;
    assert agents != map[];
    var u :| u in agents && Ranks(agents) == Rank(agents[u]) + Ranks(agents - {u});
    if u != t {
      RanksWithout(agents - {u}, t);
      assert u in agents - {t};
      RanksWithout(agents - {t}, u);
      assert agents - {u} - {t} == agents - {t} - {u};
    }
  }

  lemma RanksWith<T>(agents: map<nat, Pc<T>>, t: nat, pc: Pc<T>)
    ensures Ranks(agents[t := pc]) == Rank(pc) + Ranks(agents - {t})
  {
    RanksWithout(agents[t := pc], t);
    assert agents[t := pc] - {t} == agents - {t};
  }

  /** A bound on the work that is left: a queued buffer takes a whole turn, an outstanding write the rest of one. */
  ghost function Work<T>(s: Session<T>): nat {
    8 * |s.mem.queue| + 7 * |s.mem.outstanding| + Ranks(s.agents)
  }

  predicate Works<T>(step: Step<T>) { step.Run? || step.Complete? }

  /** What an action leaves to do, in the memory and for its own thread. */
  lemma ActionShrinks<T>(m: Memory<T>, pc: Pc<T>)
    ensures var (n, next) := Acted(m, pc);
      8 * |n.queue| + 7 * |n.outstanding| + (if next.None? then 0 else Rank(next.value))
      < 8 * |m.queue| + 7 * |m.outstanding| + Rank(pc)
  {
  }

  /** Every action of a thread and every completion leaves less work; only a new call adds some. */
  lemma WorkShrinks<T>(s: Session<T>, step: Step<T>)
    requires Enabled(s, step) && !step.Call?
    ensures if Works(step) then Work(Next(s, step)) < Work(s) else Work(Next(s, step)) == Work(s)
  {
    hide Ranks, Acted;
    match step
    case Run(t) =>
      RanksWithout(s.agents, t);
      ActionShrinks(s.mem, s.agents[t]);
      var pc := Acted(s.mem, s.agents[t]).1;
      if pc.Some? { RanksWith(s.agents, t, pc.value); }
    case Complete(t, i, ok) =>
      RanksWith(s.agents, t, if ok then AtClear else AtFail);
      assert s.agents - {t} == s.agents;
    case SetStatus(_) =>
  }

  /** The number of actions and completions among these steps. */
  function Worked<T>(steps: seq<Step<T>>): nat {
    if steps == [] then 0 else (if Works(steps[0]) then 1 else 0) + Worked(steps[1..])
  }

  /**
    Without new calls every execution comes to an end: however the threads and the
    completions interleave and whatever becomes of the connection, there are no
    more of their steps than the work that was left.
   */
  lemma {:induction false} WorkIsBounded<T>(s: Session<T>, steps: seq<Step<T>>)
    requires Executes(Next, s, steps) && forall step :: step in steps ==> !step.Call?
    ensures Worked(steps) + Work(Result(Next, s, steps)) <= Work(s)
    decreases |steps|
  {
    hide Work, Next, Enabled;
    if steps == [] {
    } else {
      WorkShrinks(s, steps[0]);
      WorkIsBounded(Next(s, steps[0]), steps[1..]);
    }
  }

  /** A thread that is not at work. */
  lemma {:induction false} FreshThread(busy: set<nat>) returns (t: nat)
    ensures forall u :: u in busy ==> u < t
    decreases busy
  {
    if busy == {} {
      t := 0;
    } else {
      var u :| u in busy;
      var v := FreshThread(busy - {u});
      t := if v <= u then u + 1 else v;
      assert forall w :: w in busy ==> w == u || w in busy - {u};
    }
  }

  /** As long as there is a thread at work or a write outstanding, there is a next step. */
  lemma NextWork<T>(s: Session<T>) returns (step: Step<T>)
    requires !Idle(s)
    ensures Works(step) && Enabled(s, step)
  {
    if t: nat :| t in s.agents {
      step := Run(t);
    } else {
      var t := FreshThread(s.agents.Keys);
      assert t !in s.agents;
      step := Complete(t, 0, true);
    }
  }

  /** No thread can act and no write can complete. */
  ghost predicate Exhausted<T(!new)>(s: Session<T>) { forall step: Step<T> :: Works(step) ==> !Enabled(s, step) }

  lemma ExhaustedIsIdle<T(!new)>(s: Session<T>)
    ensures Exhausted(s) <==> Idle(s)
  {
    if !Idle(s) {
      var step := NextWork(s);
    }
  }

  /**
    Rest is inevitable: from any state, without new calls, the threads and the
    completions perform no more than `Work` steps, whatever becomes of the
    connection, and they can stop only at rest.
   */
  lemma SendingComesToRest<T(!new)>(s: Session<T>, steps: seq<Step<T>>)
    requires Executes(Next, s, steps) && forall step :: step in steps ==> !step.Call?
    ensures Worked(steps) <= Work(s)
    ensures Exhausted(Result(Next, s, steps)) <==> Idle(Result(Next, s, steps))
  {
    hide Work;
    WorkIsBounded(s, steps);
    ExhaustedIsIdle(Result(Next, s, steps));
  }

  // ------------------------------------------------- when a pop comes up empty

  /** The buffers pushed by these steps. */
  function Calls<T>(steps: seq<Step<T>>): seq<T> {
    if steps == [] then [] else (if steps[0].Call? then [steps[0].buf] else []) + Calls(steps[1..])
  }

  /** From its successful test_and_set until its own next action only the owner could pop: the queue just grows. */
  lemma {:induction false} OwnerKeepsQueue<T>(s: Session<T>, o: nat, steps: seq<Step<T>>)
    requires Invariant(s) && o in s.agents && s.agents[o].AtPop? && Executes(Next, s, steps)
    requires forall step :: step in steps ==> step != Run(o)
    ensures var n := Result(Next, s, steps);
      Invariant(n) && o in n.agents && n.agents[o].AtPop? && n.mem.queue == s.mem.queue + Calls(steps)
    decreases |steps|
  {
    hide Invariant, Enabled, Next, Executes, Result, Calls;
    if steps == [] {
      NoSteps(s);
      assert s.mem.queue + [] == s.mem.queue;
    } else {
      var first, rest := steps[0], steps[1..];
      var own := if first.Call? then [first.buf] else [];
      assert first in steps && forall step :: step in rest ==> step in steps;
      FirstStep(s, steps);
      StepBesidesOwner(s, o, first);
      StepKeepsInvariant(s, first);
      OwnerKeepsQueue(Next(s, first), o, rest);
      assert s.mem.queue + (own + Calls(rest)) == (s.mem.queue + own) + Calls(rest);
    }
  }

  lemma NoSteps<T>(s: Session<T>)
    ensures Executes(Next, s, []) && Result(Next, s, []) == s && Calls<T>([]) == []
  {
  }

  lemma FirstStep<T>(s: Session<T>, steps: seq<Step<T>>)
    requires Executes(Next, s, steps) && steps != []
    ensures Enabled(s, steps[0]) && Executes(Next, Next(s, steps[0]), steps[1..])
    ensures Result(Next, s, steps) == Result(Next, Next(s, steps[0]), steps[1..])
    ensures Calls(steps) == (if steps[0].Call? then [steps[0].buf] else []) + Calls(steps[1..])
  {
  }

  /**
    A TryPop comes up empty exactly if the queue was empty when its thread took
    the flag and nothing was pushed since: the empty test of `Send` would have to
    be made after the test_and_set.
   */
  lemma EmptyPopExactly<T>(s: Session<T>, o: nat, steps: seq<Step<T>>)
    requires Invariant(s) && o in s.agents && s.agents[o].AtPop? && Executes(Next, s, steps)
    requires forall step :: step in steps ==> step != Run(o)
    ensures var n := Result(Next, s, steps);
      Enabled(n, Run(o)) && (Next(n, Run(o)).mem.drained <==> s.mem.queue == [] && Calls(steps) == [])
  {
    hide Invariant;
    OwnerKeepsQueue(s, o, steps);
    PopOfOwner(Result(Next, s, steps), o);
  }

  lemma PopOfOwner<T>(s: Session<T>, o: nat)
    requires Invariant(s) && o in s.agents && s.agents[o].AtPop?
    ensures Enabled(s, Run(o)) && (Next(s, Run(o)).mem.drained <==> s.mem.queue == [])
  {
    assert Owner(s, o);
  }

  lemma StepBesidesOwner<T>(s: Session<T>, o: nat, step: Step<T>)
    requires Invariant(s) && o in s.agents && s.agents[o].AtPop? && Enabled(s, step) && step != Run(o)
    ensures var n := Next(s, step);
      && o in n.agents && n.agents[o].AtPop? && n.mem.drained == s.mem.drained
      && n.mem.queue == s.mem.queue + if step.Call? then [step.buf] else []
  {
    assert Owner(s, o);
    OthersStay(s, step, o);
    assert step.Run? && Owns(s.agents[step.thread]) ==> Owner(s, step.thread);
  }

  // ---------------------------------------------- a disconnected session

  /** The status is Disconnected before, between and after these steps. */
  ghost predicate StaysDisconnected<T>(s: Session<T>, steps: seq<Step<T>>)
    requires Executes(Next, s, steps)
    decreases |steps|
  {
    s.mem.status == Disconnected && (steps == [] || StaysDisconnected(Next(s, steps[0]), steps[1..]))
  }

  /** The thread has found the session not Disconnected and may go on to write. */
  ghost predicate Passed<T>(s: Session<T>, t: nat) {
    t in s.agents && (s.agents[t].AtEmpty? || s.agents[t].AtTestAndSet? || s.agents[t].AtPop? || s.agents[t].AtWrite?)
  }

  lemma DisconnectedStep<T>(s: Session<T>, step: Step<T>)
    requires Enabled(s, step) && s.mem.status == Disconnected
    ensures forall t :: Passed(Next(s, step), t) ==> Passed(s, t)
    ensures (forall t :: !Passed(s, t)) ==> Next(s, step).mem.written == s.mem.written
    ensures (forall t :: !Passed(s, t)) ==>
      Next(s, step).mem.queue == s.mem.queue + if step.Call? then [step.buf] else []
  {
    forall t | Passed(Next(s, step), t) ensures Passed(s, t) {
      if step.SetStatus? || t != step.thread { OthersStay(s, step, t); }
    }
    if step.Run? && (s.agents[step.thread].AtPop? || s.agents[step.thread].AtWrite?) {
      assert Passed(s, step.thread);
    }
  }

  /**
    While a session is Disconnected no thread gets past the test at the head of
    `Send`; if none had passed it before, nothing at all is written, and what is
    pushed meanwhile just stays in the queue.
   */
  lemma {:induction false} DisconnectedWritesNothing<T>(s: Session<T>, steps: seq<Step<T>>)
    requires Executes(Next, s, steps) && StaysDisconnected(s, steps)
    ensures var n := Result(Next, s, steps);
      && (forall t :: Passed(n, t) ==> Passed(s, t))
      && ((forall t :: !Passed(s, t)) ==> n.mem.written == s.mem.written && n.mem.queue == s.mem.queue + Calls(steps))
    decreases |steps|
  {
    hide Passed, Enabled, Next;
    if steps == [] {
      assert s.mem.queue + [] == s.mem.queue;
    } else {
      var n := Next(s, steps[0]);
      DisconnectedStep(s, steps[0]);
      DisconnectedWritesNothing(n, steps[1..]);
      var own := if steps[0].Call? then [steps[0].buf] else [];
      assert (s.mem.queue + own) + Calls(steps[1..]) == s.mem.queue + (own + Calls(steps[1..]));
    }
  }

  ghost predicate Failing<T>(s: Session<T>, t: nat) { t in s.agents && (s.agents[t].AtFail? || s.agents[t].AtClose?) }

  /** A write has failed: the session is Disconnected, or a thread is about to see to it. */
  ghost predicate FailureShows<T>(s: Session<T>) {
    s.mem.failed ==> s.mem.status == Disconnected || exists t :: Failing(s, t)
  }

  lemma FailureStep<T>(s: Session<T>, step: Step<T>)
    requires Enabled(s, step) && !step.SetStatus? && FailureShows(s)
    ensures FailureShows(Next(s, step))
  {
    var n := Next(s, step);
    if step.Complete? && !step.ok {
      assert Failing(n, step.thread);
    } else if step.Run? && s.agents[step.thread].AtFail? {
      assert Failing(n, step.thread);
    } else if s.mem.failed && s.mem.status != Disconnected {
      var t :| Failing(s, t);
      if t != step.thread { OthersStay(s, step, t); assert Failing(n, t); }
    }
  }

  /** Unless other handlers change the state meanwhile, a failed write leaves the session Disconnected. */
  lemma {:induction false} FailedWriteDisconnects<T>(s: Session<T>, steps: seq<Step<T>>)
    requires Executes(Next, s, steps) && (forall step :: step in steps ==> !step.SetStatus?) && FailureShows(s)
    ensures FailureShows(Result(Next, s, steps))
    decreases |steps|
  {
    hide FailureShows, Next, Enabled;
    if steps == [] {
    } else {
      FailureStep(s, steps[0]);
      FailedWriteDisconnects(Next(s, steps[0]), steps[1..]);
    }
  }

  // ------------------------------------------- the leak can really happen

  lemma StepReaches<T(!new)>(s: Session<T>, step: Step<T>, u: Session<T>)
    requires Enabled(s, step) && Reaches(Next, Next(s, step), u)
    ensures Reaches(Next, s, u)
  {
    ReachesBy(Next, s, step, u);
  }

  /** Thread `t`, next to the threads of `base`, performs its next action and goes on or returns. */
  lemma ActionReaches<T(!new)>(m: Memory<T>, base: map<nat, Pc<T>>, t: nat, pc: Pc<T>, u: Session<T>)
    requires t !in base
    requires var (n, next) := Acted(m, pc); Reaches(Next, Session(n, if next.None? then base else base[t := next.value]), u)
    ensures Reaches(Next, Session(m, base[t := pc]), u)
  {
    var s := Session(m, base[t := pc]);
    var (n, next) := Acted(m, pc);
    assert base[t := pc] - {t} == base;
    assert next.Some? ==> base[t := pc][t := next.value] == base[t := next.value];
    StepReaches(s, Run(t), u);
  }

  /** The memory after the head of the queue was handed to a write. */
  function Sent<T>(m: Memory<T>): Memory<T>
    requires |m.queue| > 0
  {
    m.(queue := m.queue[1..], sending := true, outstanding := m.outstanding + [m.queue[0]],
       written := m.written + [m.queue[0]])
  }

  /** A thread that runs through `Send` undisturbed, with a clear flag, starts the write of the head of the queue. */
  lemma UndisturbedSend<T(!new)>(m: Memory<T>, base: map<nat, Pc<T>>, t: nat, u: Session<T>)
    requires t !in base && |m.queue| > 0 && !m.sending && m.status != Disconnected
    requires Reaches(Next, Session(Sent(m), base), u)
    ensures Reaches(Next, Session(m, base[t := AtConnected]), u)
  {
    var taken := m.(sending := true);
    var popped := taken.(queue := m.queue[1..]);
    assert Acted(popped, AtWrite(m.queue[0])) == (Sent(m), None);
    ActionReaches(popped, base, t, AtWrite(m.queue[0]), u);
    ActionReaches(taken, base, t, AtPop, u);
    ActionReaches(m, base, t, AtTestAndSet, u);
    ActionReaches(m, base, t, AtEmpty, u);
    ActionReaches(m, base, t, AtConnected, u);
  }

  /** A successful completion that runs undisturbed clears the flag and, if there is more, calls `Send` again. */
  lemma UndisturbedCompletion<T(!new)>(m: Memory<T>, base: map<nat, Pc<T>>, t: nat, u: Session<T>)
    requires t !in base && |m.outstanding| == 1
    requires Reaches(Next, Session(m.(outstanding := [], sending := false),
                             if |m.queue| == 0 then base else base[t := AtConnected]), u)
    ensures Reaches(Next, Session(m, base), u)
  {
    var done := m.(outstanding := []);
    ActionReaches(done.(sending := false), base, t, AtRecheck, u);
    ActionReaches(done, base, t, AtClear, u);
    assert m.outstanding[..0] + m.outstanding[1..] == [];
    StepReaches(Session(m, base), Complete(t, 0, true), u);
  }

  // ------------------------------------------ one thread that is left alone

  /** What a call of `Send` amounts to if no other thread acts meanwhile. */
  function SendAlone<T>(m: Memory<T>): Memory<T> {
    if m.status == Disconnected || |m.queue| == 0 || m.sending then m else Sent(m)
  }

  function PushAlone<T>(m: Memory<T>, b: T): Memory<T> {
    SendAlone(m.(queue := m.queue + [b], pushed := m.pushed + [b]))
  }

  function CompleteAlone<T>(m: Memory<T>, ok: bool): Memory<T>
    requires |m.outstanding| == 1
  {
    if ok then SendAlone(m.(outstanding := [], sending := false))
    else m.(outstanding := [], failed := true, status := Disconnected, everDisconnected := true)
  }

  lemma SendAloneReaches<T(!new)>(m: Memory<T>, base: map<nat, Pc<T>>, t: nat, u: Session<T>)
    requires t !in base && Reaches(Next, Session(SendAlone(m), base), u)
    ensures Reaches(Next, Session(m, base[t := AtConnected]), u)
  {
    if m.status == Disconnected {
      ActionReaches(m, base, t, AtConnected, u);
    } else if |m.queue| == 0 || m.sending {
      if |m.queue| > 0 { ActionReaches(m, base, t, AtTestAndSet, u); }
      ActionReaches(m, base, t, AtEmpty, u);
      ActionReaches(m, base, t, AtConnected, u);
    } else {
      UndisturbedSend(m, base, t, u);
    }
  }

  lemma PushesAppend<T(!new)>()
    ensures forall m: Memory<T>, b: T :: PushAlone(m, b).pushed == m.pushed + [b]
  {
  }

  /** On a Disconnected session `PushToSend` leaves the buffer in the queue. */
  lemma DisconnectedPush<T>(m: Memory<T>, b: T)
    requires m.status == Disconnected
    ensures PushAlone(m, b) == m.(queue := m.queue + [b], pushed := m.pushed + [b])
  {
  }

  /** `PushToSend` and the completion handler, each run without interruption, are runs of the protocol. */
  lemma AloneIsARun<T(!new)>(m: Memory<T>, base: map<nat, Pc<T>>, t: nat, b: T, ok: bool)
    requires t !in base
    ensures Reaches(Next, Session(m, base), Session(PushAlone(m, b), base))
    ensures |m.outstanding| == 1 ==> Reaches(Next, Session(m, base), Session(CompleteAlone(m, ok), base))
  {
    hide Reaches, SendAlone;
    ReachesSelf(Next, Session(PushAlone(m, b), base));
    SendAloneReaches(m.(queue := m.queue + [b], pushed := m.pushed + [b]), base, t, Session(PushAlone(m, b), base));
    StepReaches(Session(m, base), Call(t, b), Session(PushAlone(m, b), base));
    if |m.outstanding| == 1 {
      var u := Session(CompleteAlone(m, ok), base);
      ReachesSelf(Next, u);
      CompleteAloneReaches(m, base, t, ok, u);
    }
  }

  lemma CompleteAloneReaches<T(!new)>(m: Memory<T>, base: map<nat, Pc<T>>, t: nat, ok: bool, u: Session<T>)
    requires t !in base && |m.outstanding| == 1 && Reaches(Next, Session(CompleteAlone(m, ok), base), u)
    ensures Reaches(Next, Session(m, base), u)
  {
    hide Reaches;
    var done := m.(outstanding := []);
    if ok {
      if |m.queue| > 0 { SendAloneReaches(done.(sending := false), base, t, u); }
      UndisturbedCompletion(m, base, t, u);
    } else {
      var failed := done.(failed := true);
      ActionReaches(failed.(status := Disconnecting), base, t, AtClose, u);
      ActionReaches(failed, base, t, AtFail, u);
      assert m.outstanding[..0] + m.outstanding[1..] == [];
      StepReaches(Session(m, base), Complete(t, 0, false), u);
    }
  }

  /** A thread enters `PushToSend` and gets as far as the test_and_set, while the queue is not empty. */
  lemma Parks<T(!new)>(m: Memory<T>, t: nat, b: T, u: Session<T>)
    requires m.status != Disconnected
    requires Reaches(Next, Session(m.(queue := m.queue + [b], pushed := m.pushed + [b]), map[t := AtTestAndSet]), u)
    ensures Reaches(Next, Session(m, map[]), u)
  {
    var n := m.(queue := m.queue + [b], pushed := m.pushed + [b]);
    assert forall pc: Pc<T> :: map[][t := pc] == map[t := pc];
    ActionReaches(n, map[], t, AtEmpty, u);
    ActionReaches(n, map[], t, AtConnected, u);
    StepReaches(Session(m, map[]), Call(t, b), u);
  }

  /**
    The branch marked as impossible is reachable on a healthy, connected
    session: while one thread is parked before its test_and_set, another one and
    the completion handlers drain the queue. The parked thread then sets the flag
    and finds nothing to pop. No thread is active, no write is outstanding, the
    flag is set, and by `LeakIsForever` no later push is ever written.
   */
  lemma EmptyPopIsReachable<T(!new)>(a: T, b: T)
    ensures exists u: Session<T> :: Reaches(Next, Initial(), u) && u.mem.pushed == [a, b]
              && u.mem.drained && !u.mem.failed && u.mem.status == Connected && !u.mem.everDisconnected
              && u.agents == map[] && u.mem.outstanding == [] && u.mem.sending
  {
    hide Reaches;
    var parked: map<nat, Pc<T>> := map[0 := AtTestAndSet];
    var m0: Memory<T> := Initial().mem.(status := Connected);
    var m1 := m0.(queue := [a], pushed := [a]);
    var m2 := m0.(queue := [a, b], pushed := [a, b]);
    var m3 := Sent(m2).(outstanding := [], sending := false);
    var m4 := Sent(m3).(outstanding := [], sending := false);
    var u := Session(m4.(sending := true, drained := true), map[]);
    assert m2.queue[1..] == [b] && m3.queue[1..] == [];
    ReachesSelf(Next, u);
    var alone: map<nat, Pc<T>> := map[];
    assert alone[0 := AtTestAndSet] == parked;
    ActionReaches(m4.(sending := true), alone, 0, AtPop, u);
    ActionReaches(m4, alone, 0, AtTestAndSet, u);
    UndisturbedCompletion(Sent(m3), parked, 3, u);
    UndisturbedSend(m3, parked, 2, u);
    UndisturbedCompletion(Sent(m2), parked, 2, u);
    UndisturbedSend(m2, parked, 1, u);
    assert m1.queue + [b] == [a, b] && m1.pushed + [b] == [a, b];
    StepReaches(Session(m1, parked), Call(1, b), u);
    assert m0.queue + [a] == [a] && m0.pushed + [a] == [a];
    Parks(m0, 0, a, u);
    StepReaches(Initial(), SetStatus(Connected), u);
  }
}
