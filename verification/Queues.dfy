/**
  The locked queue (src/shared/utils/ts_queue.hpp) and the double-buffered path
  of packets from the network threads to the game thread.
 */
module Queues {
  import opened Steps
  import opened Options

  /** Every operation holds the lock throughout, so each is one atomic step on `data`. */
  class TSQueue<T(==)> {
    var data: seq<T>

    constructor ()
      ensures data == []
    {
      data := [];
    }

    method Push(value: T)
      modifies this
      ensures data == old(data) + [value]
    {
      data := data + [value];
    }

    method TryPop() returns (value: Option<T>)
      modifies this
      ensures if old(data) == [] then value == None && data == []
              else value == Some(old(data)[0]) && data == old(data)[1..]
    {
      if data == [] {
        return None;
      }
      value := Some(data[0]);
      data := data[1..];
    }

    /** The waiting version, from the moment the condition variable lets it go on. */
    method WaitAndPop() returns (value: T)
      requires data != []
      modifies this
      ensures [value] + data == old(data)
    {
      value := data[0];
      data := data[1..];
    }

    method Empty() returns (empty: bool)
      ensures empty <==> data == []
    {
      empty := data == [];
    }

    method Size() returns (size: nat)
      ensures size == |data|
    {
      size := |data|;
    }
  }

  method TSSwap<T>(lhs: TSQueue<T>, rhs: TSQueue<T>)
    modifies lhs, rhs
    ensures lhs.data == old(rhs.data) && rhs.data == old(lhs.data)
  {
    if lhs == rhs {
      return;
    }
    var tmp := lhs.data;
    lhs.data := rhs.data;
    rhs.data := tmp;
  }

  // ---------------------------------------------------- pushes meet the ticks

  /**
    The inbound queues during a run. `pushed` and `processed` record what was
    pushed and what the game thread has taken out; `mark` is how much had been
    pushed at the last swap.
   */
  datatype Pipeline<T> = Pipeline(
    pushed: seq<T>, mark: nat, processed: seq<T>, gameIn: seq<T>, netIn: seq<T>, draining: bool)

  /** Network threads push at any time; the game thread swaps, pops until empty, and finishes its tick. */
  datatype Step<T> = Push(packet: T) | Swap | Pop | Finish

  predicate Enabled<T>(s: Pipeline<T>, step: Step<T>) {
    match step
    case Push(_) => true
    case Swap => !s.draining
    case Pop => s.draining && |s.gameIn| > 0
    case Finish => s.draining && |s.gameIn| == 0
  }

  function Next<T>(s: Pipeline<T>, step: Step<T>): Pipeline<T>
    requires Enabled(s, step)
  {
    match step
    case Push(p) => s.(pushed := s.pushed + [p], netIn := s.netIn + [p])
    case Swap => s.(gameIn := s.netIn, netIn := s.gameIn, mark := |s.pushed|, draining := true)
    case Pop => s.(processed := s.processed + [s.gameIn[0]], gameIn := s.gameIn[1..])
    case Finish => s.(draining := false)
  }

  function Initial<T>(): Pipeline<T> { Pipeline([], 0, [], [], [], false) }

  /** The game queue is empty whenever no tick is draining it, so a swap never buries a packet. */
  ghost predicate InOrder<T>(s: Pipeline<T>) {
    && s.mark <= |s.pushed|
    && s.processed + s.gameIn == s.pushed[..s.mark]
    && s.netIn == s.pushed[s.mark..]
    && (!s.draining ==> s.gameIn == [])
  }

  lemma StepKeepsOrder<T>(s: Pipeline<T>, step: Step<T>)
    requires InOrder(s) && Enabled(s, step)
    ensures InOrder(Next(s, step))
  {
    var t := Next(s, step);
    match step
    case Push(p) =>
      assert t.pushed[..t.mark] == s.pushed[..s.mark] && t.pushed[t.mark..] == s.pushed[s.mark..] + [p];
    case Swap =>
      assert s.processed == s.pushed[..s.mark];
      assert t.pushed[..t.mark] == s.pushed[..s.mark] + s.pushed[s.mark..];
    case Pop =>
      assert t.processed + t.gameIn == s.processed + s.gameIn;
    case Finish =>
  }

  lemma RunKeepsOrder<T(!new)>(s: Pipeline<T>, steps: seq<Step<T>>)
    requires InOrder(s) && Executes(Next, s, steps)
    ensures InOrder(Result(Next, s, steps))
  {
    hide InOrder, Enabled;
    forall r: Pipeline<T>, a: Step<T> | InOrder(r) && Enabled(r, a) ensures InOrder(Next(r, a)) {
      StepKeepsOrder(r, a);
    }
    ExecutionKeeps(Next, (r: Pipeline<T>) => InOrder(r), s, steps);
  }

  /**
    In every interleaving of pushes with ticks, the packets processed, then the
    game queue, then the network queue are the packets pushed, in push order.
    At the end of a tick everything pushed before its swap has been processed
    and nothing pushed later has.
   */
  lemma PipelineKeepsOrder<T(!new)>(steps: seq<Step<T>>)
    requires Executes(Next, Initial<T>(), steps)
    ensures var t := Result(Next, Initial<T>(), steps);
      && t.processed + t.gameIn + t.netIn == t.pushed
      && t.mark <= |t.pushed| && (!t.draining ==> t.processed == t.pushed[..t.mark])
  {
    RunKeepsOrder(Initial<T>(), steps);
    var t := Result(Next, Initial<T>(), steps);
    assert t.pushed[..t.mark] + t.pushed[t.mark..] == t.pushed;
  }

  function Pops<T>(steps: seq<Step<T>>): nat {
    if steps == [] then 0 else (if steps[0].Pop? then 1 else 0) + Pops(steps[1..])
  }

  /** A drain ends after exactly as many pops as the swap brought packets, however much is pushed meanwhile. */
  lemma {:induction false} DrainTerminates<T>(s: Pipeline<T>, steps: seq<Step<T>>)
    requires InOrder(s) && s.draining && Executes(Next, s, steps)
    requires forall step :: step in steps ==> step.Push? || step.Pop?
    ensures var t := Result(Next, s, steps);
      && Pops(steps) <= |s.gameIn| && |t.gameIn| == |s.gameIn| - Pops(steps) && t.draining && t.mark == s.mark
      && (Enabled(t, Finish) <==> Pops(steps) == |s.gameIn|)
    decreases |steps|
  {
    if steps == [] {
    } else {
      StepKeepsOrder(s, steps[0]);
      DrainTerminates(Next(s, steps[0]), steps[1..]);
    }
  }
}
