/**
  The server as a whole: network threads that accept, read, write and close, and
  the game thread that swaps the inbound queue, drains it and ticks, in every
  interleaving. What the parts promise of runs and of queues meets here.
 */
module System {
  import opened Steps
  import opened Lists
  import opened Physics
  import opened Collision
  import opened Protocol
  import opened WorldState
  import opened Runs
  import opened Replication
  import opened Inbound
  import Lifecycle
  import Queues

  /** The sessions, the inbound queues, and the ticks that are over. */
  datatype State = State(net: Lifecycle.State, queue: Queues.Pipeline<Input>, ticks: seq<Event>)

  datatype Step =
    | Net(step: Lifecycle.Step)
    | Swap
    | Pop
    | Finish(dt: real, order: seq<nat>)   // how long the tick was and in what order it updated the players

  /** The inputs of each tick. */
  function Batches(ticks: seq<Event>): seq<seq<Input>> {
    seq(|ticks|, i requires 0 <= i < |ticks| => ticks[i].inputs)
  }

  /** The players that are live once the game thread has processed `inputs`. */
  function LiveNow(inputs: seq<Input>): set<nat> { LiveAfter({}, inputs, |inputs|) }

  ghost predicate Enabled(s: State, step: Step) {
    match step
    case Net(n) => Lifecycle.Enabled(s.net, n)
    case Swap => Queues.Enabled(s.queue, Queues.Swap)
    case Pop => Queues.Enabled(s.queue, Queues.Pop)
    case Finish(dt, order) =>
      Queues.Enabled(s.queue, Queues.Finish) && dt > 0.0 && IsOrder(order, LiveNow(s.queue.processed))
  }

  /** Whatever a handler of the network side adds to its log goes into the inbound queue. */
  function Pushed(queue: Queues.Pipeline<Input>, before: seq<Lifecycle.Queued>, after: seq<Lifecycle.Queued>): Queues.Pipeline<Input> {
    if |after| <= |before| then queue else Queues.Next(queue, Queues.Push(ToInput(after[|before|])))
  }

  /** What the game thread has processed since its last tick ended. */
  function Batch(s: State): seq<Input> {
    var done := |Flat(Batches(s.ticks))|;
    if done <= |s.queue.processed| then s.queue.processed[done..] else []
  }

  ghost function Next(s: State, step: Step): State
    requires Enabled(s, step)
  {
    match step
    case Net(n) =>
      var net := Lifecycle.Next(s.net, n);
      State(net, Pushed(s.queue, s.net.log, net.log), s.ticks)
    case Swap => s.(queue := Queues.Next(s.queue, Queues.Swap))
    case Pop => s.(queue := Queues.Next(s.queue, Queues.Pop))
    case Finish(dt, order) =>
      s.(queue := Queues.Next(s.queue, Queues.Finish), ticks := s.ticks + [Event(dt, Batch(s), order)])
  }

  const INITIAL: State := State(Lifecycle.INITIAL, Queues.Initial(), [])

  // --------------------------------------------------------------- invariant

  /** Every tick has a positive length and updates exactly the players that are live after its inputs. */
  ghost predicate Ticking(live: set<nat>, ticks: seq<Event>)
    decreases |ticks|
  {
    ticks == [] ||
    (var after := LiveAfter(live, ticks[0].inputs, |ticks[0].inputs|);
     ticks[0].dt > 0.0 && IsOrder(ticks[0].order, after) && Ticking(after, ticks[1..]))
  }

  /** The queue carries the log of the sessions, and the ticks have taken it, in order and without a gap. */
  ghost predicate Invariant(s: State) {
    && Lifecycle.Invariant(s.net) && Queues.InOrder(s.queue)
    && s.queue.pushed == ToInputs(s.net.log)
    && Flat(Batches(s.ticks)) <= s.queue.processed
    && (!s.queue.draining ==> Flat(Batches(s.ticks)) == s.queue.processed)
    && Ticking({}, s.ticks)
  }

  lemma {:induction false} TickingGrows(live: set<nat>, ticks: seq<Event>, e: Event)
    requires Ticking(live, ticks) && e.dt > 0.0
    requires var all := Flat(Batches(ticks)) + e.inputs; IsOrder(e.order, LiveAfter(live, all, |all|))
    ensures Ticking(live, ticks + [e])
    decreases |ticks|
  {
    hide LiveAfter, IsOrder;
    if ticks == [] {
      assert (ticks + [e])[1..] == [] && Flat(Batches(ticks)) + e.inputs == e.inputs;
    } else {
      var first, rest := ticks[0].inputs, Flat(Batches(ticks[1..])) + e.inputs;
      assert Batches(ticks)[1..] == Batches(ticks[1..]);
      assert Flat(Batches(ticks)) + e.inputs == first + rest;
      LiveConcat(live, first, rest, |rest|);
      TickingGrows(LiveAfter(live, first, |first|), ticks[1..], e);
      assert (ticks + [e])[1..] == ticks[1..] + [e];
    }
  }

  lemma LogGrows(s: Lifecycle.State, step: Lifecycle.Step)
    requires Lifecycle.Enabled(s, step)
    ensures var log := Lifecycle.Next(s, step).log;
      log == s.log || (|log| == |s.log| + 1 && log == s.log + [log[|s.log|]])
  {
  }

  lemma InputsGrow(log: seq<Lifecycle.Queued>, e: Lifecycle.Queued)
    ensures ToInputs(log + [e]) == ToInputs(log) + [ToInput(e)]
  {
  }

  lemma NetStep(s: State, n: Lifecycle.Step)
    requires Invariant(s) && Lifecycle.Enabled(s.net, n)
    ensures Invariant(Next(s, Net(n)))
  {
    hide Lifecycle.Invariant, Lifecycle.Next, Queues.InOrder, Ticking, ToInputs, Flat;
    Lifecycle.StepKeepsInvariant(s.net, n);
    LogGrows(s.net, n);
    var log := Lifecycle.Next(s.net, n).log;
    if |log| > |s.net.log| {
      var e := log[|s.net.log|];
      InputsGrow(s.net.log, e);
      Queues.StepKeepsOrder(s.queue, Queues.Push(ToInput(e)));
    }
  }

  lemma FinishStep(s: State, dt: real, order: seq<nat>)
    requires Invariant(s) && Enabled(s, Finish(dt, order))
    ensures Invariant(Next(s, Finish(dt, order)))
  {
    hide Lifecycle.Invariant, Queues.InOrder, Ticking, ToInputs, Flat, IsOrder, LiveAfter;
    Queues.StepKeepsOrder(s.queue, Queues.Finish);
    var e := Event(dt, Batch(s), order);
    var done := Flat(Batches(s.ticks));
    assert done + e.inputs == s.queue.processed;
    TickingGrows({}, s.ticks, e);
    assert Batches(s.ticks + [e]) == Batches(s.ticks) + [e.inputs];
    FlatGrows(Batches(s.ticks), e.inputs);
  }

  lemma StepKeepsInvariant(s: State, step: Step)
    requires Invariant(s) && Enabled(s, step)
    ensures Invariant(Next(s, step))
  {
    hide Lifecycle.Invariant, Queues.InOrder, Ticking, ToInputs, Flat, IsOrder, LiveAfter;
    match step
    case Net(n) => NetStep(s, n);
    case Swap => Queues.StepKeepsOrder(s.queue, Queues.Swap);
    case Pop => Queues.StepKeepsOrder(s.queue, Queues.Pop);
    case Finish(dt, order) => FinishStep(s, dt, order);
  }

  lemma InitialInvariant()
    ensures Invariant(INITIAL)
  {
    hide Lifecycle.Invariant;
    Lifecycle.InitialInvariant();
  }

  lemma RunKeepsInvariant(s: State, steps: seq<Step>)
    requires Invariant(s) && Executes(Next, s, steps)
    ensures Invariant(Result(Next, s, steps))
  {
    hide Invariant, Enabled;
    forall r: State, a: Step | Invariant(r) && Enabled(r, a) ensures Invariant(Next(r, a)) {
      StepKeepsInvariant(r, a);
    }
    ExecutionKeeps(Next, (r: State) => Invariant(r), s, steps);
  }

  // ---------------------------------------------------------------- theorems

  /** Ticks over live players are a run of the world exactly if they never dereference a null player. */
  lemma {:induction false} RunIfSafe(c: Config, ps: Players, ticks: seq<Event>)
    requires ValidConfig(c) && Ticking(ps.Keys, ticks)
    ensures IsRun(c, ps, ticks) <==> TicksSafe(ps.Keys, Batches(ticks))
    decreases |ticks|
  {
    hide LiveAfter, InputsSafe, IsOrder, Tick;
    if ticks == [] {
    } else {
      assert Batches(ticks)[1..] == Batches(ticks[1..]);
      if InputsSafe(ps.Keys, ticks[0].inputs) {
        TickKeys(c, ps, ticks[0].inputs, ticks[0].dt);
        RunIfSafe(c, Tick(c, ps, ticks[0].inputs, ticks[0].dt), ticks[1..]);
      }
    }
  }

  /** What the ticks have processed is a part, from its beginning, of what the sessions have queued. */
  lemma TicksTakeTheLog(steps: seq<Step>)
    requires Executes(Next, INITIAL, steps)
    ensures var s := Result(Next, INITIAL, steps);
      Lifecycle.Story(s.net.log) && Ticking({}, s.ticks) && Flat(Batches(s.ticks)) <= ToInputs(s.net.log)
  {
    hide Executes, Result, Lifecycle.ConnInvariant, Lifecycle.Story, Ticking, Flat, ToInputs;
    InitialInvariant();
    RunKeepsInvariant(INITIAL, steps);
    var s := Result(Next, INITIAL, steps);
    assert s.queue.processed <= s.queue.pushed[..s.queue.mark];
  }

  /** No orphan that a tick of the server has processed steers or outlives its tick. */
  ghost predicate Unharmed(steps: seq<Step>)
    requires Executes(Next, INITIAL, steps)
  {
    TicksTakeTheLog(steps);
    OrphansMended(Result(Next, INITIAL, steps).net.log, Batches(Result(Next, INITIAL, steps).ticks))
  }

  /**
    In every interleaving of the whole server: the ticks of the game thread are a
    run of the world from no players at all exactly if every orphan that they have
    processed is mended within its tick. So everything proved of runs holds of the
    server, up to the first tick in which the code dereferences a null player.
   */
  lemma ServerIsARun(steps: seq<Step>, c: Config)
    requires Executes(Next, INITIAL, steps) && ValidConfig(c)
    ensures IsRun(c, map[], Result(Next, INITIAL, steps).ticks) <==> Unharmed(steps)
    ensures var s := Result(Next, INITIAL, steps);
      (forall k: nat :: k < |Flat(Batches(s.ticks))| ==> !Orphan(s.net.log, k)) ==> Unharmed(steps)
  {
    hide Executes, Result, Orphan, IsRun, Lifecycle.Story, Ticking, TicksSafe, Flat, ToInputs;
    TicksTakeTheLog(steps);
    var s := Result(Next, INITIAL, steps);
    CutIsSafeExactly(s.net.log, Batches(s.ticks));
    var nobody: Players := map[];
    assert nobody.Keys == {};
    RunIfSafe(c, nobody, s.ticks);
  }

  /** No player of the server is ever inside a solid tile, at the end of a tick or on its way. */
  lemma ServerNeverPenetrates(steps: seq<Step>, c: Config, k: nat)
    requires Executes(Next, INITIAL, steps) && ValidConfig(c) && SpawnFree(c)
    requires Unharmed(steps)
    requires k <= |Result(Next, INITIAL, steps).ticks|
    ensures var ticks := Result(Next, INITIAL, steps).ticks;
      && IsRun(c, map[], ticks)
      && (var qs := After(c, map[], ticks, k); forall id :: id in qs ==> Free(LevelOf(c), qs[id].Body()))
      && (k < |ticks| ==> var qs := AtMove(c, map[], ticks, k);
            forall id :: id in qs ==> PathFree(LevelOf(c), qs[id], Moved(LevelOf(c), qs[id])))
  {
    hide Executes, Result, Unharmed, IsRun, After, AtMove, LevelOf, Free, PathFree, Moved;
    ServerIsARun(steps, c);
    RunNeverPenetrates(c, map[], Result(Next, INITIAL, steps).ticks, k);
  }

  /** Every client of the server whose player is live sees the world, at the end of every tick. */
  lemma ServerIsReplicated(steps: seq<Step>, c: Config, k: nat, client: nat)
    requires Executes(Next, INITIAL, steps) && ValidConfig(c)
    requires Unharmed(steps)
    requires k <= |Result(Next, INITIAL, steps).ticks|
    ensures var ticks := Result(Next, INITIAL, steps).ticks;
      && IsRun(c, map[], ticks)
      && (var qs := After(c, map[], ticks, k);
          client in qs ==> Fold(map[], Log(c, map[], ticks, k), client) == Entries(qs))
  {
    hide Executes, Result, Unharmed, IsRun, After, Log, Fold;
    ServerIsARun(steps, c);
    ClientSeesWorld(c, map[], Result(Next, INITIAL, steps).ticks, k, client);
  }
}
