/**
  What the server queues, as the world consumes it: tick by tick, the queue cut
  at the swaps. The world uses players that it looks up without a check
  (ProcessInput in src/game/world/world.cpp); here is exactly when that is safe.
 */
module Inbound {
  import opened Options
  import opened Steps
  import opened Protocol
  import opened WorldState
  import opened Lists
  import opened Lifecycle

  function ToInput(e: Queued): Input {
    match e
    case Joined(id) => Input(id, CREATE_PLAYER)
    case Departed(id) => Input(id, REMOVE_PLAYER)
    case Sent(id, opcode) => Input(id, opcode)
  }

  function ToInputs(log: seq<Queued>): (inputs: seq<Input>)
    ensures |inputs| == |log|
  {
    seq(|log|, i requires 0 <= i < |log| => ToInput(log[i]))
  }

  // ------------------------------------------------------------- who is live

  /** The server or the client itself asks for the player of `id`: nothing keeps a client from it. */
  predicate Creates(e: Queued, id: nat) { ToInput(e) == Input(id, CREATE_PLAYER) }
  predicate Removes(e: Queued, id: nat) { ToInput(e) == Input(id, REMOVE_PLAYER) }

  /** Among the first `k` entries a creation of `id` is not followed by a removal. */
  ghost predicate Alive(log: seq<Queued>, k: nat, id: nat)
    requires k <= |log|
  {
    exists i :: 0 <= i < k && Creates(log[i], id) && forall j :: i < j < k ==> !Removes(log[j], id)
  }

  /** Among the first `k` entries a removal of `id` is not followed by a creation. */
  ghost predicate Gone(log: seq<Queued>, k: nat, id: nat)
    requires k <= |log|
  {
    exists i :: 0 <= i < k && Removes(log[i], id) && forall j :: i < j < k ==> !Creates(log[j], id)
  }

  lemma AliveNext(log: seq<Queued>, k: nat, id: nat)
    requires k < |log|
    ensures Alive(log, k + 1, id) <==> Creates(log[k], id) || (Alive(log, k, id) && !Removes(log[k], id))
  {
  }

  lemma GoneNext(log: seq<Queued>, k: nat, id: nat)
    requires k < |log|
    ensures Gone(log, k + 1, id) <==> Removes(log[k], id) || (Gone(log, k, id) && !Creates(log[k], id))
  {
  }

  /** For any queue whatever: the live ids are those with a creation that no removal follows. */
  lemma {:induction false} LiveIsAlive(log: seq<Queued>, k: nat, id: nat)
    requires k <= |log|
    ensures id in LiveAfter({}, ToInputs(log), k) <==> Alive(log, k, id)
  {
    if k == 0 {
    } else {
      LiveIsAlive(log, k - 1, id);
      AliveNext(log, k - 1, id);
    }
  }

  /** An id that was ever created is either alive or gone. */
  lemma {:induction false} AliveOrGone(log: seq<Queued>, k: nat, id: nat)
    requires k <= |log| && exists i :: 0 <= i < k && Creates(log[i], id)
    ensures Alive(log, k, id) <==> !Gone(log, k, id)
  {
    hide Alive, Gone;
    AliveNext(log, k - 1, id);
    GoneNext(log, k - 1, id);
    if Creates(log[k - 1], id) {
    } else {
      AliveOrGone(log, k - 1, id);
    }
  }

  /** A client's packet, other than one that creates or removes, while its player is gone. */
  ghost predicate Orphan(log: seq<Queued>, k: nat) {
    k < |log| && log[k].Sent? && !Reserved(log[k].opcode) && Gone(log, k, log[k].id)
  }

  /** Input `k`, unless it creates or removes, names a player that is live at its turn. */
  predicate Named(live: set<nat>, inputs: seq<Input>, k: nat)
    requires k < |inputs|
  {
    Reserved(inputs[k].opcode) || inputs[k].id in LiveAfter(live, inputs, k)
  }

  lemma NamedUnlessOrphan(log: seq<Queued>, k: nat)
    requires Story(log) && k < |log|
    ensures Named({}, ToInputs(log), k) <==> !Orphan(log, k)
  {
    hide Alive, Gone;
    if log[k].Sent? && !Reserved(log[k].opcode) {
      var id := log[k].id;
      LiveIsAlive(log, k, id);
      var i :| 0 <= i < k && log[..k][i] == Joined(id);
      assert Creates(log[i], id);
      AliveOrGone(log, k, id);
    }
  }

  // ------------------------------------------------------------------- ticks

  /** These batches of inputs, one for each tick, never make the world dereference a null player. */
  ghost predicate TicksSafe(live: set<nat>, batches: seq<seq<Input>>)
    decreases |batches|
  {
    batches == [] ||
    (InputsSafe(live, batches[0]) && TicksSafe(LiveAfter(live, batches[0], |batches[0]|), batches[1..]))
  }

  lemma {:induction false} LivePrefix(live: set<nat>, a: seq<Input>, b: seq<Input>, k: nat)
    requires k <= |a|
    ensures LiveAfter(live, a + b, k) == LiveAfter(live, a, k)
  {
    if k == 0 {
    } else {
      LivePrefix(live, a, b, k - 1);
    }
  }

  lemma {:induction false} LiveConcat(live: set<nat>, a: seq<Input>, b: seq<Input>, k: nat)
    requires k <= |b|
    ensures LiveAfter(live, a + b, |a| + k) == LiveAfter(LiveAfter(live, a, |a|), b, k)
  {
    if k == 0 {
      LivePrefix(live, a, b, |a|);
    } else {
      LiveConcat(live, a, b, k - 1);
    }
  }

  // ------------------------------------------------------------ a given cut

  /**
    Before `end` a creation or removal of the id of input `k` follows, and until
    then nobody is created: the null player is gone before anyone looks at it.
   */
  ghost predicate Mended(inputs: seq<Input>, k: nat, end: nat)
    requires k < |inputs| && end <= |inputs|
  {
    exists j :: k < j < end && inputs[j].id == inputs[k].id && Reserved(inputs[j].opcode) && NoCreation(inputs, k, j)
  }

  ghost predicate NoCreation(inputs: seq<Input>, k: nat, j: nat)
    requires j <= |inputs|
  {
    forall i :: k < i < j ==> inputs[i].opcode != CREATE_PLAYER
  }

  /** Input `k` does no harm in a tick that ends before input `end`. */
  ghost predicate Harmless(live: set<nat>, inputs: seq<Input>, k: nat, end: nat)
    requires k < |inputs| && end <= |inputs|
  {
    Named(live, inputs, k) || (!Steers(inputs[k].opcode) && Mended(inputs, k, end))
  }

  /** Between input `k` and input `n` nobody creates or removes the id of input `k`. */
  ghost predicate Unmended(inputs: seq<Input>, k: nat, n: nat)
    requires k < n <= |inputs|
  {
    forall i :: k < i < n && inputs[i].id == inputs[k].id ==> !Reserved(inputs[i].opcode)
  }

  /** The null players are those that an unnamed input has left behind and that nobody has mended yet. */
  lemma {:induction false} NullsAre(live: set<nat>, inputs: seq<Input>, n: nat, id: nat)
    requires n <= |inputs|
    ensures id in NullsAfter(live, inputs, n) <==>
      exists k :: 0 <= k < n && inputs[k].id == id && !Named(live, inputs, k) && Unmended(inputs, k, n)
  {
    hide LiveAfter;
    if n == 0 {
    } else {
      NullsAre(live, inputs, n - 1, id);
      var last := n - 1;
      forall k | 0 <= k < last && inputs[k].id == id
        ensures Unmended(inputs, k, n) <==>
          Unmended(inputs, k, last) && !(inputs[last].id == id && Reserved(inputs[last].opcode))
      {
      }
      assert Unmended(inputs, last, n);
    }
  }

  /** The first creation or removal of the id of input `k`. */
  lemma {:induction false} FirstMending(inputs: seq<Input>, k: nat, n: nat) returns (j: nat)
    requires k < n <= |inputs| && !Unmended(inputs, k, n)
    ensures k < j < n && inputs[j].id == inputs[k].id && Reserved(inputs[j].opcode) && Unmended(inputs, k, j)
  {
    if Unmended(inputs, k, n - 1) {
      j := n - 1;
    } else {
      j := FirstMending(inputs, k, n - 1);
    }
  }

  lemma SafeIsHarmless(live: set<nat>, inputs: seq<Input>, k: nat)
    requires InputsSafe(live, inputs) && k < |inputs|
    ensures Harmless(live, inputs, k, |inputs|)
  {
    hide LiveAfter, NullsAfter;
    if !Named(live, inputs, k) {
      assert InputSafe(LiveAfter(live, inputs, k), NullsAfter(live, inputs, k), inputs[k]);
      NullsAre(live, inputs, |inputs|, inputs[k].id);
      var j := FirstMending(inputs, k, |inputs|);
      forall i | k < i < j ensures inputs[i].opcode != CREATE_PLAYER {
        NullsAre(live, inputs, i, inputs[k].id);
        assert Unmended(inputs, k, i);
        assert InputSafe(LiveAfter(live, inputs, i), NullsAfter(live, inputs, i), inputs[i]);
      }
      assert NoCreation(inputs, k, j);
    }
  }

  lemma MendedInTime(inputs: seq<Input>, k: nat, n: nat)
    requires k < n <= |inputs| && Mended(inputs, k, |inputs|) && Unmended(inputs, k, n)
    ensures n < |inputs| && (inputs[n].opcode == CREATE_PLAYER ==> inputs[n].id == inputs[k].id)
  {
    var j :| k < j < |inputs| && inputs[j].id == inputs[k].id && Reserved(inputs[j].opcode) && NoCreation(inputs, k, j);
    assert j >= n;
  }

  lemma HarmlessIsSafe(live: set<nat>, inputs: seq<Input>)
    requires forall k :: 0 <= k < |inputs| ==> Harmless(live, inputs, k, |inputs|)
    ensures InputsSafe(live, inputs)
  {
    hide LiveAfter, NullsAfter, Mended, Unmended;
    forall n, id | 0 <= n <= |inputs| && id in NullsAfter(live, inputs, n)
      ensures n < |inputs| && (inputs[n].opcode == CREATE_PLAYER ==> inputs[n].id == id)
    {
      NullsAre(live, inputs, n, id);
      var k :| 0 <= k < n && inputs[k].id == id && !Named(live, inputs, k) && Unmended(inputs, k, n);
      assert Harmless(live, inputs, k, |inputs|);
      MendedInTime(inputs, k, n);
    }
    forall k | 0 <= k < |inputs|
      ensures InputSafe(LiveAfter(live, inputs, k), NullsAfter(live, inputs, k), inputs[k])
    {
      assert Harmless(live, inputs, k, |inputs|);
    }
    assert NullsAfter(live, inputs, |inputs|) == {};
  }

  /** Where the tick that processes input `k` ends. */
  function EndOf(batches: seq<seq<Input>>, k: nat): (end: nat)
    requires k < |Flat(batches)|
    ensures k < end <= |Flat(batches)|
    decreases |batches|
  {
    var n := |batches[0]|;
    if k < n then n else n + EndOf(batches[1..], k - n)
  }

  /** What comes later does not matter to the ticks before it. */
  lemma HarmlessInFirst(live: set<nat>, a: seq<Input>, b: seq<Input>, k: nat, end: nat)
    requires k < end <= |a|
    ensures Harmless(live, a + b, k, end) <==> Harmless(live, a, k, end)
  {
    hide LiveAfter;
    LivePrefix(live, a, b, k);
    var all := a + b;
    forall j | k < j <= |a| ensures NoCreation(all, k, j) <==> NoCreation(a, k, j) {
      assert forall i :: k < i < j ==> all[i] == a[i];
    }
  }

  /** The later ticks are judged by the players that the first one leaves. */
  lemma HarmlessInRest(live: set<nat>, a: seq<Input>, b: seq<Input>, k: nat, end: nat)
    requires k < end <= |b|
    ensures Harmless(live, a + b, |a| + k, |a| + end) <==> Harmless(LiveAfter(live, a, |a|), b, k, end)
  {
    hide LiveAfter;
    LiveConcat(live, a, b, k);
    var all, n := a + b, |a|;
    forall j | k < j <= |b| ensures NoCreation(all, n + k, n + j) <==> NoCreation(b, k, j) {
      assert forall i :: k < i < j ==> all[n + i] == b[i];
      if NoCreation(b, k, j) {
        forall i | n + k < i < n + j ensures all[i].opcode != CREATE_PLAYER { assert all[i] == b[i - n]; }
      }
    }
    if Mended(b, k, end) {
      var j :| k < j < end && b[j].id == b[k].id && Reserved(b[j].opcode) && NoCreation(b, k, j);
      assert all[n + j] == b[j];
    }
    if Mended(all, n + k, n + end) {
      var j :| n + k < j < n + end && all[j].id == all[n + k].id && Reserved(all[j].opcode) && NoCreation(all, n + k, j);
      assert all[j] == b[j - n];
    }
  }

  /** Every input is harmless within its own tick. */
  ghost predicate AllHarmless(live: set<nat>, batches: seq<seq<Input>>) {
    forall k :: 0 <= k < |Flat(batches)| ==> Harmless(live, Flat(batches), k, EndOf(batches, k))
  }

  lemma HarmlessSplits(live: set<nat>, batches: seq<seq<Input>>)
    requires batches != []
    ensures var first := batches[0];
      AllHarmless(live, batches) <==>
        (forall k :: 0 <= k < |first| ==> Harmless(live, first, k, |first|))
        && AllHarmless(LiveAfter(live, first, |first|), batches[1..])
  {
    hide LiveAfter, Harmless;
    var first, rest := batches[0], Flat(batches[1..]);
    var all, n, mid := Flat(batches), |first|, LiveAfter(live, first, |first|);
    assert all == first + rest;
    forall k | 0 <= k < n ensures Harmless(live, all, k, EndOf(batches, k)) <==> Harmless(live, first, k, n) {
      HarmlessInFirst(live, first, rest, k, n);
    }
    forall k | 0 <= k < |rest|
      ensures Harmless(live, all, n + k, EndOf(batches, n + k)) <==> Harmless(mid, rest, k, EndOf(batches[1..], k))
    {
      HarmlessInRest(live, first, rest, k, EndOf(batches[1..], k));
    }
    if AllHarmless(live, batches) {
    } else {
      var k :| 0 <= k < |all| && !Harmless(live, all, k, EndOf(batches, k));
      if k < n {
        assert !Harmless(live, first, k, n);
      } else {
        assert k == n + (k - n);
        assert !Harmless(mid, rest, k - n, EndOf(batches[1..], k - n));
      }
    }
  }

  /** For any cut: the ticks are safe exactly if every input is harmless within its own tick. */
  lemma {:induction false} TicksSafeExactly(live: set<nat>, batches: seq<seq<Input>>)
    ensures TicksSafe(live, batches) <==> AllHarmless(live, batches)
    decreases |batches|
  {
    hide LiveAfter, InputsSafe, Harmless;
    if batches == [] {
    } else {
      hide AllHarmless;
      var first := batches[0];
      TicksSafeExactly(LiveAfter(live, first, |first|), batches[1..]);
      HarmlessSplits(live, batches);
      if InputsSafe(live, first) {
        forall k | 0 <= k < |first| ensures Harmless(live, first, k, |first|) { SafeIsHarmless(live, first, k); }
      } else if forall k :: 0 <= k < |first| ==> Harmless(live, first, k, |first|) {
        HarmlessIsSafe(live, first);
      }
    }
  }

  /** Ticks of one input each. */
  function Singles(inputs: seq<Input>): seq<seq<Input>>
    decreases |inputs|
  {
    if inputs == [] then [] else [[inputs[0]]] + Singles(inputs[1..])
  }

  lemma {:induction false} FlatSingles(inputs: seq<Input>)
    ensures Flat(Singles(inputs)) == inputs
    ensures forall k :: 0 <= k < |inputs| ==> EndOf(Singles(inputs), k) == k + 1
    decreases |inputs|
  {
    if inputs == [] {
    } else {
      FlatSingles(inputs[1..]);
      assert Singles(inputs)[1..] == Singles(inputs[1..]);
    }
  }

  // ---------------------------------------------------------------- theorems

  /** Every orphan that the ticks have processed neither steers nor outlives its tick. */
  ghost predicate OrphansMended(log: seq<Queued>, batches: seq<seq<Input>>)
    requires Flat(batches) <= ToInputs(log)
  {
    forall k :: 0 <= k < |Flat(batches)| && Orphan(log, k) ==>
      !Steers(ToInputs(log)[k].opcode) && Mended(ToInputs(log), k, EndOf(batches, k))
  }

  /** Every cut of the queue into ticks is safe. */
  ghost predicate SafeHoweverCut(inputs: seq<Input>) {
    forall batches :: Flat(batches) == inputs ==> TicksSafe({}, batches)
  }

  /**
    For one given cut, of as much of the queue as the ticks have taken so far: the
    ticks are safe exactly if every orphan in them does not steer and is mended by
    a creation or removal of its id in the same tick, before anyone else is created.
   */
  lemma CutIsSafeExactly(log: seq<Queued>, batches: seq<seq<Input>>)
    requires Story(log) && Flat(batches) <= ToInputs(log)
    ensures TicksSafe({}, batches) <==> OrphansMended(log, batches)
  {
    hide Story, Orphan, TicksSafe, Mended, Flat, ToInputs;
    var inputs, done := ToInputs(log), Flat(batches);
    TicksSafeExactly({}, batches);
    assert inputs == done + inputs[|done|..];
    forall k | 0 <= k < |done|
      ensures Harmless({}, done, k, EndOf(batches, k)) <==>
              (Orphan(log, k) ==> !Steers(inputs[k].opcode) && Mended(inputs, k, EndOf(batches, k)))
    {
      HarmlessInFirst({}, done, inputs[|done|..], k, EndOf(batches, k));
      NamedUnlessOrphan(log, k);
      assert |inputs| == |log|;
    }
  }

  /**
    What the server queues is fit for the world, whenever the ticks may fall,
    exactly if no client packet (other than one that itself creates or removes)
    is queued while the last word on its player is a removal.
   */
  lemma QueueIsSafeUnlessOrphaned(log: seq<Queued>)
    requires Story(log)
    ensures SafeHoweverCut(ToInputs(log)) <==> forall k: nat :: !Orphan(log, k)
  {
    hide Story, Orphan, TicksSafe;
    var inputs := ToInputs(log);
    if SafeHoweverCut(inputs) {
      FlatSingles(inputs);
      CutIsSafeExactly(log, Singles(inputs));
      forall k: nat ensures !Orphan(log, k) { OrphanInQueue(log, k); }
    } else {
      var batches :| Flat(batches) == inputs && !TicksSafe({}, batches);
      CutIsSafeExactly(log, batches);
    }
  }

  lemma OrphanInQueue(log: seq<Queued>, k: nat)
    ensures Orphan(log, k) ==> k < |log| && !Reserved(ToInput(log[k]).opcode)
  {
  }

  /** An orphan that steers is fatal wherever the ticks fall. */
  lemma SteeringOrphanIsFatal(log: seq<Queued>, k: nat, batches: seq<seq<Input>>)
    requires Story(log) && Orphan(log, k) && Steers(log[k].opcode) && Flat(batches) == ToInputs(log)
    ensures !TicksSafe({}, batches)
  {
    hide Story, Orphan, TicksSafe;
    OrphanInQueue(log, k);
    CutIsSafeExactly(log, batches);
  }

  // ----------------------------------------------------- orphans can happen

  /** A failed write closes the session while a read is completing, and what was read is queued after all. */
  lemma StalePacketIsReachable(opcode: nat)
    requires !Reserved(opcode)
    ensures exists t :: Reaches(Next, INITIAL, t) && t.log == [Joined(0), Departed(0), Sent(0, opcode)] && Orphan(t.log, 2)
  {
    hide Reaches, Orphan;
    var s4 := Single(Conn(Running, true, 0), {0}, [0], [Joined(0)]);
    var s5 := Single(Conn(Running, true, 1), {0}, [0], [Joined(0)]);
    var s6 := Single(Conn(Closing, true, 0), {0}, [0], [Joined(0)]);
    var s7 := Single(Conn(Running, true, 0), {}, [0], [Joined(0), Departed(0)]);
    var t := s7.(log := [Joined(0), Departed(0), Sent(0, opcode)]);
    assert Next(s7, ReadDone(0, Some(opcode))) == t;
    ReachesSelf(Next, t);
    ReachesBy(Next, s7, ReadDone(0, Some(opcode)), t);
    assert Next(s6, Close(0)) == s7;
    ReachesBy(Next, s6, Close(0), t);
    assert Next(s5, WriteDone(0, false)) == s6;
    ReachesBy(Next, s5, WriteDone(0, false), t);
    assert Next(s4, WriteStarted(0)) == s5;
    ReachesBy(Next, s4, WriteStarted(0), t);
    ConnectionOpens(t);
    OrphanAfterRemoval(t.log, opcode);
  }

  /** A client with a healthy connection removes its own player, and goes on sending. */
  lemma ClientRemovalIsReachable(opcode: nat)
    requires !Reserved(opcode)
    ensures exists t :: Reaches(Next, INITIAL, t) && t.log == [Joined(0), Sent(0, REMOVE_PLAYER), Sent(0, opcode)]
              && 0 in t.table && Orphan(t.log, 2)
  {
    hide Reaches, Orphan;
    var s4 := Single(Conn(Running, true, 0), {0}, [0], [Joined(0)]);
    var s5 := s4.(log := [Joined(0), Sent(0, REMOVE_PLAYER)]);
    var t := s4.(log := [Joined(0), Sent(0, REMOVE_PLAYER), Sent(0, opcode)]);
    assert Next(s5, ReadDone(0, Some(opcode))) == t;
    ReachesSelf(Next, t);
    ReachesBy(Next, s5, ReadDone(0, Some(opcode)), t);
    assert Next(s4, ReadDone(0, Some(REMOVE_PLAYER))) == s5;
    ReachesBy(Next, s4, ReadDone(0, Some(REMOVE_PLAYER)), t);
    ConnectionOpens(t);
    OrphanAfterRemoval(t.log, opcode);
  }

  lemma OrphanAfterRemoval(log: seq<Queued>, opcode: nat)
    requires |log| == 3 && Removes(log[1], 0) && log[2] == Sent(0, opcode) && !Reserved(opcode)
    ensures Orphan(log, 2)
  {
  }
}
