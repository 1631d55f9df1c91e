/**
  What holds in every run of the game loop, for any number of players, any
  inputs and any tick lengths (src/game/world/world.cpp).
 */
module Runs {
  import opened Collision
  import opened Physics
  import opened Motion
  import opened Border
  import opened Protocol
  import opened WorldState

  /** The start position of the configuration lies outside every solid tile. */
  ghost predicate SpawnFree(c: Config)
    requires c.gridX > 0
  {
    Free(LevelOf(c), NewPlayer(c, 0).Body())
  }

  /**
    No penetration and no tunnelling, in any run: at every tick boundary every
    player is outside all solid tiles, and so is every point of the path that
    every move of the run takes.
   */
  lemma RunNeverPenetrates(c: Config, ps: Players, events: seq<Event>, k: nat)
    requires ValidConfig(c) && IsRun(c, ps, events) && k <= |events| && SpawnFree(c)
    requires forall id :: id in ps ==> ps[id].Sized() && Free(LevelOf(c), ps[id].Body())
    ensures var lv, qs := LevelOf(c), After(c, ps, events, k); forall id :: id in qs ==> Free(lv, qs[id].Body())
    ensures k < |events| ==>
      var lv, qs := LevelOf(c), AtMove(c, ps, events, k); forall id :: id in qs ==> PathFree(lv, qs[id], Moved(lv, qs[id]))
  {
    hide ValidLevel, Free, PathFree, Moved, BeforeMove, Tick, IsRun, After, AtMove, LevelOf;
    var lv := LevelOf(c);
    LevelIsValid(c);
    HasGrid(lv);
    var P: Prop := (p: PlayerState) => p.Sized() && Free(lv, p.Body());
    var B: Prop := (p: PlayerState) => PathFree(lv, p, Moved(lv, p));
    var D: Lengths := (dt: real) => true;
    forall p: PlayerState, own: seq<nat>, dt: real | P(p) && dt > 0.0
      ensures P(PlayerTick(lv, p, own, dt)) && B(BeforeMove(p, own, dt))
    {
      TickNeverPenetrates(lv, p, own, dt);
    }
    forall id: nat ensures P(NewPlayer(c, id)) {
      assert NewPlayer(c, id).Body() == NewPlayer(c, 0).Body();
    }
    RunPreserves(c, ps, events, k, P, B, D);
  }

  /**
    And every tick of every run takes every player as far as it can: what the
    player last asked for decides on 100 dt to a side, an accepted jump lifts it by
    400 dt, gravity pulls it down by 9.8 dt, sideways first, and each leg goes the
    whole way where that is free and else up to a tile in the way. A player that
    the tick creates starts from the configured place.
   */
  lemma RunGoesFar(c: Config, ps: Players, events: seq<Event>, k: nat, id: nat)
    requires ValidConfig(c) && IsRun(c, ps, events) && k < |events| && SpawnFree(c) && AllFree(c, ps)
    requires id in After(c, ps, events, k + 1)
    ensures var e := events[k];
      var p, own := StartOf(c, After(c, ps, events, k), e.inputs, id), OwnOpcodes(e.inputs, id, |e.inputs|);
      var velX := Heading(own) as real * (100.0 * e.dt);
      var velY := (if p.onGround && 0x0014 in own then -400.0 * e.dt else p.velY) + 9.8 * e.dt;
      GoesFar(LevelOf(c), p, velX, velY, p.onGround && 0x0014 !in own, After(c, ps, events, k + 1)[id])
  {
    hide AllFree, SpawnFree, GoesFar, PlayerTick, Tick, IsRun, After, LevelOf, StartOf, InputsSafe, EventValid, OwnOpcodes;
    var lv := LevelOf(c);
    LevelIsValid(c);
    HasGrid(lv);
    RunStaysFree(c, ps, events, k);
    AfterNext(c, ps, events, k);
    var qs, e := After(c, ps, events, k), events[k];
    EventLength(qs.Keys, e);
    TickIsPlayerTick(c, qs, e.inputs, e.dt, id);
    StartIsFree(c, qs, e.inputs, id);
    var p, own := StartOf(c, qs, e.inputs, id), OwnOpcodes(e.inputs, id, |e.inputs|);
    TickGoesFar(lv, p, own, e.dt);
  }

  ghost predicate AllFree(c: Config, ps: Players)
    requires c.gridX > 0
  {
    forall id :: id in ps ==> ps[id].Sized() && Free(LevelOf(c), ps[id].Body())
  }

  lemma EventLength(live: set<nat>, e: Event)
    requires EventValid(live, e)
    ensures e.dt > 0.0 && InputsSafe(live, e.inputs)
  {
  }

  lemma StartIsFree(c: Config, ps: Players, inputs: seq<Input>, id: nat)
    requires ValidConfig(c) && SpawnFree(c) && AllFree(c, ps)
    ensures StartOf(c, ps, inputs, id).Sized() && Free(LevelOf(c), StartOf(c, ps, inputs, id).Body())
  {
    hide Free;
    assert NewPlayer(c, id).Body() == NewPlayer(c, 0).Body();
  }

  lemma RunStaysFree(c: Config, ps: Players, events: seq<Event>, k: nat)
    requires ValidConfig(c) && IsRun(c, ps, events) && k <= |events| && SpawnFree(c) && AllFree(c, ps)
    ensures AllFree(c, After(c, ps, events, k))
  {
    hide ValidLevel, Free, PathFree, Moved, BeforeMove, Tick, IsRun, After, PlayerTick, LevelOf;
    var lv := LevelOf(c);
    LevelIsValid(c);
    HasGrid(lv);
    var P: Prop := (p: PlayerState) => p.Sized() && Free(lv, p.Body());
    var B: Prop := (p: PlayerState) => true;
    var D: Lengths := (dt: real) => true;
    forall p: PlayerState, own: seq<nat>, dt: real | P(p) && dt > 0.0
      ensures P(PlayerTick(lv, p, own, dt))
    {
      TickNeverPenetrates(lv, p, own, dt);
    }
    forall d: nat ensures P(NewPlayer(c, d)) {
      assert NewPlayer(c, d).Body() == NewPlayer(c, 0).Body();
    }
    RunPreserves(c, ps, events, k, P, B, D);
  }

  lemma TickNeverPenetrates(lv: Level, p: PlayerState, own: seq<nat>, dt: real)
    requires ValidLevel(lv) && p.Sized() && Free(lv, p.Body())
    ensures var b, q := BeforeMove(p, own, dt), PlayerTick(lv, p, own, dt);
      PathFree(lv, b, q) && q == Moved(lv, b) && q.Sized() && Free(lv, q.Body())
  {
    hide ValidLevel, Free, PathFree, Moved, SteerAll;
    HasGrid(lv);
    SteeredGround(p.(velX := 0.0), own, dt);
    MoveNeverPenetrates(lv, BeforeMove(p, own, dt));
  }

  /**
    Inside a closed ring of solid tiles, with no tick longer than tile / 390.2:
    every player stays inside the ring for ever, upward velocity never exceeds one
    tile, and every double that the broad phase converts to an unsigned integer is
    in range. `Witnesses.TickLimitExactly` shows that no greater limit would do.
   */
  lemma RunStaysContained(c: Config, ps: Players, events: seq<Event>, k: nat)
    requires ValidConfig(c) && IsRun(c, ps, events) && k <= |events|
    requires Bordered(LevelOf(c)) && Enclosed(LevelOf(c), NewPlayer(c, 0).Body())
    requires forall id :: id in ps ==> Contained(LevelOf(c), ps[id])
    requires forall e :: e in events ==> e.dt <= c.tile as real / 390.2
    ensures var lv, qs := LevelOf(c), After(c, ps, events, k); forall id :: id in qs ==> Contained(lv, qs[id])
    ensures k < |events| ==>
      var lv, qs := LevelOf(c), AtMove(c, ps, events, k); forall id :: id in qs ==> MoveCastsDefined(lv, qs[id])
  {
    hide ValidLevel, Enclosed, MoveCastsDefined, Moved, BeforeMove, Tick, IsRun, After, AtMove, PlayerTick;
    var lv := LevelOf(c);
    LevelIsValid(c);
    HasGrid(lv);
    var P: Prop := (p: PlayerState) => Contained(lv, p);
    var B: Prop := (p: PlayerState) => MoveCastsDefined(lv, p);
    var D: Lengths := (dt: real) => dt <= lv.tile / 390.2;
    forall p: PlayerState, own: seq<nat>, dt: real | P(p) && dt > 0.0 && D(dt)
      ensures P(PlayerTick(lv, p, own, dt)) && B(BeforeMove(p, own, dt))
    {
      TickStaysContained(lv, p, own, dt);
    }
    forall id: nat ensures P(NewPlayer(c, id)) {
      assert NewPlayer(c, id).Body() == NewPlayer(c, 0).Body();
      Scales(0.0, lv.gridY as real, lv.tile);
    }
    RunPreserves(c, ps, events, k, P, B, D);
  }

  /**
    The ground flag means what it says in every run: no vertical velocity and
    exact contact with a solid tile that overlaps the player in x. The tile is a
    floor, unless the last vertical move was upward and stopped at time 0.
   */
  lemma RunKeepsGround(c: Config, ps: Players, events: seq<Event>, k: nat)
    requires ValidConfig(c) && IsRun(c, ps, events) && k <= |events|
    requires forall id :: id in ps ==> ps[id].Sized() && GroundedProperly(LevelOf(c), ps[id])
    ensures var lv, qs := LevelOf(c), After(c, ps, events, k); forall id :: id in qs ==> GroundedProperly(lv, qs[id])
    ensures k < |events| ==>
      var lv, qs := LevelOf(c), AtMove(c, ps, events, k); forall id :: id in qs ==> GroundCause(lv, qs[id])
  {
    hide ValidLevel, GroundCause, Moved, BeforeMove, Tick, IsRun, After, AtMove, PlayerTick, LevelOf;
    var lv := LevelOf(c);
    LevelIsValid(c);
    HasGrid(lv);
    var P: Prop := (p: PlayerState) => p.Sized() && GroundedProperly(lv, p);
    var B: Prop := (p: PlayerState) => GroundCause(lv, p);
    var D: Lengths := (dt: real) => true;
    forall p: PlayerState, own: seq<nat>, dt: real | P(p) && dt > 0.0
      ensures P(PlayerTick(lv, p, own, dt)) && B(BeforeMove(p, own, dt))
    {
      TickKeepsGround(lv, p, own, dt);
    }
    RunPreserves(c, ps, events, k, P, B, D);
  }

  // ------------------------------------------------------------- jump height

  /** The opcodes that player `id` sends in each tick. */
  ghost function OwnInputs(events: seq<Event>, id: nat): seq<seq<nat>> {
    seq(|events|, i requires 0 <= i < |events| => OwnOpcodes(events[i].inputs, id, |events[i].inputs|))
  }

  /** None of the first `k` ticks creates or removes player `id`. */
  ghost predicate Stays(events: seq<Event>, id: nat, k: nat)
    requires k <= |events|
  {
    forall i, j :: 0 <= i < k && 0 <= j < |events[i].inputs| && events[i].inputs[j].id == id ==>
      !Reserved(events[i].inputs[j].opcode)
  }

  lemma {:induction false} StaysLive(live: set<nat>, inputs: seq<Input>, id: nat, n: nat)
    requires n <= |inputs| && Undisturbed(live, inputs, id, n)
    ensures id in LiveAfter(live, inputs, n)
  {
    if n == 0 {
    } else {
      StaysLive(live, inputs, id, n - 1);
    }
  }

  /** In a run of equal ticks an undisturbed player moves as it would alone. */
  lemma {:induction false} RunIsPlayerRun(c: Config, ps: Players, events: seq<Event>, id: nat, dt: real, k: nat)
    requires ValidConfig(c) && IsRun(c, ps, events) && k <= |events|
    requires id in ps && Stays(events, id, k) && forall i :: 0 <= i < k ==> events[i].dt == dt
    ensures LevelOf(c).tile > 0.0 && id in After(c, ps, events, k)
    ensures After(c, ps, events, k)[id] == PlayerRun(LevelOf(c), ps[id], OwnInputs(events, id), dt, k)
  {
    hide LevelOf, IsRun, Tick, PlayerTick, LiveAfter, InputsSafe, OwnOpcodes, ValidLevel;
    LevelIsValid(c);
    HasGrid(LevelOf(c));
    if k == 0 {
    } else {
      RunIsPlayerRun(c, ps, events, id, dt, k - 1);
      AfterNext(c, ps, events, k - 1);
      var qs, e := After(c, ps, events, k - 1), events[k - 1];
      assert Undisturbed(qs.Keys, e.inputs, id, |e.inputs|);
      StaysLive(qs.Keys, e.inputs, id, |e.inputs|);
      TickKeys(c, qs, e.inputs, e.dt);
      TickIsPlayerTick(c, qs, e.inputs, e.dt, id);
    }
  }

  lemma TickKeys(c: Config, ps: Players, inputs: seq<Input>, dt: real)
    requires ValidConfig(c) && InputsSafe(ps.Keys, inputs)
    ensures Tick(c, ps, inputs, dt).Keys == LiveAfter(ps.Keys, inputs, |inputs|)
  {
  }

  /**
    In every run with ticks of one length: from an accepted jump to the next, a
    player is never more than 7964 dt above its take-off height.
   */
  lemma RunJumpHeight(c: Config, ps: Players, events: seq<Event>, id: nat, dt: real, k: nat)
    requires ValidConfig(c) && IsRun(c, ps, events) && 1 <= k <= |events|
    requires id in ps && ps[id].Sized() && Stays(events, id, k)
    requires forall i :: 0 <= i < k ==> events[i].dt == dt
    requires JumpAccepted(ps[id], OwnInputs(events, id)[0])
    requires forall i :: 1 <= i < k && id in After(c, ps, events, i) ==>
               !JumpAccepted(After(c, ps, events, i)[id], OwnInputs(events, id)[i])
    ensures id in After(c, ps, events, k)
    ensures After(c, ps, events, k)[id].y >= ps[id].y - 7964.0 * dt
  {
    hide IsRun, After, PlayerTick, LevelOf;
    LevelIsValid(c);
    HasGrid(LevelOf(c));
    AfterNext(c, ps, events, 0);
    forall i | 0 <= i <= k
      ensures id in After(c, ps, events, i)
      ensures After(c, ps, events, i)[id] == PlayerRun(LevelOf(c), ps[id], OwnInputs(events, id), dt, i)
    {
      RunIsPlayerRun(c, ps, events, id, dt, i);
    }
    JumpHeight(LevelOf(c), ps[id], OwnInputs(events, id), dt, k);
  }
}
