/**
  One player: steering, gravity and the X-then-Y move against the level
  (Player in src/game/player/player.cpp, ProcessInput, Update and MovePlayer in
  src/game/world/world.cpp).
 */
module Physics {
  import opened SweptMath
  import opened Collision
  import opened Protocol

  datatype PlayerState = PlayerState(
    id: nat, x: real, y: real, velX: real, velY: real, width: real, height: real, onGround: bool)
  {
    function Body(): Box { Box(x, y, width, height) }
    predicate Sized() { width > 0.0 && height > 0.0 }
  }

  const SPEED := 100.0
  const JUMP_FORCE := 400.0
  const GRAVITY := 9.8

  /** The effect of one steering opcode; any other opcode leaves the player alone. */
  function Steer(p: PlayerState, opcode: nat, dt: real): PlayerState {
    if opcode == MOVE_LEFT then p.(velX := -(SPEED * dt))
    else if opcode == MOVE_RIGHT then p.(velX := SPEED * dt)
    else if opcode == JUMP && p.onGround then p.(velY := -(JUMP_FORCE * dt), onGround := false)
    else p
  }

  function SteerAll(p: PlayerState, opcodes: seq<nat>, dt: real): PlayerState {
    if opcodes == [] then p else Steer(SteerAll(p, opcodes[..|opcodes| - 1], dt), opcodes[|opcodes| - 1], dt)
  }

  function Accelerated(p: PlayerState, dt: real): PlayerState { p.(velY := p.velY + GRAVITY * dt) }

  /** How far a velocity carries in a part of the tick. */
  function Scaled(vel: real, t: real): real { vel * t }

  /** The horizontal leg, with the scaled velocity that the code keeps in a local variable. */
  function MovedX(lv: Level, p: PlayerState): (PlayerState, real)
    requires lv.tile > 0.0 && lv.gridX > 0
  {
    if p.velX == 0.0 then (p, p.velX) else
    var s := Swept(lv, p.Body(), p.velX, 0.0);
    var dx := Scaled(p.velX, s.entryTime);
    (p.(x := p.x + dx, velX := if s.hit then 0.0 else p.velX), dx)
  }

  /** The vertical leg; a hit restores the scaled horizontal velocity `dx` and clears the vertical one. */
  function MovedY(lv: Level, p: PlayerState, dx: real): PlayerState
    requires lv.tile > 0.0 && lv.gridX > 0
  {
    if p.velY == 0.0 then p else
    var s := Swept(lv, p.Body(), 0.0, p.velY);
    var dy := Scaled(p.velY, s.entryTime);
    var q := p.(y := p.y + dy, onGround := s.hit && dy >= 0.0);
    if s.hit then q.(velX := dx, velY := 0.0) else q
  }

  function Moved(lv: Level, p: PlayerState): PlayerState
    requires lv.tile > 0.0 && lv.gridX > 0
  {
    var (q, dx) := MovedX(lv, p);
    MovedY(lv, q, dx)
  }

  /** The player as a tick hands it to the move: stopped, steered by its inputs, pulled down. */
  function BeforeMove(p: PlayerState, opcodes: seq<nat>, dt: real): PlayerState {
    Accelerated(SteerAll(p.(velX := 0.0), opcodes, dt), dt)
  }

  function PlayerTick(lv: Level, p: PlayerState, opcodes: seq<nat>, dt: real): PlayerState
    requires lv.tile > 0.0 && lv.gridX > 0
  {
    Moved(lv, BeforeMove(p, opcodes, dt))
  }

  // ---------------------------------------------------------- no penetration

  /** Every point of the horizontal and then the vertical stretch from `p` to `q` is free. */
  ghost predicate PathFree(lv: Level, p: PlayerState, q: PlayerState) {
    && FreeUntil(lv, p.Body(), q.x - p.x, 0.0, 1.0)
    && FreeUntil(lv, p.Body().(x := q.x), 0.0, q.y - p.y, 1.0)
  }

  lemma Associates(a: real, b: real, c: real)
    ensures a * b * c == a * (b * c)
  {
  }

  /** A part of the displacement is reached at the same part of the time. */
  lemma SamePoint(box: Box, velX: real, velY: real, t: real, s: real, dx: real, dy: real)
    requires 0.0 <= t && 0.0 <= s <= 1.0 && dx == velX * t && dy == velY * t
    ensures 0.0 <= t * s <= t && At(box, dx, dy, s) == At(box, velX, velY, t * s)
  {
    ScaledDown(t, s);
    assert dx * s == velX * (t * s) by { Associates(velX, t, s); }
    assert dy * s == velY * (t * s) by { Associates(velY, t, s); }
  }

  /** The stretch covered up to the entry time is the whole displacement. */
  lemma FreeAlongDisplacement(lv: Level, box: Box, velX: real, velY: real, t: real, dx: real, dy: real)
    requires 0.0 <= t && dx == velX * t && dy == velY * t
    requires FreeUntil(lv, box, velX, velY, t)
    ensures FreeUntil(lv, box, dx, dy, 1.0)
    ensures Free(lv, At(box, velX, velY, t))
  {
    hide Free, At;
    forall s: real | 0.0 <= s <= 1.0 ensures Free(lv, At(box, dx, dy, s)) {
      SamePoint(box, velX, velY, t, s, dx, dy);
    }
  }

  lemma StillPathFree(lv: Level, box: Box)
    requires Free(lv, box)
    ensures FreeUntil(lv, box, 0.0, 0.0, 1.0)
  {
    forall s: real | 0.0 <= s <= 1.0 ensures Free(lv, At(box, 0.0, 0.0, s)) {
      assert At(box, 0.0, 0.0, s) == box;
    }
  }

  lemma MovedXIsFree(lv: Level, p: PlayerState)
    requires ValidLevel(lv) && p.Sized() && Free(lv, p.Body())
    ensures var q := MovedX(lv, p).0;
      FreeUntil(lv, p.Body(), q.x - p.x, 0.0, 1.0) && Free(lv, q.Body())
      && q.y == p.y && q.velY == p.velY && q.Sized() && q.onGround == p.onGround
  {
    hide ValidLevel, Swept, Free, FreeUntil;
    HasGrid(lv);
    var q := MovedX(lv, p).0;
    if p.velX == 0.0 {
      StillPathFree(lv, p.Body());
    } else {
      var t := Swept(lv, p.Body(), p.velX, 0.0).entryTime;
      SweptIsGreatestFreeTime(lv, p.Body(), p.velX, 0.0);
      FreeAlongDisplacement(lv, p.Body(), p.velX, 0.0, t, q.x - p.x, 0.0);
      assert q.Body() == At(p.Body(), p.velX, 0.0, t);
    }
  }

  lemma MovedYIsFree(lv: Level, p: PlayerState, dx: real)
    requires ValidLevel(lv) && p.Sized() && Free(lv, p.Body())
    ensures var q := MovedY(lv, p, dx);
      FreeUntil(lv, p.Body(), 0.0, q.y - p.y, 1.0) && Free(lv, q.Body()) && q.x == p.x && q.Sized()
  {
    hide ValidLevel, Swept, Free, FreeUntil;
    HasGrid(lv);
    var q := MovedY(lv, p, dx);
    if p.velY == 0.0 {
      StillPathFree(lv, p.Body());
    } else {
      var t := Swept(lv, p.Body(), 0.0, p.velY).entryTime;
      SweptIsGreatestFreeTime(lv, p.Body(), 0.0, p.velY);
      FreeAlongDisplacement(lv, p.Body(), 0.0, p.velY, t, 0.0, q.y - p.y);
      assert q.Body() == At(p.Body(), 0.0, p.velY, t);
    }
  }

  /** A move that starts free is free at every point of its path and at its end, at any speed. */
  lemma MoveNeverPenetrates(lv: Level, p: PlayerState)
    requires ValidLevel(lv) && p.Sized() && Free(lv, p.Body())
    ensures PathFree(lv, p, Moved(lv, p)) && Free(lv, Moved(lv, p).Body()) && Moved(lv, p).Sized()
  {
    var (q, dx) := MovedX(lv, p);
    MovedXIsFree(lv, p);
    MovedYIsFree(lv, q, dx);
    assert q.Body() == p.Body().(x := Moved(lv, p).x);
  }

  // ------------------------------------------------------------- on ground

  /** A horizontal face of tile `i` touches the player: its top (`floor`) or its bottom face. */
  ghost predicate Contact(lv: Level, p: PlayerState, i: nat, floor: bool) {
    && i < |lv.tiles| && lv.tiles[i].Solid?
    && var b := lv.tiles[i].box;
       && p.x < b.Right() && b.x < p.x + p.width
       && (if floor then p.y + p.height == b.y else p.y == b.Bottom())
  }

  /** On the ground means: no vertical velocity and exact contact with a solid tile. */
  ghost predicate GroundedProperly(lv: Level, p: PlayerState) {
    p.onGround ==> p.velY == 0.0 && exists i: nat, floor: bool :: Contact(lv, p, i, floor)
  }

  lemma VerticalHitTouches(a: Box, b: Box, velY: real)
    requires SweptAABB(a, b, 0.0, velY).hit
    ensures var t := SweptAABB(a, b, 0.0, velY).entryTime;
      && velY != 0.0 && a.x < b.Right() && b.x < a.Right()
      && (velY > 0.0 ==> a.Bottom() + velY * t == b.y)
      && (velY < 0.0 ==> a.y + velY * t == b.Bottom())
  {
  }

  /**
    The ground flag after a vertical leg: set exactly on a hit that either came
    from a downward move or stopped an upward move at time 0. In the first case
    the player stands on a floor, in the second it hangs from a ceiling.
   */
  lemma GroundAfterY(lv: Level, p: PlayerState, dx: real)
    requires ValidLevel(lv) && p.Sized() && p.velY != 0.0
    ensures var q, s := MovedY(lv, p, dx), Swept(lv, p.Body(), 0.0, p.velY);
      var down := p.velY > 0.0;
      && (q.onGround <==> s.hit && (down || s.entryTime == 0.0))
      && (q.onGround ==> q.velY == 0.0 && exists i: nat :: Contact(lv, q, i, down))
  {
    hide ValidLevel, Swept, SweptAABB;
    HasGrid(lv);
    var q, s := MovedY(lv, p, dx), Swept(lv, p.Body(), 0.0, p.velY);
    SweptFacts(lv, p.Body(), 0.0, p.velY);
    if s.hit {
      var i :| 0 <= i < |lv.tiles| && lv.tiles[i].Solid? && s == SweptAABB(p.Body(), lv.tiles[i].box, 0.0, p.velY);
      VerticalHitTouches(p.Body(), lv.tiles[i].box, p.velY);
      assert Contact(lv, q, i, p.velY > 0.0);
    }
  }

  lemma {:induction false} SteeredGround(p: PlayerState, opcodes: seq<nat>, dt: real)
    ensures var q := SteerAll(p, opcodes, dt);
      && q == p.(velX := q.velX, velY := q.velY, onGround := q.onGround)
      && (q.onGround ==> p.onGround && q.velY == p.velY)
      && q.velX in {p.velX, SPEED * dt, -(SPEED * dt)}
      && (if p.onGround && JUMP in opcodes then q.velY == -(JUMP_FORCE * dt) && !q.onGround
          else q.velY == p.velY && q.onGround == p.onGround)
  {
    if opcodes == [] {
    } else {
      var n := |opcodes| - 1;
      SteeredGround(p, opcodes[..n], dt);
      assert opcodes == opcodes[..n] + [opcodes[n]];
    }
  }

  /** A move ends on the ground only by landing on a floor, or by pushing at once against a ceiling. */
  ghost predicate GroundCause(lv: Level, p: PlayerState)
    requires lv.tile > 0.0 && lv.gridX > 0
  {
    var q, r := MovedX(lv, p).0, Moved(lv, p);
    r.onGround ==>
      if p.velY > 0.0 then exists i: nat :: Contact(lv, r, i, true)
      else p.velY < 0.0 && Swept(lv, q.Body(), 0.0, p.velY).entryTime == 0.0 && exists i: nat :: Contact(lv, r, i, false)
  }

  /** Every tick keeps the ground flag honest. */
  lemma TickKeepsGround(lv: Level, p: PlayerState, opcodes: seq<nat>, dt: real)
    requires ValidLevel(lv) && p.Sized() && dt > 0.0 && GroundedProperly(lv, p)
    ensures PlayerTick(lv, p, opcodes, dt).Sized() && GroundedProperly(lv, PlayerTick(lv, p, opcodes, dt))
    ensures GroundCause(lv, BeforeMove(p, opcodes, dt))
  {
    hide ValidLevel, Swept, SteerAll, Contact;
    HasGrid(lv);
    SteeredGround(p.(velX := 0.0), opcodes, dt);
    var (q, dx) := MovedX(lv, BeforeMove(p, opcodes, dt));
    if q.velY != 0.0 {
      GroundAfterY(lv, q, dx);
    }
  }

  // ---------------------------------------------------------------- steering

  /** The side that the last walking opcode of a tick asks for: -1, 0 or 1. */
  function Heading(opcodes: seq<nat>): int {
    if opcodes == [] then 0 else
    var last := opcodes[|opcodes| - 1];
    if last == MOVE_LEFT then -1 else if last == MOVE_RIGHT then 1 else Heading(opcodes[..|opcodes| - 1])
  }

  lemma {:induction false} SteeredVelocity(p: PlayerState, opcodes: seq<nat>, dt: real)
    requires p.velX == 0.0
    ensures SteerAll(p, opcodes, dt).velX == Heading(opcodes) as real * (SPEED * dt)
  {
    if opcodes == [] {
    } else {
      SteeredVelocity(p, opcodes[..|opcodes| - 1], dt);
    }
  }

  /** Walking: a tick moves a player sideways only to the side it last asked for, and by at most 100 dt. */
  lemma TickWalks(lv: Level, p: PlayerState, opcodes: seq<nat>, dt: real)
    requires ValidLevel(lv) && p.Sized() && dt > 0.0
    ensures var q := PlayerTick(lv, p, opcodes, dt);
      && (Heading(opcodes) == 0 ==> q.x == p.x)
      && (Heading(opcodes) == -1 ==> p.x - SPEED * dt <= q.x <= p.x)
      && (Heading(opcodes) == 1 ==> p.x <= q.x <= p.x + SPEED * dt)
  {
    hide ValidLevel, MovedX, SteerAll, Swept;
    HasGrid(lv);
    SteeredGround(p.(velX := 0.0), opcodes, dt);
    SteeredVelocity(p.(velX := 0.0), opcodes, dt);
    MovedXWalks(lv, BeforeMove(p, opcodes, dt));
  }

  lemma MovedXWalks(lv: Level, p: PlayerState)
    requires ValidLevel(lv) && p.Sized()
    ensures var q := MovedX(lv, p).0;
      (p.velX >= 0.0 ==> p.x <= q.x <= p.x + p.velX) && (p.velX <= 0.0 ==> p.x + p.velX <= q.x <= p.x)
  {
    hide ValidLevel, Swept, Scaled;
    HasGrid(lv);
    if p.velX != 0.0 {
      SweptFacts(lv, p.Body(), p.velX, 0.0);
      ScaledBetween(p.velX, Swept(lv, p.Body(), p.velX, 0.0).entryTime);
    }
  }

  // -------------------------------------------------------------- jump height

  /** The player after the first `k` ticks, each with its own inputs, all of length `dt`. */
  function PlayerRun(lv: Level, p: PlayerState, inputs: seq<seq<nat>>, dt: real, k: nat): PlayerState
    requires lv.tile > 0.0 && lv.gridX > 0 && k <= |inputs|
  {
    if k == 0 then p else PlayerTick(lv, PlayerRun(lv, p, inputs, dt, k - 1), inputs[k - 1], dt)
  }

  predicate JumpAccepted(p: PlayerState, opcodes: seq<nat>) { p.onGround && JUMP in opcodes }

  /** The sum of (400 - 9.8 j) over j = 1..k: the most a flight can rise in `k` ticks of unit length. */
  function Rise(k: nat): real {
    if k == 0 then 0.0 else Rise(k - 1) + (400.0 - 9.8 * k as real)
  }

  function Height(k: nat, dt: real): real { Rise(k) * dt }

  /** The vertical speed left after `k` ticks of an unhindered flight (upward is negative). */
  function Climb(k: nat, dt: real): real { (9.8 * k as real - 400.0) * dt }

  lemma {:induction false} RiseClosed(k: nat)
    ensures Rise(k) == 400.0 * k as real - 4.9 * (k as real * (k as real + 1.0))
  {
    if k == 0 {
    } else {
      RiseClosed(k - 1);
      Consecutive(k as real);
    }
  }

  lemma Consecutive(u: real)
    ensures u * (u + 1.0) == (u - 1.0) * u + 2.0 * u
  {
  }

  /** The rise grows up to the fortieth tick, where it is 7964. */
  lemma {:induction false} RiseAtMost(k: nat)
    requires k <= 40
    ensures Rise(k) <= 7964.0 && (k == 40 ==> Rise(k) == 7964.0)
    decreases 40 - k
  {
    if k == 40 {
      RiseClosed(40);
    } else {
      RiseAtMost(k + 1);
    }
  }

  lemma Scales(a: real, b: real, c: real)
    requires a <= b && c >= 0.0
    ensures a * c <= b * c
  {
  }

  lemma HeightAtMost(k: nat, dt: real)
    requires k <= 40 && dt > 0.0
    ensures Height(k, dt) <= 7964.0 * dt && (k == 40 ==> Height(k, dt) == 7964.0 * dt)
  {
    RiseAtMost(k);
    Scales(Rise(k), 7964.0, dt);
  }

  lemma Distributes(a: real, b: real, c: real)
    ensures (a + b) * c == a * c + b * c
  {
  }

  lemma ClimbStep(k: nat, dt: real)
    requires k > 0 && dt > 0.0
    ensures Climb(k, dt) == Climb(k - 1, dt) + GRAVITY * dt
    ensures Height(k, dt) == Height(k - 1, dt) - Climb(k, dt)
    ensures k <= 40 ==> Climb(k, dt) < 0.0
    ensures k > 40 ==> Climb(k, dt) > 0.0
  {
    Distributes(9.8 * (k - 1) as real - 400.0, GRAVITY, dt);
    Distributes(Rise(k - 1), 400.0 - 9.8 * k as real, dt);
    Distributes(400.0 - 9.8 * k as real, 9.8 * k as real - 400.0, dt);
    assert k <= 40 ==> 9.8 * k as real - 400.0 < 0.0;
    assert k > 40 ==> 9.8 * k as real - 400.0 > 0.0;
  }

  /** The vertical leg covers at most the distance its speed allows, and keeps or clears that speed. */
  lemma MovedYRise(lv: Level, p: PlayerState, dx: real)
    requires ValidLevel(lv) && p.Sized()
    ensures var q := MovedY(lv, p, dx);
      && q.Sized() && (q.velY == p.velY || q.velY == 0.0)
      && (p.velY <= 0.0 ==> q.y >= p.y + p.velY)
      && (p.velY >= 0.0 ==> q.y >= p.y)
      && (q.velY == p.velY ==> q.y == p.y + p.velY)
  {
    hide ValidLevel, Swept, Scaled;
    HasGrid(lv);
    if p.velY != 0.0 {
      SweptFacts(lv, p.Body(), 0.0, p.velY);
      ScaledBetween(p.velY, Swept(lv, p.Body(), 0.0, p.velY).entryTime);
      ScaledFully(p.velY);
    }
  }

  lemma ScaledDown(v: real, t: real)
    requires 0.0 <= t <= 1.0
    ensures v <= 0.0 ==> v <= v * t <= 0.0
    ensures v >= 0.0 ==> 0.0 <= v * t <= v
  {
  }

  lemma ScaledBetween(v: real, t: real)
    requires 0.0 <= t <= 1.0
    ensures v <= 0.0 ==> v <= Scaled(v, t) <= 0.0
    ensures v >= 0.0 ==> 0.0 <= Scaled(v, t) <= v
  {
  }

  lemma ScaledFully(v: real)
    ensures Scaled(v, 1.0) == v
  {
  }

  lemma TickRise(lv: Level, p: PlayerState, opcodes: seq<nat>, dt: real)
    requires ValidLevel(lv) && p.Sized() && dt > 0.0
    ensures var v := (if JumpAccepted(p, opcodes) then -(JUMP_FORCE * dt) else p.velY) + GRAVITY * dt;
      var q := PlayerTick(lv, p, opcodes, dt);
      && q.Sized() && (q.velY == v || q.velY == 0.0)
      && (v <= 0.0 ==> q.y >= p.y + v)
      && (v >= 0.0 ==> q.y >= p.y)
      && (q.velY == v ==> q.y == p.y + v)
  {
    hide ValidLevel, Swept, MovedY, SteerAll;
    HasGrid(lv);
    SteeredGround(p.(velX := 0.0), opcodes, dt);
    var (q, dx) := MovedX(lv, BeforeMove(p, opcodes, dt));
    MovedYRise(lv, q, dx);
  }

  /** Invariant of a flight, `k` ticks after take-off. */
  lemma {:induction false} FlightBound(lv: Level, p: PlayerState, inputs: seq<seq<nat>>, dt: real, k: nat)
    requires ValidLevel(lv) && p.Sized() && dt > 0.0 && 1 <= k <= |inputs|
    requires JumpAccepted(p, inputs[0])
    requires forall j :: 1 <= j < k ==> !JumpAccepted(PlayerRun(lv, p, inputs, dt, j), inputs[j])
    ensures var q := PlayerRun(lv, p, inputs, dt, k);
      && q.Sized() && q.y >= p.y - 7964.0 * dt
      && (if k <= 40 then q.velY >= Climb(k, dt) && q.y >= p.y - Height(k, dt) else q.velY >= 0.0)
  {
    hide ValidLevel, PlayerTick, Height, Climb;
    HasGrid(lv);
    var o := PlayerRun(lv, p, inputs, dt, k - 1);
    ClimbStep(k, dt);
    if k == 1 {
      TakeOff(dt);
    } else {
      FlightBound(lv, p, inputs, dt, k - 1);
      assert !JumpAccepted(o, inputs[k - 1]);
    }
    TickRise(lv, o, inputs[k - 1], dt);
    if k <= 40 {
      HeightAtMost(k, dt);
    }
  }

  lemma TakeOff(dt: real)
    ensures Height(0, dt) == 0.0 && Climb(0, dt) == -(JUMP_FORCE * dt)
  {
  }

  /** The bound is reached: an unhindered flight is exactly 7964 dt high after forty ticks. */
  lemma {:induction false} UnhinderedFlight(lv: Level, p: PlayerState, inputs: seq<seq<nat>>, dt: real, k: nat)
    requires ValidLevel(lv) && p.Sized() && dt > 0.0 && 1 <= k <= |inputs| && k <= 40
    requires JumpAccepted(p, inputs[0])
    requires forall j :: 1 <= j < k ==> !JumpAccepted(PlayerRun(lv, p, inputs, dt, j), inputs[j])
    requires forall j :: 1 <= j <= k ==> PlayerRun(lv, p, inputs, dt, j).velY != 0.0
    ensures PlayerRun(lv, p, inputs, dt, k).velY == Climb(k, dt)
    ensures PlayerRun(lv, p, inputs, dt, k).y == p.y - Height(k, dt)
    ensures PlayerRun(lv, p, inputs, dt, k).Sized()
    ensures k == 40 ==> PlayerRun(lv, p, inputs, dt, k).y == p.y - 7964.0 * dt
  {
    hide ValidLevel, PlayerTick, Height, Climb;
    HasGrid(lv);
    var o := PlayerRun(lv, p, inputs, dt, k - 1);
    ClimbStep(k, dt);
    if k == 1 {
      TakeOff(dt);
    } else {
      UnhinderedFlight(lv, p, inputs, dt, k - 1);
    }
    TickRise(lv, o, inputs[k - 1], dt);
    if k == 40 { HeightAtMost(40, dt); }
  }

  /**
    With ticks of equal length a player never rises more than 7964 dt above its
    take-off height before its next accepted jump, whatever it hits meanwhile.
   */
  lemma JumpHeight(lv: Level, p: PlayerState, inputs: seq<seq<nat>>, dt: real, k: nat)
    requires ValidLevel(lv) && p.Sized() && dt > 0.0 && k <= |inputs| && |inputs| > 0
    requires JumpAccepted(p, inputs[0])
    requires forall j :: 1 <= j < k ==> !JumpAccepted(PlayerRun(lv, p, inputs, dt, j), inputs[j])
    ensures PlayerRun(lv, p, inputs, dt, k).y >= p.y - 7964.0 * dt
  {
    if k > 0 { FlightBound(lv, p, inputs, dt, k); }
  }
}
