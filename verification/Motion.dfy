/**
  Where a move ends, said without the sweep: each leg goes all the way if the way
  is free, and otherwise up to the tile that blocks it (Update and MovePlayer in
  src/game/world/world.cpp).
 */
module Motion {
  import opened SweptMath
  import opened Collision
  import opened Protocol
  import opened Physics

  /** A vertical face of tile `i`, which overlaps the box in y, lies on the right or on the left face of the box. */
  ghost predicate SideContact(lv: Level, box: Box, i: nat, right: bool) {
    && i < |lv.tiles| && lv.tiles[i].Solid?
    && var b := lv.tiles[i].box;
       && box.y < b.Bottom() && b.y < box.Bottom()
       && (if right then box.Right() == b.x else box.x == b.Right())
  }

  /** A horizontal face of tile `i`, which overlaps the box in x, lies on the bottom or on the top face of the box. */
  ghost predicate EndContact(lv: Level, box: Box, i: nat, down: bool) {
    && i < |lv.tiles| && lv.tiles[i].Solid?
    && var b := lv.tiles[i].box;
       && box.x < b.Right() && b.x < box.Right()
       && (if down then box.Bottom() == b.y else box.y == b.Bottom())
  }

  ghost predicate BlockedX(lv: Level, box: Box, right: bool) { exists i: nat :: SideContact(lv, box, i, right) }
  ghost predicate BlockedY(lv: Level, box: Box, down: bool) { exists i: nat :: EndContact(lv, box, i, down) }

  ghost predicate OpenX(lv: Level, box: Box, velX: real) { FreeUntil(lv, box, velX, 0.0, 1.0) }
  ghost predicate OpenY(lv: Level, box: Box, velY: real) { FreeUntil(lv, box, 0.0, velY, 1.0) }

  /** `x` is on the way from `from` to `from + vel`, and not at its end. */
  predicate Short(from: real, vel: real, x: real) {
    (vel > 0.0 && from <= x < from + vel) || (vel < 0.0 && from + vel < x <= from)
  }

  /** As far as it can: the whole way if that is free, else up to a tile in the way. */
  ghost predicate FarX(lv: Level, box: Box, velX: real, x: real) {
    if OpenX(lv, box, velX) then x == box.x + velX
    else Short(box.x, velX, x) && BlockedX(lv, box.(x := x), velX > 0.0)
  }

  ghost predicate FarY(lv: Level, box: Box, velY: real, y: real) {
    if OpenY(lv, box, velY) then y == box.y + velY
    else Short(box.y, velY, y) && BlockedY(lv, box.(y := y), velY > 0.0)
  }

  lemma HorizontalHitTouches(a: Box, b: Box, velX: real)
    requires SweptAABB(a, b, velX, 0.0).hit
    ensures var t := SweptAABB(a, b, velX, 0.0).entryTime;
      && velX != 0.0 && a.y < b.Bottom() && b.y < a.Bottom()
      && (velX > 0.0 ==> a.Right() + velX * t == b.x)
      && (velX < 0.0 ==> a.x + velX * t == b.Right())
  {
  }

  lemma ShortOf(from: real, vel: real, t: real)
    requires vel != 0.0 && 0.0 <= t < 1.0
    ensures Short(from, vel, from + Scaled(vel, t)) && (Scaled(vel, t) >= 0.0 <==> vel > 0.0 || t == 0.0)
    ensures Scaled(vel, t) == 0.0 <==> t == 0.0
  {
    hide Scaled;
    StrictlyLess(if vel > 0.0 then vel else -vel, t);
  }

  lemma StrictlyLess(v: real, t: real)
    requires v > 0.0 && 0.0 <= t < 1.0
    ensures var d := Scaled(v, t); 0.0 <= d < v && (d == 0.0 <==> t == 0.0) && Scaled(-v, t) == -d
  {
    var d, rest := v * t, v * (1.0 - t);
    PositiveProduct(v, 1.0 - t);
    assert rest > 0.0;
    assert d == v - rest && (-v) * t == -d;
    if t > 0.0 {
      PositiveProduct(v, t);
      assert d > 0.0;
    }
    assert Scaled(v, t) == d;
  }

  lemma PositiveProduct(u: real, v: real)
    requires u > 0.0 && v > 0.0
    ensures u * v > 0.0
  {
  }

  /** The horizontal leg: where it ends, and what becomes of the velocity. */
  lemma MovedXGoesFar(lv: Level, p: PlayerState)
    requires ValidLevel(lv) && p.Sized() && Free(lv, p.Body())
    ensures var (q, dx) := MovedX(lv, p);
      && FarX(lv, p.Body(), p.velX, q.x) && dx == q.x - p.x
      && q == p.(x := q.x, velX := if OpenX(lv, p.Body(), p.velX) then p.velX else 0.0)
  {
    hide ValidLevel, Swept, SweptAABB, Free, FreeUntil, Scaled;
    HasGrid(lv);
    if p.velX == 0.0 {
      StillPathFree(lv, p.Body());
    } else {
      var s := Swept(lv, p.Body(), p.velX, 0.0);
      SweptIsGreatestFreeTime(lv, p.Body(), p.velX, 0.0);
      SweptFacts(lv, p.Body(), p.velX, 0.0);
      ScaledFully(p.velX);
      if s.hit {
        var i :| 0 <= i < |lv.tiles| && lv.tiles[i].Solid? && s == SweptAABB(p.Body(), lv.tiles[i].box, p.velX, 0.0);
        HorizontalHitTouches(p.Body(), lv.tiles[i].box, p.velX);
        ShortOf(p.x, p.velX, s.entryTime);
        ScaledIs(p.velX, s.entryTime);
        assert SideContact(lv, p.Body().(x := MovedX(lv, p).0.x), i, p.velX > 0.0);
      }
    }
  }

  lemma ScaledIs(v: real, t: real)
    ensures Scaled(v, t) == v * t
  {
  }

  /** The vertical leg, downward or upward; the flag is set by a floor, and by a ceiling that is pushed against at once. */
  lemma MovedYGoesFar(lv: Level, p: PlayerState, dx: real)
    requires ValidLevel(lv) && p.Sized() && Free(lv, p.Body())
    ensures var q, open := MovedY(lv, p, dx), OpenY(lv, p.Body(), p.velY);
      && FarY(lv, p.Body(), p.velY, q.y)
      && q == p.(y := q.y, velX := if open then p.velX else dx, velY := if open then p.velY else 0.0, onGround := q.onGround)
      && (p.velY == 0.0 ==> q.onGround == p.onGround)
      && (p.velY != 0.0 ==> (q.onGround <==> !open && (p.velY > 0.0 || q.y == p.y)))
  {
    hide ValidLevel, Swept, SweptAABB, Free, FreeUntil, Scaled;
    HasGrid(lv);
    if p.velY == 0.0 {
      StillPathFree(lv, p.Body());
    } else {
      var s := Swept(lv, p.Body(), 0.0, p.velY);
      SweptIsGreatestFreeTime(lv, p.Body(), 0.0, p.velY);
      SweptFacts(lv, p.Body(), 0.0, p.velY);
      ScaledFully(p.velY);
      if s.hit {
        var i :| 0 <= i < |lv.tiles| && lv.tiles[i].Solid? && s == SweptAABB(p.Body(), lv.tiles[i].box, 0.0, p.velY);
        VerticalHitTouches(p.Body(), lv.tiles[i].box, p.velY);
        ShortOf(p.y, p.velY, s.entryTime);
        ScaledIs(p.velY, s.entryTime);
        assert EndContact(lv, p.Body().(y := MovedY(lv, p, dx).y), i, p.velY > 0.0);
      }
    }
  }

  /**
    `q` is where a player at `p`, on the ground or not, gets that moves with `velX`
    and `velY`: first sideways and then, from there, up or down, as far as it can.
   */
  ghost predicate GoesFar(lv: Level, p: PlayerState, velX: real, velY: real, ground: bool, q: PlayerState) {
    var turn := p.Body().(x := q.x);
    var openX, openY := OpenX(lv, p.Body(), velX), OpenY(lv, turn, velY);
    && FarX(lv, p.Body(), velX, q.x) && FarY(lv, turn, velY, q.y)
    && q.id == p.id && q.width == p.width && q.height == p.height
    && q.velX == (if !openY then q.x - p.x else if openX then velX else 0.0)
    && q.velY == (if openY then velY else 0.0)
    && (q.onGround <==> if velY == 0.0 then ground else !openY && (velY > 0.0 || q.y == p.y))
  }

  lemma MoveGoesFar(lv: Level, p: PlayerState)
    requires ValidLevel(lv) && p.Sized() && Free(lv, p.Body())
    ensures GoesFar(lv, p, p.velX, p.velY, p.onGround, Moved(lv, p))
  {
    hide ValidLevel, Free, FreeUntil, MovedX, MovedY, FarX, FarY, OpenX, OpenY;
    HasGrid(lv);
    var (q, dx) := MovedX(lv, p);
    MovedXGoesFar(lv, p);
    MovedXIsFree(lv, p);
    MovedYGoesFar(lv, q, dx);
    assert q.Body() == p.Body().(x := Moved(lv, p).x);
  }

  /**
    A whole tick of a player that starts free. Its last walking input takes it
    100 dt to that side, an accepted jump 400 dt up, gravity 9.8 dt down, sideways
    first and always as far as the level lets it.
   */
  lemma TickGoesFar(lv: Level, p: PlayerState, opcodes: seq<nat>, dt: real)
    requires ValidLevel(lv) && p.Sized() && Free(lv, p.Body()) && dt > 0.0
    ensures var velX := Heading(opcodes) as real * (100.0 * dt);
      var velY := (if p.onGround && 0x0014 in opcodes then -400.0 * dt else p.velY) + 9.8 * dt;
      GoesFar(lv, p, velX, velY, p.onGround && 0x0014 !in opcodes, PlayerTick(lv, p, opcodes, dt))
  {
    hide ValidLevel, Free, Moved, SteerAll, GoesFar, Heading;
    HasGrid(lv);
    var b := BeforeMove(p, opcodes, dt);
    SteeredGround(p.(velX := 0.0), opcodes, dt);
    SteeredVelocity(p.(velX := 0.0), opcodes, dt);
    MoveGoesFar(lv, b);
    SameStart(lv, p, b, b.velX, b.velY, b.onGround, Moved(lv, b));
  }

  lemma SameStart(lv: Level, p: PlayerState, b: PlayerState, velX: real, velY: real, ground: bool, q: PlayerState)
    requires p.id == b.id && p.Body() == b.Body() && GoesFar(lv, b, velX, velY, ground, q)
    ensures GoesFar(lv, p, velX, velY, ground, q)
  {
  }

  /** The opcodes of walking: 0x0012 to the left, 0x0013 to the right, and the last one counts. */
  lemma HeadingIsLast(opcodes: seq<nat>, opcode: nat)
    ensures Heading([]) == 0
    ensures Heading(opcodes + [opcode]) == if opcode == 0x0012 then -1 else if opcode == 0x0013 then 1 else Heading(opcodes)
  {
    assert (opcodes + [opcode])[..|opcodes|] == opcodes;
  }
}
