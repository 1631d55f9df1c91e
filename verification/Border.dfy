/**
  A level closed by a ring of solid tiles: players stay inside the ring, so the
  bounds that the broad phase converts from double to an unsigned integer
  (src/game/physics/collision.cpp) are never negative and never too large.
 */
module Border {
  import opened SweptMath
  import opened Collision
  import opened Physics

  predicate OnRing(lv: Level, x: int, y: int) { x == 0 || x == lv.gridX - 1 || y == 0 || y == lv.gridY - 1 }

  ghost predicate Bordered(lv: Level) {
    && lv.gridX > 0 && |lv.tiles| == lv.gridX * lv.gridY
    && forall x: nat, y: nat {:trigger Index(lv.gridX, x, y)} ::
         x < lv.gridX && y < lv.gridY && OnRing(lv, x, y) ==>
           Index(lv.gridX, x, y) < |lv.tiles| && lv.tiles[Index(lv.gridX, x, y)].Solid?
  }

  /** The box lies in the area that the ring encloses. */
  ghost predicate Enclosed(lv: Level, box: Box) {
    && lv.tile <= box.x && box.Right() <= (lv.gridX - 1) as real * lv.tile
    && lv.tile <= box.y && box.Bottom() <= (lv.gridY - 1) as real * lv.tile
  }

  /** The cell coordinate, on a grid of `n` cells, of a position between the first and the last cell. */
  lemma CellAt(a: real, tile: real, n: nat) returns (c: nat)
    requires tile > 0.0 && 0.0 <= a < (n - 1) as real * tile
    ensures c < n && c as real * tile <= a < (c + 1) as real * tile
  {
    var q := a / tile;
    assert a == q * tile;
    FloorBelow(a, tile, q.Floor - 1);
    FloorBelow(a, tile, q.Floor + 1);
    assert q >= 0.0;
    c := q.Floor;
    if c >= n - 1 { Scales((n - 1) as real, c as real, tile); }
  }

  lemma RingTile(lv: Level, x: nat, y: nat) returns (i: nat)
    requires ValidLevel(lv) && Bordered(lv) && x < lv.gridX && y < lv.gridY && OnRing(lv, x, y)
    ensures i < |lv.tiles| && lv.tiles[i].Solid? && lv.tiles[i].box == CellBox(lv.tile, x, y)
  {
    i := Index(lv.gridX, x, y);
    IndexOfCell(lv.gridX, lv.gridY, x, y);
  }

  /** Tile `i` is solid and shares a stretch of the y axis with the box. */
  ghost predicate Beside(lv: Level, box: Box, i: nat) {
    i < |lv.tiles| && lv.tiles[i].Solid? && box.y < lv.tiles[i].box.Bottom() && lv.tiles[i].box.y < box.Bottom()
  }

  /** Tile `i` is solid and shares a stretch of the x axis with the box. */
  ghost predicate Aligned(lv: Level, box: Box, i: nat) {
    i < |lv.tiles| && lv.tiles[i].Solid? && box.x < lv.tiles[i].box.Right() && lv.tiles[i].box.x < box.Right()
  }

  /** The ring tiles left and right of an enclosed box, in a row that the box strictly overlaps. */
  lemma SideTiles(lv: Level, box: Box) returns (left: nat, right: nat)
    requires ValidLevel(lv) && Bordered(lv) && box.width > 0.0 && box.height > 0.0 && Enclosed(lv, box)
    ensures Beside(lv, box, left) && Beside(lv, box, right)
    ensures lv.tiles[left].box.Right() == lv.tile
    ensures lv.tiles[right].box.x == (lv.gridX - 1) as real * lv.tile
  {
    hide ValidLevel, Bordered;
    HasGrid(lv);
    var r := CellAt(box.y, lv.tile, lv.gridY);
    Distributes(r as real, 1.0, lv.tile);
    left := RingTile(lv, 0, r);
    right := RingTile(lv, lv.gridX - 1, r);
  }

  lemma EndTiles(lv: Level, box: Box) returns (top: nat, bottom: nat)
    requires ValidLevel(lv) && Bordered(lv) && box.width > 0.0 && box.height > 0.0 && Enclosed(lv, box)
    ensures Aligned(lv, box, top) && Aligned(lv, box, bottom)
    ensures lv.tiles[top].box.Bottom() == lv.tile
    ensures lv.tiles[bottom].box.y == (lv.gridY - 1) as real * lv.tile
  {
    hide ValidLevel, Bordered;
    HasGrid(lv);
    var c := CellAt(box.x, lv.tile, lv.gridX);
    Distributes(c as real, 1.0, lv.tile);
    top := RingTile(lv, c, 0);
    bottom := RingTile(lv, c, lv.gridY - 1);
  }

  lemma EnclosedAfterX(lv: Level, p: PlayerState)
    requires ValidLevel(lv) && Bordered(lv) && p.Sized() && Enclosed(lv, p.Body())
    ensures Enclosed(lv, MovedX(lv, p).0.Body())
  {
    hide ValidLevel, Bordered, Swept;
    HasGrid(lv);
    var left, right := SideTiles(lv, p.Body());
    NeverPassesX(lv, p.Body(), p.velX, left);
    NeverPassesX(lv, p.Body(), p.velX, right);
  }

  lemma EnclosedAfterY(lv: Level, p: PlayerState, dx: real)
    requires ValidLevel(lv) && Bordered(lv) && p.Sized() && Enclosed(lv, p.Body())
    ensures Enclosed(lv, MovedY(lv, p, dx).Body())
  {
    hide ValidLevel, Bordered, Swept;
    HasGrid(lv);
    var top, bottom := EndTiles(lv, p.Body());
    NeverPassesY(lv, p.Body(), p.velY, top);
    NeverPassesY(lv, p.Body(), p.velY, bottom);
  }

  /** Whatever the speed, a move that starts inside the ring ends inside it. */
  lemma MoveStaysEnclosed(lv: Level, p: PlayerState)
    requires ValidLevel(lv) && Bordered(lv) && p.Sized() && Enclosed(lv, p.Body())
    ensures Enclosed(lv, Moved(lv, p).Body())
  {
    hide ValidLevel, Bordered, Swept, Enclosed, MovedY;
    HasGrid(lv);
    var (q, dx) := MovedX(lv, p);
    EnclosedAfterX(lv, p);
    EnclosedAfterY(lv, q, dx);
  }

  // ------------------------------------------------- conversions to integers

  const SIZE_LIMIT := 0x1_0000_0000_0000_0000

  /** The four bounds of one sweep are in the range of the 64-bit unsigned type they are stored in. */
  ghost predicate CastsDefined(lv: Level, box: Box, velX: real, velY: real)
    requires lv.tile > 0.0
  {
    var b := Bounds(lv.tile, box, velX, velY);
    0 <= b.left < SIZE_LIMIT && 0 <= b.top < SIZE_LIMIT && 0 <= b.right < SIZE_LIMIT && 0 <= b.bottom < SIZE_LIMIT
  }

  /** All conversions made while the player moves once are defined. */
  ghost predicate MoveCastsDefined(lv: Level, p: PlayerState)
    requires lv.tile > 0.0 && lv.gridX > 0
  {
    && (p.velX != 0.0 ==> CastsDefined(lv, p.Body(), p.velX, 0.0))
    && (p.velY != 0.0 ==> CastsDefined(lv, MovedX(lv, p).0.Body(), 0.0, p.velY))
  }

  /** What the ring and short ticks guarantee of a player at every tick boundary. */
  ghost predicate Contained(lv: Level, p: PlayerState) {
    p.Sized() && Enclosed(lv, p.Body()) && -lv.tile <= p.velY <= lv.gridY as real * lv.tile
  }

  lemma FloorInRange(a: real, tile: real, n: nat)
    requires tile > 0.0 && 0.0 <= a <= n as real * tile && n < SIZE_LIMIT
    ensures 0 <= (a / tile).Floor < SIZE_LIMIT
  {
    FloorBelow(a, tile, n + 1);
    FloorBelow(a, tile, n);
  }

  /** Along one axis: the interval is enclosed on `n` cells and moves by at most `m + 1` cells. */
  lemma AxisCasts(p: real, len: real, vel: real, tile: real, n: nat, m: nat)
    requires tile > 0.0 && len > 0.0 && n > 0 && n + m < SIZE_LIMIT
    requires tile <= p && p + len <= (n - 1) as real * tile
    requires -tile <= vel <= m as real * tile + tile
    ensures 0 <= (FMin(p, p + vel) / tile).Floor < SIZE_LIMIT
    ensures 0 <= (FMax(p + len, p + len + vel) / tile).Floor < SIZE_LIMIT
  {
    GridLength(tile, n, m);
    SweptExtent(p, len, vel, tile, (n - 1) as real * tile, m as real * tile);
    FloorInRange(FMin(p, p + vel), tile, n + m);
    FloorInRange(FMax(p + len, p + len + vel), tile, n + m);
  }

  lemma GridLength(tile: real, n: nat, m: nat)
    requires tile > 0.0 && n > 0
    ensures (n + m) as real * tile == (n - 1) as real * tile + m as real * tile + tile
    ensures m as real * tile >= 0.0
  {
    Distributes((n - 1) as real + m as real, 1.0, tile);
    Distributes((n - 1) as real, m as real, tile);
  }

  lemma SweptExtent(p: real, len: real, vel: real, tile: real, last: real, reach: real)
    requires tile > 0.0 && len > 0.0 && reach >= 0.0 && tile <= p && p + len <= last
    requires -tile <= vel <= reach + tile
    ensures 0.0 <= FMin(p, p + vel) <= last + reach + tile
    ensures 0.0 <= FMax(p + len, p + len + vel) <= last + reach + tile
  {
  }

  lemma CastsInRange(lv: Level, box: Box, velX: real, velY: real)
    requires ValidLevel(lv) && box.width > 0.0 && box.height > 0.0 && Enclosed(lv, box)
    requires -lv.tile <= velX <= lv.tile
    requires -lv.tile <= velY <= lv.gridY as real * lv.tile + lv.tile
    ensures CastsDefined(lv, box, velX, velY)
  {
    AxisCasts(box.x, box.width, velX, lv.tile, lv.gridX, 0);
    AxisCasts(box.y, box.height, velY, lv.tile, lv.gridY, lv.gridY);
  }

  /** The velocities of a tick of at most tile / 390.2: a take-off of 400 dt loses 9.8 dt in the same tick. */
  lemma TickVelocities(lv: Level, p: PlayerState, opcodes: seq<nat>, dt: real)
    requires ValidLevel(lv) && Contained(lv, p) && 0.0 < dt <= lv.tile / 390.2
    ensures var b := BeforeMove(p, opcodes, dt);
      && b.Body() == p.Body() && b.Sized()
      && -100.0 * dt <= b.velX <= 100.0 * dt && -lv.tile <= b.velX <= lv.tile
      && -lv.tile <= b.velY <= lv.gridY as real * lv.tile + lv.tile
  {
    hide ValidLevel, SteerAll, Enclosed;
    SteeredGround(p.(velX := 0.0), opcodes, dt);
  }

  lemma EnclosedAfterLegX(lv: Level, p: PlayerState)
    requires ValidLevel(lv) && Bordered(lv) && p.Sized() && Enclosed(lv, p.Body())
    ensures var q := MovedX(lv, p).0; q.Sized() && q.velY == p.velY && Enclosed(lv, q.Body())
  {
    hide ValidLevel, Bordered, Enclosed, Swept, Scaled;
    HasGrid(lv);
    EnclosedAfterX(lv, p);
  }

  /** A fall that does not end at a hit was no longer than the room is high. */
  lemma VelocityKept(lv: Level, p: PlayerState, dx: real)
    requires ValidLevel(lv) && p.Sized() && Enclosed(lv, p.Body()) && Enclosed(lv, MovedY(lv, p, dx).Body())
    requires -lv.tile <= p.velY
    ensures var q := MovedY(lv, p, dx); q.Sized() && -lv.tile <= q.velY <= lv.gridY as real * lv.tile
  {
    hide ValidLevel, MovedY;
    HasGrid(lv);
    MovedYRise(lv, p, dx);
    GridLength(lv.tile, lv.gridY, 0);
    Scales(0.0, lv.gridY as real, lv.tile);
  }

  /**
    One tick inside the ring: the player stays inside, its velocity bounds are
    kept, and every conversion of the two sweeps is defined.
   */
  lemma TickStaysContained(lv: Level, p: PlayerState, opcodes: seq<nat>, dt: real)
    requires ValidLevel(lv) && Bordered(lv) && Contained(lv, p) && 0.0 < dt <= lv.tile / 390.2
    ensures Contained(lv, PlayerTick(lv, p, opcodes, dt))
    ensures MoveCastsDefined(lv, BeforeMove(p, opcodes, dt))
  {
    hide ValidLevel, Bordered, Enclosed, Swept, MovedX, MovedY, BeforeMove, CastsDefined;
    HasGrid(lv);
    var b := BeforeMove(p, opcodes, dt);
    TickVelocities(lv, p, opcodes, dt);
    var (q, dx) := MovedX(lv, b);
    EnclosedAfterLegX(lv, b);
    EnclosedAfterY(lv, q, dx);
    CastsInRange(lv, b.Body(), b.velX, 0.0);
    CastsInRange(lv, q.Body(), 0.0, b.velY);
    VelocityKept(lv, q, dx);
  }

  lemma FloorSign(a: real, tile: real)
    requires tile > 0.0
    ensures (a / tile).Floor >= 0 <==> a >= 0.0
  {
    FloorBelow(a, tile, 0);
    FloorBelow(a, tile, -1);
  }

  /** No bound is negative exactly if neither the start nor the unobstructed end has a negative coordinate. */
  lemma BoundsNonNegative(tile: real, box: Box, velX: real, velY: real)
    requires tile > 0.0 && box.width >= 0.0 && box.height >= 0.0
    ensures var b := Bounds(tile, box, velX, velY);
      b.left >= 0 && b.top >= 0 && b.right >= 0 && b.bottom >= 0
      <==> box.x >= 0.0 && box.x + velX >= 0.0 && box.y >= 0.0 && box.y + velY >= 0.0
  {
    FloorSign(FMin(box.x, box.x + velX), tile);
    FloorSign(FMin(box.y, box.y + velY), tile);
    FloorSign(FMax(box.Right(), box.Right() + velX), tile);
    FloorSign(FMax(box.Bottom(), box.Bottom() + velY), tile);
  }
}
