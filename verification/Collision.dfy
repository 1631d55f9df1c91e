/**
  The sweep of a box against the tile map: a broad phase that selects tiles by
  floor, division and clamping, and a narrow phase that keeps the earliest
  contact (src/game/physics/collision.cpp).
 */
module Collision {
  import opened SweptMath

  /** A default-constructed tile has no coordinates worth reading, only its type. */
  datatype Tile = Empty | Solid(box: Box)

  /** The tile map, row by row, with the side length of a tile. */
  datatype Level = Level(tile: real, gridX: nat, gridY: nat, tiles: seq<Tile>)

  function Col(gridX: nat, i: nat): nat requires gridX > 0 { i % gridX }
  function Row(gridX: nat, i: nat): nat requires gridX > 0 { i / gridX }
  function Index(gridX: nat, x: nat, y: nat): nat { y * gridX + x }

  function CellBox(tile: real, x: int, y: int): Box {
    Box(x as real * tile, y as real * tile, tile, tile)
  }

  /** Every solid tile sits on its own cell; the row count must fit the 8 bits it is passed in. */
  ghost predicate ValidLevel(lv: Level) {
    && lv.tile > 0.0 && 0 < lv.gridX <= 0xFFFF && 0 < lv.gridY <= 0xFF
    && |lv.tiles| == lv.gridX * lv.gridY
    && forall i :: 0 <= i < |lv.tiles| && lv.tiles[i].Solid? ==>
         lv.tiles[i].box == CellBox(lv.tile, Col(lv.gridX, i), Row(lv.gridX, i))
  }

  lemma HasGrid(lv: Level)
    requires ValidLevel(lv)
    ensures lv.tile > 0.0 && lv.gridX > 0 && lv.gridY > 0
  {
  }

  /** The interior of the box meets no solid tile. */
  ghost predicate Free(lv: Level, box: Box) {
    forall i :: 0 <= i < |lv.tiles| && lv.tiles[i].Solid? ==> !Overlaps(box, lv.tiles[i].box)
  }

  // ------------------------------------------------------------ cell indices

  lemma QuotientIsUnique(i: int, m: int, q: int, r: int)
    requires 0 <= r < m && i == q * m + r
    ensures i / m == q && i % m == r
  {
    var d := i / m - q;
    assert d * m == r - i % m;
    assert d >= 1 ==> d * m >= m;
    assert d <= -1 ==> d * m <= -m;
  }

  lemma IndexOfCell(gridX: nat, gridY: nat, x: nat, y: nat)
    requires x < gridX && y < gridY
    ensures Index(gridX, x, y) < gridX * gridY
    ensures Col(gridX, Index(gridX, x, y)) == x && Row(gridX, Index(gridX, x, y)) == y
  {
    assert y * gridX <= (gridY - 1) * gridX;
    QuotientIsUnique(Index(gridX, x, y), gridX, y, x);
  }

  lemma CellOfIndex(gridX: nat, gridY: nat, i: nat)
    requires gridX > 0 && i < gridX * gridY
    ensures Col(gridX, i) < gridX && Row(gridX, i) < gridY
    ensures Index(gridX, Col(gridX, i), Row(gridX, i)) == i
  {
    if i / gridX >= gridY { assert (i / gridX) * gridX >= gridY * gridX; }
  }

  // ------------------------------------------------------------- broad phase

  datatype Rect = Rect(left: int, top: int, right: int, bottom: int)

  function FMin(a: real, b: real): real { if a <= b then a else b }
  function FMax(a: real, b: real): real { if a <= b then b else a }

  /** The cells covered by the box at its start and at its unobstructed end. */
  function Bounds(tile: real, box: Box, velX: real, velY: real): Rect
    requires tile > 0.0
  {
    Rect((FMin(box.x, box.x + velX) / tile).Floor,
         (FMin(box.y, box.y + velY) / tile).Floor,
         (FMax(box.Right(), box.Right() + velX) / tile).Floor,
         (FMax(box.Bottom(), box.Bottom() + velY) / tile).Floor)
  }

  /** The clamp to the grid, in whole numbers rather than in converted doubles. */
  function Clamp(b: Rect, gridX: nat, gridY: nat): Rect {
    Rect(if b.left < 0 then 0 else b.left,
         if b.top < 0 then 0 else b.top,
         if b.right < gridX - 1 then b.right else gridX - 1,
         if b.bottom < gridY - 1 then b.bottom else gridY - 1)
  }

  predicate Inside(r: Rect, x: int, y: int) { r.left <= x <= r.right && r.top <= y <= r.bottom }

  predicate Candidate(lv: Level, box: Box, velX: real, velY: real, i: nat)
    requires lv.tile > 0.0 && lv.gridX > 0
  {
    && (velX != 0.0 || velY != 0.0)
    && i < lv.gridX * lv.gridY
    && Inside(Clamp(Bounds(lv.tile, box, velX, velY), lv.gridX, lv.gridY), Col(lv.gridX, i), Row(lv.gridX, i))
  }

  ghost predicate Ascending(s: seq<nat>) { forall i, j :: 0 <= i < j < |s| ==> s[i] < s[j] }

  lemma AscendingGap(s: seq<nat>, k: nat, j: nat)
    requires Ascending(s) && k <= |s|
    requires k > 0 ==> s[k - 1] < j
    requires k < |s| ==> j < s[k]
    ensures j !in s
  {
    forall h | 0 <= h < |s| ensures s[h] != j {
      assert h < k ==> h == k - 1 || s[h] < s[k - 1];
    }
  }

  /** The cells collected when every row above `y` and the cells left of `x` in row `y` are done. */
  ghost predicate Collected(gridX: nat, r: Rect, y: int, x: int, s: seq<nat>)
    requires gridX > 0
  {
    && Ascending(s)
    && (forall i :: i in s ==> var c, w := Col(gridX, i), Row(gridX, i);
                               Inside(r, c, w) && (w < y || (w == y && c < x)) && i == Index(gridX, c, w))
    && (forall c: nat, w: nat {:trigger Index(gridX, c, w)} ::
          Inside(r, c, w) && (w < y || (w == y && c < x)) ==> Index(gridX, c, w) in s)
  }

  lemma RowMajorOrder(gridX: nat, c: nat, w: nat, x: nat, y: nat)
    requires c < gridX && (w < y || (w == y && c < x))
    ensures Index(gridX, c, w) < Index(gridX, x, y)
  {
    if w < y {
      var gap := y - w - 1;
      assert gap * gridX >= 0;
      assert y * gridX == w * gridX + gridX + gap * gridX;
    }
  }

  lemma CollectNext(gridX: nat, gridY: nat, r: Rect, y: nat, x: nat, s: seq<nat>)
    requires 0 <= r.left && r.right < gridX && 0 <= r.top && r.bottom < gridY
    requires gridX > 0 && Collected(gridX, r, y, x, s) && Inside(r, x, y)
    ensures Collected(gridX, r, y, x + 1, s + [Index(gridX, x, y)])
  {
    var i := Index(gridX, x, y);
    IndexOfCell(gridX, gridY, x, y);
    forall k | 0 <= k < |s| ensures s[k] < i {
      assert s[k] in s;
      RowMajorOrder(gridX, Col(gridX, s[k]), Row(gridX, s[k]), x, y);
    }
  }

  /**
    The ordered set of candidate tiles: in increasing order, without
    repetition, exactly the cells of the clamped rectangle.
   */
  method FindCollisionIndices(lv: Level, box: Box, velX: real, velY: real) returns (indices: seq<nat>)
    requires lv.tile > 0.0 && lv.gridX > 0 && lv.gridY > 0
    ensures Ascending(indices)
    ensures forall i: nat :: i in indices <==> Candidate(lv, box, velX, velY, i)
  {
    if velX == 0.0 && velY == 0.0 {
      return [];
    }
    var r := Clamp(Bounds(lv.tile, box, velX, velY), lv.gridX, lv.gridY);
    indices := [];
    var y := r.top;
    while y <= r.bottom
      invariant r.top <= y
      invariant Collected(lv.gridX, r, y, r.left, indices)
      decreases r.bottom - y
    {
      var x := r.left;
      while x <= r.right
        invariant r.left <= x && (x <= r.right + 1 || x == r.left)
        invariant Collected(lv.gridX, r, y, x, indices)
        decreases r.right - x
      {
        CollectNext(lv.gridX, lv.gridY, r, y, x, indices);
        indices := indices + [Index(lv.gridX, x, y)];
        x := x + 1;
      }
      y := y + 1;
    }
    forall i: nat ensures i in indices <==> Candidate(lv, box, velX, velY, i) {
      if i < lv.gridX * lv.gridY {
        CellOfIndex(lv.gridX, lv.gridY, i);
      }
      if i in indices {
        IndexOfCell(lv.gridX, lv.gridY, Col(lv.gridX, i), Row(lv.gridX, i));
      }
    }
  }

  // ------------------------------------------------------------ narrow phase

  /** One turn of the loop: a strictly earlier contact replaces the best one so far. */
  function Earlier(lv: Level, box: Box, velX: real, velY: real, best: SweptData, i: nat): SweptData
    requires i < |lv.tiles|
  {
    if lv.tiles[i].Empty? then best else
    var tmp := SweptAABB(box, lv.tiles[i].box, velX, velY);
    if best.entryTime > tmp.entryTime then tmp else best
  }

  /** The earliest contact with any of the first `n` tiles of the map. */
  function ScanAll(lv: Level, box: Box, velX: real, velY: real, n: nat): SweptData
    requires n <= |lv.tiles|
  {
    if n == 0 then NO_COLLISION
    else Earlier(lv, box, velX, velY, ScanAll(lv, box, velX, velY, n - 1), n - 1)
  }

  /** The earliest contact with any candidate among the first `n` tiles. */
  function ScanCandidates(lv: Level, box: Box, velX: real, velY: real, n: nat): SweptData
    requires lv.tile > 0.0 && lv.gridX > 0 && n <= |lv.tiles|
  {
    if n == 0 then NO_COLLISION else
    var best := ScanCandidates(lv, box, velX, velY, n - 1);
    if Candidate(lv, box, velX, velY, n - 1) then Earlier(lv, box, velX, velY, best, n - 1) else best
  }

  /** What `SweptAxis` returns, for any velocity. */
  function Swept(lv: Level, box: Box, velX: real, velY: real): SweptData
    requires lv.tile > 0.0 && lv.gridX > 0
  {
    ScanCandidates(lv, box, velX, velY, |lv.tiles|)
  }

  /** Tiles that are no candidates do not change the running best. */
  lemma {:induction false} ScanSkips(lv: Level, box: Box, velX: real, velY: real, m: nat, n: nat)
    requires lv.tile > 0.0 && lv.gridX > 0 && m <= n <= |lv.tiles|
    requires forall i :: m <= i < n ==> !Candidate(lv, box, velX, velY, i)
    ensures ScanCandidates(lv, box, velX, velY, n) == ScanCandidates(lv, box, velX, velY, m)
  {
    if m == n {
    } else {
      ScanSkips(lv, box, velX, velY, m, n - 1);
    }
  }

  /** The velocities for which the rectangle holds every tile that matters: `CoveredExactly` below. */
  predicate Covered(velX: real, velY: real) { velX == 0.0 || velY == 0.0 || (velX < 0.0 && velY < 0.0) }

  /** The loop over the ordered candidate set; for a covered velocity it equals a scan of every tile. */
  method SweptAxis(lv: Level, box: Box, velX: real, velY: real) returns (res: SweptData)
    requires ValidLevel(lv)
    ensures res == Swept(lv, box, velX, velY)
    ensures Covered(velX, velY) && box.width >= 0.0 && box.height >= 0.0 ==>
              res == ScanAll(lv, box, velX, velY, |lv.tiles|)
  {
    res := NO_COLLISION;
    var indices := FindCollisionIndices(lv, box, velX, velY);
    var k := 0;
    ghost var done: nat := 0;
    while k < |indices|
      invariant 0 <= k <= |indices|
      invariant done <= |lv.tiles| && (k < |indices| ==> done <= indices[k])
      invariant k > 0 ==> done == indices[k - 1] + 1
      invariant k == 0 ==> done == 0
      invariant res == ScanCandidates(lv, box, velX, velY, done)
    {
      var i := indices[k];
      assert i in indices;
      forall j: nat | done <= j < i ensures !Candidate(lv, box, velX, velY, j) {
        AscendingGap(indices, k, j);
      }
      ScanSkips(lv, box, velX, velY, done, i);
      if lv.tiles[i] != Empty {
        var tmp := SweptAABB(box, lv.tiles[i].box, velX, velY);
        if res.entryTime > tmp.entryTime {
          res := tmp;
        }
      }
      done := i + 1;
      k := k + 1;
    }
    forall j: nat | done <= j < |lv.tiles| ensures !Candidate(lv, box, velX, velY, j) {
      AscendingGap(indices, k, j);
    }
    ScanSkips(lv, box, velX, velY, done, |lv.tiles|);
    if Covered(velX, velY) && box.width >= 0.0 && box.height >= 0.0 {
      BroadPhaseIsExact(lv, box, velX, velY);
    }
  }

  // ------------------------------------------- the broad phase loses nothing

  lemma FloorBelow(a: real, tile: real, c: int)
    requires tile > 0.0
    ensures c < (a / tile).Floor ==> (c + 1) as real * tile <= a
    ensures c > (a / tile).Floor ==> a < c as real * tile
  {
    var q := a / tile;
    assert a == q * tile;
    if c < q.Floor { assert (c + 1) as real <= q; assert (c + 1) as real * tile <= q * tile; }
    if c > q.Floor { assert q < c as real; assert q * tile < c as real * tile; }
  }

  /**
    A cell whose span misses the swept interval is not entered between time 0 and
    time 1; towards smaller coordinates it is left before time 0 or entered late.
   */
  lemma LateOnAxis(p: real, len: real, vel: real, tile: real, c: int)
    requires len >= 0.0 && tile > 0.0
    requires c < (FMin(p, p + vel) / tile).Floor || c > (FMax(p + len, p + len + vel) / tile).Floor
    ensures var s := AxisSpan(p, len, c as real * tile, tile, vel);
            s.Never? || (vel != 0.0 && (Less(s.entry, Fin(0.0)) || !Less(s.entry, Fin(1.0)))
                         && (vel < 0.0 ==> Less(s.exit, Fin(0.0)) || !Less(s.entry, Fin(1.0))))
  {
    FloorBelow(FMin(p, p + vel), tile, c);
    FloorBelow(FMax(p + len, p + len + vel), tile, c);
    LateEntry(p, len, c as real * tile, tile, vel);
  }

  lemma LateEntry(p: real, len: real, q: real, qlen: real, vel: real)
    requires len >= 0.0 && qlen > 0.0
    requires q + qlen <= FMin(p, p + vel) || FMax(p + len, p + len + vel) < q
    ensures var s := AxisSpan(p, len, q, qlen, vel);
            s.Never? || (vel != 0.0 && (Less(s.entry, Fin(0.0)) || !Less(s.entry, Fin(1.0)))
                         && (vel < 0.0 ==> Less(s.exit, Fin(0.0)) || !Less(s.entry, Fin(1.0))))
  {
    if vel != 0.0 {
      DivCompare(q - (p + len), vel, 0.0);
      DivCompare(q - (p + len), vel, 1.0);
      DivCompare((q + qlen) - p, vel, 0.0);
      DivCompare((q + qlen) - p, vel, 1.0);
    }
  }

  /** A cell lies between the floors of an interval's ends exactly if it meets the closed interval. */
  lemma FloorsMeet(low: real, high: real, tile: real, c: int)
    requires tile > 0.0
    ensures (low / tile).Floor <= c <= (high / tile).Floor <==> low < (c + 1) as real * tile && c as real * tile <= high
  {
    FloorBelow(low, tile, c);
    FloorBelow(low, tile, c + 1);
    FloorBelow(high, tile, c);
    FloorBelow(high, tile, c - 1);
  }

  /**
    The candidates are the cells, each with its left and upper side, that meet the
    smallest closed rectangle around the box at its start and at its end.
   */
  lemma CandidatesMeetTheSweep(lv: Level, box: Box, velX: real, velY: real, i: nat)
    requires ValidLevel(lv) && i < |lv.tiles|
    ensures lv.tile > 0.0 && lv.gridX > 0
    ensures var cell, endX, endY := CellBox(lv.tile, Col(lv.gridX, i), Row(lv.gridX, i)), box.x + velX, box.y + velY;
      Candidate(lv, box, velX, velY, i) <==>
        && (velX != 0.0 || velY != 0.0)
        && (box.x < cell.Right() || endX < cell.Right()) && (cell.x <= box.Right() || cell.x <= endX + box.width)
        && (box.y < cell.Bottom() || endY < cell.Bottom()) && (cell.y <= box.Bottom() || cell.y <= endY + box.height)
  {
    hide Bounds;
    CellOfIndex(lv.gridX, lv.gridY, i);
    BoundsMeet(lv.tile, box, velX, velY, Col(lv.gridX, i), Row(lv.gridX, i));
  }

  lemma BoundsMeet(tile: real, box: Box, velX: real, velY: real, x: int, y: int)
    requires tile > 0.0
    ensures var r, cell, endX, endY := Bounds(tile, box, velX, velY), CellBox(tile, x, y), box.x + velX, box.y + velY;
      && (r.left <= x <= r.right <==>
            (box.x < cell.Right() || endX < cell.Right()) && (cell.x <= box.Right() || cell.x <= endX + box.width))
      && (r.top <= y <= r.bottom <==>
            (box.y < cell.Bottom() || endY < cell.Bottom()) && (cell.y <= box.Bottom() || cell.y <= endY + box.height))
  {
    AxisMeets(box.x, box.width, velX, tile, x);
    AxisMeets(box.y, box.height, velY, tile, y);
  }

  lemma AxisMeets(p: real, len: real, vel: real, tile: real, c: int)
    requires tile > 0.0
    ensures (FMin(p, p + vel) / tile).Floor <= c <= (FMax(p + len, p + len + vel) / tile).Floor <==>
      var q := c as real * tile;
      && (p < q + tile || p + vel < q + tile) && (q <= p + len || q <= p + vel + len)
  {
    FloorsMeet(FMin(p, p + vel), FMax(p + len, p + len + vel), tile, c);
    NextEdge(tile, c);
  }

  lemma NextEdge(tile: real, c: int)
    ensures (c + 1) as real * tile == c as real * tile + tile
  {
  }

  /** A cell outside the rectangle offers no contact before the end of a move with a covered velocity. */
  lemma OutsiderIsLate(tile: real, box: Box, velX: real, velY: real, x: int, y: int)
    requires tile > 0.0 && box.width >= 0.0 && box.height >= 0.0
    requires Covered(velX, velY)
    requires (velX == 0.0 && velY == 0.0) || !Inside(Bounds(tile, box, velX, velY), x, y)
    ensures SweptAABB(box, CellBox(tile, x, y), velX, velY).entryTime >= 1.0
  {
    if velX != 0.0 || velY != 0.0 {
      hide AxisSpan;
      var r := Bounds(tile, box, velX, velY);
      if x < r.left || x > r.right {
        LateOnAxis(box.x, box.width, velX, tile, x);
      } else {
        LateOnAxis(box.y, box.height, velY, tile, y);
      }
      SpanShape(box.x, box.width, x as real * tile, tile, velX);
      SpanShape(box.y, box.height, y as real * tile, tile, velY);
    }
  }

  lemma SpanShape(p: real, len: real, q: real, qlen: real, vel: real)
    ensures var s := AxisSpan(p, len, q, qlen, vel);
            if vel == 0.0 then s.Never? || s == During(NegInf, PosInf) else s.During? && s.entry.Fin? && s.exit.Fin?
  {
  }

  lemma ScanBounds(lv: Level, box: Box, velX: real, velY: real, n: nat)
    requires n <= |lv.tiles|
    ensures ScanAll(lv, box, velX, velY, n).entryTime <= 1.0
  {
  }

  /** Clamping drops only cells that are off the map. */
  lemma NonCandidateIsLate(lv: Level, box: Box, velX: real, velY: real, i: nat)
    requires ValidLevel(lv) && i < |lv.tiles| && lv.tiles[i].Solid?
    requires box.width >= 0.0 && box.height >= 0.0
    requires Covered(velX, velY)
    requires !Candidate(lv, box, velX, velY, i)
    ensures SweptAABB(box, lv.tiles[i].box, velX, velY).entryTime >= 1.0
  {
    CellOfIndex(lv.gridX, lv.gridY, i);
    OutsiderIsLate(lv.tile, box, velX, velY, Col(lv.gridX, i), Row(lv.gridX, i));
  }

  lemma {:induction false} PrefixesAgree(lv: Level, box: Box, velX: real, velY: real, n: nat)
    requires ValidLevel(lv) && n <= |lv.tiles|
    requires box.width >= 0.0 && box.height >= 0.0
    requires Covered(velX, velY)
    ensures ScanCandidates(lv, box, velX, velY, n) == ScanAll(lv, box, velX, velY, n)
  {
    if n == 0 {
    } else {
      PrefixesAgree(lv, box, velX, velY, n - 1);
      ScanBounds(lv, box, velX, velY, n - 1);
      if lv.tiles[n - 1].Solid? && !Candidate(lv, box, velX, velY, n - 1) {
        NonCandidateIsLate(lv, box, velX, velY, n - 1);
      }
    }
  }

  /**
    For every covered velocity, and so for every one-axis velocity, the candidates
    give the same entry time, hit flag and normals as all gridX * gridY tiles.
   */
  lemma BroadPhaseIsExact(lv: Level, box: Box, velX: real, velY: real)
    requires ValidLevel(lv)
    requires box.width >= 0.0 && box.height >= 0.0
    requires Covered(velX, velY)
    ensures Swept(lv, box, velX, velY) == ScanAll(lv, box, velX, velY, |lv.tiles|)
  {
    PrefixesAgree(lv, box, velX, velY, |lv.tiles|);
  }

  /** The scan of a level of two by two cells, of which one is solid. */
  lemma LoneTileScans(lv: Level, box: Box, velX: real, velY: real, i: nat)
    requires lv.tile > 0.0 && lv.gridX > 0 && |lv.tiles| == 4 && i < 4
    requires forall j :: 0 <= j < 4 ==> (lv.tiles[j].Solid? <==> j == i)
    requires !Candidate(lv, box, velX, velY, i)
    requires SweptAABB(box, lv.tiles[i].box, velX, velY).entryTime == 0.0
    ensures Swept(lv, box, velX, velY).entryTime == 1.0 && ScanAll(lv, box, velX, velY, 4).entryTime == 0.0
  {
    hide SweptAABB, Candidate;
    assert ScanAll(lv, box, velX, velY, 0) == ScanCandidates(lv, box, velX, velY, 0) == NO_COLLISION;
    assert ScanCandidates(lv, box, velX, velY, 1) == NO_COLLISION;
    assert ScanCandidates(lv, box, velX, velY, 2) == NO_COLLISION;
    assert ScanCandidates(lv, box, velX, velY, 3) == NO_COLLISION;
    assert ScanAll(lv, box, velX, velY, 1).entryTime == if i == 0 then 0.0 else 1.0;
    assert ScanAll(lv, box, velX, velY, 2).entryTime == if i <= 1 then 0.0 else 1.0;
    assert ScanAll(lv, box, velX, velY, 3).entryTime == if i <= 2 then 0.0 else 1.0;
  }

  /** Two by two cells of side 1, of which the one in column `i` of the upper row is solid. */
  function CornerLevel(i: nat): Level
    requires i < 2
  {
    Level(1.0, 2, 2, seq(4, j => if j == i then Solid(CellBox(1.0, i, 0)) else Empty))
  }

  /** A box that fills the cell of the lower row diagonally below that tile. */
  function CornerBox(i: nat): Box { Box(if i == 0 then 1.0 else 0.0, 1.0, 1.0, 1.0) }

  lemma CornerFacts(i: nat)
    requires i < 2
    ensures ValidLevel(CornerLevel(i)) && Free(CornerLevel(i), CornerBox(i))
  {
  }

  /** The box already fills whole cells, so the rectangle starts with its own row and column. */
  lemma CornerOutside(velX: real, velY: real, i: nat)
    requires i < 2 && (velY > 0.0 || (velX > 0.0 && i == 0))
    ensures !Candidate(CornerLevel(i), CornerBox(i), velX, velY, i)
  {
    FloorBelow(1.0, 1.0, 0);
  }

  /**
    For every other velocity the candidates can miss a contact at a corner: the
    tile is touched at time 0 and lies just left of or above the rectangle.
   */
  lemma UncoveredDisagrees(velX: real, velY: real) returns (lv: Level, box: Box)
    requires !Covered(velX, velY)
    ensures ValidLevel(lv) && box.width > 0.0 && box.height > 0.0 && Free(lv, box)
    ensures Swept(lv, box, velX, velY) != ScanAll(lv, box, velX, velY, |lv.tiles|)
  {
    hide ValidLevel, Free, Swept, ScanAll, SweptAABB, Candidate;
    var i := if velX > 0.0 && velY > 0.0 then 1 else 0;
    lv, box := CornerLevel(i), CornerBox(i);
    CornerFacts(i);
    CornerOutside(velX, velY, i);
    CornerTouch(box, CellBox(1.0, i, 0), velX, velY);
    LoneTileScans(lv, box, velX, velY, i);
  }

  lemma CornerTouch(a: Box, b: Box, velX: real, velY: real)
    requires a.width == a.height == b.width == b.height == 1.0 && a.y == b.y + 1.0
    requires if velX > 0.0 && velY > 0.0 then a.x == b.x - 1.0
             else a.x == b.x + 1.0 && velX != 0.0 && velY != 0.0 && (velX > 0.0 || velY > 0.0)
    ensures SweptAABB(a, b, velX, velY).entryTime == 0.0
  {
    DivCompare(2.0, velX, 0.0);
    DivCompare(-2.0, velX, 0.0);
    DivCompare(2.0, velY, 0.0);
    DivCompare(-2.0, velY, 0.0);
  }

  /** On every level and for every free box the candidates give what all tiles give. */
  ghost predicate CandidatesSuffice(velX: real, velY: real) {
    forall lv: Level, box: Box ::
      ValidLevel(lv) && box.width > 0.0 && box.height > 0.0 && Free(lv, box) ==>
        Swept(lv, box, velX, velY) == ScanAll(lv, box, velX, velY, |lv.tiles|)
  }

  /**
    Exactly when the broad phase loses nothing: on every level, from every free
    start, if and only if at most one axis moves or both move towards smaller
    coordinates. The world calls it for one axis at a time.
   */
  lemma CoveredExactly(velX: real, velY: real)
    ensures CandidatesSuffice(velX, velY) <==> velX == 0.0 || velY == 0.0 || (velX < 0.0 && velY < 0.0)
  {
    hide Swept, ScanAll, ValidLevel, Free;
    if Covered(velX, velY) {
      forall lv: Level, box: Box | ValidLevel(lv) && box.width > 0.0 && box.height > 0.0
        ensures lv.tile > 0.0 && lv.gridX > 0 && Swept(lv, box, velX, velY) == ScanAll(lv, box, velX, velY, |lv.tiles|)
      {
        HasGrid(lv);
        BroadPhaseIsExact(lv, box, velX, velY);
      }
    } else {
      var lv, box := UncoveredDisagrees(velX, velY);
    }
  }

  // ------------------------------------------------ what the sweep amounts to

  /** The scan is the minimum over the solid tiles, attained by one of them when it is a hit. */
  lemma {:induction false} ScanIsMinimum(lv: Level, box: Box, velX: real, velY: real, n: nat)
    requires n <= |lv.tiles|
    ensures var r := ScanAll(lv, box, velX, velY, n);
      && r.entryTime <= 1.0 && (r.hit <==> r.entryTime < 1.0)
      && (!r.hit ==> r == NO_COLLISION)
      && (r.hit ==> exists i :: 0 <= i < n && lv.tiles[i].Solid? && r == SweptAABB(box, lv.tiles[i].box, velX, velY))
      && (forall i :: 0 <= i < n && lv.tiles[i].Solid? ==>
            r.entryTime <= SweptAABB(box, lv.tiles[i].box, velX, velY).entryTime)
  {
    if n == 0 {
    } else {
      ScanIsMinimum(lv, box, velX, velY, n - 1);
    }
  }

  /** Of several tiles that are met at the same time the first one of the map is reported. */
  lemma {:induction false} FirstOfTheEarliest(lv: Level, box: Box, velX: real, velY: real, n: nat)
    requires n <= |lv.tiles| && ScanAll(lv, box, velX, velY, n).hit
    ensures var r := ScanAll(lv, box, velX, velY, n);
      exists i :: 0 <= i < n && lv.tiles[i].Solid? && r == SweptAABB(box, lv.tiles[i].box, velX, velY)
        && forall j :: 0 <= j < i && lv.tiles[j].Solid? ==> r.entryTime < SweptAABB(box, lv.tiles[j].box, velX, velY).entryTime
  {
    hide SweptAABB;
    if n == 0 {
    } else {
      var best, r := ScanAll(lv, box, velX, velY, n - 1), ScanAll(lv, box, velX, velY, n);
      ScanIsMinimum(lv, box, velX, velY, n - 1);
      if r == best {
        FirstOfTheEarliest(lv, box, velX, velY, n - 1);
      } else {
        assert lv.tiles[n - 1].Solid? && r == SweptAABB(box, lv.tiles[n - 1].box, velX, velY);
      }
    }
  }

  /** No interior point of a solid tile is met at any time in [0, t]. */
  ghost predicate FreeUntil(lv: Level, box: Box, velX: real, velY: real, t: real) {
    forall s: real :: 0.0 <= s <= t ==> Free(lv, At(box, velX, velY, s))
  }

  /**
    The heart of the physics. For a one-axis velocity and a free starting box
    the reported time is the greatest t in [0,1] such that the box is free
    throughout [0,t], and a hit is reported exactly when that t is below 1.
   */
  lemma SweptIsGreatestFreeTime(lv: Level, box: Box, velX: real, velY: real)
    requires ValidLevel(lv) && Free(lv, box)
    requires box.width > 0.0 && box.height > 0.0
    requires velX == 0.0 || velY == 0.0
    ensures var r := Swept(lv, box, velX, velY);
      && 0.0 <= r.entryTime <= 1.0 && (r.hit <==> r.entryTime < 1.0)
      && FreeUntil(lv, box, velX, velY, r.entryTime)
      && forall t: real :: r.entryTime < t <= 1.0 ==> !FreeUntil(lv, box, velX, velY, t)
  {
    var r := Swept(lv, box, velX, velY);
    BroadPhaseIsExact(lv, box, velX, velY);
    ScanIsMinimum(lv, box, velX, velY, |lv.tiles|);
    forall s: real | 0.0 <= s <= r.entryTime ensures Free(lv, At(box, velX, velY, s)) {
      forall i | 0 <= i < |lv.tiles| && lv.tiles[i].Solid?
        ensures !Overlaps(At(box, velX, velY, s), lv.tiles[i].box)
      {
        SweptIsSafe(box, lv.tiles[i].box, velX, velY, s);
      }
    }
    forall t: real | r.entryTime < t <= 1.0 ensures !FreeUntil(lv, box, velX, velY, t) {
      var i :| 0 <= i < |lv.tiles| && lv.tiles[i].Solid? && r == SweptAABB(box, lv.tiles[i].box, velX, velY);
      var s := OneAxisHitWouldPenetrate(box, lv.tiles[i].box, velX, velY, t);
      assert !Free(lv, At(box, velX, velY, s));
    }
  }

  /** The range and the witness of a one-axis sweep from any start, free or not. */
  lemma SweptFacts(lv: Level, box: Box, velX: real, velY: real)
    requires ValidLevel(lv) && box.width >= 0.0 && box.height >= 0.0
    requires velX == 0.0 || velY == 0.0
    ensures var r := Swept(lv, box, velX, velY);
      && 0.0 <= r.entryTime <= 1.0 && (r.hit <==> r.entryTime < 1.0)
      && (r.hit ==> exists i :: 0 <= i < |lv.tiles| && lv.tiles[i].Solid? && r == SweptAABB(box, lv.tiles[i].box, velX, velY))
      && (forall i :: 0 <= i < |lv.tiles| && lv.tiles[i].Solid? ==>
            r.entryTime <= SweptAABB(box, lv.tiles[i].box, velX, velY).entryTime)
  {
    BroadPhaseIsExact(lv, box, velX, velY);
    ScanIsMinimum(lv, box, velX, velY, |lv.tiles|);
  }

  lemma SweptAtMost(lv: Level, box: Box, velX: real, velY: real, i: nat)
    requires ValidLevel(lv) && box.width >= 0.0 && box.height >= 0.0
    requires velX == 0.0 || velY == 0.0
    requires i < |lv.tiles| && lv.tiles[i].Solid?
    ensures lv.tile > 0.0 && lv.gridX > 0 && lv.tiles[i].box.width > 0.0 && lv.tiles[i].box.height > 0.0
    ensures var r := Swept(lv, box, velX, velY);
      0.0 <= r.entryTime <= 1.0 && r.entryTime <= SweptAABB(box, lv.tiles[i].box, velX, velY).entryTime
  {
    SweptFacts(lv, box, velX, velY);
  }

  /** A horizontal move never carries the box past a solid tile that lies in its way. */
  lemma NeverPassesX(lv: Level, box: Box, velX: real, i: nat)
    requires ValidLevel(lv) && box.width > 0.0 && box.height > 0.0
    requires i < |lv.tiles| && lv.tiles[i].Solid?
    requires var b := lv.tiles[i].box; box.y < b.Bottom() && b.y < box.Bottom()
    ensures var b, dx := lv.tiles[i].box, velX * Swept(lv, box, velX, 0.0).entryTime;
      (b.Right() <= box.x ==> b.Right() <= box.x + dx) && (box.Right() <= b.x ==> box.Right() + dx <= b.x)
  {
    hide ValidLevel, Swept, SweptAABB;
    SweptAtMost(lv, box, velX, 0.0, i);
    StopsShortX(box, lv.tiles[i].box, velX, Swept(lv, box, velX, 0.0).entryTime);
  }

  /** A vertical move never carries the box past a solid tile that lies in its way. */
  lemma NeverPassesY(lv: Level, box: Box, velY: real, i: nat)
    requires ValidLevel(lv) && box.width > 0.0 && box.height > 0.0
    requires i < |lv.tiles| && lv.tiles[i].Solid?
    requires var b := lv.tiles[i].box; box.x < b.Right() && b.x < box.Right()
    ensures var b, dy := lv.tiles[i].box, velY * Swept(lv, box, 0.0, velY).entryTime;
      (b.Bottom() <= box.y ==> b.Bottom() <= box.y + dy) && (box.Bottom() <= b.y ==> box.Bottom() + dy <= b.y)
  {
    hide ValidLevel, Swept, SweptAABB;
    SweptAtMost(lv, box, 0.0, velY, i);
    StopsShortY(box, lv.tiles[i].box, velY, Swept(lv, box, 0.0, velY).entryTime);
  }
}
