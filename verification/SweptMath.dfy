/**
  The continuous collision test of one moving box against one still box
  (src/game/physics/swept_math.cpp).

  Coordinates, sizes and times are exact reals; the infinities that the code
  uses for a still axis are the two outer constructors of `ExtReal`.
 */
module SweptMath {

  /** An axis-aligned box; `x`, `y` is its top-left corner and `y` grows downwards. */
  datatype Box = Box(x: real, y: real, width: real, height: real) {
    function Right(): real { x + width }
    function Bottom(): real { y + height }
  }

  /** The box after it has travelled for time `t` with a constant velocity. */
  function At(box: Box, velX: real, velY: real, t: real): Box {
    box.(x := box.x + velX * t, y := box.y + velY * t)
  }

  /** The interiors of two boxes share a point. */
  predicate Overlaps(a: Box, b: Box) {
    a.x < b.Right() && b.x < a.Right() && a.y < b.Bottom() && b.y < a.Bottom()
  }

  /** Two boxes, borders included, share a point. */
  predicate Touches(a: Box, b: Box) {
    a.x <= b.Right() && b.x <= a.Right() && a.y <= b.Bottom() && b.y <= a.Bottom()
  }

  datatype ExtReal = NegInf | Fin(value: real) | PosInf

  predicate Less(a: ExtReal, b: ExtReal) {
    match (a, b)
    case (Fin(u), Fin(v)) => u < v
    case (NegInf, _) => !b.NegInf?
    case (_, PosInf) => !a.PosInf?
    case _ => false
  }

  function Max(a: ExtReal, b: ExtReal): ExtReal { if Less(a, b) then b else a }
  function Min(a: ExtReal, b: ExtReal): ExtReal { if Less(b, a) then b else a }

  /** The result record; a normal is an unsigned byte, so -1 is stored as 255. */
  datatype SweptData = SweptData(entryTime: real, normalX: int, normalY: int, hit: bool)

  const NO_COLLISION := SweptData(1.0, 0, 0, false)
  const MINUS_ONE := 255

  /** The times during which the two boxes share points along one axis. */
  datatype Span = Never | During(entry: ExtReal, exit: ExtReal)

  /** Entry and exit time of [p, p + len] moving with `vel` against the still [q, q + qlen]. */
  function AxisSpan(p: real, len: real, q: real, qlen: real, vel: real): Span {
    if vel > 0.0 then During(Fin((q - (p + len)) / vel), Fin(((q + qlen) - p) / vel))
    else if vel < 0.0 then During(Fin(((q + qlen) - p) / vel), Fin((q - (p + len)) / vel))
    else if p + len <= q || p >= q + qlen then Never
    else During(NegInf, PosInf)
  }

  function XSpan(a: Box, b: Box, velX: real): Span { AxisSpan(a.x, a.width, b.x, b.width, velX) }
  function YSpan(a: Box, b: Box, velY: real): Span { AxisSpan(a.y, a.height, b.y, b.height, velY) }

  /** When, and through which face, the moving box `a` first meets `b` within one unit of time. */
  function SweptAABB(a: Box, b: Box, velX: real, velY: real): SweptData {
    if velX == 0.0 && velY == 0.0 then NO_COLLISION else
    var xs := XSpan(a, b, velX);
    var ys := YSpan(a, b, velY);
    if xs.Never? || ys.Never? then NO_COLLISION else
    var entry := Max(xs.entry, ys.entry);
    var exit := Min(xs.exit, ys.exit);
    if Less(exit, entry) || Less(entry, Fin(0.0)) || Less(Fin(1.0), entry) then NO_COLLISION
    else if Less(ys.entry, xs.entry) then
      SweptData(entry.value, if velX > 0.0 then MINUS_ONE else 1, 0, true)
    else
      SweptData(entry.value, 0, if velY > 0.0 then MINUS_ONE else 1, true)
  }

  // ---------------------------------------------------------------- one axis

  /** A quotient compares with `t` as its numerator compares with `vel * t`. */
  lemma DivCompare(n: real, vel: real, t: real)
    requires vel != 0.0
    ensures vel > 0.0 ==> (n / vel < t <==> n < vel * t) && (n / vel <= t <==> n <= vel * t)
    ensures vel < 0.0 ==> (n / vel < t <==> n > vel * t) && (n / vel <= t <==> n >= vel * t)
  {
    var d := n / vel;
    assert n == d * vel;
    if d < t { assert vel > 0.0 ==> d * vel < t * vel; assert vel < 0.0 ==> d * vel > t * vel; }
    if d > t { assert vel > 0.0 ==> d * vel > t * vel; assert vel < 0.0 ==> d * vel < t * vel; }
  }

  /** The intervals share interior points at time `t` exactly strictly between entry and exit. */
  lemma AxisOpen(p: real, len: real, q: real, qlen: real, vel: real, t: real)
    ensures var s := AxisSpan(p, len, q, qlen, vel);
            var pos := p + vel * t;
            pos < q + qlen && q < pos + len
            <==> s.During? && Less(s.entry, Fin(t)) && Less(Fin(t), s.exit)
  {
    if vel != 0.0 {
      DivCompare(q - (p + len), vel, t);
      DivCompare((q + qlen) - p, vel, t);
    }
  }

  /** On a moving axis the closed intervals meet exactly from entry to exit. */
  lemma AxisClosed(p: real, len: real, q: real, qlen: real, vel: real, t: real)
    requires vel != 0.0
    ensures var s := AxisSpan(p, len, q, qlen, vel);
            var pos := p + vel * t;
            pos <= q + qlen && q <= pos + len
            <==> !Less(Fin(t), s.entry) && !Less(s.exit, Fin(t))
  {
    DivCompare(q - (p + len), vel, t);
    DivCompare((q + qlen) - p, vel, t);
  }

  // --------------------------------------------------------------- both axes

  lemma OverlapTimes(a: Box, b: Box, velX: real, velY: real, t: real)
    ensures var xs, ys := XSpan(a, b, velX), YSpan(a, b, velY);
            Overlaps(At(a, velX, velY, t), b)
            <==> xs.During? && ys.During?
                 && Less(Max(xs.entry, ys.entry), Fin(t)) && Less(Fin(t), Min(xs.exit, ys.exit))
  {
    AxisOpen(a.x, a.width, b.x, b.width, velX, t);
    AxisOpen(a.y, a.height, b.y, b.height, velY, t);
  }

  /**
    For any velocity and any boxes whose interiors start disjoint: up to the
    reported entry time (all of [0,1] when there is no hit) the interiors stay
    disjoint, and at a hit the closed boxes are in contact.
   */
  lemma SweptIsSafe(a: Box, b: Box, velX: real, velY: real, t: real)
    requires !Overlaps(a, b)
    requires 0.0 <= t <= SweptAABB(a, b, velX, velY).entryTime
    ensures !Overlaps(At(a, velX, velY, t), b)
    ensures var r := SweptAABB(a, b, velX, velY);
            0.0 <= r.entryTime <= 1.0 && (!r.hit ==> r.entryTime == 1.0)
            && (r.hit ==> Touches(At(a, velX, velY, r.entryTime), b))
  {
    assert At(a, velX, velY, 0.0) == a;
    OverlapTimes(a, b, velX, velY, 0.0);
    OverlapTimes(a, b, velX, velY, t);
    var r := SweptAABB(a, b, velX, velY);
    if velX == 0.0 && velY == 0.0 {
      assert At(a, velX, velY, t) == a;
    }
    if r.hit {
      MeetsTimes(a, b, velX, velY, r.entryTime);
    }
  }

  /**
    Contact at time `t` as the sweep understands it: along a moving axis the
    closed intervals meet, along a still axis they must share interior points.
   */
  ghost predicate Meets(a: Box, b: Box, velX: real, velY: real, t: real) {
    var m := At(a, velX, velY, t);
    && (if velX == 0.0 then m.x < b.Right() && b.x < m.Right() else m.x <= b.Right() && b.x <= m.Right())
    && (if velY == 0.0 then m.y < b.Bottom() && b.y < m.Bottom() else m.y <= b.Bottom() && b.y <= m.Bottom())
  }

  ghost predicate FirstContact(a: Box, b: Box, velX: real, velY: real, t: real) {
    Meets(a, b, velX, velY, t) && forall s: real :: s < t ==> !Meets(a, b, velX, velY, s)
  }

  lemma MeetsTimes(a: Box, b: Box, velX: real, velY: real, t: real)
    ensures var xs, ys := XSpan(a, b, velX), YSpan(a, b, velY);
            Meets(a, b, velX, velY, t)
            <==> xs.During? && ys.During?
                 && !Less(Fin(t), Max(xs.entry, ys.entry)) && !Less(Min(xs.exit, ys.exit), Fin(t))
  {
    if velX != 0.0 { AxisClosed(a.x, a.width, b.x, b.width, velX, t); }
    if velY != 0.0 { AxisClosed(a.y, a.height, b.y, b.height, velY, t); }
  }

  lemma FirstContactIsEntry(a: Box, b: Box, velX: real, velY: real, t: real)
    requires velX != 0.0 || velY != 0.0
    ensures var xs, ys := XSpan(a, b, velX), YSpan(a, b, velY);
            FirstContact(a, b, velX, velY, t)
            <==> xs.During? && ys.During?
                 && Max(xs.entry, ys.entry) == Fin(t) && !Less(Min(xs.exit, ys.exit), Fin(t))
  {
    var xs, ys := XSpan(a, b, velX), YSpan(a, b, velY);
    MeetsTimes(a, b, velX, velY, t);
    if xs.During? && ys.During? {
      var entry := Max(xs.entry, ys.entry);
      MeetsTimes(a, b, velX, velY, entry.value);
      forall s: real | s < entry.value ensures !Meets(a, b, velX, velY, s) {
        MeetsTimes(a, b, velX, velY, s);
      }
    }
  }

  /**
    The sweep reports a hit exactly when the contact of the two boxes, watched
    over all time, begins inside [0,1]; the entry time is that beginning.
   */
  lemma HitIsFirstContact(a: Box, b: Box, velX: real, velY: real)
    requires velX != 0.0 || velY != 0.0
    ensures var r := SweptAABB(a, b, velX, velY);
            && (r.hit <==> exists t: real :: 0.0 <= t <= 1.0 && FirstContact(a, b, velX, velY, t))
            && (r.hit ==> FirstContact(a, b, velX, velY, r.entryTime))
  {
    var r := SweptAABB(a, b, velX, velY);
    if r.hit {
      FirstContactIsEntry(a, b, velX, velY, r.entryTime);
    } else {
      forall t: real | 0.0 <= t <= 1.0 ensures !FirstContact(a, b, velX, velY, t) {
        FirstContactIsEntry(a, b, velX, velY, t);
      }
    }
  }

  /** A hit has exactly one non-zero normal, and it names the pair of faces in contact. */
  lemma NormalNamesTheFace(a: Box, b: Box, velX: real, velY: real)
    ensures var r := SweptAABB(a, b, velX, velY);
            var m := At(a, velX, velY, r.entryTime);
            && (r.hit <==> r.normalX != 0 || r.normalY != 0)
            && !(r.normalX != 0 && r.normalY != 0)
            && (r.normalX == MINUS_ONE ==> velX > 0.0 && m.Right() == b.x)
            && (r.normalX == 1 ==> velX < 0.0 && m.x == b.Right())
            && (r.normalY == MINUS_ONE ==> velY > 0.0 && m.Bottom() == b.y)
            && (r.normalY == 1 ==> velY < 0.0 && m.y == b.Bottom())
            && r.normalX in {0, 1, MINUS_ONE} && r.normalY in {0, 1, MINUS_ONE}
  {
  }

  /** The normal is vertical exactly if the leading horizontal face arrives at that moment: so also at a corner. */
  lemma CornerHitIsVertical(a: Box, b: Box, velX: real, velY: real)
    requires SweptAABB(a, b, velX, velY).hit
    ensures var r := SweptAABB(a, b, velX, velY);
            var m := At(a, velX, velY, r.entryTime);
            r.normalY != 0 <==> (velY > 0.0 && m.Bottom() == b.y) || (velY < 0.0 && m.y == b.Bottom())
  {
    NormalNamesTheFace(a, b, velX, velY);
    var t := SweptAABB(a, b, velX, velY).entryTime;
    if velY != 0.0 {
      DivCompare(b.y - a.Bottom(), velY, t);
      DivCompare(b.Bottom() - a.y, velY, t);
    }
  }

  /** Along one axis boxes of positive size penetrate immediately after a hit. */
  lemma OneAxisHitWouldPenetrate(a: Box, b: Box, velX: real, velY: real, t: real) returns (s: real)
    requires velX == 0.0 || velY == 0.0
    requires a.width > 0.0 && a.height > 0.0 && b.width > 0.0 && b.height > 0.0
    requires SweptAABB(a, b, velX, velY).hit && SweptAABB(a, b, velX, velY).entryTime < t
    ensures SweptAABB(a, b, velX, velY).entryTime < s <= t
    ensures Overlaps(At(a, velX, velY, s), b)
  {
    var r := SweptAABB(a, b, velX, velY);
    var xs, ys := XSpan(a, b, velX), YSpan(a, b, velY);
    var span := if velX != 0.0 then xs else ys;
    assert span.entry.value < span.exit.value by {
      if velX != 0.0 {
        DivOrder(b.x - a.Right(), b.Right() - a.x, velX);
      } else {
        DivOrder(b.y - a.Bottom(), b.Bottom() - a.y, velY);
      }
    }
    var mid := (r.entryTime + span.exit.value) / 2.0;
    s := if mid < t then mid else t;
    OverlapTimes(a, b, velX, velY, s);
  }

  lemma DivOrder(m: real, n: real, vel: real)
    requires m < n && vel != 0.0
    ensures vel > 0.0 ==> m / vel < n / vel
    ensures vel < 0.0 ==> n / vel < m / vel
  {
    DivCompare(m, vel, n / vel);
    assert vel * (n / vel) == n;
  }

  /** A horizontal sweep over a tile in its path enters it at the entry time of the x axis. */
  lemma HorizontalEntry(a: Box, b: Box, velX: real)
    requires a.width > 0.0 && b.width > 0.0 && velX != 0.0
    requires a.y < b.Bottom() && b.y < a.Bottom()
    ensures var e := XSpan(a, b, velX).entry;
            e.Fin? && (0.0 <= e.value <= 1.0 ==> SweptAABB(a, b, velX, 0.0).entryTime == e.value)
  {
    DivOrder(b.x - a.Right(), b.Right() - a.x, velX);
  }

  lemma VerticalEntry(a: Box, b: Box, velY: real)
    requires a.height > 0.0 && b.height > 0.0 && velY != 0.0
    requires a.x < b.Right() && b.x < a.Right()
    ensures var e := YSpan(a, b, velY).entry;
            e.Fin? && (0.0 <= e.value <= 1.0 ==> SweptAABB(a, b, 0.0, velY).entryTime == e.value)
  {
    DivOrder(b.y - a.Bottom(), b.Bottom() - a.y, velY);
  }

  /** Stopping no later than a contact that begins in [0,1] keeps an interval on its side. */
  lemma StopsShort(p: real, len: real, q: real, qlen: real, vel: real, t: real)
    requires len > 0.0 && qlen > 0.0 && vel != 0.0 && 0.0 <= t <= 1.0
    requires var e := AxisSpan(p, len, q, qlen, vel).entry; 0.0 <= e.value <= 1.0 ==> t <= e.value
    ensures q + qlen <= p ==> q + qlen <= p + vel * t
    ensures p + len <= q ==> p + len + vel * t <= q
  {
    var n := if vel > 0.0 then q - (p + len) else (q + qlen) - p;
    DivCompare(n, vel, t);
    DivCompare(n, vel, 0.0);
    DivCompare(n, vel, 1.0);
    assert vel * (n / vel) == n;
    if vel > 0.0 { assert vel * t >= 0.0 && vel * t <= vel; } else { assert vel * t <= 0.0 && vel * t >= vel; }
  }

  lemma StopsShortX(a: Box, b: Box, velX: real, t: real)
    requires a.width > 0.0 && b.width > 0.0 && a.y < b.Bottom() && b.y < a.Bottom()
    requires 0.0 <= t <= 1.0 && t <= SweptAABB(a, b, velX, 0.0).entryTime
    ensures b.Right() <= a.x ==> b.Right() <= a.x + velX * t
    ensures a.Right() <= b.x ==> a.Right() + velX * t <= b.x
  {
    if velX != 0.0 {
      HorizontalEntry(a, b, velX);
      StopsShort(a.x, a.width, b.x, b.width, velX, t);
    }
  }

  lemma StopsShortY(a: Box, b: Box, velY: real, t: real)
    requires a.height > 0.0 && b.height > 0.0 && a.x < b.Right() && b.x < a.Right()
    requires 0.0 <= t <= 1.0 && t <= SweptAABB(a, b, 0.0, velY).entryTime
    ensures b.Bottom() <= a.y ==> b.Bottom() <= a.y + velY * t
    ensures a.Bottom() <= b.y ==> a.Bottom() + velY * t <= b.y
  {
    if velY != 0.0 {
      VerticalEntry(a, b, velY);
      StopsShort(a.y, a.height, b.y, b.height, velY, t);
    }
  }
}
