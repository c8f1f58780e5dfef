/**
 * The direction a handle position reports (RockerView.calcDegrees and the
 * four-way if chain of RockerView.onTouchEvent). acos has no counterpart
 * over Dafny's reals, so an angle is kept as the cosine it was computed from.
 */
module Heading {
  import opened Geometry

  datatype Direction = Right | Down | Up | Left

  /**
   * A value of calcDegrees. Deg(c, n) stands for acos(c) converted to
   * degrees, negated when n holds; NaN is what 0/0 turns into when the
   * target sits on the origin.
   */
  datatype Degrees = NaN | Deg(cosine: real, negated: bool)

  /**
   * calcDegrees(originX, originY, targetX, targetY): the offset is
   * x = targetX - originX and y = originY - targetY, its length is
   * sqrt(x*x + y*y), the cosine is x over that length, and the angle is
   * negated when targetY < originY.
   */
  function CalcDegrees(originX: real, originY: real, targetX: real, targetY: real, sqrt: real -> real): (d: Degrees)
    requires IsSqrt(sqrt)
    ensures d.NaN? <==> targetX == originX && targetY == originY
    ensures d.Deg? ==> -1.0 <= d.cosine <= 1.0
    ensures d.Deg? ==>
      var x, y := targetX - originX, originY - targetY;
      Sq(d.cosine) * (Sq(x) + Sq(y)) == Sq(x) &&
      (d.cosine >= 0.0 <==> x >= 0.0) && (d.cosine > 0.0 <==> x > 0.0)
  {
    var x := targetX - originX;
    var y := originY - targetY;
    var xie := sqrt(Sq(x) + Sq(y));
    HypotFacts(x, y, sqrt);
    CentreCase(x, y, xie);
    if xie == 0.0 then
      NaN
    else
      CosineFacts(x, y, xie);
      Deg(x / xie, targetY < originY)
  }

  /** The length of the offset is zero exactly at the origin. */
  lemma CentreCase(x: real, y: real, xie: real)
    requires xie >= 0.0 && Sq(xie) == Sq(x) + Sq(y)
    ensures xie == 0.0 <==> x == 0.0 && y == 0.0
  {
    SqFacts(x);
    SqFacts(y);
    SqFacts(xie);
  }

  /** a <= b and a < b are preserved by multiplying with a positive k. */
  lemma MulCompare(a: real, b: real, k: real)
    requires k > 0.0
    ensures a <= b <==> a * k <= b * k
    ensures a < b <==> a * k < b * k
  {
  }

  lemma CosineFacts(x: real, y: real, xie: real)
    requires xie > 0.0 && Sq(xie) == Sq(x) + Sq(y)
    ensures var c := x / xie;
      -1.0 <= c <= 1.0 &&
      Sq(c) * Sq(xie) == Sq(x) &&
      (c >= 0.0 <==> x >= 0.0) && (c > 0.0 <==> x > 0.0) &&
      (y != 0.0 ==> -1.0 < c < 1.0)
  {
    var c := x / xie;
    assert c * xie == x;
    SqProduct(c, xie);
    SqFacts(x);
    SqFacts(y);
    SqMonotone(Abs(x), xie);
    MulCompare(1.0, c, xie);
    MulCompare(c, -1.0, xie);
    MulCompare(0.0, c, xie);
  }

  /** The four thresholds the if chain compares against. */
  predicate IsBound(t: int) {
    t == 45 || t == 135 || t == -45 || t == -135
  }

  /**
   * acos(c) <= a degrees, for a in {45, 135}. acos falls on [-1, 1], so this
   * is c >= cos a, where cos 45 = sqrt(2)/2 = -cos 135; the comparison with
   * sqrt(2)/2 is made on squares.
   */
  predicate AcosAtMost(c: real, a: int)
    requires a == 45 || a == 135
  {
    if a == 45 then c >= 0.0 && 2.0 * Sq(c) >= 1.0
    else c >= 0.0 || 2.0 * Sq(c) <= 1.0
  }

  /** acos(c) < a degrees, for a in {45, 135}: c > cos a. */
  predicate AcosBelow(c: real, a: int)
    requires a == 45 || a == 135
  {
    if a == 45 then c > 0.0 && 2.0 * Sq(c) > 1.0
    else c >= 0.0 || 2.0 * Sq(c) < 1.0
  }

  /** Java's d <= t on a double: false when d is NaN. */
  predicate AtMost(d: Degrees, t: int)
    requires IsBound(t)
  {
    match d
    case NaN => false
    case Deg(c, negated) =>
      if !negated then t > 0 && AcosAtMost(c, t)   // 0 <= acos(c) <= t
      else t > 0 || !AcosBelow(c, -t)              // -acos(c) <= t
  }

  /** Java's d > t on a double: false when d is NaN. */
  predicate Above(d: Degrees, t: int)
    requires IsBound(t)
  {
    d.Deg? && !AtMost(d, t)
  }

  /** The if chain of onTouchEvent, returning the bucket instead of printing it. */
  function DirectionOf(d: Degrees): Direction {
    if AtMost(d, 45) && Above(d, -45) then Right
    else if Above(d, 45) && AtMost(d, 135) then Down
    else if AtMost(d, -45) && Above(d, -135) then Up
    else Left
  }

  /** calcDegrees is negative: negated and acos(cosine) > 0. */
  predicate IsNegative(d: Degrees) {
    d.Deg? && d.negated && d.cosine < 1.0
  }

  /**
   * The four sectors stated on the offset (dx, dy) = (handle x - centre x,
   * centre y - handle y), so that up is positive: Right is the quarter around
   * the positive x axis with its lower diagonal, Down the quarter below the
   * centre on screen, Up the quarter above it, Left the rest and the centre.
   */
  function Sector(dx: real, dy: real): Direction {
    if (dx, dy) != (0.0, 0.0) && ((dy <= 0.0 && dx >= -dy) || (dy > 0.0 && dx > dy)) then Right
    else if dy < 0.0 && dy <= dx < -dy then Down
    else if dy > 0.0 && -dy < dx <= dy then Up
    else Left
  }

  /** Comparing 2c^2 with 1 is comparing |y| with |x|. */
  lemma HalfSquareCompare(c: real, x: real, y: real)
    requires Sq(x) + Sq(y) > 0.0 && Sq(c) * (Sq(x) + Sq(y)) == Sq(x)
    ensures 2.0 * Sq(c) >= 1.0 <==> Abs(y) <= Abs(x)
    ensures 2.0 * Sq(c) > 1.0 <==> Abs(y) < Abs(x)
  {
    RatioCompare(Sq(c), Sq(x), Sq(y));
    SqFacts(x);
    SqFacts(y);
    SqMonotone(Abs(y), Abs(x));
  }

  /** A share q of a positive total a + b is at least one half exactly when a outweighs b. */
  lemma RatioCompare(q: real, a: real, b: real)
    requires a + b > 0.0 && q * (a + b) == a
    ensures 2.0 * q >= 1.0 <==> b <= a
    ensures 2.0 * q > 1.0 <==> b < a
  {
    var s := a + b;
    if 2.0 * q > 1.0 {
      calc { s; == 1.0 * s; < (2.0 * q) * s; == 2.0 * (q * s); == 2.0 * a; }
    } else if 2.0 * q == 1.0 {
      calc { s; == (2.0 * q) * s; == 2.0 * (q * s); == 2.0 * a; }
    } else {
      calc { s; == 1.0 * s; > (2.0 * q) * s; == 2.0 * (q * s); == 2.0 * a; }
    }
  }

  /**
   * The if chain applied to calcDegrees is the sector of the offset: the
   * inequality form of the four buckets, NaN at the centre included.
   */
  lemma DirectionOfCalcDegrees(cx: real, cy: real, hx: real, hy: real, sqrt: real -> real)
    requires IsSqrt(sqrt)
    ensures DirectionOf(CalcDegrees(cx, cy, hx, hy, sqrt)) == Sector(hx - cx, cy - hy)
  {
    var d := CalcDegrees(cx, cy, hx, hy, sqrt);
    var x, y := hx - cx, cy - hy;
    if d.Deg? {
      SqFacts(x);
      SqFacts(y);
      if x != 0.0 { SqPositive(x); } else { SqPositive(y); }
      HalfSquareCompare(d.cosine, x, y);
      assert d.negated <==> y > 0.0;
    }
  }

  /** calcDegrees is negative exactly when the target lies above the origin on screen. */
  lemma CalcDegreesNegative(originX: real, originY: real, targetX: real, targetY: real, sqrt: real -> real)
    requires IsSqrt(sqrt)
    ensures IsNegative(CalcDegrees(originX, originY, targetX, targetY, sqrt)) <==> targetY < originY
  {
    var x, y := targetX - originX, originY - targetY;
    var xie := sqrt(Sq(x) + Sq(y));
    HypotFacts(x, y, sqrt);
    if targetY < originY {
      SqFacts(x);
      SqPositive(y);
      CentreCase(x, y, xie);
      CosineFacts(x, y, xie);
    }
  }

  /**
   * calcDegrees never returns -180: a negated angle has a cosine above -1,
   * so every value lies in (-180, 180].
   */
  lemma CalcDegreesRange(originX: real, originY: real, targetX: real, targetY: real, sqrt: real -> real)
    requires IsSqrt(sqrt)
    ensures var d := CalcDegrees(originX, originY, targetX, targetY, sqrt);
      d.Deg? && d.negated ==> -1.0 < d.cosine < 1.0
  {
    var x, y := targetX - originX, originY - targetY;
    var xie := sqrt(Sq(x) + Sq(y));
    HypotFacts(x, y, sqrt);
    if targetY < originY {
      SqFacts(x);
      SqPositive(y);
      CentreCase(x, y, xie);
      CosineFacts(x, y, xie);
    }
  }

  /**
   * The boundary cases: the four axis points, the exact 45 degree diagonal
   * below-right of the centre (which the chain gives to Right) and the
   * centre itself (NaN, so Left).
   */
  lemma CompassPoints(cx: real, cy: real, sqrt: real -> real)
    requires IsSqrt(sqrt)
    ensures DirectionOf(CalcDegrees(cx, cy, cx + 1.0, cy, sqrt)) == Right
    ensures DirectionOf(CalcDegrees(cx, cy, cx, cy + 1.0, sqrt)) == Down
    ensures DirectionOf(CalcDegrees(cx, cy, cx - 1.0, cy, sqrt)) == Left
    ensures DirectionOf(CalcDegrees(cx, cy, cx, cy - 1.0, sqrt)) == Up
    ensures DirectionOf(CalcDegrees(cx, cy, cx + 1.0, cy + 1.0, sqrt)) == Right
    ensures DirectionOf(CalcDegrees(cx, cy, cx, cy, sqrt)) == Left
  {
    DirectionOfCalcDegrees(cx, cy, cx + 1.0, cy, sqrt);
    DirectionOfCalcDegrees(cx, cy, cx, cy + 1.0, sqrt);
    DirectionOfCalcDegrees(cx, cy, cx - 1.0, cy, sqrt);
    DirectionOfCalcDegrees(cx, cy, cx, cy - 1.0, sqrt);
    DirectionOfCalcDegrees(cx, cy, cx + 1.0, cy + 1.0, sqrt);
    DirectionOfCalcDegrees(cx, cy, cx, cy, sqrt);
  }

  /** The sector depends only on the direction of the offset, not its length. */
  lemma SectorScaleInvariant(dx: real, dy: real, k: real)
    requires k > 0.0
    ensures Sector(dx * k, dy * k) == Sector(dx, dy)
  {
    MulCompare(-dy, dx, k);
    MulCompare(dy, dx, k);
    MulCompare(dx, -dy, k);
    MulCompare(dx, dy, k);
    MulCompare(dy, 0.0, k);
    MulCompare(0.0, dy, k);
    MulCompare(dx, 0.0, k);
    MulCompare(0.0, dx, k);
  }

  /**
   * With a positive outer radius, clamping a touch does not change the
   * direction it reports: the clamped handle lies on the ray to the touch.
   */
  lemma ClampKeepsSector(c: Point, radius: real, p: Point, sqrt: real -> real)
    requires radius > 0.0 && IsSqrt(sqrt)
    ensures var q := Clamp(c, radius, p, sqrt);
      Sector(q.x - c.x, c.y - q.y) == Sector(p.x - c.x, c.y - p.y)
  {
    ClampPositiveScale(c, radius, p, sqrt);
    var tx, ty := p.x - c.x, p.y - c.y;
    var scale := ClampScale(radius, Hypot(tx, ty, sqrt));
    var q := Clamp(c, radius, p, sqrt);
    var dy := c.y - p.y;
    assert q.x - c.x == tx * scale;
    calc { c.y - q.y; == c.y - (c.y + ty * scale); == -(ty * scale); == dy * scale; }
    SectorScaleInvariant(tx, dy, scale);
  }
}
