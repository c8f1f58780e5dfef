/**
 * The plane geometry of the rocker: points, squared distances, the square
 * root the platform supplies, and the clamp of a touch point to the disk of
 * the outer radius around the centre (RockerView.onTouchEvent).
 */
module Geometry {

  datatype Point = Point(x: real, y: real)

  function Sq(v: real): real { v * v }

  /** Squared Euclidean distance between p and c. */
  function Dist2(p: Point, c: Point): real {
    Sq(p.x - c.x) + Sq(p.y - c.y)
  }

  /**
   * `sqrt` behaves as java.lang.Math.sqrt does over the reals on the
   * non-negative numbers. The platform's square root is a library call,
   * so the model receives it as a parameter constrained by this predicate.
   */
  ghost predicate IsSqrt(sqrt: real -> real) {
    forall v :: v >= 0.0 ==> sqrt(v) >= 0.0 && Sq(sqrt(v)) == v
  }

  /** java.lang.Math.hypot over the reals. */
  function Hypot(x: real, y: real, sqrt: real -> real): real {
    sqrt(Sq(x) + Sq(y))
  }

  function Abs(v: real): real { if v < 0.0 then -v else v }

  lemma SqFacts(v: real)
    ensures Sq(v) >= 0.0 && Sq(Abs(v)) == Sq(v) && Sq(-v) == Sq(v)
    ensures v != 0.0 ==> Sq(v) > 0.0
  {
    SqNegate(v);
    if v != 0.0 {
      SqPositive(v);
    }
  }

  lemma SqPositive(v: real)
    requires v != 0.0
    ensures Sq(v) > 0.0
  {
    calc {
      Sq(v);
    ==
      v * v;
    >
      0.0;
    }
  }

  lemma SqNegate(v: real)
    ensures Sq(-v) == Sq(v)
  {
  }

  lemma SqProduct(a: real, b: real)
    ensures Sq(a * b) == Sq(a) * Sq(b)
  {
  }

  lemma HypotFacts(x: real, y: real, sqrt: real -> real)
    requires IsSqrt(sqrt)
    ensures Hypot(x, y, sqrt) >= 0.0
    ensures Sq(Hypot(x, y, sqrt)) == Sq(x) + Sq(y)
  {
    SqFacts(x);
    SqFacts(y);
  }

  /** For non-negative a and b, comparing them is comparing their squares. */
  lemma SqMonotone(a: real, b: real)
    requires a >= 0.0 && b >= 0.0
    ensures a <= b <==> Sq(a) <= Sq(b)
    ensures a < b <==> Sq(a) < Sq(b)
  {
    if a < b {
      SqStrict(a, b);
    } else if b < a {
      SqStrict(b, a);
    }
  }

  lemma SqStrict(b: real, a: real)
    requires 0.0 <= b < a
    ensures Sq(b) < Sq(a)
  {
    var d := a - b;
    assert a == b + d;
    assert a * a == b * b + 2.0 * b * d + d * d;
    assert d * d > 0.0;
    assert b * d >= 0.0;
  }

  /** q lies on the ray that starts at c and passes through p. */
  predicate OnRay(c: Point, p: Point, q: Point) {
    (q.x - c.x) * (p.y - c.y) == (q.y - c.y) * (p.x - c.x) &&
    (q.x - c.x) * (p.x - c.x) + (q.y - c.y) * (p.y - c.y) >= 0.0
  }

  /**
   * One sample of the history loop of RockerView.onTouchEvent: the offset of
   * p from the centre c is scaled by radius / |offset| when it is longer than
   * the radius, and by 1 otherwise (so a touch on the centre never divides).
   */
  function Clamp(c: Point, radius: real, p: Point, sqrt: real -> real): Point
    requires radius >= 0.0
  {
    var tx := p.x - c.x;
    var ty := p.y - c.y;
    var scale := ClampScale(radius, Hypot(tx, ty, sqrt));
    Point(c.x + tx * scale, c.y + ty * scale)
  }

  /**
   * The clamped point never leaves the disk; a point inside it stays put, and
   * a point outside lands on the rim, on the ray from the centre through it.
   */
  lemma ClampBounds(c: Point, radius: real, p: Point, sqrt: real -> real)
    requires radius >= 0.0 && IsSqrt(sqrt)
    ensures var q := Clamp(c, radius, p, sqrt);
      Dist2(q, c) <= Sq(radius) &&
      (Dist2(p, c) <= Sq(radius) ==> q == p) &&
      (Dist2(p, c) > Sq(radius) ==> Dist2(q, c) == Sq(radius) && OnRay(c, p, q))
  {
    var tx := p.x - c.x;
    var ty := p.y - c.y;
    var touchRadius := Hypot(tx, ty, sqrt);
    HypotFacts(tx, ty, sqrt);
    SqMonotone(touchRadius, radius);
    var scale := ClampScale(radius, touchRadius);
    var q := Clamp(c, radius, p, sqrt);
    assert q.x - c.x == tx * scale && q.y - c.y == ty * scale;
    assert Dist2(p, c) == Sq(touchRadius);
    if touchRadius > radius {
      ScaledOffset(tx, ty, touchRadius, radius, scale);
      assert Dist2(q, c) == Sq(tx * scale) + Sq(ty * scale);
    } else {
      assert q == p;
    }
  }

  /** The factor Clamp applies to an offset of length h: radius / h beyond the radius, else 1. */
  function ClampScale(radius: real, h: real): real
    requires radius >= 0.0
  {
    if h > radius then radius / h else 1.0
  }

  /** Clamp, stated over the intermediate values a caller computes step by step. */
  lemma ClampSteps(c: Point, radius: real, p: Point, sqrt: real -> real, tx: real, ty: real, h: real, scale: real)
    requires radius >= 0.0
    requires tx == p.x - c.x && ty == p.y - c.y && h == Hypot(tx, ty, sqrt)
    requires scale == if h > radius then radius / h else 1.0
    ensures Clamp(c, radius, p, sqrt) == Point(c.x + tx * scale, c.y + ty * scale)
  {
  }

  /** With a positive radius Clamp only shortens the offset, never flips or zeroes it. */
  lemma ClampPositiveScale(c: Point, radius: real, p: Point, sqrt: real -> real)
    requires radius > 0.0 && IsSqrt(sqrt)
    ensures var k := ClampScale(radius, Hypot(p.x - c.x, p.y - c.y, sqrt));
      0.0 < k <= 1.0 && Clamp(c, radius, p, sqrt) == Point(c.x + (p.x - c.x) * k, c.y + (p.y - c.y) * k)
  {
  }

  /** The arithmetic behind Clamp's contract, about the offset (tx, ty). */
  lemma ScaledOffset(tx: real, ty: real, h: real, radius: real, scale: real)
    requires h >= 0.0 && radius >= 0.0 && Sq(h) == Sq(tx) + Sq(ty)
    requires scale == ClampScale(radius, h)
    ensures h > radius ==>
      Sq(tx * scale) + Sq(ty * scale) == Sq(radius) &&
      (tx * scale) * ty == (ty * scale) * tx &&
      (tx * scale) * tx + (ty * scale) * ty >= 0.0
  {
    if h > radius {
      assert scale * h == radius;
      SqProduct(tx, scale);
      SqProduct(ty, scale);
      SqProduct(scale, h);
      assert Sq(tx * scale) + Sq(ty * scale) == Sq(scale) * (Sq(tx) + Sq(ty));
      assert scale >= 0.0;
      assert (tx * scale) * tx + (ty * scale) * ty == scale * (tx * tx + ty * ty);
      assert tx * tx + ty * ty >= 0.0;
    }
  }

  /** The positions the handle is moved to, one per sample, in sample order. */
  function ClampAll(c: Point, radius: real, samples: seq<Point>, sqrt: real -> real): (qs: seq<Point>)
    requires radius >= 0.0
    ensures |qs| == |samples|
  {
    if samples == [] then []
    else ClampAll(c, radius, samples[..|samples| - 1], sqrt) + [Clamp(c, radius, samples[|samples| - 1], sqrt)]
  }

  /** Every position of a replay lies in the disk, and the i-th is the clamp of the i-th sample. */
  lemma {:induction false} ClampAllInDisk(c: Point, radius: real, samples: seq<Point>, sqrt: real -> real)
    requires radius >= 0.0 && IsSqrt(sqrt)
    ensures forall i :: 0 <= i < |samples| ==>
      ClampAll(c, radius, samples, sqrt)[i] == Clamp(c, radius, samples[i], sqrt) &&
      Dist2(ClampAll(c, radius, samples, sqrt)[i], c) <= Sq(radius)
  {
    if samples != [] {
      var n := |samples| - 1;
      ClampAllInDisk(c, radius, samples[..n], sqrt);
      ClampBounds(c, radius, samples[n], sqrt);
    }
  }
}
