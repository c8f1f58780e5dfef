/**
 * The joystick view: a background disk and a handle drawable. Layout fixes
 * the disk's centre (and, the first time, the radius), touches drag the
 * handle but never out of the disk, releasing recentres it, and every drag
 * reports which of four directions the handle points.
 */
module Rocker {
  import opened Wrappers
  import opened Geometry
  import opened Heading
  import opened Measuring
  import opened Drawables

  datatype Action = ActionDown | ActionMove | ActionUp | ActionOther

  /** A touch event: its action, the batched historical samples oldest first, and the live sample. */
  datatype MotionEvent = MotionEvent(action: Action, history: seq<Point>, x: real, y: real)

  /** The samples a drag replays, in order: the history, then the live sample last. */
  function Samples(e: MotionEvent): seq<Point>
  {
    e.history + [Point(e.x, e.y)]
  }

  /** Replaying samples one more appends that sample's clamp. */
  lemma ClampAllSnoc(c: Point, radius: real, samples: seq<Point>, p: Point, sqrt: real -> real)
    requires radius >= 0.0
    ensures ClampAll(c, radius, samples + [p], sqrt) == ClampAll(c, radius, samples, sqrt) + [Clamp(c, radius, p, sqrt)]
  {
    assert (samples + [p])[..|samples|] == samples;
  }

  lemma AppendAssociative<T>(a: seq<T>, b: seq<T>, c: seq<T>)
    ensures (a + b) + c == a + (b + c)
  {
  }

  /** Replaying one more sample of a sequence appends that sample's clamp. */
  lemma ClampAllStep(c: Point, radius: real, samples: seq<Point>, k: int, sqrt: real -> real)
    requires radius >= 0.0 && 0 <= k < |samples|
    ensures ClampAll(c, radius, samples[..k + 1], sqrt) == ClampAll(c, radius, samples[..k], sqrt) + [Clamp(c, radius, samples[k], sqrt)]
  {
    assert samples[..k + 1] == samples[..k] + [samples[k]];
    ClampAllSnoc(c, radius, samples[..k], samples[k], sqrt);
  }

  /**
   * However long the history, the last position a drag writes is the clamp
   * of the live sample, and every earlier one lies in the disk too.
   */
  lemma ReplayEndsAtLiveSample(c: Point, radius: real, e: MotionEvent, sqrt: real -> real)
    requires radius >= 0.0 && IsSqrt(sqrt)
    ensures var qs := ClampAll(c, radius, Samples(e), sqrt);
      qs[|qs| - 1] == Clamp(c, radius, Point(e.x, e.y), sqrt) &&
      forall i :: 0 <= i < |qs| ==> Dist2(qs[i], c) <= Sq(radius)
  {
    ClampAllSnoc(c, radius, e.history, Point(e.x, e.y), sqrt);
    ClampAllInDisk(c, radius, Samples(e), sqrt);
  }

  /**
   * Where the clamped handle points: with a positive radius the chain reports
   * the sector of the touch itself, so clamping never changes the direction.
   */
  lemma TouchDirection(c: Point, radius: real, p: Point, sqrt: real -> real)
    requires radius > 0.0 && IsSqrt(sqrt)
    ensures var q := Clamp(c, radius, p, sqrt);
      DirectionOf(CalcDegrees(c.x, c.y, q.x, q.y, sqrt)) == Sector(p.x - c.x, c.y - p.y)
  {
    var q := Clamp(c, radius, p, sqrt);
    DirectionOfCalcDegrees(c.x, c.y, q.x, q.y, sqrt);
    ClampKeepsSector(c, radius, p, sqrt);
  }

  /** The square root of a square is the non-negative base. */
  lemma SqrtOfSquare(sqrt: real -> real, r: real)
    requires IsSqrt(sqrt) && r >= 0.0
    ensures sqrt(Sq(r)) == r
  {
    SqFacts(r);
    var s := sqrt(Sq(r));
    SqMonotone(s, r);
    SqMonotone(r, s);
  }

  /**
   * A touch at (30, 40) on a disk of radius 5 around the origin, 50 away,
   * puts the handle at (3, 4), on the rim, and reports Down (screen y grows
   * downwards, so the point lies below the centre).
   */
  lemma ClampScenario(sqrt: real -> real)
    requires IsSqrt(sqrt)
    ensures Clamp(Point(0.0, 0.0), 5.0, Point(30.0, 40.0), sqrt) == Point(3.0, 4.0)
    ensures DirectionOf(CalcDegrees(0.0, 0.0, 3.0, 4.0, sqrt)) == Down
  {
    assert Sq(30.0) + Sq(40.0) == Sq(50.0);
    SqrtOfSquare(sqrt, 50.0);
    assert Hypot(30.0, 40.0, sqrt) == 50.0;
    DirectionOfCalcDegrees(0.0, 0.0, 3.0, 4.0, sqrt);
  }

  /**
   * A move with history (2, 0), (4, 0) and live sample (6, 0) inside a disk
   * of radius 10 around the origin visits all three points, in order.
   */
  lemma HistoryReplayScenario(sqrt: real -> real)
    requires IsSqrt(sqrt)
    ensures ClampAll(Point(0.0, 0.0), 10.0, Samples(MotionEvent(ActionMove, [Point(2.0, 0.0), Point(4.0, 0.0)], 6.0, 0.0)), sqrt)
      == [Point(2.0, 0.0), Point(4.0, 0.0), Point(6.0, 0.0)]
  {
    var c := Point(0.0, 0.0);
    var a, b, d := Point(2.0, 0.0), Point(4.0, 0.0), Point(6.0, 0.0);
    var samples := Samples(MotionEvent(ActionMove, [a, b], 6.0, 0.0));
    assert samples == [a, b, d];
    InsideStays(c, 10.0, a, sqrt);
    InsideStays(c, 10.0, b, sqrt);
    InsideStays(c, 10.0, d, sqrt);
    ReplayOfFixedPoints(c, 10.0, samples, sqrt);
  }

  /** Samples that the clamp leaves where they are are replayed unchanged, in order. */
  lemma ReplayOfFixedPoints(c: Point, radius: real, samples: seq<Point>, sqrt: real -> real)
    requires radius >= 0.0 && IsSqrt(sqrt)
    requires forall i :: 0 <= i < |samples| ==> Clamp(c, radius, samples[i], sqrt) == samples[i]
    ensures ClampAll(c, radius, samples, sqrt) == samples
  {
    ClampAllInDisk(c, radius, samples, sqrt);
  }

  /** A point on the positive x axis within the radius is left where it is. */
  lemma InsideStays(c: Point, radius: real, p: Point, sqrt: real -> real)
    requires IsSqrt(sqrt) && c == Point(0.0, 0.0) && p.y == 0.0 && 0.0 <= p.x <= radius
    ensures Clamp(c, radius, p, sqrt) == p
  {
    SqFacts(0.0);
    SqMonotone(p.x, radius);
    assert Dist2(p, c) == Sq(p.x);
    ClampBounds(c, radius, p, sqrt);
  }

  /** The layout-dependent state: the disk's centre and radius, the handle's and the background's positions. */
  datatype Frame = Frame(centre: Point, radius: real, handle: Point, background: Point)

  /**
   * The layout rule for a newly computed centre nc. An unchanged centre
   * changes nothing. A changed centre moves the background onto it; only
   * when the old centre was the origin is the handle parked on it too, and
   * then a radius of 0 becomes half the centre's distance from the origin.
   */
  function Layout(f: Frame, nc: Point, sqrt: real -> real): Frame
  {
    if nc == f.centre then f
    else if f.centre == Point(0.0, 0.0) then
      Frame(nc, if f.radius == 0.0 then 0.5 * Hypot(nc.x, nc.y, sqrt) else f.radius, nc, nc)
    else Frame(nc, f.radius, f.handle, nc)
  }

  /** The handle positions a layout writes: the new centre when it parks the handle, else none. */
  function ParkedAt(oldCentre: Point, nc: Point): seq<Point>
  {
    if nc != oldCentre && oldCentre == Point(0.0, 0.0) then [nc] else []
  }

  /**
   * Laying out the same frame twice is laying it out once, after any layout
   * the background sits on the centre, and the radius stays non-negative.
   */
  lemma LayoutSettles(f: Frame, nc: Point, sqrt: real -> real)
    requires IsSqrt(sqrt) && f.radius >= 0.0
    ensures var g := Layout(f, nc, sqrt);
      Layout(g, nc, sqrt) == g && g.centre == nc && g.radius >= 0.0 &&
      (nc != f.centre ==> g.background == nc)
  {
    HypotFacts(nc.x, nc.y, sqrt);
  }

  /**
   * The first layout away from the origin parks the handle on the centre,
   * where it is inside the disk; a later layout that moves the centre keeps
   * the handle and the radius where they were.
   */
  lemma LayoutParksOnce(f: Frame, nc: Point, sqrt: real -> real)
    requires IsSqrt(sqrt) && f.radius >= 0.0 && nc != f.centre
    ensures var g := Layout(f, nc, sqrt);
      (f.centre == Point(0.0, 0.0) ==> g.handle == g.centre && Dist2(g.handle, g.centre) <= Sq(g.radius)) &&
      (f.centre != Point(0.0, 0.0) ==> g.handle == f.handle && g.radius == f.radius)
  {
    var g := Layout(f, nc, sqrt);
    if f.centre == Point(0.0, 0.0) {
      SqFacts(g.radius);
      SqFacts(0.0);
      assert Dist2(g.handle, g.centre) == Sq(0.0) + Sq(0.0);
    }
  }

  /**
   * The radius rule: the first layout away from the origin leaves a positive
   * radius (a configured one, or half the new centre's distance from the
   * origin when none was configured), and a non-zero radius is never
   * recomputed.
   */
  lemma LayoutRadius(f: Frame, nc: Point, sqrt: real -> real)
    requires IsSqrt(sqrt) && f.radius >= 0.0
    ensures var g := Layout(f, nc, sqrt);
      (f.centre == Point(0.0, 0.0) && nc != f.centre ==> g.radius > 0.0) &&
      (f.radius != 0.0 ==> g.radius == f.radius)
  {
    if f.centre == Point(0.0, 0.0) && nc != f.centre && f.radius == 0.0 {
      var h := Hypot(nc.x, nc.y, sqrt);
      HypotFacts(nc.x, nc.y, sqrt);
      SqFacts(nc.x);
      SqFacts(nc.y);
      assert Sq(nc.x) + Sq(nc.y) > 0.0;
      SqFacts(h);
      assert h > 0.0;
    }
  }

  /**
   * A later layout can strand the handle outside the disk: a handle resting
   * on the centre (100, 100) of a disk of radius 50 is left 100 * sqrt(2)
   * away when the centre moves to (200, 200).
   */
  lemma LayoutCanStrandHandle(sqrt: real -> real)
    ensures var f := Frame(Point(100.0, 100.0), 50.0, Point(100.0, 100.0), Point(100.0, 100.0));
      var g := Layout(f, Point(200.0, 200.0), sqrt);
      Dist2(f.handle, f.centre) <= Sq(f.radius) && Dist2(g.handle, g.centre) > Sq(g.radius)
  {
    var g := Layout(Frame(Point(100.0, 100.0), 50.0, Point(100.0, 100.0), Point(100.0, 100.0)), Point(200.0, 200.0), sqrt);
    assert g.handle == Point(100.0, 100.0) && g.centre == Point(200.0, 200.0) && g.radius == 50.0;
    assert Sq(-100.0) == 10000.0;
    assert Sq(50.0) == 2500.0;
  }

  class RockerView {
    var waveCenterX: real
    var waveCenterY: real
    var tapRadius: real
    var outerRadius: real
    const handle: VirtualDrawable
    const outer: VirtualDrawable
    /** The platform square root the geometry uses. */
    const sqrt: real -> real
    var measuredWidth: int
    var measuredHeight: int
    /** Every position the handle has been moved to, oldest first. */
    ghost var trail: seq<Point>

    ghost predicate Valid()
      reads this`outerRadius
    {
      Wellformed() && IsSqrt(sqrt)
    }

    /**
     * The invariant apart from the square root being one: two distinct
     * drawables and a radius that is never negative.
     */
    ghost predicate Wellformed()
      reads this`outerRadius
    {
      handle != outer && outerRadius >= 0.0
    }

    function Centre(): Point
      reads this`waveCenterX, this`waveCenterY
    {
      Point(waveCenterX, waveCenterY)
    }

    function HandlePosition(): Point
      reads handle`translationX, handle`translationY
    {
      Point(handle.translationX, handle.translationY)
    }

    function OuterPosition(): Point
      reads outer`translationX, outer`translationY
    {
      Point(outer.translationX, outer.translationY)
    }

    /**
     * Loads the handle and background images, takes the configured outer
     * radius (taken to be non-negative) and sets the tap radius
     * to half the handle's width in integer arithmetic.
     */
    constructor (resources: map<int, Image>, ballId: int, bgId: int, outerRadiusPx: nat, sqrt: real -> real)
      requires ballId > 0 ==> ballId in resources
      requires bgId > 0 ==> bgId in resources
      requires IsSqrt(sqrt)
      ensures Valid() && fresh(handle) && fresh(outer) && handle.Valid() && outer.Valid()
      ensures handle.AtDefaults() && outer.AtDefaults()
      ensures handle.resources == resources && outer.resources == resources
      ensures ballId > 0 ==> handle.drawable == Some(Resized(Single(ballId, resources[ballId], NoBounds), [], resources))
      ensures bgId > 0 ==> outer.drawable == Some(Resized(Single(bgId, resources[bgId], NoBounds), [], resources))
      ensures handle.drawable.None? || handle.drawable.value.Single?
      ensures Centre() == Point(0.0, 0.0) && outerRadius == outerRadiusPx as real
      ensures tapRadius == Half(handle.GetWidth()) as real
      ensures trail == []
    {
      waveCenterX, waveCenterY := 0.0, 0.0;
      measuredWidth, measuredHeight := 0, 0;
      this.sqrt := sqrt;
      trail := [];
      var ball := new VirtualDrawable.FromResource(resources, ballId);
      handle := ball;
      outer := new VirtualDrawable.FromResource(resources, bgId);
      outerRadius := outerRadiusPx as real;
      tapRadius := Half(ball.GetWidth()) as real;
    }

    /** The smallest size the view asks for: the background's size. */
    function SuggestedMinimumWidth(): int
      reads this, outer
    {
      outer.GetWidth()
    }

    function SuggestedMinimumHeight(): int
      reads this, outer
    {
      outer.GetHeight()
    }

    /** Measures the view against the parent's specs, wanting the background's size. */
    method OnMeasure(widthSpec: MeasureSpec, heightSpec: MeasureSpec)
      modifies this`measuredWidth, this`measuredHeight
      ensures measuredWidth == ResolveMeasured(widthSpec, outer.GetWidth())
      ensures measuredHeight == ResolveMeasured(heightSpec, outer.GetHeight())
    {
      var minimumWidth := SuggestedMinimumWidth();
      var minimumHeight := SuggestedMinimumHeight();
      measuredWidth := ResolveMeasured(widthSpec, minimumWidth);
      measuredHeight := ResolveMeasured(heightSpec, minimumHeight);
    }

    /** The centre a layout of the given frame asks for: integer halves of the size, at least the background's. */
    function LayoutCentre(left: int, top: int, right: int, bottom: int): Point
      reads this, outer
    {
      Point(Half(Max(right - left, outer.GetWidth())) as real, Half(Max(bottom - top, outer.GetHeight())) as real)
    }

    /** The part of the view's state a layout may change. */
    function Snapshot(): Frame
      reads this`waveCenterX, this`waveCenterY, this`outerRadius
      reads handle`translationX, handle`translationY, outer`translationX, outer`translationY
    {
      Frame(Centre(), outerRadius, HandlePosition(), OuterPosition())
    }

    /** Places the disk's centre; see Layout for what changes. */
    method OnLayout(changed: bool, left: int, top: int, right: int, bottom: int)
      requires Valid()
      modifies this`waveCenterX, this`waveCenterY, this`outerRadius, this`trail
      modifies handle`translationX, handle`translationY, outer`translationX, outer`translationY
      ensures Valid()
      ensures Snapshot() == Layout(old(Snapshot()), old(LayoutCentre(left, top, right, bottom)), sqrt)
      ensures trail == old(trail) + ParkedAt(old(Centre()), old(LayoutCentre(left, top, right, bottom)))
    {
      ghost var before := Snapshot();
      ghost var nc := LayoutCentre(left, top, right, bottom);
      var width := right - left;
      var height := bottom - top;
      var newWaveCenterX := Half(Max(width, outer.GetWidth())) as real;
      var newWaveCenterY := Half(Max(height, outer.GetHeight())) as real;
      assert nc == Point(newWaveCenterX, newWaveCenterY);
      if newWaveCenterX != waveCenterX || newWaveCenterY != waveCenterY {
        if waveCenterX == 0.0 && waveCenterY == 0.0 {
          if outerRadius == 0.0 {
            HypotFacts(newWaveCenterX, newWaveCenterY, sqrt);
            outerRadius := 0.5 * Hypot(newWaveCenterX, newWaveCenterY, sqrt);
          }
          MoveHandleTo(newWaveCenterX, newWaveCenterY);
        }
        waveCenterX := newWaveCenterX;
        waveCenterY := newWaveCenterY;
        outer.SetX(waveCenterX);
        outer.SetY(waveCenterY);
        assert Snapshot() == Layout(before, nc, sqrt);
      }
    }

    /**
     * Handles a touch and always reports it handled. Down activates the handle
     * and then drags like Move: every sample, history first, is clamped to the
     * disk and written to the handle, and the direction of the final handle
     * position is reported. Up recentres and deactivates the handle. Any other
     * action changes nothing.
     */
    method OnTouchEvent(e: MotionEvent) returns (handled: bool, direction: Option<Direction>)
      requires Valid()
      modifies this`trail, handle`translationX, handle`translationY, handle`drawable
      ensures Valid() && handled
      ensures e.action == ActionDown || e.action == ActionMove ==>
        trail == old(trail) + ClampAll(Centre(), outerRadius, Samples(e), sqrt) &&
        HandlePosition() == Clamp(Centre(), outerRadius, Point(e.x, e.y), sqrt) &&
        Dist2(HandlePosition(), Centre()) <= Sq(outerRadius) &&
        direction == Some(Sector(handle.translationX - waveCenterX, waveCenterY - handle.translationY)) &&
        (outerRadius > 0.0 ==> direction == Some(Sector(e.x - waveCenterX, waveCenterY - e.y)))
      ensures e.action == ActionDown ==> handle.drawable == WithState(old(handle.drawable), StateActive)
      ensures e.action == ActionMove ==> handle.drawable == old(handle.drawable)
      ensures e.action == ActionUp ==>
        HandlePosition() == Centre() && trail == old(trail) + [Centre()] &&
        handle.drawable == WithState(old(handle.drawable), StateInactive) && direction == None
      ensures e.action == ActionOther ==>
        trail == old(trail) && HandlePosition() == old(HandlePosition()) &&
        handle.drawable == old(handle.drawable) && direction == None
      ensures old(handle.drawable).None? || old(handle.drawable).value.Single? ==>
        handle.drawable == old(handle.drawable)
    {
      handled, direction := true, None;
      match e.action
      case ActionDown =>
        handle.SetState(StateActive);
        direction := Drag(e);
      case ActionMove =>
        direction := Drag(e);
      case ActionUp =>
        MoveHandleTo(waveCenterX, waveCenterY);
        handle.SetState(StateInactive);
      case ActionOther =>
    }

    /**
     * The move branch, shared with Down by fall-through: replays the samples
     * through the clamp, then classifies the handle's final position.
     */
    method Drag(e: MotionEvent) returns (direction: Option<Direction>)
      requires Valid()
      modifies this`trail, handle`translationX, handle`translationY
      ensures Valid()
      ensures trail == old(trail) + ClampAll(Centre(), outerRadius, Samples(e), sqrt)
      ensures HandlePosition() == Clamp(Centre(), outerRadius, Point(e.x, e.y), sqrt)
      ensures Dist2(HandlePosition(), Centre()) <= Sq(outerRadius)
      ensures direction == Some(Sector(handle.translationX - waveCenterX, waveCenterY - handle.translationY))
      ensures outerRadius > 0.0 ==> direction == Some(Sector(e.x - waveCenterX, waveCenterY - e.y))
    {
      ReplaySamples(e);
      ClampBounds(Centre(), outerRadius, Point(e.x, e.y), sqrt);
      var x := handle.translationX;
      var y := handle.translationY;
      var degree := CalcDegrees(waveCenterX, waveCenterY, x, y, sqrt);
      DirectionOfCalcDegrees(waveCenterX, waveCenterY, x, y, sqrt);
      if outerRadius > 0.0 {
        TouchDirection(Centre(), outerRadius, Point(e.x, e.y), sqrt);
      }
      direction := Some(DirectionOf(degree));
    }

    /** The history loop: moves the handle to each sample's clamp in turn, the live sample last. */
    method ReplaySamples(e: MotionEvent)
      requires Wellformed()
      modifies this`trail, handle`translationX, handle`translationY
      ensures Wellformed()
      ensures trail == old(trail) + ClampAll(Centre(), outerRadius, Samples(e), sqrt)
      ensures HandlePosition() == Clamp(Centre(), outerRadius, Point(e.x, e.y), sqrt)
    {
      var c := Point(waveCenterX, waveCenterY);
      ghost var samples := Samples(e);
      var historySize := |e.history|;
      var k := 0;
      while k < historySize + 1
        invariant 0 <= k <= historySize + 1
        invariant Wellformed()
        invariant trail == old(trail) + ClampAll(c, outerRadius, samples[..k], sqrt)
        invariant k > 0 ==> HandlePosition() == Clamp(c, outerRadius, samples[k - 1], sqrt)
      {
        var x := if k < historySize then e.history[k].x else e.x;
        var y := if k < historySize then e.history[k].y else e.y;
        var tx := x - waveCenterX;
        var ty := y - waveCenterY;
        var touchRadius := Hypot(tx, ty, sqrt);
        var scale := if touchRadius > outerRadius then outerRadius / touchRadius else 1.0;
        var limitX := waveCenterX + tx * scale;
        var limitY := waveCenterY + ty * scale;
        assert samples[k] == Point(x, y);
        ClampSteps(c, outerRadius, samples[k], sqrt, tx, ty, touchRadius, scale);
        ghost var q := Clamp(c, outerRadius, samples[k], sqrt);
        assert q == Point(limitX, limitY);
        ClampAllStep(c, outerRadius, samples, k, sqrt);
        AppendAssociative(old(trail), ClampAll(c, outerRadius, samples[..k], sqrt), [q]);
        MoveHandleTo(limitX, limitY);
        k := k + 1;
      }
      assert samples[..k] == samples;
    }

    /** Moves the handle; nothing else changes. */
    method MoveHandleTo(x: real, y: real)
      modifies this`trail, handle`translationX, handle`translationY
      ensures HandlePosition() == Point(x, y) && trail == old(trail) + [Point(x, y)]
    {
      handle.SetX(x);
      handle.SetY(y);
      trail := trail + [Point(x, y)];
    }
  }
}
