# VirtualRocker joystick, modelled in Dafny

VirtualRocker is an Android on-screen joystick. A `RockerView` shows a
background disk and a handle. Layout fixes the disk's centre (and, the first
time, its radius when none was configured). A touch drags the handle, clamped
to the disk, and classifies where it points: Right, Down, Up or Left. Lifting
the finger brings the handle back to the centre. The handle and the
background are `VirtualDrawable`s. Each one holds a position, a scale and an
alpha, plus either one bitmap or a two-entry state list (normal and active
images) whose entries share one union size.

The model has five modules and one helper module:

- `Geometry` (geometry.dfy): points, squared distances, the clamp of one touch
  sample to the disk (`Clamp`) and of a whole sample sequence (`ClampAll`).
- `Heading` (heading.dfy): `calcDegrees`, the four-way `if` chain
  (`DirectionOf`), and its inequality form (`Sector`).
- `Measuring` (measuring.dfy): `resolveMeasured` and Java's truncating
  `int / 2`.
- `Drawables` (drawables.dfy): the `VirtualDrawable` class, its drawable
  reduced to a datatype, and the union-size rule of `resizeDrawables`.
- `Rocker` (rocker.dfy): the `RockerView` class (construction, measure,
  layout, touch handling), plus the pure layout rule `Layout` that
  `OnLayout` is proved against.
- `Wrappers` (wrappers.dfy): `Option`, which stands for a nullable reference.

Coordinates are reals. Dafny has no square root or arc cosine:

- The platform square root is an injected function value `sqrt`. `IsSqrt`
  states that for a non-negative argument it returns the non-negative root.
  The view keeps it as a `const`, and its invariant requires `IsSqrt`.
- A `calcDegrees` value is kept as the cosine it came from plus a sign
  (`Degrees.Deg`), or `NaN` at the centre. The comparisons with ±45 and ±135
  are decided through the monotonicity of acos, comparing squared cosines
  with 1/2.

The ghost field `RockerView.trail` records every position written to the
handle, oldest first. It lets the contracts state the order in which
samples are replayed.

Four behaviours of the code that the model states outright:

- Handle after a later layout. The handle is moved only on the first
  layout away from the origin. A later layout that moves the centre leaves
  the handle where it was, possibly outside the disk
  (`Rocker.LayoutCanStrandHandle`).
- Arc cosine input. acos is taken without clamping the cosine to [-1, 1].
  Over the reals the cosine lies in [-1, 1] anyway (`Heading.CalcDegrees`).
- Touch on the centre. At the centre calcDegrees computes 0/0, which is NaN.
  Every comparison in the if chain then fails, so the chain reports Left
  (`Heading.CompassPoints`).
- Handle state tag. The handle is built with the one-id constructor, so it
  holds a single image. setState changes only a state list, so the active
  and inactive tags set on touch never change the handle. A touch leaves a
  single image or a missing drawable as it was
  (`Rocker.RockerView.constructor`, `Rocker.RockerView.OnTouchEvent`).

## Model

| member | source | states |
|---|---|---|
| Geometry.HypotFacts | app/src/main/java/com/kesar/myapplication/RockerView.java:131 | the touch radius is non-negative and its square is the sum of the squared offsets |
| Geometry.ClampBounds | app/src/main/java/com/kesar/myapplication/RockerView.java:129-137 | the clamped point is never farther from the centre than the radius; a point within the radius (the centre included, scale 1, no division) is left unchanged; a point beyond it lands exactly on the rim, on the ray from the centre through it |
| Geometry.ClampSteps | app/src/main/java/com/kesar/myapplication/RockerView.java:129-134 | the loop's step-by-step values (offset, hypot, scale, limit) compute exactly the clamp |
| Geometry.ClampPositiveScale | app/src/main/java/com/kesar/myapplication/RockerView.java:132-134 | with a positive radius the scale factor lies in (0, 1], so the clamp shortens the offset or keeps it, but never flips or zeroes it |
| Geometry.ClampScale | app/src/main/java/com/kesar/myapplication/RockerView.java:132-133 | plain definition: radius / touchRadius beyond the radius, else 1; ClampPositiveScale bounds it to (0, 1] |
| Geometry.Clamp | app/src/main/java/com/kesar/myapplication/RockerView.java:129-134 | plain definition of one loop step; its contract is ClampBounds (in the disk, identity inside, on the rim along the ray outside) |
| Geometry.ClampAll | app/src/main/java/com/kesar/myapplication/RockerView.java:125-138 | a replay writes one handle position per sample |
| Geometry.ClampAllInDisk | app/src/main/java/com/kesar/myapplication/RockerView.java:125-138 | the i-th position of a replay is the clamp of the i-th sample, and every position lies in the disk |
| Heading.CalcDegrees | app/src/main/java/com/kesar/myapplication/RockerView.java:176-192 | the angle is NaN exactly when the target is the origin; otherwise its cosine lies in [-1, 1], squared it times the squared length gives the squared x offset, and it has the sign of the x offset |
| Heading.CentreCase | app/src/main/java/com/kesar/myapplication/RockerView.java:182-184 | the hypotenuse is zero exactly when both offsets are zero |
| Heading.CosineFacts | app/src/main/java/com/kesar/myapplication/RockerView.java:184 | x over the hypotenuse lies in [-1, 1], strictly inside when y is not zero, with the sign of x |
| Heading.DirectionOf | app/src/main/java/com/kesar/myapplication/RockerView.java:142-153 | plain definition: the if chain over the angle; DirectionOfCalcDegrees proves it equal to the inequality sectors |
| Heading.DirectionOfCalcDegrees | app/src/main/java/com/kesar/myapplication/RockerView.java:141-153 | the if chain applied to calcDegrees of any handle position equals the inequality form of the four sectors, NaN at the centre included |
| Heading.CalcDegreesNegative | app/src/main/java/com/kesar/myapplication/RockerView.java:186-191 | calcDegrees is negative exactly when the target lies above the origin on screen (targetY < originY) |
| Heading.CalcDegreesRange | app/src/main/java/com/kesar/myapplication/RockerView.java:184-191 | a negated angle has a cosine above -1, so calcDegrees never yields -180 and every value lies in (-180, 180] |
| Heading.CompassPoints | app/src/main/java/com/kesar/myapplication/RockerView.java:142-153 | the four axis points map to Right, Down, Left and Up; the exact 45 degree diagonal is Right; the centre is Left |
| Heading.SectorScaleInvariant | app/src/main/java/com/kesar/myapplication/RockerView.java:142-153 | the sector of an offset does not change when the offset is scaled by a positive factor |
| Heading.ClampKeepsSector | app/src/main/java/com/kesar/myapplication/RockerView.java:129-141 | with a positive radius, clamping a touch does not change the sector it lies in |
| Measuring.Min | app/src/main/java/com/kesar/myapplication/RockerView.java:73 | Math.min is at most both arguments and equals one of them |
| Measuring.Max | app/src/main/java/com/kesar/myapplication/RockerView.java:96-97 | Math.max is at least both arguments and equals one of them |
| Measuring.Half | app/src/main/java/com/kesar/myapplication/RockerView.java:96-97 | Java's int division by 2 truncates toward zero: the remainder is 0 or 1 for non-negative values and 0 or -1 for negative ones |
| Measuring.ResolveMeasured | app/src/main/java/com/kesar/myapplication/RockerView.java:65-80 | UNSPECIFIED gives the desired size; AT_MOST gives a size at most both the spec size and the desired one, equal to one of them; EXACTLY and any other mode give the spec size |
| Measuring.ResolveMeasuredMonotone | app/src/main/java/com/kesar/myapplication/RockerView.java:65-80 | a larger desired size never resolves smaller, and only UNSPECIFIED lets the result exceed the spec size |
| Drawables.SelectedIndex | app/src/main/java/com/kesar/myapplication/VirtualDrawable.java:58-61 | a state list shows its first entry whose state spec matches the current state set, or none (-1) when no spec matches |
| Drawables.Selector | app/src/main/java/com/kesar/myapplication/VirtualDrawable.java:58-61 | plain definition: the two entries in order, active spec first, then inactive; SelectorShows states which image each state shows |
| Drawables.SelectorShows | app/src/main/java/com/kesar/myapplication/VirtualDrawable.java:58-66 | the two-image drawable shows the active image in the active state and the normal image in the inactive state; before any state is set it shows nothing (size -1) |
| Drawables.WidgetStatesNotFocused | app/src/main/java/com/kesar/myapplication/VirtualDrawable.java:124-135 | neither the active nor the inactive state set holds the focused state, and a single image has no state set whatever is set on it |
| Drawables.MaxOf | app/src/main/java/com/kesar/myapplication/VirtualDrawable.java:156-162 | the running maximum from 0 is non-negative, at least every value, and is 0 or one of the values |
| Drawables.MaxOfStep | app/src/main/java/com/kesar/myapplication/VirtualDrawable.java:158-162 | taking one more value into the maximum is Math.max of the running maximum and that value |
| Drawables.Widths | app/src/main/java/com/kesar/myapplication/VirtualDrawable.java:158-161 | plain definition: the intrinsic widths of the listed resources, in list order; UnionSize's loop is proved against their MaxOf |
| Drawables.Heights | app/src/main/java/com/kesar/myapplication/VirtualDrawable.java:158-161 | plain definition: the intrinsic heights of the listed resources, in list order; UnionSize's loop is proved against their MaxOf |
| Drawables.Rebound | app/src/main/java/com/kesar/myapplication/VirtualDrawable.java:166-171 | plain definition: entries of listed resources get the given bounds, the others keep theirs; ReboundAll's loop is proved equal to it, and ResizedCoversChildren states what it achieves |
| Drawables.Resized | app/src/main/java/com/kesar/myapplication/VirtualDrawable.java:153-176 | plain definition of the size rule; ResizedCoversChildren and ResizedIdempotent state its properties, and ResizeDrawables is proved to compute it |
| Drawables.ResizedCoversChildren | app/src/main/java/com/kesar/myapplication/VirtualDrawable.java:153-176 | after a resize a state list and every entry share bounds anchored at the origin that cover every entry's intrinsic size; a single image's bounds are its intrinsic size |
| Drawables.ResizedIdempotent | app/src/main/java/com/kesar/myapplication/VirtualDrawable.java:153-176 | resizing twice gives the same drawable as resizing once |
| Drawables.VirtualDrawable.FromResource | app/src/main/java/com/kesar/myapplication/VirtualDrawable.java:43-52 | a new drawable has translation (0, 0), scale (1, 1) and alpha 1; it holds the image sized to its intrinsic size when the id is positive, and no drawable otherwise |
| Drawables.VirtualDrawable.FromStates | app/src/main/java/com/kesar/myapplication/VirtualDrawable.java:54-69 | with both ids positive: the two-entry state list in the inactive state, resized to the union of both images, with the ids listed; otherwise no drawable; defaults as above |
| Drawables.VirtualDrawable.SetState | app/src/main/java/com/kesar/myapplication/VirtualDrawable.java:71-78 | only a state list takes the new state set; a single image or no drawable is left as it was |
| Drawables.VirtualDrawable.InitRes | app/src/main/java/com/kesar/myapplication/VirtualDrawable.java:83-90 | a state list is rebuilt when both the normal and the active id are positive (never, since no code assigns them and they stay 0) and otherwise only resized; a single image is replaced only when drawableId is positive, and since no code assigns it (it stays 0) it is never replaced; the configured ids are unchanged |
| Drawables.VirtualDrawable.InitResDrawable | app/src/main/java/com/kesar/myapplication/VirtualDrawable.java:92-102 | with a positive drawableId the drawable becomes that image at its intrinsic size; otherwise nothing changes |
| Drawables.VirtualDrawable.InitDrawableList | app/src/main/java/com/kesar/myapplication/VirtualDrawable.java:104-116 | with both ids positive a fresh state list (empty state set) of the two images, resized, with the ids listed; otherwise the current drawable is resized |
| Drawables.VirtualDrawable.IsActive | app/src/main/java/com/kesar/myapplication/VirtualDrawable.java:124-135 | true exactly when the current state set contains the focused state, found by scanning it |
| Drawables.VirtualDrawable.IsValid | app/src/main/java/com/kesar/myapplication/VirtualDrawable.java:144-146 | true exactly when there is a drawable; without one, width and height are 0 and draw does nothing |
| Drawables.VirtualDrawable.ResizeDrawables | app/src/main/java/com/kesar/myapplication/VirtualDrawable.java:153-176 | the drawable becomes its resized form: union bounds for a state list and its entries, intrinsic bounds for a single image, nothing without one |
| Drawables.VirtualDrawable.UnionSize | app/src/main/java/com/kesar/myapplication/VirtualDrawable.java:156-162 | the first loop computes the largest width and the largest height over the listed resources, starting from 0 |
| Drawables.VirtualDrawable.ReboundAll | app/src/main/java/com/kesar/myapplication/VirtualDrawable.java:166-171 | the second loop gives every entry of a listed resource the union bounds |
| Drawables.VirtualDrawable.SetX | app/src/main/java/com/kesar/myapplication/VirtualDrawable.java:178-180 | setX then getX returns the value set; no other field changes |
| Drawables.VirtualDrawable.SetY | app/src/main/java/com/kesar/myapplication/VirtualDrawable.java:182-184 | setY then getY returns the value set; no other field changes |
| Drawables.VirtualDrawable.SetScaleX | app/src/main/java/com/kesar/myapplication/VirtualDrawable.java:186-188 | setScaleX then getScaleX returns the value set; no other field changes |
| Drawables.VirtualDrawable.SetScaleY | app/src/main/java/com/kesar/myapplication/VirtualDrawable.java:190-192 | setScaleY then getScaleY returns the value set; no other field changes |
| Drawables.VirtualDrawable.SetAlpha | app/src/main/java/com/kesar/myapplication/VirtualDrawable.java:194-196 | setAlpha then getAlpha returns the value set; no other field changes |
| Drawables.VirtualDrawable.GetWidth | app/src/main/java/com/kesar/myapplication/VirtualDrawable.java:218-220 | 0 without a drawable, else the drawable's intrinsic width |
| Drawables.VirtualDrawable.GetHeight | app/src/main/java/com/kesar/myapplication/VirtualDrawable.java:222-224 | 0 without a drawable, else the drawable's intrinsic height |
| Drawables.VirtualDrawable.Draw | app/src/main/java/com/kesar/myapplication/VirtualDrawable.java:226-237 | nothing is drawn exactly when there is no drawable; otherwise the drawable is drawn centred on its translation |
| Rocker.Samples | app/src/main/java/com/kesar/myapplication/RockerView.java:125-128 | plain definition: the historical samples in order, then the live sample; ReplaySamples and ReplayEndsAtLiveSample state what a drag does with them |
| Rocker.ClampAllSnoc | app/src/main/java/com/kesar/myapplication/RockerView.java:126-138 | replaying one more sample appends exactly that sample's clamp |
| Rocker.ClampAllStep | app/src/main/java/com/kesar/myapplication/RockerView.java:126-138 | the replay of the first k+1 samples is the replay of the first k followed by the clamp of sample k |
| Rocker.ReplayEndsAtLiveSample | app/src/main/java/com/kesar/myapplication/RockerView.java:125-138 | whatever the history, the last position written is the clamp of the live sample, and every position written lies in the disk |
| Rocker.TouchDirection | app/src/main/java/com/kesar/myapplication/RockerView.java:139-153 | with a positive radius the direction reported for the clamped handle is the sector of the raw touch |
| Rocker.SqrtOfSquare | app/src/main/java/com/kesar/myapplication/RockerView.java:131 | the square root of a square is the non-negative base |
| Rocker.ClampScenario | app/src/main/java/com/kesar/myapplication/RockerView.java:129-153 | a touch at (30, 40) on a radius-5 disk around the origin puts the handle at (3, 4) and reports Down |
| Rocker.HistoryReplayScenario | app/src/main/java/com/kesar/myapplication/RockerView.java:125-138 | history (2, 0), (4, 0) and live (6, 0) in a radius-10 disk visit those three points in order |
| Rocker.ReplayOfFixedPoints | app/src/main/java/com/kesar/myapplication/RockerView.java:125-138 | when every sample is its own clamp, the replay writes exactly the samples, in order |
| Rocker.InsideStays | app/src/main/java/com/kesar/myapplication/RockerView.java:132-134 | a sample within the radius on the axis is written unchanged |
| Rocker.Layout | app/src/main/java/com/kesar/myapplication/RockerView.java:94-110 | plain definition of the layout rule; LayoutSettles, LayoutParksOnce, LayoutRadius and LayoutCanStrandHandle state its properties, and OnLayout is proved to compute it |
| Rocker.LayoutSettles | app/src/main/java/com/kesar/myapplication/RockerView.java:94-110 | a second layout with the same centre changes nothing; after a layout the centre is the new one, a moved background sits on it, and the radius stays non-negative |
| Rocker.LayoutParksOnce | app/src/main/java/com/kesar/myapplication/RockerView.java:98-104 | the first move away from the origin parks the handle on the new centre, inside the disk; a later move keeps the handle and the radius |
| Rocker.LayoutRadius | app/src/main/java/com/kesar/myapplication/RockerView.java:99-101 | the first layout away from the origin leaves a positive radius, and a non-zero radius is never recomputed |
| Rocker.LayoutCanStrandHandle | app/src/main/java/com/kesar/myapplication/RockerView.java:98-110 | a handle inside the disk can be left outside it by a later layout that moves the centre |
| Rocker.RockerView.constructor | app/src/main/java/com/kesar/myapplication/RockerView.java:46-53 | loads both images, centre at the origin, outer radius the configured pixel size, tap radius half the handle's width in int arithmetic, both drawables valid and distinct |
| Rocker.RockerView.SuggestedMinimumWidth | app/src/main/java/com/kesar/myapplication/RockerView.java:55-58 | plain definition: the background's width; OnMeasure resolves the width spec against it |
| Rocker.RockerView.SuggestedMinimumHeight | app/src/main/java/com/kesar/myapplication/RockerView.java:60-63 | plain definition: the background's height; OnMeasure resolves the height spec against it |
| Rocker.RockerView.OnMeasure | app/src/main/java/com/kesar/myapplication/RockerView.java:55-89 | the measured size resolves each spec against the background's size |
| Rocker.RockerView.LayoutCentre | app/src/main/java/com/kesar/myapplication/RockerView.java:96-97 | plain definition: the integer halves of max(width, background width) and max(height, background height); OnLayout takes it as the new centre |
| Rocker.RockerView.OnLayout | app/src/main/java/com/kesar/myapplication/RockerView.java:91-111 | the new state is Layout of the old one at the centre (max(w, bgW) div 2, max(h, bgH) div 2); the handle is written only when it is parked |
| Rocker.RockerView.OnTouchEvent | app/src/main/java/com/kesar/myapplication/RockerView.java:119-166 | always handled. Down activates and then drags; Move drags. A drag writes the clamps of all samples in order, ends at the live sample's clamp inside the disk, and reports the sector of the handle (and of the raw touch when the radius is positive). Up recentres and deactivates. Any other action changes nothing |
| Rocker.RockerView.Drag | app/src/main/java/com/kesar/myapplication/RockerView.java:124-155 | the move branch: replays the samples and returns the direction of the final handle position, which lies in the disk |
| Rocker.RockerView.ReplaySamples | app/src/main/java/com/kesar/myapplication/RockerView.java:125-138 | the history loop writes the clamp of every sample in order and leaves the handle at the clamp of the live sample |
| Rocker.RockerView.MoveHandleTo | app/src/main/java/com/kesar/myapplication/RockerView.java:168-171 | the handle's translation becomes the given point, and the point is appended to the trail |

## Left out

- Floating point: coordinates are reals. The `(float)` narrowing in moveHandleTo and the double/float mix are not modelled, and neither is hypot's extra precision over `sqrt(pow + pow)`.
- acos and toDegrees are not computed: an angle is kept as its cosine and sign, which decides every comparison the chain makes.
- The square root is a parameter that satisfies `IsSqrt`; the platform's rounding is not modelled.
- System.err printing of the direction and of ACTION_UP: the model returns the direction instead.
- invalidate() (repaint requests) and RockerView.onDraw: rendering only.
- Canvas save, translate, scale, restore in draw, and the `Math.round(alpha * 255)` conversion: rendering only. Draw reports the position, scale, alpha and centring offset it would use.
- MeasureSpec bit packing: a spec is given as a mode and a size.
- Resources and Context: a resource table maps ids to intrinsic sizes. A positive id that does not resolve (Resources.NotFoundException) is excluded by the constructors' preconditions.
- StateListDrawable internals are reduced to first-match selection over state specs, with size -1 when no entry matches. Selector XML resources loaded through the one-id constructor are not modelled.
- Drawables.VirtualDrawable.ResizeDrawables: the second loop reloads each child with getDrawable, which on the platform returns a fresh instance, so the bounds may land on copies. The model gives the state list's own entries the union bounds, as the method's comment describes.
- Rocker.RockerView.OnTouchEvent: the view's invariant does not carry the drawables' own invariants. The constructor establishes them, but later methods do not restate them.
- The four RockerView constructors all run init; the model has one constructor. View's own onLayout and setMeasuredDimension bookkeeping are reduced to the fields they set.
- MainActivity: bootstrap only.
- The DEBUG log lines, and initResDrawable's null checks on the context and on the loaded drawable: in the model the resource table is always present and a resolved id always yields an image.
- Rounding at sector boundaries: over the reals the exact 45 degree diagonal is Right (`Heading.CompassPoints`). In double arithmetic acos and toDegrees can land just past a boundary (45.00000000000001 for that diagonal), so a verdict exactly on a boundary can flip to the neighbouring direction.
- Negative outer radius: the configured outer radius is taken as a natural number. A negative dimension resource, which getDimensionPixelSize would return as a negative size, is not modelled.
