/**
 * The handle and background drawables of the joystick: a positioned,
 * scaled, translucent holder of either one bitmap or a two-entry state list
 * (a normal and an active image) whose entries share one union size.
 */
module Drawables {
  import opened Wrappers
  import opened Measuring

  /** The platform's public attribute ids for the view states used here. */
  const AttrFocused: int := 0x0101009c
  const AttrEnabled: int := 0x0101009e
  const AttrActive: int := 0x010100a2

  /** State sets; a negative entry means "this state must be absent". */
  const StateActive: seq<int> := [AttrEnabled, AttrActive]
  const StateInactive: seq<int> := [AttrEnabled, -AttrActive]
  const StateFocused: seq<int> := [AttrEnabled, AttrFocused]

  /** A bitmap resource reduced to its intrinsic size. */
  datatype Image = Image(width: int, height: int)

  datatype Bounds = Bounds(left: int, top: int, right: int, bottom: int)

  const NoBounds: Bounds := Bounds(0, 0, 0, 0)

  /** One entry of a state list: the state spec it answers to and the image it shows. */
  datatype Child = Child(spec: seq<int>, resId: int, image: Image, bounds: Bounds)

  datatype Drawable =
    | Single(resId: int, image: Image, bounds: Bounds)
    | StateList(children: seq<Child>, state: seq<int>, bounds: Bounds)

  /**
   * A state spec matches a state set when every required (positive) entry is
   * present and every excluded (negative) entry is absent.
   */
  predicate Matches(spec: seq<int>, state: seq<int>)
  {
    forall s :: s in spec ==> (s > 0 ==> s in state) && (s < 0 ==> -s !in state)
  }

  /** The entry a state list shows: the first whose spec matches, or -1 for none. */
  function SelectedIndex(children: seq<Child>, state: seq<int>): (i: int)
    ensures -1 <= i < |children|
    ensures i >= 0 ==> Matches(children[i].spec, state)
    ensures forall j :: 0 <= j < |children| && (i < 0 || j < i) ==> !Matches(children[j].spec, state)
  {
    if children == [] then -1
    else if Matches(children[0].spec, state) then 0
    else
      var r := SelectedIndex(children[1..], state);
      if r < 0 then -1 else r + 1
  }

  /** Intrinsic width: a state list reports its shown entry's, or -1 when none is shown. */
  function IntrinsicWidth(d: Drawable): int
  {
    match d
    case Single(_, image, _) => image.width
    case StateList(children, state, _) =>
      var i := SelectedIndex(children, state);
      if i < 0 then -1 else children[i].image.width
  }

  function IntrinsicHeight(d: Drawable): int
  {
    match d
    case Single(_, image, _) => image.height
    case StateList(children, state, _) =>
      var i := SelectedIndex(children, state);
      if i < 0 then -1 else children[i].image.height
  }

  /** Setting a state reaches only a state list; a single image ignores it. */
  function WithState(d: Option<Drawable>, state: seq<int>): Option<Drawable>
  {
    if d.Some? && d.value.StateList? then Some(d.value.(state := state)) else d
  }

  /** The current state set; a single image (or none) has no state set. */
  function StateOf(d: Option<Drawable>): seq<int>
  {
    if d.Some? && d.value.StateList? then d.value.state else []
  }

  /**
   * The state list the two-id constructor builds: the active image for the
   * active state first, the normal image for the inactive state second
   * (a freshly built list has the empty state set).
   */
  function Selector(resources: map<int, Image>, normalId: int, activeId: int, state: seq<int>): Drawable
    requires normalId in resources && activeId in resources
  {
    StateList([Child(StateActive, activeId, resources[activeId], NoBounds),
               Child(StateInactive, normalId, resources[normalId], NoBounds)],
              state, NoBounds)
  }

  /**
   * The two-id drawable shows the active image exactly in the active state,
   * the normal image in the inactive state, and nothing (size -1) before any
   * state is set.
   */
  lemma SelectorShows(resources: map<int, Image>, normalId: int, activeId: int)
    requires normalId in resources && activeId in resources
    ensures var active := Selector(resources, normalId, activeId, StateActive);
      IntrinsicWidth(active) == resources[activeId].width &&
      IntrinsicHeight(active) == resources[activeId].height
    ensures var inactive := Selector(resources, normalId, activeId, StateInactive);
      IntrinsicWidth(inactive) == resources[normalId].width &&
      IntrinsicHeight(inactive) == resources[normalId].height
    ensures var empty := Selector(resources, normalId, activeId, []);
      IntrinsicWidth(empty) == -1 && IntrinsicHeight(empty) == -1
  {
    var cs := Selector(resources, normalId, activeId, []).children;
    assert Matches(StateActive, StateActive);
    assert !Matches(StateActive, StateInactive) by {
      assert AttrActive in StateActive && AttrActive !in StateInactive;
    }
    assert Matches(StateInactive, StateInactive);
    assert !Matches(StateActive, []) by { assert AttrEnabled in StateActive; }
    assert !Matches(StateInactive, []) by { assert AttrEnabled in StateInactive; }
    assert SelectedIndex(cs, StateActive) == 0;
    assert SelectedIndex(cs[1..], StateInactive) == 0;
    assert SelectedIndex(cs, StateInactive) == 1;
    assert SelectedIndex(cs[1..][1..], []) == -1;
    assert SelectedIndex(cs, []) == -1;
  }

  /** Every listed resource id resolves. */
  predicate Listed(ids: seq<int>, resources: map<int, Image>)
  {
    forall i :: 0 <= i < |ids| ==> ids[i] in resources
  }

  /**
   * Neither state set the widget uses holds the focused state, so isActive
   * stays false through activation and deactivation, and a single image,
   * which ignores states, never reports one.
   */
  lemma WidgetStatesNotFocused(d: Option<Drawable>)
    ensures AttrFocused !in StateOf(WithState(d, StateActive))
    ensures AttrFocused !in StateOf(WithState(d, StateInactive))
    ensures d.Some? && d.value.Single? ==> forall s :: StateOf(WithState(d, s)) == []
  {
  }

  /** The largest value of a sequence, or 0 if every value is below 0 (the loop starts at 0). */
  function MaxOf(xs: seq<int>): (m: int)
    ensures m >= 0
    ensures forall i :: 0 <= i < |xs| ==> xs[i] <= m
    ensures m == 0 || exists i :: 0 <= i < |xs| && xs[i] == m
  {
    if xs == [] then 0
    else
      var m := MaxOf(xs[..|xs| - 1]);
      var last := xs[|xs| - 1];
      if m >= last then m else last
  }

  /** Taking one more value into the maximum is the running maximum step. */
  lemma MaxOfStep(xs: seq<int>, i: int)
    requires 0 <= i < |xs|
    ensures MaxOf(xs[..i + 1]) == Max(MaxOf(xs[..i]), xs[i])
  {
    assert xs[..i + 1][..i] == xs[..i];
  }

  /** The intrinsic widths of the listed resources, in list order. */
  function Widths(ids: seq<int>, resources: map<int, Image>): seq<int>
    requires Listed(ids, resources)
  {
    seq(|ids|, i requires 0 <= i < |ids| => resources[ids[i]].width)
  }

  function Heights(ids: seq<int>, resources: map<int, Image>): seq<int>
    requires Listed(ids, resources)
  {
    seq(|ids|, i requires 0 <= i < |ids| => resources[ids[i]].height)
  }

  /** The entries whose resource is listed get the bounds b; the others keep theirs. */
  function Rebound(children: seq<Child>, ids: seq<int>, b: Bounds): seq<Child>
  {
    seq(|children|, j requires 0 <= j < |children| =>
      if children[j].resId in ids then children[j].(bounds := b) else children[j])
  }

  /**
   * The size rule: a state list gets the union (the largest width and the
   * largest height) of its listed resources as its own bounds and its
   * entries' bounds; a single image gets its intrinsic size.
   */
  function Resized(d: Drawable, ids: seq<int>, resources: map<int, Image>): Drawable
    requires Listed(ids, resources)
  {
    match d
    case StateList(children, state, _) =>
      var b := Bounds(0, 0, MaxOf(Widths(ids, resources)), MaxOf(Heights(ids, resources)));
      StateList(Rebound(children, ids, b), state, b)
    case Single(resId, image, _) => Single(resId, image, Bounds(0, 0, image.width, image.height))
  }

  /** Every entry's image is the resource it names, and every entry's resource is listed. */
  predicate Consistent(d: Drawable, ids: seq<int>, resources: map<int, Image>)
  {
    match d
    case Single(resId, image, _) => resId in resources && image == resources[resId]
    case StateList(children, _, _) =>
      forall c :: c in children ==> c.resId in ids && c.resId in resources && c.image == resources[c.resId]
  }

  /**
   * After resizing a consistent state list, all entries share the list's
   * bounds, which start at the origin and cover every entry's intrinsic size;
   * a single image's bounds are its intrinsic size.
   */
  lemma ResizedCoversChildren(d: Drawable, ids: seq<int>, resources: map<int, Image>)
    requires Listed(ids, resources)
    requires Consistent(d, ids, resources)
    ensures var r := Resized(d, ids, resources);
      r.bounds.left == 0 && r.bounds.top == 0 &&
      (r.Single? ==> r.bounds.right == IntrinsicWidth(d) && r.bounds.bottom == IntrinsicHeight(d)) &&
      (r.StateList? ==>
        r.bounds.right >= 0 && r.bounds.bottom >= 0 &&
        |r.children| == |d.children| &&
        forall j :: 0 <= j < |r.children| ==>
          r.children[j].bounds == r.bounds &&
          r.children[j].image == d.children[j].image &&
          r.children[j].image.width <= r.bounds.right &&
          r.children[j].image.height <= r.bounds.bottom)
  {
    if d.StateList? {
      var r := Resized(d, ids, resources);
      var ws, hs := Widths(ids, resources), Heights(ids, resources);
      forall j | 0 <= j < |r.children|
        ensures r.children[j].bounds == r.bounds
        ensures r.children[j].image.width <= r.bounds.right
        ensures r.children[j].image.height <= r.bounds.bottom
      {
        var c := d.children[j];
        assert c in d.children;
        var k :| 0 <= k < |ids| && ids[k] == c.resId;
        assert ws[k] == c.image.width;
        assert hs[k] == c.image.height;
      }
    }
  }

  /** Resizing twice is resizing once: the sizes depend only on the listed resources. */
  lemma ResizedIdempotent(d: Drawable, ids: seq<int>, resources: map<int, Image>)
    requires Listed(ids, resources)
    ensures Resized(Resized(d, ids, resources), ids, resources) == Resized(d, ids, resources)
  {
    if d.StateList? {
      var r := Resized(d, ids, resources);
      assert Rebound(r.children, ids, r.bounds) == r.children;
    }
  }

  /** What draw hands to the canvas: where, how scaled, how opaque, and which drawable. */
  datatype DrawCall = DrawCall(x: real, y: real, scaleX: real, scaleY: real,
                               offsetX: real, offsetY: real, alpha: real, drawable: Drawable)

  class VirtualDrawable {
    var translationX: real
    var translationY: real
    var scaleX: real
    var scaleY: real
    var alpha: real
    var drawable: Option<Drawable>
    const resources: map<int, Image>
    /** The resources of the state-list entries; empty where the platform keeps null. */
    var drawableIds: seq<int>
    /** Resource ids initRes reloads from; no code path assigns them, so they keep 0. */
    var drawableId: int
    var drawableNormalId: int
    var drawableActiveId: int

    ghost predicate Valid()
      reads this`drawable, this`drawableIds, this`drawableId, this`drawableNormalId, this`drawableActiveId
    {
      Listed(drawableIds, resources) &&
      (drawable.Some? ==> Consistent(drawable.value, drawableIds, resources)) &&
      (drawableId > 0 ==> drawableId in resources) &&
      (drawableNormalId > 0 ==> drawableNormalId in resources) &&
      (drawableActiveId > 0 ==> drawableActiveId in resources)
    }

    /** The field defaults every new drawable starts from. */
    predicate AtDefaults()
      reads this
    {
      translationX == 0.0 && translationY == 0.0 && scaleX == 1.0 && scaleY == 1.0 && alpha == 1.0 &&
      drawableId == 0 && drawableNormalId == 0 && drawableActiveId == 0
    }

    /**
     * One image: loaded when the id is positive, sized to its intrinsic size,
     * left without a drawable otherwise.
     */
    constructor FromResource(resources: map<int, Image>, resId: int)
      requires resId > 0 ==> resId in resources
      ensures Valid() && AtDefaults()
      ensures this.resources == resources && drawableIds == []
      ensures resId > 0 ==> drawable == Some(Resized(Single(resId, resources[resId], NoBounds), [], resources))
      ensures resId <= 0 ==> drawable == None
    {
      translationX, translationY := 0.0, 0.0;
      scaleX, scaleY, alpha := 1.0, 1.0, 1.0;
      this.resources := resources;
      drawableIds := [];
      drawableId, drawableNormalId, drawableActiveId := 0, 0, 0;
      drawable := if resId > 0 then Some(Single(resId, resources[resId], NoBounds)) else None;
      new;
      ResizeDrawables();
      SetState(StateInactive);
    }

    /**
     * A normal and an active image: a state list in the inactive state, sized
     * to the union of both, when both ids are positive; no drawable otherwise.
     */
    constructor FromStates(resources: map<int, Image>, normalId: int, activeId: int)
      requires normalId > 0 && activeId > 0 ==> normalId in resources && activeId in resources
      ensures Valid() && AtDefaults()
      ensures this.resources == resources
      ensures normalId > 0 && activeId > 0 ==>
        drawableIds == [normalId, activeId] &&
        drawable == Some(Resized(Selector(resources, normalId, activeId, StateInactive),
                                 [normalId, activeId], resources))
      ensures !(normalId > 0 && activeId > 0) ==> drawable == None && drawableIds == []
    {
      translationX, translationY := 0.0, 0.0;
      scaleX, scaleY, alpha := 1.0, 1.0, 1.0;
      this.resources := resources;
      drawableIds := [];
      drawableId, drawableNormalId, drawableActiveId := 0, 0, 0;
      drawable := None;
      if normalId > 0 && activeId > 0 {
        drawable := Some(Selector(resources, normalId, activeId, []));
        drawableIds := [normalId, activeId];
      }
      new;
      SetState(StateInactive);
      ResizeDrawables();
    }

    /** Only a state list takes the new state set; nothing else changes. */
    method SetState(state: seq<int>)
      modifies this`drawable
      ensures old(Valid()) ==> Valid()
      ensures drawable == WithState(old(drawable), state)
    {
      if drawable.Some? && drawable.value.StateList? {
        drawable := Some(drawable.value.(state := state));
      }
    }

    /** Reloads the drawable from its configured resource ids. */
    method InitRes()
      requires Valid()
      modifies this`drawable, this`drawableIds
      ensures Valid()
      ensures unchanged(this`drawableId) && unchanged(this`drawableNormalId) && unchanged(this`drawableActiveId)
      ensures old(drawable).Some? && old(drawable).value.StateList? ==>
        if drawableNormalId > 0 && drawableActiveId > 0 then
          drawableIds == [drawableNormalId, drawableActiveId] &&
          drawable == Some(Resized(Selector(resources, drawableNormalId, drawableActiveId, []), drawableIds, resources))
        else
          drawableIds == old(drawableIds) && drawable == Some(Resized(old(drawable).value, drawableIds, resources))
      ensures !(old(drawable).Some? && old(drawable).value.StateList?) ==>
        drawableIds == old(drawableIds) &&
        drawable == if drawableId > 0 then Some(Resized(Single(drawableId, resources[drawableId], NoBounds), drawableIds, resources))
                    else old(drawable)
    {
      if drawable.Some? && drawable.value.StateList? {
        InitDrawableList();
      } else {
        InitResDrawable();
      }
    }

    /** A single image is replaced from drawableId only when that id is positive. */
    method InitResDrawable()
      requires Valid()
      modifies this`drawable
      ensures Valid()
      ensures drawable == if drawableId > 0 then Some(Resized(Single(drawableId, resources[drawableId], NoBounds), drawableIds, resources))
                          else old(drawable)
    {
      var resId := drawableId;
      if resId > 0 {
        drawable := Some(Single(resId, resources[resId], NoBounds));
        ResizeDrawables();
      }
    }

    /** Rebuilds the state list from the normal and active ids, then resizes either way. */
    method InitDrawableList()
      requires Valid()
      modifies this`drawable, this`drawableIds
      ensures Valid()
      ensures drawableNormalId > 0 && drawableActiveId > 0 ==>
        drawableIds == [drawableNormalId, drawableActiveId] &&
        drawable == Some(Resized(Selector(resources, drawableNormalId, drawableActiveId, []), drawableIds, resources))
      ensures !(drawableNormalId > 0 && drawableActiveId > 0) ==>
        drawableIds == old(drawableIds) &&
        drawable == if old(drawable).Some? then Some(Resized(old(drawable).value, drawableIds, resources)) else None
    {
      if drawableNormalId > 0 && drawableActiveId > 0 {
        drawable := Some(Selector(resources, drawableNormalId, drawableActiveId, []));
        drawableIds := [drawableNormalId, drawableActiveId];
      }
      ResizeDrawables();
    }

    /**
     * Whether the current state set holds the focused state (only a state
     * list has one), found by scanning the set.
     */
    method IsActive() returns (active: bool)
      ensures active <==> AttrFocused in StateOf(drawable)
    {
      if drawable.Some? && drawable.value.StateList? {
        var states := drawable.value.state;
        var i := 0;
        while i < |states|
          invariant 0 <= i <= |states|
          invariant AttrFocused !in states[..i]
        {
          if states[i] == AttrFocused {
            return true;
          }
          assert states[..i + 1] == states[..i] + [states[i]];
          i := i + 1;
        }
        assert states[..i] == states;
      }
      return false;
    }

    /**
     * A drawable is usable exactly when one was loaded; without one the
     * reported size is 0 by 0 and drawing does nothing.
     */
    function IsValid(): (valid: bool)
      reads this`drawable
      ensures valid <==> drawable.Some?
      ensures !valid ==> GetWidth() == 0 && GetHeight() == 0 && Draw().None?
    {
      drawable != None
    }

    /**
     * Gives a state list the union size of its listed resources (first loop)
     * and every entry of a listed resource that size (second loop); gives a
     * single image its intrinsic size.
     */
    method ResizeDrawables()
      requires Valid()
      modifies this`drawable
      ensures Valid()
      ensures drawable == if old(drawable).Some? then Some(Resized(old(drawable).value, drawableIds, resources)) else None
    {
      if drawable.Some? && drawable.value.StateList? {
        var d := drawable.value;
        var maxWidth, maxHeight := UnionSize(drawableIds, resources);
        var b := Bounds(0, 0, maxWidth, maxHeight);
        var children := ReboundAll(d.children, drawableIds, b);
        drawable := Some(StateList(children, d.state, b));
      } else if drawable.Some? {
        var d := drawable.value;
        drawable := Some(Single(d.resId, d.image, Bounds(0, 0, IntrinsicWidth(d), IntrinsicHeight(d))));
      }
    }

    /** The first loop of the resize: the largest width and height over the listed resources. */
    static method UnionSize(ids: seq<int>, resources: map<int, Image>) returns (maxWidth: int, maxHeight: int)
      requires Listed(ids, resources)
      ensures maxWidth == MaxOf(Widths(ids, resources)) && maxHeight == MaxOf(Heights(ids, resources))
    {
      ghost var ws, hs := Widths(ids, resources), Heights(ids, resources);
      maxWidth, maxHeight := 0, 0;
      var i := 0;
      while i < |ids|
        invariant 0 <= i <= |ids|
        invariant maxWidth == MaxOf(ws[..i]) && maxHeight == MaxOf(hs[..i])
      {
        var child := resources[ids[i]];
        MaxOfStep(ws, i);
        MaxOfStep(hs, i);
        maxWidth := Max(maxWidth, child.width);
        maxHeight := Max(maxHeight, child.height);
        i := i + 1;
      }
      assert ws[..i] == ws && hs[..i] == hs;
    }

    /** The second loop of the resize: each listed resource's entry gets the bounds b. */
    static method ReboundAll(children: seq<Child>, ids: seq<int>, b: Bounds) returns (cs: seq<Child>)
      ensures cs == Rebound(children, ids, b)
    {
      cs := children;
      var i := 0;
      while i < |ids|
        invariant 0 <= i <= |ids|
        invariant cs == Rebound(children, ids[..i], b)
      {
        var id := ids[i];
        cs := seq(|cs|, j requires 0 <= j < |cs| =>
          if cs[j].resId == id then cs[j].(bounds := b) else cs[j]);
        assert ids[..i + 1] == ids[..i] + [id];
        i := i + 1;
      }
      assert ids[..i] == ids;
    }

    method SetX(x: real)
      modifies this`translationX
      ensures translationX == x
    {
      translationX := x;
    }

    method SetY(y: real)
      modifies this`translationY
      ensures translationY == y
    {
      translationY := y;
    }

    method SetScaleX(x: real)
      modifies this`scaleX
      ensures scaleX == x
    {
      scaleX := x;
    }

    method SetScaleY(y: real)
      modifies this`scaleY
      ensures scaleY == y
    {
      scaleY := y;
    }

    method SetAlpha(a: real)
      modifies this`alpha
      ensures alpha == a
    {
      alpha := a;
    }

    /** The drawable's width, or 0 without one. */
    function GetWidth(): (w: int)
      reads this`drawable
      ensures drawable.None? ==> w == 0
      ensures drawable.Some? ==> w == IntrinsicWidth(drawable.value)
    {
      if drawable.Some? then IntrinsicWidth(drawable.value) else 0
    }

    function GetHeight(): (h: int)
      reads this`drawable
      ensures drawable.None? ==> h == 0
      ensures drawable.Some? ==> h == IntrinsicHeight(drawable.value)
    {
      if drawable.Some? then IntrinsicHeight(drawable.value) else 0
    }

    /**
     * Nothing is drawn without a drawable; otherwise the drawable is drawn
     * centred on the translation, at the current scale and alpha.
     */
    function Draw(): (call: Option<DrawCall>)
      reads this`drawable, this`translationX, this`translationY, this`scaleX, this`scaleY, this`alpha
      ensures call.None? <==> drawable.None?
      ensures call.Some? ==>
        call.value.drawable == drawable.value &&
        call.value.x == translationX && call.value.y == translationY &&
        2.0 * call.value.offsetX == -(GetWidth() as real) &&
        2.0 * call.value.offsetY == -(GetHeight() as real)
    {
      if drawable.None? then None
      else Some(DrawCall(translationX, translationY, scaleX, scaleY,
                         -0.5 * GetWidth() as real, -0.5 * GetHeight() as real, alpha, drawable.value))
    }
  }
}
