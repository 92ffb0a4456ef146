/**
 * The notch shell's geometry and its runtime state. Lengths are reals, in points; the origin is at
 * the bottom left, so a window hangs from its top edge and grows downward.
 */
module Shell {
  import opened Basics

  const WINDOW_MARGIN_SIDE: real := 24.0
  const WINDOW_MARGIN_BOTTOM: real := 48.0
  const EAR_WIDTH: real := 110.0
  const PANEL_EAR_WIDTH: real := 300.0
  const PANEL_HEIGHT: real := 420.0
  const PANEL_MAX_SCREEN_WIDTH_RATIO: real := 0.55
  const PROMPT_TEXT_ROW: real := 44.0
  const PROMPT_MAX_GROWTH: real := 200.0
  const COLLAPSED_STATE: string := "collapsed"
  const PROMPT_STATE: string := "prompt"

  // ---------- geometry ----------

  function Clamp(value: real, low: real, high: real): real {
    if value < low then low else if value > high then high else value
  }

  function Min(x: real, y: real): real { if x <= y then x else y }

  function Max(x: real, y: real): real { if x >= y then x else y }

  datatype ShellDim = Cutout | CutoutPlus(perSide: real, maxScreenRatio: real)
                    | CutoutOffset(offset: real) | Fixed(points: real)

  function Resolve(dim: ShellDim, cutout: real, screen: real): real {
    match dim
    case Cutout => Clamp(cutout, 0.0, screen)
    case CutoutPlus(perSide, ratio) => Clamp(cutout + 2.0 * perSide, 0.0, screen * ratio)
    case CutoutOffset(offset) => Clamp(cutout + offset, 0.0, screen)
    case Fixed(points) => Clamp(points, 0.0, screen)
  }

  datatype HeightRange = HeightRange(min: ShellDim, max: ShellDim)

  datatype Spec = Spec(name: string, width: ShellDim, height: ShellDim, interactive: bool,
                       focusable: bool, contentHeight: Option<HeightRange>) {
    function MinHeight(): ShellDim { if contentHeight.Some? then contentHeight.value.min else height }

    function MaxHeight(): ShellDim { if contentHeight.Some? then contentHeight.value.max else height }
  }

  const SHELL_STATES: seq<Spec> := [
    Spec(COLLAPSED_STATE, Cutout, Cutout, false, false, None),
    Spec("compact", CutoutPlus(EAR_WIDTH, 1.0), Cutout, false, false, None),
    Spec(PROMPT_STATE, CutoutPlus(EAR_WIDTH, 1.0), CutoutOffset(PROMPT_TEXT_ROW), true, true,
         Some(HeightRange(CutoutOffset(PROMPT_TEXT_ROW), CutoutOffset(PROMPT_TEXT_ROW + PROMPT_MAX_GROWTH)))),
    Spec("panel", CutoutPlus(PANEL_EAR_WIDTH, PANEL_MAX_SCREEN_WIDTH_RATIO), Fixed(PANEL_HEIGHT), true, false, None)]

  datatype Notch = Notch(cutoutWidth: real, cutoutHeight: real, screenWidth: real,
                         screenHeight: real, cutoutCenterX: real)

  datatype StateGeometry = StateGeometry(
    name: string, width: real, height: real, interactive: bool, focusable: bool, minHeight: real, maxHeight: real)

  datatype Geometry = Geometry(states: seq<StateGeometry>, notch: Notch)

  datatype Rect = Rect(x: real, y: real, width: real, height: real) {
    predicate Contains(px: real, py: real) { x <= px <= x + width && y <= py <= y + height }

    function Top(): real { y + height }

    function Right(): real { x + width }

    predicate Covers(r: Rect) { x <= r.x && y <= r.y && r.Right() <= Right() && r.Top() <= Top() }
  }

  function GeometryOf(spec: Spec, notch: Notch): StateGeometry {
    StateGeometry(
      spec.name,
      Resolve(spec.width, notch.cutoutWidth, notch.screenWidth),
      Resolve(spec.height, notch.cutoutHeight, notch.screenHeight),
      spec.interactive,
      spec.focusable,
      Resolve(spec.MinHeight(), notch.cutoutHeight, notch.screenHeight),
      Resolve(spec.MaxHeight(), notch.cutoutHeight, notch.screenHeight))
  }

  function ShellGeometry(notch: Notch): Geometry {
    Geometry(seq(|SHELL_STATES|, k requires 0 <= k < |SHELL_STATES| => GeometryOf(SHELL_STATES[k], notch)), notch)
  }

  /** The widest shell, zero for none. */
  function Widest(states: seq<StateGeometry>): (w: real)
    ensures forall k :: 0 <= k < |states| ==> states[k].width <= w
    ensures w >= 0.0
  {
    if states == [] then 0.0 else Max(Widest(states[..|states| - 1]), states[|states| - 1].width)
  }

  /** One width for the window in every state. */
  function WindowWidth(g: Geometry): real {
    Widest(g.states) + 2.0 * WINDOW_MARGIN_SIDE
  }

  function TargetFrame(state: StateGeometry, notch: Notch, originX: real, originY: real, windowWidth: real): Rect {
    var height := state.height + WINDOW_MARGIN_BOTTOM;
    Rect(originX + notch.cutoutCenterX - windowWidth / 2.0, originY + notch.screenHeight - height, windowWidth, height)
  }

  function ShellRect(state: StateGeometry, notch: Notch, originX: real, originY: real): Rect {
    Rect(originX + notch.cutoutCenterX - state.width / 2.0, originY + notch.screenHeight - state.height,
         state.width, state.height)
  }

  function GrowUnion(current: Rect, target: Rect): Rect {
    var left, right := Min(current.x, target.x), Max(current.Right(), target.Right());
    var top, bottom := Max(current.Top(), target.Top()), Min(current.y, target.y);
    Rect(left, bottom, right - left, top - bottom)
  }

  function ReconcileWindowFrame(current: Rect, target: Rect, displayChanged: bool): Rect {
    if displayChanged then target else GrowUnion(current, target)
  }

  /** The union covers both, and nothing smaller does. */
  lemma GrowUnionIsLeast(current: Rect, target: Rect, other: Rect)
    ensures GrowUnion(current, target).Covers(current) && GrowUnion(current, target).Covers(target)
    ensures other.Covers(current) && other.Covers(target) ==> other.Covers(GrowUnion(current, target))
  {
  }

  /** The first row with a name, or the length. */
  function PositionOf(states: seq<StateGeometry>, name: string): (i: nat)
    ensures i <= |states| && (i < |states| ==> states[i].name == name)
    ensures forall k :: 0 <= k < i ==> states[k].name != name
  {
    if states == [] || states[0].name == name then 0 else 1 + PositionOf(states[1..], name)
  }

  // ---------- the runtime ----------

  datatype Runtime = Runtime(
    geometry: Geometry,
    originX: real,
    originY: real,
    activeIndex: nat,
    interactive: bool,
    nativeInteractive: Option<bool>,
    focusable: bool,
    nativeFocusable: Option<bool>,
    pinned: bool,
    focused: bool,
    contentHeight: Option<real>,
    lastInside: Option<bool>,
    outsideSince: Option<nat>)

  datatype ForcedCollapse = ForcedCollapse(frame: Option<Rect>, hoverChanged: bool, leftPrompt: bool)

  datatype DisplayUpdate = DisplayUpdate(target: Rect, displayChanged: bool)

  function NewRuntime(g: Geometry, originX: real, originY: real): Runtime {
    Runtime(g, originX, originY, 0, false, None, false, None, false, false, None, None, None)
  }

  /** The frame a state wants; the active one uses its measured height. */
  function FrameOf(rt: Runtime, index: nat): Option<Rect> {
    if index >= |rt.geometry.states| then None else
    var state := rt.geometry.states[index];
    var sized := if index == rt.activeIndex && rt.contentHeight.Some?
                 then state.(height := Clamp(rt.contentHeight.value, state.minHeight, state.maxHeight)) else state;
    Some(TargetFrame(sized, rt.geometry.notch, rt.originX, rt.originY, WindowWidth(rt.geometry)))
  }

  function AfterUpdateDisplay(rt: Runtime, g: Geometry, originX: real, originY: real):
      (Runtime, Option<DisplayUpdate>) {
    var changed := rt.originX != originX || rt.originY != originY
                   || rt.geometry.notch.screenWidth != g.notch.screenWidth
                   || rt.geometry.notch.screenHeight != g.notch.screenHeight;
    var next := rt.(geometry := g, originX := originX, originY := originY);
    var frame := FrameOf(next, rt.activeIndex);
    (next, if frame.Some? then Some(DisplayUpdate(frame.value, changed)) else None)
  }

  function AfterSetActive(rt: Runtime, index: nat): (Runtime, Option<Rect>) {
    if index >= |rt.geometry.states| then (rt, None) else
    var state := rt.geometry.states[index];
    var next := rt.(activeIndex := index, interactive := state.interactive, focusable := state.focusable,
                    contentHeight := None, outsideSince := None);
    (next, FrameOf(next, index))
  }

  function AfterContentHeight(rt: Runtime, height: real): (Runtime, Option<real>) {
    if rt.activeIndex >= |rt.geometry.states| then (rt, None) else
    var state := rt.geometry.states[rt.activeIndex];
    if state.maxHeight <= state.minHeight then (rt, Some(state.height)) else
    var clamped := Clamp(height, state.minHeight, state.maxHeight);
    (rt.(contentHeight := Some(clamped)), Some(clamped))
  }

  predicate ActiveInteractive(rt: Runtime) {
    rt.activeIndex < |rt.geometry.states| && rt.geometry.states[rt.activeIndex].interactive
  }

  function AfterRequestKeyboard(rt: Runtime): (Runtime, bool) {
    (if ActiveInteractive(rt) then rt.(focusable := true) else rt, ActiveInteractive(rt))
  }

  /** The hit test: the active row at its nominal height, whatever height was measured. */
  function InsideAt(rt: Runtime, x: real, y: real): Option<bool> {
    if rt.activeIndex >= |rt.geometry.states| then None
    else Some(ShellRect(rt.geometry.states[rt.activeIndex], rt.geometry.notch, rt.originX, rt.originY).Contains(x, y))
  }

  function TrackOutside(rt: Runtime, inside: bool, now: nat): Runtime {
    if inside then rt.(outsideSince := None)
    else if rt.outsideSince.None? then rt.(outsideSince := Some(now)) else rt
  }

  function AfterObserveCursor(rt: Runtime, x: real, y: real, now: nat): (Runtime, Option<bool>) {
    var inside := InsideAt(rt, x, y);
    if inside.None? then (rt, None)
    else (TrackOutside(rt.(lastInside := inside), inside.value, now), if rt.lastInside != inside then inside else None)
  }

  /** An interactive window is stranded: unfocused, unpinned, and the cursor away for the grace period. */
  predicate OutsideFor(rt: Runtime, now: nat, grace: nat) {
    rt.interactive && !rt.focused && !rt.pinned && rt.outsideSince.Some? && now >= rt.outsideSince.value + grace
  }

  function AfterWatchdog(rt: Runtime, x: real, y: real, now: nat, grace: nat): (Runtime, bool) {
    var inside := InsideAt(rt, x, y);
    var next := if inside.Some? then TrackOutside(rt, inside.value, now) else rt;
    (next, OutsideFor(next, now, grace))
  }

  function AfterForcedCollapse(rt: Runtime): (Runtime, ForcedCollapse) {
    var collapsed := PositionOf(rt.geometry.states, COLLAPSED_STATE);
    var frame := FrameOf(rt, collapsed);
    (rt.(activeIndex := if collapsed < |rt.geometry.states| then collapsed else rt.activeIndex,
         interactive := false, focusable := false, pinned := false, contentHeight := None, outsideSince := None,
         lastInside := Some(false)),
     ForcedCollapse(frame, rt.lastInside != Some(false), rt.focusable))
  }

  class ShellRuntime {
    var geometry: Geometry
    var originX: real
    var originY: real
    var activeIndex: nat
    var interactive: bool
    var nativeInteractive: Option<bool>
    var focusable: bool
    var nativeFocusable: Option<bool>
    var pinned: bool
    var focused: bool
    var contentHeight: Option<real>
    var lastInside: Option<bool>
    var outsideSince: Option<nat>

    ghost function Value(): Runtime
      reads this
    {
      Runtime(geometry, originX, originY, activeIndex, interactive, nativeInteractive, focusable, nativeFocusable,
              pinned, focused, contentHeight, lastInside, outsideSince)
    }

    constructor (g: Geometry, x: real, y: real)
      ensures Value() == NewRuntime(g, x, y)
    {
      geometry, originX, originY, activeIndex := g, x, y, 0;
      interactive, nativeInteractive, focusable, nativeFocusable := false, None, false, None;
      pinned, focused, contentHeight, lastInside, outsideSince := false, false, None, None, None;
    }

    method TargetFrameAt(index: nat) returns (frame: Option<Rect>)
      ensures frame == FrameOf(Value(), index)
    {
      if index >= |geometry.states| {
        return None;
      }
      var state := geometry.states[index];
      if index == activeIndex && contentHeight.Some? {
        state := state.(height := Clamp(contentHeight.value, state.minHeight, state.maxHeight));
      }
      return Some(TargetFrame(state, geometry.notch, originX, originY, WindowWidth(geometry)));
    }

    method UpdateDisplay(g: Geometry, x: real, y: real) returns (update: Option<DisplayUpdate>)
      modifies this`geometry, this`originX, this`originY
      ensures (Value(), update) == AfterUpdateDisplay(old(Value()), g, x, y)
    {
      var displayChanged := originX != x || originY != y
        || geometry.notch.screenWidth != g.notch.screenWidth || geometry.notch.screenHeight != g.notch.screenHeight;
      geometry := g;
      originX := x;
      originY := y;
      var target := TargetFrameAt(activeIndex);
      return if target.Some? then Some(DisplayUpdate(target.value, displayChanged)) else None;
    }

    method SetActive(index: nat) returns (frame: Option<Rect>)
      modifies this
      ensures (Value(), frame) == AfterSetActive(old(Value()), index)
    {
      hide FrameOf;
      if index >= |geometry.states| {
        return None;
      }
      var state := geometry.states[index];
      activeIndex := index;
      interactive := state.interactive;
      focusable := state.focusable;
      contentHeight := None;
      outsideSince := None;
      frame := TargetFrameAt(index);
    }

    method SetContentHeight(height: real) returns (stored: Option<real>)
      modifies this`contentHeight
      ensures (Value(), stored) == AfterContentHeight(old(Value()), height)
    {
      if activeIndex >= |geometry.states| {
        return None;
      }
      var state := geometry.states[activeIndex];
      if state.maxHeight <= state.minHeight {
        return Some(state.height);
      }
      var clamped := Clamp(height, state.minHeight, state.maxHeight);
      contentHeight := Some(clamped);
      return Some(clamped);
    }

    method RequestKeyboard() returns (granted: bool)
      modifies this`focusable
      ensures (Value(), granted) == AfterRequestKeyboard(old(Value()))
    {
      granted := activeIndex < |geometry.states| && geometry.states[activeIndex].interactive;
      if granted {
        focusable := true;
      }
    }

    method ObserveCursor(x: real, y: real, now: nat) returns (edge: Option<bool>)
      modifies this`lastInside, this`outsideSince
      ensures (Value(), edge) == AfterObserveCursor(old(Value()), x, y, now)
    {
      if activeIndex >= |geometry.states| {
        return None;
      }
      var inside := ShellRect(geometry.states[activeIndex], geometry.notch, originX, originY).Contains(x, y);
      var changed := lastInside != Some(inside);
      lastInside := Some(inside);
      TrackCursor(inside, now);
      return if changed then Some(inside) else None;
    }

    method TrackCursor(inside: bool, now: nat)
      modifies this`outsideSince
      ensures Value() == TrackOutside(old(Value()), inside, now)
    {
      if inside {
        outsideSince := None;
      } else if outsideSince.None? {
        outsideSince := Some(now);
      }
    }

    method WatchdogDecision(x: real, y: real, now: nat, grace: nat) returns (collapse: bool)
      modifies this`outsideSince
      ensures (Value(), collapse) == AfterWatchdog(old(Value()), x, y, now, grace)
    {
      if activeIndex < |geometry.states| {
        var inside := ShellRect(geometry.states[activeIndex], geometry.notch, originX, originY).Contains(x, y);
        TrackCursor(inside, now);
      }
      return interactive && !focused && !pinned && outsideSince.Some? && now >= outsideSince.value + grace;
    }

    method MarkForcedCollapse() returns (done: ForcedCollapse)
      modifies this
      ensures (Value(), done) == AfterForcedCollapse(old(Value()))
    {
      hide FrameOf, PositionOf;
      var leftPrompt := focusable;
      var collapsed := PositionOf(geometry.states, COLLAPSED_STATE);
      var frame := TargetFrameAt(collapsed);
      if collapsed < |geometry.states| {
        activeIndex := collapsed;
      }
      interactive := false;
      focusable := false;
      pinned := false;
      contentHeight := None;
      outsideSince := None;
      var hoverChanged := lastInside != Some(false);
      lastInside := Some(false);
      return ForcedCollapse(frame, hoverChanged, leftPrompt);
    }
  }
}
