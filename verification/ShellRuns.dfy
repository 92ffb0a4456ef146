/**
 * The overlay window over whole runs: the runtime, the native window and the display polls that
 * were read but not applied yet. Each operation is one section on the main thread, except that a
 * poll reads the display in one section and moves the window in another.
 */
module ShellRuns {
  import opened Basics
  import opened Shell

  datatype World = World(rt: Runtime, frame: Rect, ignoresMouse: bool, acceptsKeys: bool, polls: seq<DisplayUpdate>)

  datatype Op =
    | Request(name: string)
    | Commit(name: string)
    | Resize(height: real)
    | Keyboard
    | Pin(pinned: bool)
    | Focus(focused: bool)
    | Cursor(x: real, y: real, now: nat)
    | Watch(x: real, y: real, now: nat, grace: nat)
    | Collapse
    | PollRead(notch: Notch, originX: real, originY: real)
    | PollApply(k: nat)

  /** The two single writers of the native flags, run back to back. */
  function Synced(w: World): World {
    w.(rt := w.rt.(nativeInteractive := Some(w.rt.interactive), nativeFocusable := Some(w.rt.focusable)),
       ignoresMouse := !w.rt.interactive, acceptsKeys := w.rt.focusable)
  }

  function Collapsed(w: World): World {
    var (rt, done) := AfterForcedCollapse(w.rt);
    var synced := Synced(w.(rt := rt));
    if done.frame.Some? then synced.(frame := done.frame.value) else synced
  }

  function Next(w: World, op: Op): World {
    match op
    case Request(name) =>
      var index := PositionOf(w.rt.geometry.states, name);
      var (rt, target) := AfterSetActive(w.rt, index);
      if target.None? then w else Synced(w.(rt := rt, frame := GrowUnion(w.frame, target.value)))
    case Commit(name) =>
      var index := PositionOf(w.rt.geometry.states, name);
      var target := FrameOf(w.rt, w.rt.activeIndex);
      if index == |w.rt.geometry.states| then w
      else if index == w.rt.activeIndex && target.Some? then Synced(w.(frame := target.value))
      else Synced(w)
    case Resize(height) =>
      var (rt, stored) := AfterContentHeight(w.rt, height);
      var target := FrameOf(rt, rt.activeIndex);
      if stored.None? || target.None? then w else w.(rt := rt, frame := GrowUnion(w.frame, target.value))
    case Keyboard =>
      var (rt, granted) := AfterRequestKeyboard(w.rt);
      if granted then w.(rt := rt.(nativeFocusable := Some(rt.focusable)), acceptsKeys := rt.focusable) else w
    case Pin(pinned) => w.(rt := w.rt.(pinned := pinned))
    case Focus(focused) => w.(rt := w.rt.(focused := focused))
    case Cursor(x, y, now) => w.(rt := AfterObserveCursor(w.rt, x, y, now).0)
    case Watch(x, y, now, grace) =>
      var (rt, collapse) := AfterWatchdog(w.rt, x, y, now, grace);
      if collapse then Collapsed(w.(rt := rt)) else w.(rt := rt)
    case Collapse => Collapsed(w)
    case PollRead(notch, originX, originY) =>
      var (rt, update) := AfterUpdateDisplay(w.rt, ShellGeometry(notch), originX, originY);
      w.(rt := rt, polls := if update.Some? then w.polls + [update.value] else w.polls)
    case PollApply(k) =>
      if k >= |w.polls| then w
      else w.(frame := ReconcileWindowFrame(w.frame, w.polls[k].target, w.polls[k].displayChanged),
              polls := w.polls[..k] + w.polls[k + 1..])
  }

  /** After setup: the collapsed state, exactly framed, clicks passing through, no keyboard. */
  function Setup(notch: Notch, originX: real, originY: real): World {
    var rt := NewRuntime(ShellGeometry(notch), originX, originY);
    var target := FrameOf(rt, 0);
    Synced(World(rt, if target.Some? then target.value else Rect(0.0, 0.0, 0.0, 0.0), true, false, []))
  }

  /** The polls of a run all find the display as it was at setup. */
  predicate SameDisplay(op: Op, notch: Notch, originX: real, originY: real) {
    op.PollRead? ==> op.notch == notch && op.originX == originX && op.originY == originY
  }

  function Run(notch: Notch, originX: real, originY: real, ops: seq<Op>): World {
    if ops == [] then Setup(notch, originX, originY)
    else Next(Run(notch, originX, originY, ops[..|ops| - 1]), ops[|ops| - 1])
  }

  // ---------- the table ----------

  ghost predicate GoodRow(s: StateGeometry) {
    && s.minHeight == s.height
    && (s.focusable ==> s.interactive)
    && (s.name == COLLAPSED_STATE ==> !s.interactive && !s.focusable && s.maxHeight == s.minHeight)
  }

  ghost predicate GoodTable(g: Geometry) {
    && |g.states| > 0 && g.states[0].name == COLLAPSED_STATE
    && (forall k :: 0 <= k < |g.states| ==> GoodRow(g.states[k]))
  }

  /** On any display the table resolves to rows that open at their least height, and only clickable rows take keys. */
  lemma TableIsGood(notch: Notch)
    ensures GoodTable(ShellGeometry(notch))
  {
  }

  // ---------- what every run keeps ----------

  /** The column of the window: its left edge, its width and its top edge never change. */
  ghost predicate InColumn(rt: Runtime, r: Rect) {
    && r.x == rt.originX + rt.geometry.notch.cutoutCenterX - WindowWidth(rt.geometry) / 2.0
    && r.width == WindowWidth(rt.geometry)
    && r.Top() == rt.originY + rt.geometry.notch.screenHeight
  }

  ghost predicate Active(rt: Runtime) {
    rt.activeIndex < |rt.geometry.states|
  }

  ghost predicate Framed(w: World) {
    && Active(w.rt)
    && InColumn(w.rt, w.frame)
    && w.frame.Covers(FrameOf(w.rt, w.rt.activeIndex).value)
    && forall k :: 0 <= k < |w.polls| ==> InColumn(w.rt, w.polls[k].target) && !w.polls[k].displayChanged
  }

  /** The measured height belongs to a content-driven row and lies within its bounds. */
  ghost predicate Measured(rt: Runtime) {
    Active(rt) && (rt.contentHeight.Some? ==>
      var s := rt.geometry.states[rt.activeIndex];
      s.minHeight < s.maxHeight && s.minHeight <= rt.contentHeight.value <= s.maxHeight)
  }

  /** The flags follow the active row, keys need clicks, and the native flags are what the runtime says. */
  ghost predicate Flagged(w: World) {
    && Active(w.rt)
    && w.rt.interactive == w.rt.geometry.states[w.rt.activeIndex].interactive
    && (w.rt.focusable ==> w.rt.interactive)
    && (w.rt.geometry.states[w.rt.activeIndex].focusable ==> w.rt.focusable)
    && w.ignoresMouse == !w.rt.interactive && w.rt.nativeInteractive == Some(w.rt.interactive)
    && w.acceptsKeys == w.rt.focusable && w.rt.nativeFocusable == Some(w.rt.focusable)
  }

  ghost predicate OnDisplay(rt: Runtime, notch: Notch, originX: real, originY: real) {
    rt.geometry == ShellGeometry(notch) && rt.originX == originX && rt.originY == originY && GoodTable(rt.geometry)
  }

  lemma FrameInColumn(rt: Runtime, index: nat)
    requires index < |rt.geometry.states|
    ensures FrameOf(rt, index).Some? && InColumn(rt, FrameOf(rt, index).value)
  {
    hide Widest;
  }

  /** Growing towards a frame of the same column stays in the column and covers both. */
  lemma GrowsInColumn(rt: Runtime, r: Rect, target: Rect)
    requires InColumn(rt, r) && InColumn(rt, target)
    ensures InColumn(rt, GrowUnion(r, target)) && GrowUnion(r, target).Covers(r) && GrowUnion(r, target).Covers(target)
    ensures GrowUnion(r, target).y == Min(r.y, target.y)
  {
    hide Widest;
  }

  lemma CoversItself(r: Rect)
    ensures r.Covers(r)
  {
  }

  lemma Related(rt: Runtime, rt': Runtime, r: Rect)
    requires rt'.geometry == rt.geometry && rt'.originX == rt.originX && rt'.originY == rt.originY
    ensures InColumn(rt', r) == InColumn(rt, r)
  {
  }

  /** A new frame over the same display keeps the window framed when it covers what is active now. */
  lemma Reframed(w: World, w': World)
    requires Framed(w) && w'.polls == w.polls
    requires w'.rt.geometry == w.rt.geometry && w'.rt.originX == w.rt.originX && w'.rt.originY == w.rt.originY
    requires Active(w'.rt) && InColumn(w'.rt, w'.frame) && w'.frame.Covers(FrameOf(w'.rt, w'.rt.activeIndex).value)
    ensures Framed(w')
  {
    hide FrameOf, InColumn;
    forall k | 0 <= k < |w'.polls| ensures InColumn(w'.rt, w'.polls[k].target) {
      Related(w.rt, w'.rt, w'.polls[k].target);
    }
  }

  lemma GrownFrame(w: World, w': World, target: Rect)
    requires Framed(w) && w'.polls == w.polls
    requires w'.rt.geometry == w.rt.geometry && w'.rt.originX == w.rt.originX && w'.rt.originY == w.rt.originY
    requires Active(w'.rt) && FrameOf(w'.rt, w'.rt.activeIndex) == Some(target)
             && w'.frame == GrowUnion(w.frame, target)
    ensures Framed(w')
  {
    hide FrameOf, InColumn, GrowUnion;
    Related(w.rt, w'.rt, w.frame);
    assert InColumn(w'.rt, target) by { FrameInColumn(w'.rt, w'.rt.activeIndex); }
    GrowsInColumn(w'.rt, w.frame, target);
    Reframed(w, w');
  }

  lemma ExactFrame(w: World, w': World)
    requires Framed(w) && w'.polls == w.polls
    requires w'.rt.geometry == w.rt.geometry && w'.rt.originX == w.rt.originX && w'.rt.originY == w.rt.originY
    requires Active(w'.rt) && FrameOf(w'.rt, w'.rt.activeIndex) == Some(w'.frame)
    ensures Framed(w')
  {
    hide FrameOf, InColumn;
    FrameInColumn(w'.rt, w'.rt.activeIndex);
    CoversItself(w'.frame);
    Reframed(w, w');
  }

  /** A step that changes nothing the active frame depends on. */
  lemma SameFrame(w: World, w': World)
    requires Framed(w) && w'.polls == w.polls && w'.frame == w.frame
    requires w'.rt.geometry == w.rt.geometry && w'.rt.originX == w.rt.originX && w'.rt.originY == w.rt.originY
    requires w'.rt.activeIndex == w.rt.activeIndex && w'.rt.contentHeight == w.rt.contentHeight
    ensures Framed(w')
  {
    hide InColumn;
    Related(w.rt, w'.rt, w.frame);
    Reframed(w, w');
  }

  lemma CollapsedIsFirst(g: Geometry)
    requires GoodTable(g)
    ensures PositionOf(g.states, COLLAPSED_STATE) == 0
  {
  }

  lemma CollapseKeepsFramed(w: World)
    requires Framed(w) && Measured(w.rt) && GoodTable(w.rt.geometry)
    ensures Framed(Collapsed(w))
    ensures FrameOf(Collapsed(w).rt, Collapsed(w).rt.activeIndex) == Some(Collapsed(w).frame)
  {
    hide Widest, PositionOf, InColumn;
    CollapsedIsFirst(w.rt.geometry);
    assert FrameOf(Collapsed(w).rt, 0) == FrameOf(w.rt, 0)
      by { hide TargetFrame; assert GoodRow(w.rt.geometry.states[0]); }
    hide FrameOf;
    ExactFrame(w, Collapsed(w));
  }

  lemma RequestKeepsFramed(w: World, name: string)
    requires Framed(w)
    ensures Framed(Next(w, Request(name)))
  {
    hide Widest, InColumn, GrowUnion, FrameOf, Framed;
    var index := PositionOf(w.rt.geometry.states, name);
    var w' := Next(w, Request(name));
    if index < |w.rt.geometry.states| {
      var rt := AfterSetActive(w.rt, index).0;
      FrameInColumn(rt, index);
      SyncSameFrame(rt, w'.rt);
      GrownFrame(w, w', FrameOf(rt, index).value);
    }
  }

  /** A commit of the active state is exact; any other leaves the window alone. */
  lemma CommitKeepsFramed(w: World, name: string)
    requires Framed(w)
    ensures Framed(Next(w, Commit(name)))
    ensures var w' := Next(w, Commit(name));
            w'.frame == (if PositionOf(w.rt.geometry.states, name) == w.rt.activeIndex
                         then FrameOf(w'.rt, w'.rt.activeIndex).value else w.frame)
  {
    hide Widest, InColumn, FrameOf, Framed;
    FramedIsActive(w);
    var w' := Next(w, Commit(name));
    FrameInColumn(w.rt, w.rt.activeIndex);
    SyncSameFrame(w.rt, w'.rt);
    if PositionOf(w.rt.geometry.states, name) == w.rt.activeIndex {
      ExactFrame(w, w');
    } else {
      SameFrame(w, w');
    }
  }

  lemma ResizeKeepsFramed(w: World, height: real)
    requires Framed(w)
    ensures Framed(Next(w, Resize(height)))
  {
    hide Widest, InColumn, GrowUnion, FrameOf, Framed;
    FramedIsActive(w);
    var rt := AfterContentHeight(w.rt, height).0;
    FrameInColumn(rt, rt.activeIndex);
    GrownFrame(w, Next(w, Resize(height)), FrameOf(rt, rt.activeIndex).value);
  }

  lemma WatchKeepsFramed(w: World, x: real, y: real, now: nat, grace: nat)
    requires Framed(w) && Measured(w.rt) && GoodTable(w.rt.geometry)
    ensures Framed(Next(w, Watch(x, y, now, grace)))
  {
    hide Widest, InColumn, FrameOf, Framed, Measured, GoodTable, InsideAt, Collapsed;
    var watched := w.(rt := AfterWatchdog(w.rt, x, y, now, grace).0);
    SameFrame(w, watched);
    MeasuredSame(w.rt, watched.rt);
    if AfterWatchdog(w.rt, x, y, now, grace).1 {
      CollapseKeepsFramed(watched);
    }
  }

  lemma StepKeepsFramed(w: World, op: Op, notch: Notch, originX: real, originY: real)
    requires Framed(w) && Measured(w.rt) && OnDisplay(w.rt, notch, originX, originY)
             && SameDisplay(op, notch, originX, originY)
    ensures Framed(Next(w, op))
  {
    hide Widest, InColumn, GrowUnion, FrameOf, ShellGeometry, GoodTable, Framed, InsideAt, Measured;
    match op
    case Request(name) => RequestKeepsFramed(w, name);
    case Commit(name) => CommitKeepsFramed(w, name);
    case Resize(height) => ResizeKeepsFramed(w, height);
    case Keyboard => SameFrame(w, Next(w, op));
    case Pin(_) => SameFrame(w, Next(w, op));
    case Focus(_) => SameFrame(w, Next(w, op));
    case Cursor(_, _, _) => SameFrame(w, Next(w, op));
    case Watch(x, y, now, grace) => WatchKeepsFramed(w, x, y, now, grace);
    case Collapse => CollapseKeepsFramed(w);
    case PollRead(_, _, _) => PollReadKeepsFramed(w, op);
    case PollApply(k) => if k < |w.polls| { PollApplyKeepsFramed(w, k); }
  }

  ghost predicate SamePlace(rt: Runtime, rt': Runtime) {
    rt'.geometry == rt.geometry && rt'.originX == rt.originX && rt'.originY == rt.originY
  }

  lemma TrackingStays(rt: Runtime, inside: bool, now: nat)
    ensures SamePlace(rt, TrackOutside(rt, inside, now))
  {
  }

  lemma CollapseStays(w: World)
    ensures SamePlace(w.rt, Collapsed(w).rt)
  {
    hide FrameOf, PositionOf;
  }

  lemma CursorStays(w: World, op: Op)
    requires op.Cursor? || op.Watch?
    ensures SamePlace(w.rt, Next(w, op).rt)
  {
    hide TrackOutside, Collapsed, InsideAt, OutsideFor;
    var inside := InsideAt(w.rt, op.x, op.y);
    if inside.Some? {
      TrackingStays(w.rt, inside.value, op.now);
      TrackingStays(w.rt.(lastInside := inside), inside.value, op.now);
    }
    if op.Watch? {
      CollapseStays(w.(rt := AfterWatchdog(w.rt, op.x, op.y, op.now, op.grace).0));
    }
  }

  lemma CommandStays(w: World, op: Op)
    requires !op.Cursor? && !op.Watch? && !op.PollRead?
    ensures SamePlace(w.rt, Next(w, op).rt)
  {
    hide FrameOf, PositionOf, GrowUnion, ReconcileWindowFrame, Clamp, Collapsed;
    if op.Collapse? {
      CollapseStays(w);
    }
  }

  /** No operation but a poll touches the geometry, and a poll of the same display finds it as it was. */
  lemma StepKeepsDisplay(w: World, op: Op, notch: Notch, originX: real, originY: real)
    requires OnDisplay(w.rt, notch, originX, originY) && SameDisplay(op, notch, originX, originY)
    ensures OnDisplay(Next(w, op).rt, notch, originX, originY)
  {
    hide Next, GoodTable, ShellGeometry;
    if op.PollRead? {
      PollReadKeepsRuntime(w, op, notch, originX, originY);
    } else if op.Cursor? || op.Watch? {
      CursorStays(w, op);
    } else {
      CommandStays(w, op);
    }
  }

  lemma FramedIsActive(w: World)
    requires Framed(w)
    ensures Active(w.rt)
  {
  }

  /** A frame depends on the geometry, the active row and the measured height alone. */
  lemma SyncSameFrame(rt: Runtime, rt': Runtime)
    requires rt'.geometry == rt.geometry && rt'.originX == rt.originX && rt'.originY == rt.originY
    requires rt'.activeIndex == rt.activeIndex && rt'.contentHeight == rt.contentHeight
    ensures FrameOf(rt', rt'.activeIndex) == FrameOf(rt, rt.activeIndex)
  {
    hide TargetFrame;
  }

  lemma MeasuredSame(rt: Runtime, rt': Runtime)
    requires Measured(rt) && rt'.geometry == rt.geometry
             && rt'.activeIndex == rt.activeIndex && rt'.contentHeight == rt.contentHeight
    ensures Measured(rt')
  {
  }

  lemma PollReadKeepsFramed(w: World, op: Op)
    requires Framed(w) && op.PollRead? && ShellGeometry(op.notch) == w.rt.geometry
             && op.originX == w.rt.originX && op.originY == w.rt.originY
    ensures Framed(Next(w, op)) && Next(w, op).rt == w.rt
  {
    hide Widest, InColumn, ShellGeometry, FrameOf;
    FrameInColumn(w.rt, w.rt.activeIndex);
  }

  lemma PollApplyKeepsFramed(w: World, k: nat)
    requires Framed(w) && k < |w.polls|
    ensures Framed(Next(w, PollApply(k)))
  {
    hide Widest, InColumn, GrowUnion, FrameOf;
    var target := w.polls[k].target;
    FrameInColumn(w.rt, w.rt.activeIndex);
    GrowsInColumn(w.rt, w.frame, target);
    CoversTwice(GrowUnion(w.frame, target), w.frame, FrameOf(w.rt, w.rt.activeIndex).value);
  }

  lemma CoversTwice(a: Rect, b: Rect, c: Rect)
    requires a.Covers(b) && b.Covers(c)
    ensures a.Covers(c)
  {
  }

  lemma RequestKeepsRest(w: World, name: string)
    requires Measured(w.rt) && Flagged(w) && GoodTable(w.rt.geometry)
    ensures Measured(Next(w, Request(name)).rt) && Flagged(Next(w, Request(name)))
  {
    hide Widest, GrowUnion, FrameOf, GoodTable;
    var index := PositionOf(w.rt.geometry.states, name);
    if index < |w.rt.geometry.states| {
      FrameInColumn(AfterSetActive(w.rt, index).0, index);
      assert GoodRow(w.rt.geometry.states[index]) by { RowIsGood(w.rt.geometry, index); }
    }
  }

  lemma RowIsGood(g: Geometry, k: nat)
    requires GoodTable(g) && k < |g.states|
    ensures GoodRow(g.states[k])
  {
  }

  lemma CollapseKeepsRest(w: World)
    requires Active(w.rt) && GoodTable(w.rt.geometry)
    ensures Measured(Collapsed(w).rt) && Flagged(Collapsed(w))
  {
    CollapsedIsFirst(w.rt.geometry);
    RowIsGood(w.rt.geometry, 0);
    hide Widest, FrameOf, GoodTable, PositionOf;
  }

  lemma WatchKeepsRest(w: World, x: real, y: real, now: nat, grace: nat)
    requires Measured(w.rt) && Flagged(w) && GoodTable(w.rt.geometry)
    ensures Measured(Next(w, Watch(x, y, now, grace)).rt) && Flagged(Next(w, Watch(x, y, now, grace)))
  {
    hide Collapsed, InsideAt, GoodTable;
    var watched := w.(rt := AfterWatchdog(w.rt, x, y, now, grace).0);
    if AfterWatchdog(w.rt, x, y, now, grace).1 {
      CollapseKeepsRest(watched);
    }
  }

  lemma ResizeKeepsRest(w: World, op: Op)
    requires Measured(w.rt) && Flagged(w) && op.Resize?
    ensures Measured(Next(w, op).rt) && Flagged(Next(w, op))
  {
    hide FrameOf, GrowUnion;
  }

  lemma KeyboardKeepsRest(w: World)
    requires Measured(w.rt) && Flagged(w)
    ensures Measured(Next(w, Keyboard).rt) && Flagged(Next(w, Keyboard))
  {
  }

  lemma CursorKeepsRest(w: World, op: Op)
    requires Measured(w.rt) && Flagged(w) && op.Cursor?
    ensures Measured(Next(w, op).rt) && Flagged(Next(w, op))
  {
    hide FrameOf, InsideAt;
  }

  lemma WindowKeepsRest(w: World, op: Op)
    requires Measured(w.rt) && Flagged(w) && (op.Pin? || op.Focus? || op.Commit? || op.PollApply?)
    ensures Measured(Next(w, op).rt) && Flagged(Next(w, op))
  {
    hide FrameOf, ReconcileWindowFrame, PositionOf;
  }

  lemma PollReadKeepsRuntime(w: World, op: Op, notch: Notch, originX: real, originY: real)
    requires OnDisplay(w.rt, notch, originX, originY) && op.PollRead? && SameDisplay(op, notch, originX, originY)
    ensures Next(w, op).rt == w.rt && Next(w, op).ignoresMouse == w.ignoresMouse
            && Next(w, op).acceptsKeys == w.acceptsKeys
  {
    hide FrameOf, ShellGeometry, GoodTable;
  }

  lemma StepKeepsRest(w: World, op: Op, notch: Notch, originX: real, originY: real)
    requires Measured(w.rt) && Flagged(w) && OnDisplay(w.rt, notch, originX, originY)
             && SameDisplay(op, notch, originX, originY)
    ensures Measured(Next(w, op).rt) && Flagged(Next(w, op))
  {
    hide Measured, Next, ShellGeometry, GoodTable;
    match op
    case Request(name) => RequestKeepsRest(w, name);
    case Watch(x, y, now, grace) => WatchKeepsRest(w, x, y, now, grace);
    case Collapse =>
      CollapseKeepsRest(w);
      CollapseIs(w);
    case PollRead(_, _, _) => PollReadKeepsRuntime(w, op, notch, originX, originY);
    case Resize(_) => ResizeKeepsRest(w, op);
    case Keyboard => KeyboardKeepsRest(w);
    case Cursor(_, _, _) => CursorKeepsRest(w, op);
    case _ => WindowKeepsRest(w, op);
  }

  lemma CollapseIs(w: World)
    ensures Next(w, Collapse) == Collapsed(w)
  {
  }

  ghost predicate Inv(w: World, notch: Notch, originX: real, originY: real) {
    Framed(w) && Measured(w.rt) && Flagged(w) && OnDisplay(w.rt, notch, originX, originY)
  }

  lemma SetupHolds(notch: Notch, originX: real, originY: real)
    ensures Inv(Setup(notch, originX, originY), notch, originX, originY)
  {
    TableIsGood(notch);
    var w := Setup(notch, originX, originY);
    var rt := NewRuntime(ShellGeometry(notch), originX, originY);
    assert GoodRow(rt.geometry.states[0]);
    hide ShellGeometry, Widest;
    FrameInColumn(rt, 0);
    FrameInColumn(w.rt, 0);
    CoversItself(w.frame);
  }

  lemma {:induction false} RunKeepsInv(notch: Notch, originX: real, originY: real, ops: seq<Op>)
    requires forall k :: 0 <= k < |ops| ==> SameDisplay(ops[k], notch, originX, originY)
    ensures Inv(Run(notch, originX, originY, ops), notch, originX, originY)
    decreases |ops|
  {
    hide Next, Framed, Measured, Flagged, OnDisplay, Setup, SameDisplay;
    if ops == [] {
      SetupHolds(notch, originX, originY);
    } else {
      var front, op := ops[..|ops| - 1], ops[|ops| - 1];
      RunKeepsInv(notch, originX, originY, front);
      var w := Run(notch, originX, originY, front);
      StepKeepsFramed(w, op, notch, originX, originY);
      StepKeepsRest(w, op, notch, originX, originY);
      StepKeepsDisplay(w, op, notch, originX, originY);
    }
  }

  // ---------- the theorems ----------

  /**
   * Over every run on an unchanged display the window keeps one left edge, one width and one top
   * edge, and covers the frame of the active state, which covers that state's nominal shell.
   */
  lemma WindowHoldsTheShell(notch: Notch, originX: real, originY: real, ops: seq<Op>)
    requires forall k :: 0 <= k < |ops| ==> SameDisplay(ops[k], notch, originX, originY)
    ensures var w, start := Run(notch, originX, originY, ops), Setup(notch, originX, originY);
            && w.frame.x == start.frame.x && w.frame.width == start.frame.width && w.frame.Top() == start.frame.Top()
            && w.rt.activeIndex < |w.rt.geometry.states|
            && FrameOf(w.rt, w.rt.activeIndex).Some?
            && w.frame.Covers(FrameOf(w.rt, w.rt.activeIndex).value)
            && FrameOf(w.rt, w.rt.activeIndex).value.Covers(ShellRect(w.rt.geometry.states[w.rt.activeIndex],
                                                                      notch, originX, originY))
  {
    hide Run, Setup, Flagged, Next;
    RunKeepsInv(notch, originX, originY, ops);
    SetupHolds(notch, originX, originY);
    var w := Run(notch, originX, originY, ops);
    assert w.rt.geometry.notch == notch by { GeometryKeepsNotch(notch); }
    hide ShellGeometry;
    FrameInColumn(w.rt, w.rt.activeIndex);
    FrameCoversShell(w.rt);
    hide FrameOf;
  }

  /** The shell body as it is shown: the active row at its measured height. */
  function VisibleShell(rt: Runtime): Rect
    requires Active(rt)
  {
    var state := rt.geometry.states[rt.activeIndex];
    var sized := if rt.contentHeight.Some?
                 then state.(height := Clamp(rt.contentHeight.value, state.minHeight, state.maxHeight)) else state;
    ShellRect(sized, rt.geometry.notch, rt.originX, rt.originY)
  }

  /**
   * Over every run on an unchanged display the hit test and the visible shell disagree on exactly
   * the points of the shell below its nominal height, where it counts the cursor as outside.
   */
  lemma HitTestMissesWhatGrew(notch: Notch, originX: real, originY: real, ops: seq<Op>, x: real, y: real)
    requires forall k :: 0 <= k < |ops| ==> SameDisplay(ops[k], notch, originX, originY)
    ensures var rt := Run(notch, originX, originY, ops).rt;
            && Active(rt)
            && var shown := VisibleShell(rt);
               var nominal := ShellRect(rt.geometry.states[rt.activeIndex], notch, originX, originY);
               InsideAt(rt, x, y) != Some(shown.Contains(x, y)) <==> shown.Contains(x, y) && y < nominal.y
  {
    hide Run, Flagged, Framed, Next;
    RunKeepsInv(notch, originX, originY, ops);
    var rt := Run(notch, originX, originY, ops).rt;
    assert rt.geometry.notch == notch by { GeometryKeepsNotch(notch); }
    assert GoodRow(rt.geometry.states[rt.activeIndex]);
    hide ShellGeometry, GoodTable, Inv;
  }

  lemma GeometryKeepsNotch(notch: Notch)
    ensures ShellGeometry(notch).notch == notch
  {
  }

  lemma FrameCoversShell(rt: Runtime)
    requires Measured(rt) && GoodTable(rt.geometry)
    ensures FrameOf(rt, rt.activeIndex).Some?
    ensures FrameOf(rt, rt.activeIndex).value.Covers(ShellRect(rt.geometry.states[rt.activeIndex],
                                                               rt.geometry.notch, rt.originX, rt.originY))
  {
    var s := rt.geometry.states[rt.activeIndex];
    assert GoodRow(s);
    assert s.width <= Widest(rt.geometry.states);
    hide Widest;
  }

  /** A commit of the active state makes the window exact; a stale commit never moves it. */
  lemma CommitIsExactOrStale(notch: Notch, originX: real, originY: real, ops: seq<Op>, name: string)
    requires forall k :: 0 <= k < |ops| ==> SameDisplay(ops[k], notch, originX, originY)
    ensures var w := Run(notch, originX, originY, ops);
            var w' := Next(w, Commit(name));
            if PositionOf(w.rt.geometry.states, name) == w.rt.activeIndex then
              FrameOf(w'.rt, w'.rt.activeIndex) == Some(w'.frame)
            else w'.frame == w.frame
  {
    hide Run, Flagged, Measured, Framed, Next, FrameOf, PositionOf;
    RunKeepsInv(notch, originX, originY, ops);
    var w := Run(notch, originX, originY, ops);
    CommitKeepsFramed(w, name);
    FramedIsActive(Next(w, Commit(name)));
    FrameInColumn(Next(w, Commit(name)).rt, Next(w, Commit(name)).rt.activeIndex);
  }

  /** Clicks and keys go to the overlay only in a row that takes clicks, and the system's flags say so too. */
  lemma FlagsFollowTheRow(notch: Notch, originX: real, originY: real, ops: seq<Op>)
    requires forall k :: 0 <= k < |ops| ==> SameDisplay(ops[k], notch, originX, originY)
    ensures Flagged(Run(notch, originX, originY, ops))
  {
    hide Run, Flagged, Measured, Framed;
    RunKeepsInv(notch, originX, originY, ops);
  }

  /** When the display moved and nothing comes between the two halves of the poll, the window snaps to the new frame. */
  lemma DisplayChangeSnaps(w: World, notch: Notch, originX: real, originY: real)
    requires w.rt.activeIndex < |SHELL_STATES| && w.polls == []
    requires w.rt.originX != originX || w.rt.originY != originY
             || w.rt.geometry.notch.screenWidth != notch.screenWidth
             || w.rt.geometry.notch.screenHeight != notch.screenHeight
    ensures var w' := Next(Next(w, PollRead(notch, originX, originY)), PollApply(0));
            FrameOf(w'.rt, w'.rt.activeIndex) == Some(w'.frame) && w'.rt.geometry == ShellGeometry(notch)
  {
    hide TargetFrame, Widest, GrowUnion;
    GeometryKeepsNotch(notch);
    assert |ShellGeometry(notch).states| == |SHELL_STATES|;
    hide ShellGeometry;
  }
}
