/**
 * What the overlay is and does, operation by operation: the size of every state on any display, the
 * row a request activates, the height a measurement leaves, and when the watchdog steps in, told by
 * the cursor's history.
 */
module ShellAnswers {
  import opened Basics
  import opened Shell
  import opened Runs = ShellRuns

  // ---------- sizes ----------

  /** A length kept between zero and the most the screen allows. */
  function Within(value: real, most: real): (r: real)
    ensures 0.0 <= value <= most ==> r == value
    ensures 0.0 <= most ==> 0.0 <= r <= most
  {
    if value < 0.0 then 0.0 else if value > most then most else value
  }

  /** One row of the resolved table. */
  predicate RowIs(s: StateGeometry, name: string, width: real, height: real, most: real, interactive: bool,
      focusable: bool) {
    && s.name == name && s.width == width && s.height == height
    && s.minHeight == height && s.maxHeight == most && s.interactive == interactive && s.focusable == focusable
  }

  /**
   * The four states on a display: the cutout itself, the cutout with 110 points at either side, the
   * same with a text row of 44 points that may grow by 200, and a panel 420 high that is 300 wider at
   * either side but no wider than 55 percent of the screen. All are kept within the screen.
   */
  lemma TableIs(notch: Notch)
    ensures var states, w, h := ShellGeometry(notch).states, notch.screenWidth, notch.screenHeight;
            var cw, ch := notch.cutoutWidth, notch.cutoutHeight;
            && |states| == 4 && ShellGeometry(notch).notch == notch
            && RowIs(states[0], "collapsed", Within(cw, w), Within(ch, h), Within(ch, h), false, false)
            && RowIs(states[1], "compact", Within(cw + 220.0, w), Within(ch, h), Within(ch, h), false, false)
            && RowIs(states[2], "prompt", Within(cw + 220.0, w), Within(ch + 44.0, h), Within(ch + 244.0, h),
                     true, true)
            && RowIs(states[3], "panel", Within(cw + 600.0, w * 0.55), Within(420.0, h), Within(420.0, h),
                     true, false)
  {
    assert |SHELL_STATES| == 4;
  }

  /** The rectangle hangs from the top of the screen, centred on the cutout. */
  predicate Hangs(r: Rect, notch: Notch, originX: real, originY: real) {
    && r.y + r.height == originY + notch.screenHeight
    && r.x + r.width / 2.0 == originX + notch.cutoutCenterX
  }

  /** The height a row is shown at: measured and kept in its bounds when it is the active one. */
  function ShownHeight(rt: Runtime, index: nat): real
    requires index < |rt.geometry.states|
  {
    var s := rt.geometry.states[index];
    if index != rt.activeIndex || rt.contentHeight.None? then s.height
    else if rt.contentHeight.value < s.minHeight then s.minHeight
    else if rt.contentHeight.value > s.maxHeight then s.maxHeight
    else rt.contentHeight.value
  }

  /** Frames hang from the screen, 24 points wider at either side than the widest row and 48 higher than theirs. */
  lemma FrameIs(rt: Runtime, index: nat)
    ensures FrameOf(rt, index).Some? <==> index < |rt.geometry.states|
    ensures index < |rt.geometry.states| ==>
              var r, states := FrameOf(rt, index).value, rt.geometry.states;
              && Hangs(r, rt.geometry.notch, rt.originX, rt.originY)
              && r.height == ShownHeight(rt, index) + 48.0
              && (forall k :: 0 <= k < |states| ==> states[k].width + 48.0 <= r.width)
              && (r.width == 48.0 || exists k :: 0 <= k < |states| && states[k].width + 48.0 == r.width)
  {
    WidestIsOne(rt.geometry.states);
    hide Widest;
  }

  lemma {:induction false} WidestIsOne(states: seq<StateGeometry>)
    ensures Widest(states) == 0.0 || exists k :: 0 <= k < |states| && states[k].width == Widest(states)
  {
    if states != [] {
      var front := states[..|states| - 1];
      WidestIsOne(front);
      if Widest(states) == Widest(front) && Widest(front) != 0.0 {
        var k :| 0 <= k < |front| && front[k].width == Widest(front);
        assert states[k].width == Widest(states);
      } else if Widest(states) != 0.0 {
        assert states[|states| - 1].width == Widest(states);
      }
    }
  }

  /** A point is inside the shell when it is in the closed rectangle of the active row at its nominal size. */
  lemma InsideIs(rt: Runtime, x: real, y: real)
    ensures InsideAt(rt, x, y).Some? <==> rt.activeIndex < |rt.geometry.states|
    ensures rt.activeIndex < |rt.geometry.states| ==>
              var s, r := rt.geometry.states[rt.activeIndex],
                          ShellRect(rt.geometry.states[rt.activeIndex], rt.geometry.notch, rt.originX, rt.originY);
              && Hangs(r, rt.geometry.notch, rt.originX, rt.originY) && r.width == s.width && r.height == s.height
              && (InsideAt(rt, x, y) == Some(true) <==>
                    r.x <= x && x - r.x <= r.width && r.y <= y && y - r.y <= r.height)
  {
  }

  // ---------- what an operation changes ----------

  ghost predicate IsFirstNamed(states: seq<StateGeometry>, index: int, name: string) {
    0 <= index < |states| && states[index].name == name && forall k :: 0 <= k < index ==> states[k].name != name
  }

  lemma PositionIsFirst(states: seq<StateGeometry>, name: string)
    ensures forall i :: IsFirstNamed(states, i, name) <==> i == PositionOf(states, name) && i < |states|
    ensures PositionOf(states, name) == |states| <==> forall k :: 0 <= k < |states| ==> states[k].name != name
  {
    hide PositionOf;
  }

  /**
   * A request activates the first row of that name at its nominal height, with its flags on runtime
   * and window, and grows the window over its frame; an unknown name changes nothing.
   */
  lemma RequestAnswers(w: World, name: string)
    ensures var states, w' := w.rt.geometry.states, Next(w, Request(name));
            && ((forall k :: 0 <= k < |states| ==> states[k].name != name) ==> w' == w)
            && forall i :: IsFirstNamed(states, i, name) ==>
                             && w'.rt.activeIndex == i && w'.rt.contentHeight.None? && w'.rt.outsideSince.None?
                             && w'.rt.interactive == states[i].interactive && w'.rt.focusable == states[i].focusable
                             && w'.rt == w.rt.(activeIndex := i, contentHeight := None, outsideSince := None,
                                               interactive := states[i].interactive, focusable := states[i].focusable,
                                               nativeInteractive := Some(states[i].interactive),
                                               nativeFocusable := Some(states[i].focusable))
                             && w'.ignoresMouse == !states[i].interactive && w'.acceptsKeys == states[i].focusable
                             && FrameOf(w'.rt, i).Some? && w'.frame == GrowUnion(w.frame, FrameOf(w'.rt, i).value)
                             && w'.polls == w.polls
  {
    hide TargetFrame, GrowUnion;
    PositionIsFirst(w.rt.geometry.states, name);
    hide PositionOf;
  }

  /** In every run on an unchanged display a request for a state of the table makes it the active one. */
  lemma RequestActivates(notch: Notch, originX: real, originY: real, ops: seq<Op>, name: string)
    requires forall k :: 0 <= k < |ops| ==> SameDisplay(ops[k], notch, originX, originY)
    ensures var rt := Next(Run(notch, originX, originY, ops), Request(name)).rt;
            && (name == "collapsed" ==> rt.activeIndex == 0) && (name == "compact" ==> rt.activeIndex == 1)
            && (name == "prompt" ==> rt.activeIndex == 2) && (name == "panel" ==> rt.activeIndex == 3)
            && (name in ["collapsed", "compact", "prompt", "panel"] ==> rt.contentHeight.None?)
            && (name !in ["collapsed", "compact", "prompt", "panel"] ==> rt == Run(notch, originX, originY, ops).rt)
  {
    hide Run, Next, Measured, Flagged, Framed;
    RunKeepsInv(notch, originX, originY, ops);
    var w := Run(notch, originX, originY, ops);
    TableIs(notch);
    hide ShellGeometry;
    RequestAnswers(w, name);
    assert name in ["collapsed", "compact", "prompt", "panel"] ==>
             IsFirstNamed(w.rt.geometry.states, if name == "collapsed" then 0 else if name == "compact" then 1
                                                else if name == "prompt" then 2 else 3, name);
  }

  /** A measurement counts in a row whose bounds differ: kept within them, it is the new height. */
  lemma ResizeAnswers(w: World, height: real)
    requires w.rt.activeIndex < |w.rt.geometry.states|
    ensures var s := w.rt.geometry.states[w.rt.activeIndex];
            var (rt, stored) := AfterContentHeight(w.rt, height);
            var kept := if height < s.minHeight then s.minHeight
                        else if height > s.maxHeight then s.maxHeight else height;
            if s.minHeight < s.maxHeight
            then rt == w.rt.(contentHeight := Some(kept)) && stored == Some(kept)
            else rt == w.rt && stored == Some(s.height)
    ensures var w' := Next(w, Resize(height));
            w' == w.(rt := AfterContentHeight(w.rt, height).0, frame := w'.frame)
            && FrameOf(w'.rt, w'.rt.activeIndex).Some?
            && w'.frame == GrowUnion(w.frame, FrameOf(w'.rt, w'.rt.activeIndex).value)
  {
    hide TargetFrame, GrowUnion;
  }

  /** The keyboard is granted exactly to an active row that takes clicks. */
  lemma KeyboardAnswers(w: World)
    ensures var granted := w.rt.activeIndex < |w.rt.geometry.states|
                           && w.rt.geometry.states[w.rt.activeIndex].interactive;
            && AfterRequestKeyboard(w.rt) == (if granted then w.rt.(focusable := true) else w.rt, granted)
            && Next(w, Keyboard) == if granted then w.(rt := w.rt.(focusable := true, nativeFocusable := Some(true)),
                                                       acceptsKeys := true) else w
  {
  }

  /** A display read replaces the geometry, and calls the display changed when its origin or size differ. */
  lemma DisplayAnswers(rt: Runtime, notch: Notch, originX: real, originY: real)
    ensures var (next, update) := AfterUpdateDisplay(rt, ShellGeometry(notch), originX, originY);
            && next == rt.(geometry := ShellGeometry(notch), originX := originX, originY := originY)
            && (update.Some? <==> rt.activeIndex < |ShellGeometry(notch).states|)
            && (update.Some? ==>
                  && Some(update.value.target) == FrameOf(next, rt.activeIndex)
                  && (update.value.displayChanged <==>
                        !(rt.originX == originX && rt.originY == originY
                          && rt.geometry.notch.screenWidth == notch.screenWidth
                          && rt.geometry.notch.screenHeight == notch.screenHeight)))
    ensures forall current, target: Rect ::
              ReconcileWindowFrame(current, target, true) == target
              && ReconcileWindowFrame(current, target, false) == GrowUnion(current, target)
  {
    GeometryKeepsNotch(notch);
    hide ShellGeometry, TargetFrame, Widest, GrowUnion;
  }

  /** A forced collapse ends in the resting row, inert, unpinned and outside, and says what it changed. */
  lemma CollapseAnswers(rt: Runtime, index: nat)
    requires IsFirstNamed(rt.geometry.states, index, "collapsed")
    ensures var (next, done) := AfterForcedCollapse(rt);
            && next == rt.(activeIndex := index, interactive := false, focusable := false, pinned := false,
                           contentHeight := None, outsideSince := None, lastInside := Some(false))
            && done.frame == FrameOf(rt, index)
            && (done.hoverChanged <==> rt.lastInside != Some(false)) && done.leftPrompt == rt.focusable
  {
    PositionIsFirst(rt.geometry.states, "collapsed");
    hide PositionOf, FrameOf;
  }

  /** Without a resting row the active row stays, as inert as any collapse leaves it. */
  lemma CollapseWithoutRow(rt: Runtime)
    requires forall k :: 0 <= k < |rt.geometry.states| ==> rt.geometry.states[k].name != "collapsed"
    ensures var (next, done) := AfterForcedCollapse(rt);
            next.activeIndex == rt.activeIndex && !next.interactive && !next.focusable && done.frame.None?
  {
    PositionIsFirst(rt.geometry.states, "collapsed");
    hide PositionOf;
  }

  /** After setup the resting state is active and framed, clicks pass through, and nothing was seen or measured yet. */
  lemma SetupAnswers(notch: Notch, originX: real, originY: real)
    ensures var w := Setup(notch, originX, originY);
            && w.rt == Runtime(ShellGeometry(notch), originX, originY, 0, false, Some(false), false, Some(false),
                               false, false, None, None, None)
            && Some(w.frame) == FrameOf(w.rt, 0) && w.ignoresMouse && !w.acceptsKeys && w.polls == []
  {
    TableIs(notch);
    hide ShellGeometry, Widest;
  }

  /** A commit sets the flags of the active row; it frames the window when the committed row is the active one. */
  lemma CommitAnswers(w: World, name: string)
    requires w.rt.activeIndex < |w.rt.geometry.states|
    ensures var states, w' := w.rt.geometry.states, Next(w, Commit(name));
            && ((forall k :: 0 <= k < |states| ==> states[k].name != name) ==> w' == w)
            && forall i :: IsFirstNamed(states, i, name) ==>
                             && w'.rt == w.rt.(nativeInteractive := Some(w.rt.interactive),
                                               nativeFocusable := Some(w.rt.focusable))
                             && w'.ignoresMouse == !w.rt.interactive && w'.acceptsKeys == w.rt.focusable
                             && w'.polls == w.polls
                             && (if i == w.rt.activeIndex then FrameOf(w.rt, i) == Some(w'.frame)
                                 else w'.frame == w.frame)
  {
    hide TargetFrame;
    PositionIsFirst(w.rt.geometry.states, name);
    hide PositionOf;
  }

  /** Applying a poll takes that one and moves the window, to the target on a changed display, over both otherwise. */
  lemma PollAnswers(w: World, k: nat)
    ensures var w' := Next(w, PollApply(k));
            if k < |w.polls| then
              && w'.rt == w.rt && w'.ignoresMouse == w.ignoresMouse && w'.acceptsKeys == w.acceptsKeys
              && |w'.polls| == |w.polls| - 1
              && (forall j :: 0 <= j < |w'.polls| ==> w'.polls[j] == w.polls[if j < k then j else j + 1])
              && w'.frame == (if w.polls[k].displayChanged then w.polls[k].target
                              else GrowUnion(w.frame, w.polls[k].target))
            else w' == w
  {
    hide GrowUnion;
  }

  /** An observation of the cursor reports an edge exactly when it differs from the last one. */
  lemma CursorAnswers(rt: Runtime, x: real, y: real, now: nat)
    ensures var (next, edge) := AfterObserveCursor(rt, x, y, now);
            var inside := InsideAt(rt, x, y);
            && (inside.None? ==> next == rt && edge.None?)
            && (inside.Some? ==> next.lastInside == inside
                                 && edge == (if rt.lastInside == inside then None else inside)
                                 && next == rt.(lastInside := inside, outsideSince := next.outsideSince))
  {
    hide InsideAt;
  }

  // ---------- how long the cursor is away ----------

  /** What step `k` sees of the cursor, if it looks. */
  function Sees(notch: Notch, originX: real, originY: real, ops: seq<Op>, k: int): Option<bool> {
    if 0 <= k < |ops| && (ops[k].Cursor? || ops[k].Watch?)
    then InsideAt(Run(notch, originX, originY, ops[..k]).rt, ops[k].x, ops[k].y) else None
  }

  /** Step `k` starts the count afresh: the cursor is inside, a state is activated, or the shell collapses. */
  ghost predicate Restarts(notch: Notch, originX: real, originY: real, ops: seq<Op>, k: int) {
    && 0 <= k < |ops|
    && var rt := Run(notch, originX, originY, ops[..k]).rt;
       || Sees(notch, originX, originY, ops, k) == Some(true)
       || (ops[k].Request? && PositionOf(rt.geometry.states, ops[k].name) < |rt.geometry.states|)
       || ops[k].Collapse?
       || (ops[k].Watch? && AfterWatchdog(rt, ops[k].x, ops[k].y, ops[k].now, ops[k].grace).1)
  }

  /** The count began at step `i`: the first look since the last restart, and it saw the cursor outside. */
  ghost predicate AwayFrom(notch: Notch, originX: real, originY: real, ops: seq<Op>, i: int) {
    && Sees(notch, originX, originY, ops, i) == Some(false)
    && (forall k :: i <= k < |ops| ==> !Restarts(notch, originX, originY, ops, k))
    && forall j :: 0 <= j < i && Sees(notch, originX, originY, ops, j) == Some(false) ==>
                     exists k :: j <= k < i && Restarts(notch, originX, originY, ops, k)
  }

  ghost predicate Timed(notch: Notch, originX: real, originY: real, ops: seq<Op>) {
    var since := Run(notch, originX, originY, ops).rt.outsideSince;
    && (since.Some? <==> exists i :: AwayFrom(notch, originX, originY, ops, i))
    && forall i :: AwayFrom(notch, originX, originY, ops, i) ==> since == Some(ops[i].now)
  }

  /** In every run the runtime counts from the first look outside since the last restart. */
  lemma {:induction false} OutsideIsTimed(notch: Notch, originX: real, originY: real, ops: seq<Op>)
    ensures Timed(notch, originX, originY, ops)
    decreases |ops|
  {
    hide Run, Next, Sees, Restarts, AwayFrom;
    if ops == [] {
      NothingIsTimed(notch, originX, originY);
    } else {
      var front, op := ops[..|ops| - 1], ops[|ops| - 1];
      assert ops == front + [op];
      OutsideIsTimed(notch, originX, originY, front);
      OneMoreLook(notch, originX, originY, front, op);
    }
  }

  lemma NothingIsTimed(notch: Notch, originX: real, originY: real)
    ensures Timed(notch, originX, originY, [])
  {
    hide ShellGeometry, FrameOf;
  }

  lemma FrontSteps(notch: Notch, originX: real, originY: real, front: seq<Op>, op: Op, k: int)
    requires k < |front|
    ensures Sees(notch, originX, originY, front + [op], k) == Sees(notch, originX, originY, front, k)
    ensures Restarts(notch, originX, originY, front + [op], k) <==> Restarts(notch, originX, originY, front, k)
  {
    hide Run, InsideAt, PositionOf, AfterWatchdog;
    if 0 <= k {
      assert (front + [op])[..k] == front[..k];
    }
  }

  lemma LastStep(notch: Notch, originX: real, originY: real, front: seq<Op>, op: Op)
    ensures var rt := Run(notch, originX, originY, front).rt;
            var sees := Sees(notch, originX, originY, front + [op], |front|);
            && sees == (if op.Cursor? || op.Watch? then InsideAt(rt, op.x, op.y) else None)
            && Run(notch, originX, originY, front + [op]) == Next(Run(notch, originX, originY, front), op)
            && Next(Run(notch, originX, originY, front), op).rt.outsideSince ==
                 (if Restarts(notch, originX, originY, front + [op], |front|) then None
                  else if sees == Some(false) && rt.outsideSince.None? then Some(op.now)
                  else rt.outsideSince)
  {
    hide Run, InsideAt, PositionOf, FrameOf, ShellGeometry, GrowUnion;
    assert (front + [op])[..|front|] == front;
    RunOfMore(notch, originX, originY, front, op);
    StepTimes(Run(notch, originX, originY, front), op);
    hide Next;
  }

  lemma RunOfMore(notch: Notch, originX: real, originY: real, front: seq<Op>, op: Op)
    ensures Run(notch, originX, originY, front + [op]) == Next(Run(notch, originX, originY, front), op)
  {
    hide Next, Setup;
    assert (front + [op])[..|front|] == front;
  }

  /** What one step does to the count. */
  lemma StepTimes(w: World, op: Op)
    ensures var sees := if op.Cursor? || op.Watch? then InsideAt(w.rt, op.x, op.y) else None;
            var restarts := || sees == Some(true)
                            || (op.Request? && PositionOf(w.rt.geometry.states, op.name) < |w.rt.geometry.states|)
                            || op.Collapse?
                            || (op.Watch? && AfterWatchdog(w.rt, op.x, op.y, op.now, op.grace).1);
            Next(w, op).rt.outsideSince ==
              (if restarts then None
               else if sees == Some(false) && w.rt.outsideSince.None? then Some(op.now) else w.rt.outsideSince)
  {
    hide InsideAt, PositionOf, TargetFrame, ShellGeometry, GrowUnion;
  }

  lemma OneMoreLook(notch: Notch, originX: real, originY: real, front: seq<Op>, op: Op)
    requires Timed(notch, originX, originY, front)
    ensures Timed(notch, originX, originY, front + [op])
  {
    hide Run, Next, Sees, Restarts, AwayFrom;
    var ops, n := front + [op], |front|;
    LastStep(notch, originX, originY, front, op);
    forall i ensures AwayFrom(notch, originX, originY, ops, i) <==>
                       && !Restarts(notch, originX, originY, ops, n)
                       && (AwayFrom(notch, originX, originY, front, i)
                           || (i == n && Sees(notch, originX, originY, ops, n) == Some(false)
                               && forall j :: !AwayFrom(notch, originX, originY, front, j))) {
      AwaySnoc(notch, originX, originY, front, op, i);
    }
    AwayInRange(notch, originX, originY, front);
    assert forall i :: 0 <= i < n ==> ops[i] == front[i];
    assert ops[n] == op;
    if !Restarts(notch, originX, originY, ops, n) {
      if Run(notch, originX, originY, front).rt.outsideSince.Some? {
        var i :| AwayFrom(notch, originX, originY, front, i);
        assert AwayFrom(notch, originX, originY, ops, i);
      } else {
        assert AwayFrom(notch, originX, originY, ops, n) <==> Sees(notch, originX, originY, ops, n) == Some(false);
      }
    }
  }

  lemma AwayInRange(notch: Notch, originX: real, originY: real, ops: seq<Op>)
    ensures forall i :: AwayFrom(notch, originX, originY, ops, i) ==> 0 <= i < |ops|
  {
    hide Run, InsideAt, Restarts;
  }

  lemma AwaySnoc(notch: Notch, originX: real, originY: real, front: seq<Op>, op: Op, i: int)
    ensures var ops, n := front + [op], |front|;
            AwayFrom(notch, originX, originY, ops, i) <==>
              && !Restarts(notch, originX, originY, ops, n)
              && (AwayFrom(notch, originX, originY, front, i)
                  || (i == n && Sees(notch, originX, originY, ops, n) == Some(false)
                      && forall j :: !AwayFrom(notch, originX, originY, front, j)))
  {
    hide Run, Sees, Restarts;
    var ops, n := front + [op], |front|;
    forall k | k < n
      ensures Sees(notch, originX, originY, ops, k) == Sees(notch, originX, originY, front, k)
      ensures Restarts(notch, originX, originY, ops, k) <==> Restarts(notch, originX, originY, front, k)
    {
      FrontSteps(notch, originX, originY, front, op, k);
    }
    SeesInRange(notch, originX, originY, ops);
    SeesInRange(notch, originX, originY, front);
    if i == n {
      FirstAway(notch, originX, originY, front);
    }
  }

  lemma SeesInRange(notch: Notch, originX: real, originY: real, ops: seq<Op>)
    ensures forall k :: Sees(notch, originX, originY, ops, k).Some? ==> 0 <= k < |ops|
  {
    hide Run, InsideAt;
  }

  /** No count is on exactly when every look outside was followed by a restart. */
  lemma FirstAway(notch: Notch, originX: real, originY: real, ops: seq<Op>)
    ensures (forall i :: !AwayFrom(notch, originX, originY, ops, i)) <==>
            forall j :: 0 <= j < |ops| && Sees(notch, originX, originY, ops, j) == Some(false) ==>
                          exists k :: j <= k < |ops| && Restarts(notch, originX, originY, ops, k)
  {
    hide Run, Sees, Restarts;
    SeesInRange(notch, originX, originY, ops);
    if exists j :: Unanswered(notch, originX, originY, ops, j) {
      var j :| Unanswered(notch, originX, originY, ops, j);
      var i := LeastUnanswered(notch, originX, originY, ops, j);
    } else {
      assert forall j :: 0 <= j < |ops| && Sees(notch, originX, originY, ops, j) == Some(false) ==>
                           !Unanswered(notch, originX, originY, ops, j);
    }
    forall i | AwayFrom(notch, originX, originY, ops, i) ensures Unanswered(notch, originX, originY, ops, i) {
    }
  }

  ghost predicate Unanswered(notch: Notch, originX: real, originY: real, ops: seq<Op>, j: int) {
    && 0 <= j < |ops| && Sees(notch, originX, originY, ops, j) == Some(false)
    && forall k :: j <= k < |ops| ==> !Restarts(notch, originX, originY, ops, k)
  }

  lemma {:induction false} LeastUnanswered(notch: Notch, originX: real, originY: real, ops: seq<Op>, j: int)
      returns (i: int)
    requires Unanswered(notch, originX, originY, ops, j)
    ensures AwayFrom(notch, originX, originY, ops, i)
    decreases j
  {
    hide Run, Sees, Restarts;
    if h :| 0 <= h < j && Unanswered(notch, originX, originY, ops, h) {
      i := LeastUnanswered(notch, originX, originY, ops, h);
    } else {
      i := j;
      forall h | 0 <= h < j && Sees(notch, originX, originY, ops, h) == Some(false)
        ensures exists k :: h <= k < j && Restarts(notch, originX, originY, ops, k)
      {
        assert !Unanswered(notch, originX, originY, ops, h);
        var k :| h <= k < |ops| && Restarts(notch, originX, originY, ops, k);
        assert k < j;
      }
    }
  }

  /**
   * In every run on an unchanged display the watchdog collapses the shell exactly when the active state
   * takes clicks, the window has no focus and is not pinned, the cursor is outside now, and it was seen
   * outside for the first time since the last restart at least the grace period ago.
   */
  lemma WatchdogCollapsesIff(notch: Notch, originX: real, originY: real, ops: seq<Op>, x: real, y: real, now: nat,
      grace: nat)
    requires forall k :: 0 <= k < |ops| ==> SameDisplay(ops[k], notch, originX, originY)
    ensures var rt := Run(notch, originX, originY, ops).rt;
            && rt.activeIndex < |rt.geometry.states|
            && (AfterWatchdog(rt, x, y, now, grace).1 <==>
                  && rt.geometry.states[rt.activeIndex].interactive && !rt.focused && !rt.pinned
                  && InsideAt(rt, x, y) == Some(false)
                  && ((grace == 0 && forall i :: !AwayFrom(notch, originX, originY, ops, i))
                      || exists i :: AwayFrom(notch, originX, originY, ops, i) && ops[i].now + grace <= now))
  {
    hide Run, Next, Framed, Measured, InsideAt, AwayFrom;
    RunKeepsInv(notch, originX, originY, ops);
    OutsideIsTimed(notch, originX, originY, ops);
    InsideIs(Run(notch, originX, originY, ops).rt, x, y);
    hide ShellGeometry;
  }
}
