/**
 * The double-Control detector, and what firing means on the whole trace of inputs: it fires
 * exactly at the end of a double tap.
 */
module CtrlTaps {
  import opened Basics
  import opened Modifiers

  const MAX_TAP_HOLD: nat := 350_000_000
  const TAP_GAP: nat := 400_000_000

  datatype TapState = TapState(
    controlDown: bool,
    pressStarted: Option<nat>,
    firstTapRelease: Option<nat>,
    awaitingSecond: bool,
    contaminated: bool)

  const DEFAULT: TapState := TapState(false, None, None, false, false)

  // ---------- the machine ----------

  predicate Near(t: Option<nat>, now: nat, limit: nat) {
    t.Some? && Since(now, t.value) <= limit
  }

  /** One sample: the state after it, and whether it completes a double tap. */
  function OnSample(m: TapState, s: ModifierSample, now: nat): (TapState, bool) {
    if s.Foreign() then (TapState(s.control, None, None, false, true), false)
    else if s.control == m.controlDown then (m.(contaminated := m.contaminated && s.control), false)
    else if s.control then
      if m.contaminated then (m.(controlDown := true, pressStarted := None), false)
      else if Near(m.firstTapRelease, now, TAP_GAP) then
        (m.(controlDown := true, awaitingSecond := true, pressStarted := Some(now)), false)
      else (TapState(true, Some(now), None, false, false), false)
    else if m.contaminated || !Near(m.pressStarted, now, MAX_TAP_HOLD) then (DEFAULT, false)
    else if m.awaitingSecond then (DEFAULT, true)
    else (DEFAULT.(firstTapRelease := Some(now)), false)
  }

  function OnKey(m: TapState): TapState {
    if m.controlDown then TapState(true, None, None, false, true) else m
  }

  function TapStep(m: TapState, e: Input): (TapState, bool) {
    match e
    case Sample(s, at) => OnSample(m, s, at)
    case Key => (OnKey(m), false)
    case _ => (m, false)
  }

  function TapRun(trace: seq<Input>): TapState {
    if trace == [] then DEFAULT else TapStep(TapRun(trace[..|trace| - 1]), trace[|trace| - 1]).0
  }

  /** The machine returns true on the last input of the trace. */
  predicate FiresAtEnd(trace: seq<Input>) {
    trace != [] && TapStep(TapRun(trace[..|trace| - 1]), trace[|trace| - 1]).1
  }

  class CtrlTap {
    var controlDown: bool
    var pressStarted: Option<nat>
    var firstTapRelease: Option<nat>
    var awaitingSecond: bool
    var contaminated: bool

    ghost function Value(): TapState
      reads this
    {
      TapState(controlDown, pressStarted, firstTapRelease, awaitingSecond, contaminated)
    }

    constructor ()
      ensures Value() == DEFAULT
    {
      controlDown, pressStarted, firstTapRelease, awaitingSecond, contaminated := false, None, None, false, false;
    }

    method OnModifiers(sample: ModifierSample, now: nat) returns (fired: bool)
      modifies this
      ensures (Value(), fired) == OnSample(old(Value()), sample, now)
    {
      if sample.Foreign() {
        contaminated := true;
        pressStarted := None;
        firstTapRelease := None;
        awaitingSecond := false;
        controlDown := sample.control;
        return false;
      }
      if sample.control == controlDown {
        if !sample.control {
          contaminated := false;
        }
        return false;
      }
      if sample.control {
        controlDown := true;
        if contaminated {
          pressStarted := None;
          return false;
        }
        var withinGap := firstTapRelease.Some? && Since(now, firstTapRelease.value) <= TAP_GAP;
        if withinGap {
          awaitingSecond := true;
        } else {
          firstTapRelease := None;
          awaitingSecond := false;
        }
        pressStarted := Some(now);
        return false;
      }
      controlDown := false;
      var wasContaminated := contaminated;
      contaminated := false;
      var started := pressStarted;
      pressStarted := None;
      var awaiting := awaitingSecond;
      awaitingSecond := false;
      var shortTap := started.Some? && Since(now, started.value) <= MAX_TAP_HOLD;
      if wasContaminated || !shortTap {
        firstTapRelease := None;
        return false;
      }
      if awaiting {
        firstTapRelease := None;
        return true;
      }
      firstTapRelease := Some(now);
      return false;
    }

    method OnKeyPress()
      modifies this
      ensures Value() == OnKey(old(Value()))
    {
      if !controlDown {
        return;
      }
      contaminated := true;
      pressStarted := None;
      firstTapRelease := None;
      awaitingSecond := false;
    }
  }

  // ---------- double taps on a trace ----------

  /** Inputs the detector never sees. */
  predicate Unseen(e: Input) {
    e.Shortcut? || e.Tick? || e.Poll?
  }

  /** Nothing is held: no sample yet, or the last one shows every modifier up. */
  predicate Idle(trace: seq<Input>) {
    trace == [] ||
    var e := trace[|trace| - 1];
    if e.Sample? then e.s.AllUp() else Idle(trace[..|trace| - 1])
  }

  predicate Holding(e: Input) {
    (e.Sample? && e.s.OnlyControl()) || Unseen(e)
  }

  predicate Resting(e: Input) {
    (e.Sample? && e.s.AllUp()) || e.Key? || Unseen(e)
  }

  /** Control alone went down at `i`, out of rest, and has been held alone since, with no key in between. */
  ghost predicate PressedAt(trace: seq<Input>, i: int): (pressed: bool)
    ensures pressed ==> 0 <= i < |trace| && trace[i].Sample?
  {
    && 0 <= i < |trace|
    && Idle(trace[..i])
    && trace[i].Sample? && trace[i].s.OnlyControl()
    && forall j :: i < j < |trace| ==> Holding(trace[j])
  }

  /** A short tap of Control alone from `i` to the end of the trace. */
  ghost predicate TapFrom(trace: seq<Input>, i: int): (tap: bool)
    ensures tap ==> 0 <= i < |trace| - 1 && trace[i].Sample?
  {
    && |trace| > 0
    && PressedAt(trace[..|trace| - 1], i)
    && trace[|trace| - 1].Sample? && trace[|trace| - 1].s.AllUp()
    && trace[|trace| - 1].at <= trace[i].at + 350 * MILLISECOND
  }

  ghost predicate IsTap(trace: seq<Input>) {
    exists h :: TapFrom(trace, h)
  }

  /** A tap ended at `i`, did not itself complete a double tap, and nothing was pressed since but other keys. */
  ghost predicate TappedAt(trace: seq<Input>, i: int): (tapped: bool)
    ensures tapped ==> 0 <= i < |trace| && trace[i].Sample? && trace[i].s.AllUp()
    decreases |trace|, 2
  {
    && 0 <= i < |trace|
    && IsTap(trace[..i + 1])
    && (forall j :: i < j < |trace| ==> Resting(trace[j]))
    && !DoubleTap(trace[..i + 1])
  }

  /** `first` is where the first tap ends and `second` where the second begins. */
  ghost predicate DoubleTapOf(trace: seq<Input>, first: int, second: int)
    decreases |trace|, 0
  {
    && TapFrom(trace, second)
    && TappedAt(trace[..second], first)
    && trace[second].at <= trace[first].at + 400 * MILLISECOND
  }

  /** The trace ends in a double tap: two short taps, the second begun soon after the first. */
  ghost predicate DoubleTap(trace: seq<Input>)
    decreases |trace|, 1
  {
    exists first, second :: DoubleTapOf(trace, first, second)
  }

  // ---------- the machine state, read off the trace ----------

  /** The press at `i` began soon enough after a first tap. */
  ghost predicate Seconds(trace: seq<Input>, i: int)
    requires PressedAt(trace, i)
  {
    exists first :: TappedAt(trace[..i], first) && trace[i].at <= trace[first].at + 400 * MILLISECOND
  }

  ghost predicate DescribesPress(trace: seq<Input>, m: TapState) {
    && (m.pressStarted.Some? <==> exists i :: PressedAt(trace, i))
    && (forall i ::
          PressedAt(trace, i) ==> m.pressStarted == Some(trace[i].at) && (m.awaitingSecond <==> Seconds(trace, i)))
  }

  ghost predicate DescribesTap(trace: seq<Input>, m: TapState) {
    && (!m.controlDown && m.firstTapRelease.Some? ==> exists i :: TappedAt(trace, i))
    && (forall i :: TappedAt(trace, i) ==> !m.controlDown && m.firstTapRelease == Some(trace[i].at))
  }

  predicate WellFormed(m: TapState) {
    && (m.controlDown && !m.contaminated <==> m.pressStarted.Some?)
    && (m.contaminated ==> m.firstTapRelease.None?)
    && (m.pressStarted.None? ==> !m.awaitingSecond)
  }

  ghost predicate Described(trace: seq<Input>) {
    var m := TapRun(trace);
    && WellFormed(m)
    && (Idle(trace) <==> !m.controlDown && !m.contaminated)
    && DescribesPress(trace, m)
    && DescribesTap(trace, m)
  }

  lemma PressSnoc(trace: seq<Input>, e: Input, i: int)
    ensures PressedAt(trace + [e], i) <==>
            (i == |trace| && Idle(trace) && e.Sample? && e.s.OnlyControl()) || (PressedAt(trace, i) && Holding(e))
  {
    var longer := trace + [e];
    if 0 <= i < |trace| {
      assert longer[..i] == trace[..i];
      assert longer[|trace|] == e;
      if PressedAt(longer, i) {
        assert forall j :: i < j < |trace| ==> longer[j] == trace[j];
      }
    }
    assert longer[..|trace|] == trace;
  }

  lemma TapSnoc(trace: seq<Input>, e: Input, h: int)
    ensures TapFrom(trace + [e], h) <==>
            PressedAt(trace, h) && e.Sample? && e.s.AllUp() && e.at <= trace[h].at + 350 * MILLISECOND
  {
    assert (trace + [e])[..|trace|] == trace;
  }

  lemma TappedSnoc(trace: seq<Input>, e: Input, i: int)
    ensures TappedAt(trace + [e], i) <==>
            (i == |trace| && IsTap(trace + [e]) && !DoubleTap(trace + [e])) || (TappedAt(trace, i) && Resting(e))
  {
    hide IsTap, DoubleTap, Resting;
    var longer := trace + [e];
    if 0 <= i < |trace| {
      assert longer[..i + 1] == trace[..i + 1];
      assert longer[|trace|] == e;
      if TappedAt(longer, i) {
        assert forall j :: i < j < |trace| ==> longer[j] == trace[j];
      }
    } else if i == |trace| {
      assert longer[..i + 1] == longer;
    }
  }

  lemma StepOfSnoc(trace: seq<Input>, e: Input)
    ensures TapRun(trace + [e]) == TapStep(TapRun(trace), e).0
    ensures FiresAtEnd(trace + [e]) <==> TapStep(TapRun(trace), e).1
    ensures Idle(trace + [e]) <==> if e.Sample? then e.s.AllUp() else Idle(trace)
  {
    assert (trace + [e])[..|trace|] == trace;
  }

  lemma DoubleTapIndices(trace: seq<Input>) returns (first: int, second: int)
    requires DoubleTap(trace)
    ensures DoubleTapOf(trace, first, second)
  {
    first, second :| DoubleTapOf(trace, first, second);
  }

  /** Once the state is read off a trace, the next release fires exactly when it ends a double tap. */
  lemma NextFires(trace: seq<Input>, e: Input)
    requires Described(trace)
    ensures TapStep(TapRun(trace), e).1 <==> DoubleTap(trace + [e])
    ensures IsTap(trace + [e]) <==>
            e.Sample? && e.s.AllUp() && TapRun(trace).controlDown
            && Near(TapRun(trace).pressStarted, e.at, MAX_TAP_HOLD)
  {
    hide Idle, TappedAt, PressedAt, TapFrom, TapRun;
    var m, longer := TapRun(trace), trace + [e];
    forall h ensures TapFrom(longer, h) <==>
      PressedAt(trace, h) && e.Sample? && e.s.AllUp() && e.at <= trace[h].at + 350 * MILLISECOND
    {
      TapSnoc(trace, e, h);
    }
    assert forall h :: PressedAt(trace, h) ==> longer[..h] == trace[..h];
    if DoubleTap(longer) {
      var first, second := DoubleTapIndices(longer);
      assert Seconds(trace, second);
    }
    if m.pressStarted.Some? {
      var h :| PressedAt(trace, h);
      if m.awaitingSecond {
        var first :| TappedAt(trace[..h], first) && trace[h].at <= trace[first].at + 400 * MILLISECOND;
        assert TapFrom(longer, h) ==> DoubleTapOf(longer, first, h);
      }
    }
  }

  lemma PressStep(trace: seq<Input>, e: Input)
    requires Described(trace)
    ensures DescribesPress(trace + [e], TapRun(trace + [e]))
  {
    hide Idle, TappedAt, PressedAt, TapRun, Holding, DescribesTap;
    var m, longer := TapRun(trace), trace + [e];
    StepOfSnoc(trace, e);
    forall i ensures PressedAt(longer, i) <==>
      (i == |trace| && Idle(trace) && e.Sample? && e.s.OnlyControl()) || (PressedAt(trace, i) && Holding(e))
    {
      PressSnoc(trace, e, i);
    }
    assert Holding(e) <==> (e.Sample? && e.s.OnlyControl()) || Unseen(e) by { HoldingIs(e); }
    forall i | PressedAt(longer, i)
      ensures TapRun(longer).pressStarted == Some(longer[i].at)
              && (TapRun(longer).awaitingSecond <==> Seconds(longer, i))
    {
      if i == |trace| {
        assert longer[..i] == trace;
        FreshPress(trace, e);
      } else {
        assert longer[..i] == trace[..i] && longer[i] == trace[i];
        assert Seconds(longer, i) <==> Seconds(trace, i) by { SamePress(trace, e, i); }
      }
    }
    if TapRun(longer).pressStarted.Some? {
      PressGoesOn(trace, e);
    }
  }

  lemma HoldingIs(e: Input)
    ensures Holding(e) <==> (e.Sample? && e.s.OnlyControl()) || Unseen(e)
  {
  }

  lemma SamePress(trace: seq<Input>, e: Input, i: int)
    requires PressedAt(trace, i) && PressedAt(trace + [e], i)
    ensures Seconds(trace + [e], i) <==> Seconds(trace, i)
  {
    hide TappedAt, PressedAt;
    assert (trace + [e])[..i] == trace[..i] && (trace + [e])[i] == trace[i];
  }

  /** Out of rest, a press of Control alone starts a tap, the second of a pair when it is soon enough. */
  lemma FreshPress(trace: seq<Input>, e: Input)
    requires Described(trace) && Idle(trace) && e.Sample? && e.s.OnlyControl() && PressedAt(trace + [e], |trace|)
    ensures var m := TapStep(TapRun(trace), e).0;
            m.pressStarted == Some(e.at) && (m.awaitingSecond <==> Seconds(trace + [e], |trace|))
  {
    hide Idle, TappedAt, PressedAt, TapRun, DescribesPress;
    var m, longer := TapRun(trace), trace + [e];
    assert longer[..|trace|] == trace;
    if m.firstTapRelease.Some? {
      var first :| TappedAt(trace, first);
      assert longer[first] == trace[first];
    }
  }

  /** A press that is still a candidate either just began or was one before. */
  lemma PressGoesOn(trace: seq<Input>, e: Input)
    requires Described(trace) && TapStep(TapRun(trace), e).0.pressStarted.Some?
    ensures exists i :: PressedAt(trace + [e], i)
  {
    hide TappedAt, PressedAt, TapRun, DescribesTap, Idle;
    var m := TapRun(trace);
    if m.pressStarted.Some? {
      var i :| PressedAt(trace, i);
      PressSnoc(trace, e, i);
    } else {
      PressSnoc(trace, e, |trace|);
    }
  }

  lemma NearIsSome(t: Option<nat>, now: nat)
    ensures Near(t, now, MAX_TAP_HOLD) ==> t.Some?
  {
  }

  lemma TapEndStep(trace: seq<Input>, e: Input)
    requires Described(trace)
    ensures DescribesTap(trace + [e], TapRun(trace + [e]))
  {
    hide Idle, TappedAt, PressedAt, TapRun, IsTap, DoubleTap, Near;
    var m, longer := TapRun(trace), trace + [e];
    StepOfSnoc(trace, e);
    NextFires(trace, e);
    forall i
      ensures TappedAt(longer, i) <==>
                (i == |trace| && IsTap(longer) && !DoubleTap(longer)) || (TappedAt(trace, i) && Resting(e)) {
      TappedSnoc(trace, e, i);
    }
    assert longer[|trace|] == e;
    forall i | TappedAt(longer, i)
      ensures !TapRun(longer).controlDown && TapRun(longer).firstTapRelease == Some(longer[i].at)
    {
      if i == |trace| {
        NearIsSome(m.pressStarted, e.at);
      } else {
        assert longer[i] == trace[i];
      }
    }
    if !TapRun(longer).controlDown && TapRun(longer).firstTapRelease.Some? {
      if m.controlDown {
        assert TappedAt(longer, |trace|);
      } else {
        var i :| TappedAt(trace, i);
        assert TappedAt(longer, i);
      }
    }
  }

  lemma IdleStep(trace: seq<Input>, e: Input)
    requires Described(trace)
    ensures var m := TapStep(TapRun(trace), e).0;
            WellFormed(m) && (Idle(trace + [e]) <==> !m.controlDown && !m.contaminated)
  {
    StepOfSnoc(trace, e);
    hide TapRun, Idle, DescribesPress, DescribesTap;
  }

  lemma DescribedSnoc(trace: seq<Input>, e: Input)
    requires Described(trace)
    ensures Described(trace + [e])
  {
    PressStep(trace, e);
    TapEndStep(trace, e);
    IdleStep(trace, e);
    StepOfSnoc(trace, e);
    hide TapRun, Idle, DescribesPress, DescribesTap, TapStep;
  }

  lemma {:induction false} EveryTraceIsDescribed(trace: seq<Input>)
    ensures Described(trace)
    decreases |trace|
  {
    if trace != [] {
      var front, e := trace[..|trace| - 1], trace[|trace| - 1];
      EveryTraceIsDescribed(front);
      DescribedSnoc(front, e);
      assert front + [e] == trace;
    }
  }

  // ---------- the theorems ----------

  /**
   * From the default state, the detector returns true on the last input exactly when the trace ends in a
   * double tap.
   */
  lemma FiresExactlyOnDoubleTaps(trace: seq<Input>)
    ensures FiresAtEnd(trace) <==> DoubleTap(trace)
  {
    hide DoubleTap, TapRun, TapStep;
    if trace == [] {
      NoDoubleTapInNothing();
    } else {
      var front, e := trace[..|trace| - 1], trace[|trace| - 1];
      EveryTraceIsDescribed(front);
      NextFires(front, e);
      assert front + [e] == trace;
    }
  }

  lemma NoDoubleTapInNothing()
    ensures !DoubleTap([])
  {
    if DoubleTap([]) {
      var first, second := DoubleTapIndices([]);
      assert false;
    }
  }

  /** A detection leaves nothing behind: the next one needs two fresh taps. */
  lemma FiringResets(trace: seq<Input>)
    requires FiresAtEnd(trace)
    ensures TapRun(trace) == DEFAULT
  {
  }

  /** The windows of two detections share no input: the later one begins after the earlier one ended. */
  lemma FiringWindowsAreDisjoint(trace: seq<Input>, end: nat, first: int, second: int, begin: int)
    requires end < |trace| - 1 && FiresAtEnd(trace[..end + 1])
    requires DoubleTapOf(trace, first, second) && TapFrom(trace[..first + 1], begin)
    ensures end < begin < first < second
  {
    FiresExactlyOnDoubleTaps(trace[..end + 1]);
    var f, s := DoubleTapIndices(trace[..end + 1]);
    assert trace[..end + 1][..end] == trace[..end] && trace[..end + 1][end] == trace[end];
    hide Idle;
    assert end != first by {
      assert trace[..second][..first + 1] == trace[..first + 1];
    }
    hide DoubleTap, TapRun, TapStep;
    // The earlier detection ends on a release right after a press, which no input of the later window is.
    assert trace[end].Sample? && trace[end].s.AllUp() && PressedAt(trace[..end], s);
    HoldsNoRelease(trace, first + 1, begin);
    assert trace[..|trace|] == trace;
    HoldsNoRelease(trace, |trace|, second);
    if first < end < second {
      RestHoldsNoPress(trace, first, second, end, s);
    }
  }

  lemma HoldsNoRelease(trace: seq<Input>, n: int, begin: int)
    requires 0 <= n <= |trace| && TapFrom(trace[..n], begin)
    ensures begin < n - 1
    ensures forall j :: begin <= j < n - 1 ==> !(trace[j].Sample? && trace[j].s.AllUp())
  {
    forall j | begin <= j < n - 1 ensures !(trace[j].Sample? && trace[j].s.AllUp()) {
      assert trace[..n][..n - 1][j] == trace[j];
    }
  }

  lemma RestHoldsNoPress(trace: seq<Input>, first: int, second: int, end: int, s: int)
    requires 0 <= second <= |trace| && TappedAt(trace[..second], first) && first < end < second
    ensures !PressedAt(trace[..end], s)
  {
    hide IsTap, DoubleTap, Idle;
    assert trace[..second][first] == trace[first] == trace[..end][first];
    assert first < s < end ==> trace[..second][s] == trace[s] == trace[..end][s];
  }
}
