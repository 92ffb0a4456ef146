/**
 * Push-to-talk and the prompt gesture on one stream of inputs: the hotkey driver feeds the latch
 * while Accessibility trust lasts, the double-tap detector sees the same samples, and a detection
 * leaves no room for a capture started by the modifiers.
 */
module Exclusion {
  import opened Basics
  import opened Modifiers
  import opened CtrlTaps
  import opened Gesture

  datatype Hotkey = Hotkey(latch: LatchState, trusted: bool)

  /** One input to the hotkey driver: samples and ticks count only while trusted; a poll reconciles or resets. */
  function HotkeyStep(h: Hotkey, e: Input): (Hotkey, seq<Action>) {
    match e
    case Sample(s, at) =>
      if h.trusted then var (m, out) := ApplySample(h.latch, s, at); (h.(latch := m), out) else (h, [])
    case Key => (h, [])
    case Shortcut(pressed) => var (m, out) := ApplyShortcut(h.latch, pressed); (h.(latch := m), out)
    case Tick(now) =>
      if h.trusted then var (m, out) := ApplyTick(h.latch, now); (h.(latch := m), out) else (h, [])
    case Poll(trusted, live, now) =>
      var (m, out) := if trusted then ApplyWatchdog(h.latch, live, now) else Released(h.latch);
      (Hotkey(m, trusted), out)
  }

  function HotkeyRun(trusted: bool, trace: seq<Input>): Hotkey {
    if trace == [] then Hotkey(Gesture.DEFAULT, trusted)
    else HotkeyStep(HotkeyRun(trusted, trace[..|trace| - 1]), trace[|trace| - 1]).0
  }

  /** No modifier capture is on, and none is about to start. */
  predicate Quiet(m: LatchState) {
    m.active != Some(ByModifiers) && m.armDeadline.None?
  }

  /** Without trust the modifiers cannot hold a capture. */
  lemma {:induction false} UntrustedIsQuiet(trusted: bool, trace: seq<Input>)
    ensures HotkeyRun(trusted, trace).trusted || Quiet(HotkeyRun(trusted, trace).latch)
    decreases |trace|
  {
    if trace != [] {
      UntrustedIsQuiet(trusted, trace[..|trace| - 1]);
    }
  }

  /** A poll that finds the bare pair held. */
  predicate FindsPair(e: Input) {
    e.Poll? && e.trusted && e.live.BarePair()
  }

  predicate Harmless(e: Input) {
    (e.Sample? ==> e.s.Plain()) && !FindsPair(e)
  }

  lemma HarmlessKeepsQuiet(h: Hotkey, e: Input)
    requires Harmless(e) && Quiet(h.latch)
    ensures Quiet(HotkeyStep(h, e).0.latch)
    ensures HotkeyStep(h, e).1 == [Start] ==> e.Shortcut? && e.pressed
  {
  }

  /** Inside a detection's window every sample shows Control alone or nothing at all. */
  lemma WindowIsPlain(trace: seq<Input>, begin: int, first: int, second: int, j: int)
    requires DoubleTapOf(trace, first, second) && TapFrom(trace[..first + 1], begin)
    requires begin <= j < |trace|
    ensures begin < first < second < |trace| - 1
    ensures trace[j].Sample? ==> trace[j].s.Plain()
  {
    hide DoubleTap, Idle, IsTap;
    if j < first {
      assert trace[..first + 1][..first][j] == trace[j];
    } else if j < second {
      assert trace[..second][j] == trace[j];
    } else if j < |trace| - 1 {
      assert trace[..|trace| - 1][j] == trace[j];
    }
  }

  /**
   * While a double tap is being made, from the first press to the release that fires, no capture
   * started by the modifiers is live, and none starts: what starts is the shortcut's. The driver's
   * polls must not contradict the stream by finding the bare pair held.
   */
  lemma {:induction false} PromptExcludesPushToTalk(trusted: bool, trace: seq<Input>, begin: int, first: int,
      second: int, j: int)
    requires DoubleTapOf(trace, first, second) && TapFrom(trace[..first + 1], begin)
    requires begin <= j < |trace|
    requires forall i :: begin <= i <= j ==> !FindsPair(trace[i])
    ensures FiresAtEnd(trace)
    ensures Quiet(HotkeyRun(trusted, trace[..j + 1]).latch)
    ensures HotkeyStep(HotkeyRun(trusted, trace[..j]), trace[j]).1 == [Start] ==> trace[j].Shortcut? && trace[j].pressed
    decreases j
  {
    FiresExactlyOnDoubleTaps(trace);
    hide DoubleTapOf, TapRun, TapStep, TapFrom, HotkeyStep, Quiet, Harmless;
    WindowIsPlain(trace, begin, first, second, j);
    var h := HotkeyRun(trusted, trace[..j]);
    assert trace[..j + 1][..j] == trace[..j];
    assert HotkeyRun(trusted, trace[..j + 1]) == HotkeyStep(h, trace[j]).0;
    if j == begin {
      UntrustedIsQuiet(trusted, trace[..j]);
      FirstPressQuiets(trace, begin, first, h);
    } else {
      PromptExcludesPushToTalk(trusted, trace, begin, first, second, j - 1);
      assert Harmless(trace[j]) by { HarmlessIs(trace[j]); }
      HarmlessKeepsQuiet(h, trace[j]);
    }
  }

  lemma HarmlessIs(e: Input)
    ensures Harmless(e) <==> (e.Sample? ==> e.s.Plain()) && !FindsPair(e)
  {
  }

  /** The first press of the pair stops a modifier capture and drops a pending arm. */
  lemma FirstPressQuiets(trace: seq<Input>, begin: int, first: int, h: Hotkey)
    requires 0 <= first < |trace| && TapFrom(trace[..first + 1], begin)
    requires h.trusted || Quiet(h.latch)
    ensures 0 <= begin < |trace| && Quiet(HotkeyStep(h, trace[begin]).0.latch)
    ensures HotkeyStep(h, trace[begin]).1 != [Start]
  {
    assert trace[..first + 1][..first][begin] == trace[begin];
  }

  /**
   * The input is a poll that arms the latch: it finds the bare pair the samples do not show, on a free,
   * unpoisoned latch.
   */
  predicate Arms(h: Hotkey, e: Input) {
    FindsPair(e) && !(h.latch.pairDown && !h.latch.blocked) && !h.latch.poisoned && h.latch.active.None?
  }

  /** On a quiet latch only such a poll makes a difference, as long as the samples stay plain. */
  lemma OnlyArmingDisturbs(h: Hotkey, e: Input)
    requires Quiet(h.latch) && (e.Sample? ==> e.s.Plain())
    ensures Quiet(HotkeyStep(h, e).0.latch) <==> !Arms(h, e)
  {
  }

  predicate QuietAfter(trusted: bool, trace: seq<Input>, i: int) {
    0 <= i < |trace| && Quiet(HotkeyRun(trusted, trace[..i + 1]).latch)
  }

  predicate ArmsAt(trusted: bool, trace: seq<Input>, i: int) {
    0 <= i < |trace| && Arms(HotkeyRun(trusted, trace[..i]), trace[i])
  }

  /** No modifier capture is on and none is about to start after any input of the window up to `j`. */
  ghost predicate QuietUpTo(trusted: bool, trace: seq<Input>, begin: int, j: int)
    requires 0 <= begin && j < |trace|
  {
    forall i :: begin <= i <= j ==> QuietAfter(trusted, trace, i)
  }

  ghost predicate ArmedUpTo(trusted: bool, trace: seq<Input>, begin: int, j: int)
    requires 0 <= begin && j < |trace|
  {
    exists i :: begin <= i <= j && ArmsAt(trusted, trace, i)
  }

  /**
   * Exactly then: the latch is quiet throughout the window, up to any of its inputs, if and only if
   * no poll up to there armed it.
   */
  lemma {:induction false} QuietUnlessArmed(trusted: bool, trace: seq<Input>, begin: int, first: int, second: int,
      j: int)
    requires DoubleTapOf(trace, first, second) && TapFrom(trace[..first + 1], begin)
    requires begin <= j < |trace|
    ensures 0 <= begin && (QuietUpTo(trusted, trace, begin, j) <==> !ArmedUpTo(trusted, trace, begin, j))
    decreases j
  {
    hide DoubleTapOf, TapFrom, HotkeyStep, Quiet, Arms, HotkeyRun;
    WindowIsPlain(trace, begin, first, second, j);
    BeginsInside(trace, begin, first);
    var h := HotkeyRun(trusted, trace[..j]);
    OneMoreInput(trusted, trace, j);
    if j == begin {
      UntrustedIsQuiet(trusted, trace[..j]);
      FirstPressQuiets(trace, begin, first, h);
      FirstPressArmsNot(trace, begin, first, h);
    } else {
      QuietUnlessArmed(trusted, trace, begin, first, second, j - 1);
      assert trace[..(j - 1) + 1] == trace[..j];
      UpToSplits(trusted, trace, begin, j);
      if QuietUpTo(trusted, trace, begin, j - 1) {
        assert QuietAfter(trusted, trace, j - 1);
        OnlyArmingDisturbs(h, trace[j]);
      }
    }
  }

  lemma UpToSplits(trusted: bool, trace: seq<Input>, begin: int, j: int)
    requires 0 <= begin < j < |trace|
    ensures QuietUpTo(trusted, trace, begin, j) <==>
              QuietUpTo(trusted, trace, begin, j - 1) && QuietAfter(trusted, trace, j)
    ensures ArmedUpTo(trusted, trace, begin, j) <==>
              ArmedUpTo(trusted, trace, begin, j - 1) || ArmsAt(trusted, trace, j)
  {
    hide QuietAfter, ArmsAt;
  }

  lemma OneMoreInput(trusted: bool, trace: seq<Input>, j: int)
    requires 0 <= j < |trace|
    ensures HotkeyRun(trusted, trace[..j + 1]) == HotkeyStep(HotkeyRun(trusted, trace[..j]), trace[j]).0
  {
    assert trace[..j + 1][..j] == trace[..j];
  }

  lemma BeginsInside(trace: seq<Input>, begin: int, first: int)
    requires 0 <= first < |trace| && TapFrom(trace[..first + 1], begin)
    ensures 0 <= begin
  {
  }

  lemma FirstPressArmsNot(trace: seq<Input>, begin: int, first: int, h: Hotkey)
    requires 0 <= first < |trace| && TapFrom(trace[..first + 1], begin) && 0 <= begin < |trace|
    ensures !Arms(h, trace[begin])
  {
    assert trace[..first + 1][..first][begin] == trace[begin];
  }

  const CONTROL: ModifierSample := ModifierSample(true, false, false, false)
  const PAIR: ModifierSample := ModifierSample(true, true, false, false)
  const UP: ModifierSample := ModifierSample(false, false, false, false)

  const LATE: nat := 300 * MILLISECOND

  /** The stream on which a poll that contradicts the samples lets a capture start inside the window. */
  function ContradictedStream(): seq<Input> {
    [Sample(CONTROL, 0), Poll(true, PAIR, 0), Tick(LATE)] +
    [Sample(UP, LATE), Sample(CONTROL, LATE), Sample(UP, LATE)]
  }

  lemma HotkeySnoc(trace: seq<Input>, e: Input)
    ensures HotkeyRun(true, trace + [e]) == HotkeyStep(HotkeyRun(true, trace), e).0
  {
    hide HotkeyStep;
    assert (trace + [e])[..|trace|] == trace;
  }

  lemma HotkeyAfterThree(a: Input, b: Input, c: Input)
    ensures HotkeyRun(true, [a, b, c]) ==
              HotkeyStep(HotkeyStep(HotkeyStep(Hotkey(Gesture.DEFAULT, true), a).0, b).0, c).0
  {
    hide HotkeyStep;
    HotkeySnoc([], a);
    HotkeySnoc([a], b);
    HotkeySnoc([a, b], c);
    assert [] + [a] == [a] && [a] + [b] == [a, b] && [a, b] + [c] == [a, b, c];
  }

  lemma TapSnoc(trace: seq<Input>, e: Input)
    ensures TapRun(trace + [e]) == TapStep(TapRun(trace), e).0
    ensures FiresAtEnd(trace + [e]) <==> TapStep(TapRun(trace), e).1
  {
    hide TapStep;
    assert (trace + [e])[..|trace|] == trace;
  }

  lemma TapAfterThree(front: seq<Input>, a: Input, b: Input, c: Input)
    ensures var m := TapStep(TapStep(TapRun(front), a).0, b).0;
            TapRun(front + [a, b, c]) == TapStep(m, c).0 && (FiresAtEnd(front + [a, b, c]) <==> TapStep(m, c).1)
  {
    hide TapStep, TapRun, FiresAtEnd;
    TapSnoc(front, a);
    TapSnoc(front + [a], b);
    TapSnoc(front + [a, b], c);
    assert front + [a] + [b] == front + [a, b] && front + [a, b] + [c] == front + [a, b, c];
  }

  /** A poll finds the pair after one press of Control, and its deadline passes. */
  lemma PollStartsCapture()
    ensures HotkeyRun(true, ContradictedStream()[..3]).latch.active == Some(ByModifiers)
  {
    hide HotkeyRun;
    HotkeyAfterThree(Sample(CONTROL, 0), Poll(true, PAIR, 0), Tick(LATE));
    assert ContradictedStream()[..3] == [Sample(CONTROL, 0), Poll(true, PAIR, 0), Tick(LATE)];
  }

  /** The condition on polls is needed: a poll that finds the pair starts a capture between the two presses. */
  lemma ContradictingPollBreaksExclusion()
    ensures var trace := ContradictedStream();
            FiresAtEnd(trace) && HotkeyRun(true, trace[..3]).latch.active == Some(ByModifiers)
  {
    hide HotkeyRun, HotkeyStep, TapRun, FiresAtEnd;
    PollStartsCapture();
    var front := [Sample(CONTROL, 0), Poll(true, PAIR, 0), Tick(LATE)];
    assert TapRun([]) == CtrlTaps.DEFAULT by { EmptyTap(); }
    TapAfterThree([], Sample(CONTROL, 0), Poll(true, PAIR, 0), Tick(LATE));
    assert [] + front == front;
    TapAfterThree(front, Sample(UP, LATE), Sample(CONTROL, LATE), Sample(UP, LATE));
  }

  lemma EmptyTap()
    ensures TapRun([]) == CtrlTaps.DEFAULT
  {
  }
}
