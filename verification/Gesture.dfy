/**
 * The push-to-talk latch: two triggers, one capture. A run is any mix of samples, shortcut edges,
 * ticks, watchdog calls and resets; the theorems say what the actions of a run are and exactly
 * when a tick starts a capture.
 */
module Gesture {
  import opened Basics
  import opened Modifiers

  const ARM_DELAY: nat := 300_000_000

  datatype Trigger = ByModifiers | ByShortcut

  datatype Action = Start | Stop

  datatype LatchState = LatchState(pairDown: bool, blocked: bool, poisoned: bool,
                                   armDeadline: Option<nat>, active: Option<Trigger>)

  datatype Call =
    | OnModifiers(s: ModifierSample, at: nat)
    | OnShortcut(pressed: bool)
    | OnTick(at: nat)
    | Watchdog(s: ModifierSample, at: nat)
    | Reset

  const DEFAULT: LatchState := LatchState(false, false, false, None, None)

  // ---------- the latch ----------

  function AfterBlocked(m: LatchState, pair: bool): (LatchState, seq<Action>) {
    var stops := pair && m.active == Some(ByModifiers);
    (LatchState(pair, true, m.poisoned || pair, None, if stops then None else m.active), if stops then [Stop] else [])
  }

  function AfterPair(m: LatchState, now: nat): LatchState {
    var arms := !m.poisoned && m.active.None? && m.armDeadline.None?;
    LatchState(true, false, m.poisoned, if arms then Some(now + ARM_DELAY) else m.armDeadline, m.active)
  }

  function Released(m: LatchState): (LatchState, seq<Action>) {
    var stops := m.active == Some(ByModifiers);
    (LatchState(false, false, false, None, if stops then None else m.active), if stops then [Stop] else [])
  }

  function ApplySample(m: LatchState, s: ModifierSample, now: nat): (LatchState, seq<Action>) {
    if s.Blocked() then AfterBlocked(m, s.PairDown())
    else if s.PairDown() then (AfterPair(m, now), [])
    else Released(m)
  }

  function ApplyShortcut(m: LatchState, pressed: bool): (LatchState, seq<Action>) {
    if pressed then
      if m.active.None? then (m.(armDeadline := None, active := Some(ByShortcut)), [Start])
      else (m.(armDeadline := None), [])
    else if m.active == Some(ByShortcut) then (m.(active := None), [Stop])
    else (m, [])
  }

  function ApplyTick(m: LatchState, now: nat): (LatchState, seq<Action>) {
    if m.armDeadline.None? || now < m.armDeadline.value then (m, [])
    else if m.pairDown && !m.blocked && !m.poisoned && m.active.None? then
      (m.(armDeadline := None, active := Some(ByModifiers)), [Start])
    else (m.(armDeadline := None), [])
  }

  function ApplyWatchdog(m: LatchState, s: ModifierSample, now: nat): (LatchState, seq<Action>) {
    if s.PairDown() != m.pairDown || s.Blocked() != m.blocked then ApplySample(m, s, now) else (m, [])
  }

  function LatchStep(m: LatchState, c: Call): (LatchState, seq<Action>) {
    match c
    case OnModifiers(s, at) => ApplySample(m, s, at)
    case OnShortcut(pressed) => ApplyShortcut(m, pressed)
    case OnTick(at) => ApplyTick(m, at)
    case Watchdog(s, at) => ApplyWatchdog(m, s, at)
    case Reset => Released(m)
  }

  function LatchRun(trace: seq<Call>): LatchState {
    if trace == [] then DEFAULT else LatchStep(LatchRun(trace[..|trace| - 1]), trace[|trace| - 1]).0
  }

  /** Every action a run emits, in order. */
  function Actions(trace: seq<Call>): seq<Action> {
    if trace == [] then []
    else Actions(trace[..|trace| - 1]) + LatchStep(LatchRun(trace[..|trace| - 1]), trace[|trace| - 1]).1
  }

  class Latch {
    var pairDown: bool
    var blocked: bool
    var poisoned: bool
    var armDeadline: Option<nat>
    var active: Option<Trigger>

    ghost function Value(): LatchState
      reads this
    {
      LatchState(pairDown, blocked, poisoned, armDeadline, active)
    }

    constructor ()
      ensures Value() == DEFAULT
    {
      pairDown, blocked, poisoned, armDeadline, active := false, false, false, None, None;
    }

    method OnModifiers(sample: ModifierSample, now: nat) returns (actions: seq<Action>)
      modifies this
      ensures (Value(), actions) == ApplySample(old(Value()), sample, now)
    {
      var pair := sample.PairDown();
      actions := [];
      if sample.Blocked() {
        blocked := true;
        if pair {
          poisoned := true;
        }
        armDeadline := None;
        if pair && active == Some(ByModifiers) {
          active := None;
          actions := [Stop];
        }
        pairDown := pair;
        return;
      }
      blocked := false;
      if pair {
        pairDown := true;
        if !poisoned && active.None? && armDeadline.None? {
          armDeadline := Some(now + ARM_DELAY);
        }
      } else {
        pairDown := false;
        poisoned := false;
        armDeadline := None;
        if active == Some(ByModifiers) {
          active := None;
          actions := [Stop];
        }
      }
    }

    method OnShortcut(pressed: bool) returns (actions: seq<Action>)
      modifies this`armDeadline, this`active
      ensures (Value(), actions) == ApplyShortcut(old(Value()), pressed)
    {
      if pressed {
        armDeadline := None;
        if active.None? {
          active := Some(ByShortcut);
          return [Start];
        }
        return [];
      } else if active == Some(ByShortcut) {
        active := None;
        return [Stop];
      }
      return [];
    }

    method Tick(now: nat) returns (actions: seq<Action>)
      modifies this`armDeadline, this`active
      ensures (Value(), actions) == ApplyTick(old(Value()), now)
    {
      if armDeadline.Some? {
        if now >= armDeadline.value {
          armDeadline := None;
          if pairDown && !blocked && !poisoned && active.None? {
            active := Some(ByModifiers);
            return [Start];
          }
        }
      }
      return [];
    }

    method Watchdog(sample: ModifierSample, now: nat) returns (actions: seq<Action>)
      modifies this
      ensures (Value(), actions) == ApplyWatchdog(old(Value()), sample, now)
    {
      if sample.PairDown() != pairDown || sample.Blocked() != blocked {
        actions := OnModifiers(sample, now);
        return;
      }
      return [];
    }

    method ResetModifiers() returns (actions: seq<Action>)
      modifies this
      ensures (Value(), actions) == Released(old(Value()))
    {
      pairDown := false;
      blocked := false;
      poisoned := false;
      armDeadline := None;
      if active == Some(ByModifiers) {
        active := None;
        return [Stop];
      }
      return [];
    }
  }

  // ---------- what every run keeps ----------

  /**
   * A pending deadline means the whole guard of the tick already holds, and a capture started by
   * the modifiers lives only while the pair is down or Command or Shift is held.
   */
  predicate Sound(m: LatchState) {
    && (m.armDeadline.Some? ==> m.pairDown && !m.blocked && !m.poisoned && m.active.None?)
    && (m.active == Some(ByModifiers) ==> m.pairDown || m.blocked)
  }

  /** Start, Stop, Start, Stop, and so on. */
  ghost predicate Alternating(actions: seq<Action>) {
    forall i :: 0 <= i < |actions| ==> actions[i] == if i % 2 == 0 then Start else Stop
  }

  lemma StepIsSound(m: LatchState, c: Call)
    requires Sound(m)
    ensures Sound(LatchStep(m, c).0)
    ensures var (next, out) := LatchStep(m, c);
            out == (if next.active.Some? == m.active.Some? then [] else if next.active.Some? then [Start] else [Stop])
  {
  }

  lemma OneMore(actions: seq<Action>, out: seq<Action>)
    requires Alternating(actions)
    requires out == [] || out == [if |actions| % 2 == 0 then Start else Stop]
    ensures Alternating(actions + out)
  {
    var whole := actions + out;
    forall i | 0 <= i < |whole| ensures whole[i] == if i % 2 == 0 then Start else Stop {
      if i < |actions| {
        assert whole[i] == actions[i];
      } else {
        assert i == |actions|;
        assert whole[i] == out[0];
      }
    }
  }

  lemma {:induction false} EveryRunIsSound(trace: seq<Call>)
    ensures Sound(LatchRun(trace))
    ensures Alternating(Actions(trace)) && (LatchRun(trace).active.Some? <==> |Actions(trace)| % 2 == 1)
    decreases |trace|
  {
    hide LatchStep, Alternating, Sound;
    if trace == [] {
      assert Alternating(Actions([])) && Sound(LatchRun([])) by { NothingIsSound(); }
    } else {
      var front, c := trace[..|trace| - 1], trace[|trace| - 1];
      EveryRunIsSound(front);
      StepIsSound(LatchRun(front), c);
      OneMore(Actions(front), LatchStep(LatchRun(front), c).1);
    }
  }

  lemma NothingIsSound()
    ensures Alternating(Actions([])) && Sound(LatchRun([]))
  {
  }

  /** When a deadline is due, the tick starts a capture: its other guards are implied. */
  lemma DueTickStarts(trace: seq<Call>, now: nat)
    requires LatchRun(trace).armDeadline.Some? && LatchRun(trace).armDeadline.value <= now
    ensures ApplyTick(LatchRun(trace), now).1 == [Start]
  {
    EveryRunIsSound(trace);
    hide LatchRun;
  }

  /** After a watchdog call the latch agrees with the live state: no pair and no block, no modifier capture. */
  lemma WatchdogReconciles(trace: seq<Call>, s: ModifierSample, now: nat)
    ensures var m := ApplyWatchdog(LatchRun(trace), s, now).0;
            && (m.pairDown, m.blocked) == SeenIn(s)
            && (s.Apart() ==> m.active != Some(ByModifiers) && m.armDeadline.None?)
  {
    EveryRunIsSound(trace);
    hide LatchRun;
  }

  /** The pair alone does not bound a modifier capture: a blocked sample that is no longer a pair leaves it on. */
  lemma BlockedReleaseLeavesCapture()
    ensures var pair, blocked := ModifierSample(true, true, false, false), ModifierSample(true, false, true, false);
            var late := 300 * MILLISECOND;
            var m := LatchRun([OnModifiers(pair, 0), OnTick(late), OnModifiers(blocked, late)]);
            m.active == Some(ByModifiers) && !m.pairDown
  {
    var pair, blocked := ModifierSample(true, true, false, false), ModifierSample(true, false, true, false);
    var one := [OnModifiers(pair, 0)];
    var two := one + [OnTick(300 * MILLISECOND)];
    Snoc([], OnModifiers(pair, 0));
    assert [] + one == one;
    Snoc(one, OnTick(300 * MILLISECOND));
    Snoc(two, OnModifiers(blocked, 300 * MILLISECOND));
    assert two + [OnModifiers(blocked, 300 * MILLISECOND)] ==
             [OnModifiers(pair, 0), OnTick(300 * MILLISECOND), OnModifiers(blocked, 300 * MILLISECOND)];
  }

  // ---------- the history of a start ----------

  predicate IsSample(c: Call) {
    c.OnModifiers? || c.Watchdog?
  }

  /** The pair, and Command or Shift. */
  function SeenIn(s: ModifierSample): (bool, bool) {
    (s.control && s.option, s.command || s.shift)
  }

  /** The pair and block bits the latch last saw: of the last sample, or none since a reset. */
  function Seen(trace: seq<Call>): (bool, bool) {
    if trace == [] then (false, false) else
    var c := trace[|trace| - 1];
    if IsSample(c) then SeenIn(c.s)
    else if c.Reset? then (false, false)
    else Seen(trace[..|trace| - 1])
  }

  /** The call at `i` applies its sample; a watchdog does only when it disagrees with what was seen. */
  predicate AppliesAt(trace: seq<Call>, i: int) {
    && 0 <= i < |trace| && IsSample(trace[i])
    && (trace[i].Watchdog? ==> Seen(trace[..i]) != SeenIn(trace[i].s))
  }

  predicate ChordAt(trace: seq<Call>, i: int) {
    AppliesAt(trace, i) && trace[i].s.Chord()
  }

  /** The pair is let go, for which one of its keys is enough, with Command and Shift up; or the modifiers are reset. */
  predicate LetGoAt(trace: seq<Call>, i: int) {
    (0 <= i < |trace| && trace[i].Reset?) || (AppliesAt(trace, i) && trace[i].s.Apart())
  }

  /** A chord was played and the pair was not let go since. */
  ghost predicate Chorded(trace: seq<Call>) {
    exists i :: ChordAt(trace, i) && forall j :: i < j < |trace| ==> !LetGoAt(trace, j)
  }

  /** A capture is on: the last action was a start. */
  predicate Capturing(trace: seq<Call>) {
    Actions(trace) != [] && Actions(trace)[|Actions(trace)| - 1] == Start
  }

  /** The call leaves an arm pending since `start` alone. */
  predicate Patient(trace: seq<Call>, j: nat, start: nat)
    requires j < |trace|
  {
    match trace[j]
    case OnModifiers(s, _) => s.BarePair()
    case Watchdog(s, _) => s.BarePair()
    case OnShortcut(pressed) => !pressed
    case OnTick(at) => at < start + 300 * MILLISECOND
    case Reset => false
  }

  /**
   * The hold that counts began at `i`: an unblocked pair was seen with no capture on, no chord in
   * the hold and no arm pending, and since then every sample was an unblocked pair, the shortcut
   * was not pressed, the modifiers were not reset, and no tick came late enough to fire.
   */
  ghost predicate ArmedAt(trace: seq<Call>, i: int): (armed: bool)
    ensures armed ==> 0 <= i < |trace| && IsSample(trace[i])
    decreases |trace|, 0
  {
    && AppliesAt(trace, i) && trace[i].s.BarePair()
    && !Capturing(trace[..i])
    && !Chorded(trace[..i])
    && !Armed(trace[..i])
    && forall j :: i < j < |trace| ==> Patient(trace, j, trace[i].at)
  }

  ghost predicate Armed(trace: seq<Call>)
    decreases |trace|, 1
  {
    exists i :: ArmedAt(trace, i)
  }

  ghost predicate Described(trace: seq<Call>) {
    var m := LatchRun(trace);
    && (m.pairDown, m.blocked) == Seen(trace)
    && (m.poisoned <==> Chorded(trace))
    && (m.active.Some? <==> Capturing(trace))
    && (forall i :: ArmedAt(trace, i) ==> m.armDeadline == Some(trace[i].at + 300 * MILLISECOND))
    && (m.armDeadline.Some? <==> Armed(trace))
  }

  lemma Snoc(trace: seq<Call>, c: Call)
    ensures LatchRun(trace + [c]) == LatchStep(LatchRun(trace), c).0
    ensures Actions(trace + [c]) == Actions(trace) + LatchStep(LatchRun(trace), c).1
    ensures Seen(trace + [c]) == if IsSample(c) then SeenIn(c.s)
                                 else if c.Reset? then (false, false) else Seen(trace)
  {
    assert (trace + [c])[..|trace|] == trace;
  }

  lemma CapturingIsActive(trace: seq<Call>)
    ensures Capturing(trace) <==> LatchRun(trace).active.Some?
  {
    hide LatchRun, Actions;
    EveryRunIsSound(trace);
  }

  lemma AppliesSnoc(trace: seq<Call>, c: Call, i: int)
    requires i != |trace|
    ensures AppliesAt(trace + [c], i) <==> AppliesAt(trace, i)
  {
    if 0 <= i < |trace| {
      assert (trace + [c])[..i] == trace[..i];
    }
  }

  lemma AppliesLast(trace: seq<Call>, c: Call)
    requires Described(trace)
    ensures AppliesAt(trace + [c], |trace|) <==>
            IsSample(c) && (c.Watchdog? ==> SeenIn(c.s) != (LatchRun(trace).pairDown, LatchRun(trace).blocked))
  {
    hide LatchRun, Chorded, Capturing, ArmedAt;
    assert (trace + [c])[..|trace|] == trace;
  }

  /** A chord poisons the hold, letting the pair go ends it, and nothing else does either. */
  lemma ChordedSnoc(trace: seq<Call>, c: Call)
    ensures Chorded(trace + [c]) <==>
            ChordAt(trace + [c], |trace|) || (Chorded(trace) && !LetGoAt(trace + [c], |trace|))
  {
    hide AppliesAt;
    var longer := trace + [c];
    forall i | i != |trace| ensures ChordAt(longer, i) <==> ChordAt(trace, i)
      ensures LetGoAt(longer, i) <==> LetGoAt(trace, i)
    {
      AppliesSnoc(trace, c, i);
      AppliesInRange(trace, i);
    }
    if Chorded(longer) && !ChordAt(longer, |trace|) {
      var i :| ChordAt(longer, i) && forall j :: i < j < |longer| ==> !LetGoAt(longer, j);
      assert ChordAt(trace, i);
      AppliesInRange(trace, i);
    }
    if Chorded(trace) && !LetGoAt(longer, |trace|) {
      var i :| ChordAt(trace, i) && forall j :: i < j < |trace| ==> !LetGoAt(trace, j);
      AppliesInRange(trace, i);
      assert ChordAt(longer, i);
    }
  }

  lemma AppliesInRange(trace: seq<Call>, i: int)
    ensures AppliesAt(trace, i) ==> 0 <= i < |trace| && IsSample(trace[i])
  {
  }

  lemma ArmedSnoc(trace: seq<Call>, c: Call, i: int)
    ensures ArmedAt(trace + [c], i) <==>
            || (i == |trace| && AppliesAt(trace + [c], i) && c.s.BarePair()
                && !Capturing(trace) && !Chorded(trace) && !Armed(trace))
            || (ArmedAt(trace, i) && Patient(trace + [c], |trace|, trace[i].at))
  {
    hide AppliesAt, Capturing, Chorded;
    var longer := trace + [c];
    AppliesInRange(longer, i);
    AppliesInRange(trace, i);
    if i == |trace| {
      assert longer[..i] == trace;
    } else if 0 <= i < |trace| {
      AppliesSnoc(trace, c, i);
      assert longer[..i] == trace[..i] && longer[i] == trace[i];
      assert forall j, start :: i < j < |trace| ==> Patient(longer, j, start) == Patient(trace, j, start);
      if ArmedAt(longer, i) {
        assert Patient(longer, |trace|, trace[i].at);
      }
    }
  }

  lemma DescribedSnoc(trace: seq<Call>, c: Call)
    requires Described(trace)
    ensures Described(trace + [c])
  {
    hide LatchRun, Actions, Chorded, Capturing, ArmedAt, AppliesAt, Seen;
    var m, longer := LatchRun(trace), trace + [c];
    Snoc(trace, c);
    CapturingIsActive(longer);
    AppliesLast(trace, c);
    ChordedSnoc(trace, c);
    EveryRunIsSound(trace);
    assert longer[|trace|] == c;
    ArmedNow(trace, c);
  }

  lemma ArmedIndex(trace: seq<Call>) returns (i: int)
    requires Armed(trace)
    ensures ArmedAt(trace, i)
  {
    i :| ArmedAt(trace, i);
  }

  lemma ArmedNow(trace: seq<Call>, c: Call)
    requires Described(trace)
    ensures forall i ::
              ArmedAt(trace + [c], i) ==>
                LatchRun(trace + [c]).armDeadline == Some((trace + [c])[i].at + 300 * MILLISECOND)
    ensures LatchRun(trace + [c]).armDeadline.Some? <==> Armed(trace + [c])
  {
    hide LatchRun, Actions, Chorded, Capturing, ArmedAt, AppliesAt, Seen;
    var m, longer := LatchRun(trace), trace + [c];
    Snoc(trace, c);
    AppliesLast(trace, c);
    EveryRunIsSound(trace);
    assert longer[|trace|] == c;
    forall i ensures ArmedAt(longer, i) <==>
            || (i == |trace| && AppliesAt(longer, i) && c.s.BarePair()
                && !Capturing(trace) && !Chorded(trace) && !Armed(trace))
            || (ArmedAt(trace, i) && Patient(longer, |trace|, trace[i].at))
    {
      ArmedSnoc(trace, c, i);
      AppliesInRange(longer, i);
    }
    assert forall i :: ArmedAt(trace, i) ==> longer[i] == trace[i];
    if m.armDeadline.Some? {
      var i := ArmedIndex(trace);
      assert ArmedAt(longer, i) <==> Patient(longer, |trace|, trace[i].at) || ArmedAt(longer, |trace|);
    }
  }

  lemma {:induction false} EveryTraceIsDescribed(trace: seq<Call>)
    ensures Described(trace)
    decreases |trace|
  {
    hide Described;
    if trace == [] {
      NothingIsDescribed();
    } else {
      var front, c := trace[..|trace| - 1], trace[|trace| - 1];
      EveryTraceIsDescribed(front);
      DescribedSnoc(front, c);
      assert front + [c] == trace;
    }
  }

  lemma NothingIsDescribed()
    ensures Described([])
  {
  }

  /**
   * A tick starts a capture exactly when a hold that counts began at least 300 ms before it:
   * an unblocked pair all along, no shortcut press, no reset, and no chord anywhere in the hold.
   */
  lemma StartsExactlyAfterAHold(trace: seq<Call>, now: nat)
    ensures ApplyTick(LatchRun(trace), now).1 == [Start] <==>
              exists i :: ArmedAt(trace, i) && trace[i].at + 300 * MILLISECOND <= now
  {
    hide LatchRun, Chorded, Capturing, ArmedAt, Seen;
    EveryTraceIsDescribed(trace);
    EveryRunIsSound(trace);
    if LatchRun(trace).armDeadline.Some? {
      var i := ArmedIndex(trace);
    }
  }

  // ---------- the history of a capture ----------

  /** The tick at `j` starts a capture. */
  ghost predicate StartsAt(trace: seq<Call>, j: int) {
    0 <= j < |trace| && trace[j].OnTick? 
    && exists i :: ArmedAt(trace[..j], i) && trace[..j][i].at + 300 * MILLISECOND <= trace[j].at
  }

  /** Letting the pair go, a reset or a chord ends a capture started by the modifiers. */
  predicate EndsAt(trace: seq<Call>, k: int) {
    LetGoAt(trace, k) || ChordAt(trace, k)
  }

  ghost predicate Holding(trace: seq<Call>) {
    exists j :: StartsAt(trace, j) && forall k :: j < k < |trace| ==> !EndsAt(trace, k)
  }

  /** The press at `j` found no capture on and started one. */
  predicate PressesAt(trace: seq<Call>, j: int) {
    0 <= j < |trace| && trace[j] == OnShortcut(true) && !Capturing(trace[..j])
  }

  ghost predicate Pressing(trace: seq<Call>) {
    exists j :: PressesAt(trace, j) && forall k :: j < k < |trace| ==> trace[k] != OnShortcut(false)
  }

  lemma HoldingSnoc(trace: seq<Call>, c: Call)
    ensures Holding(trace + [c]) <==>
              StartsAt(trace + [c], |trace|) || (Holding(trace) && !EndsAt(trace + [c], |trace|))
  {
    hide AppliesAt, ArmedAt;
    var longer := trace + [c];
    forall j | j != |trace| ensures StartsAt(longer, j) <==> StartsAt(trace, j)
      ensures EndsAt(longer, j) <==> EndsAt(trace, j)
    {
      AppliesSnoc(trace, c, j);
      AppliesInRange(trace, j);
      if 0 <= j < |trace| {
        assert longer[..j] == trace[..j];
      }
    }
    hide StartsAt, EndsAt;
    StartsInRange(trace);
    if Holding(trace) && !EndsAt(longer, |trace|) {
      var j :| StartsAt(trace, j) && forall k :: j < k < |trace| ==> !EndsAt(trace, k);
      assert StartsAt(longer, j);
    }
    if Holding(longer) && !StartsAt(longer, |trace|) {
      var j :| StartsAt(longer, j) && forall k :: j < k < |longer| ==> !EndsAt(longer, k);
      assert StartsAt(trace, j);
    }
  }

  lemma StartsInRange(trace: seq<Call>)
    ensures forall j :: StartsAt(trace, j) ==> 0 <= j < |trace|
  {
  }

  lemma PressingSnoc(trace: seq<Call>, c: Call)
    ensures Pressing(trace + [c]) <==>
            (c == OnShortcut(true) && !Capturing(trace)) || (Pressing(trace) && c != OnShortcut(false))
  {
    hide Capturing;
    var longer := trace + [c];
    forall j | j != |trace| ensures PressesAt(longer, j) <==> PressesAt(trace, j) {
      if 0 <= j < |trace| {
        assert longer[..j] == trace[..j];
      }
    }
    assert longer[..|trace|] == trace && longer[|trace|] == c;
    if Pressing(trace) && c != OnShortcut(false) {
      var j :| PressesAt(trace, j) && forall k :: j < k < |trace| ==> trace[k] != OnShortcut(false);
      assert PressesAt(longer, j);
    }
    if Pressing(longer) && !PressesAt(longer, |trace|) {
      var j :| PressesAt(longer, j) && forall k :: j < k < |longer| ==> longer[k] != OnShortcut(false);
      assert PressesAt(trace, j);
      assert longer[|trace|] != OnShortcut(false);
      assert forall k :: j < k < |trace| ==> trace[k] == longer[k];
    }
    assert c == OnShortcut(true) && !Capturing(trace) ==> PressesAt(longer, |trace|);
  }

  /**
   * A capture is on by the modifiers exactly when a tick started it and since then the pair was not
   * let go, no chord was played and nothing was reset; it is on by the shortcut exactly when a press
   * started it and the shortcut was not released since.
   */
  lemma {:induction false} CaptureHistory(trace: seq<Call>)
    ensures LatchRun(trace).active == Some(ByModifiers) <==> Holding(trace)
    ensures LatchRun(trace).active == Some(ByShortcut) <==> Pressing(trace)
    decreases |trace|
  {
    hide LatchRun, Holding, Pressing;
    if trace == [] {
      NoCaptureInNothing();
    } else {
      var front, c := trace[..|trace| - 1], trace[|trace| - 1];
      assert front + [c] == trace;
      CaptureHistory(front);
      CaptureStep(front, c);
    }
  }

  lemma NoCaptureInNothing()
    ensures LatchRun([]).active == None && !Holding([]) && !Pressing([])
  {
  }

  lemma CaptureStep(trace: seq<Call>, c: Call)
    requires LatchRun(trace).active == Some(ByModifiers) <==> Holding(trace)
    requires LatchRun(trace).active == Some(ByShortcut) <==> Pressing(trace)
    ensures LatchRun(trace + [c]).active == Some(ByModifiers) <==> Holding(trace + [c])
    ensures LatchRun(trace + [c]).active == Some(ByShortcut) <==> Pressing(trace + [c])
  {
    hide LatchRun, Actions, Holding, Pressing, Capturing, StartsAt, AppliesAt, Described;
    var m := LatchRun(trace);
    Snoc(trace, c);
    HoldingSnoc(trace, c);
    PressingSnoc(trace, c);
    CapturingIsActive(trace);
    EveryTraceIsDescribed(trace);
    EveryRunIsSound(trace);
    AppliesLast(trace, c);
    assert (trace + [c])[|trace|] == c;
    StartsLast(trace, c);
    AgreeingIsQuiet(trace, c);
  }

  lemma StartsLast(trace: seq<Call>, c: Call)
    ensures StartsAt(trace + [c], |trace|) <==> c.OnTick? && ApplyTick(LatchRun(trace), c.at).1 == [Start]
  {
    hide LatchRun, ArmedAt, ApplyTick;
    assert (trace + [c])[..|trace|] == trace;
    if c.OnTick? {
      StartsExactlyAfterAHold(trace, c.at);
    }
  }

  /** A watchdog that agrees with the latch cannot hide a broken pair from a modifier capture. */
  lemma AgreeingIsQuiet(trace: seq<Call>, c: Call)
    ensures c.Watchdog? && SeenIn(c.s) == (LatchRun(trace).pairDown, LatchRun(trace).blocked) ==>
            LatchStep(LatchRun(trace), c) == (LatchRun(trace), [])
  {
    hide LatchRun;
  }

  // ---------- where the rules of the gesture give way ----------

  /**
   * A modifier capture outlives its pair exactly when a tick started it, nothing ended it since, and
   * the last sample shows Command or Shift without the pair.
   */
  lemma CaptureWithoutPairIff(trace: seq<Call>)
    ensures LatchRun(trace).active == Some(ByModifiers) && !LatchRun(trace).pairDown <==>
              Holding(trace) && Seen(trace) == (false, true)
  {
    hide LatchRun, Holding, Seen, Chorded, Capturing, ArmedAt;
    CaptureHistory(trace);
    EveryTraceIsDescribed(trace);
    EveryRunIsSound(trace);
  }

  /**
   * After a chord the pair need not be fully released to arm again: whatever came before, a sample
   * with one of its keys still down lifts the poison, and the next bare pair arms unless the
   * shortcut's own capture is on.
   */
  lemma OneKeyUpIsEnough(trace: seq<Call>, s: ModifierSample, now: nat, pair: ModifierSample, later: nat)
    requires s.Apart() && pair.BarePair()
    ensures var m := LatchRun(trace + [OnModifiers(s, now), OnModifiers(pair, later)]);
            m.armDeadline == Some(later + 300 * MILLISECOND) <==> LatchRun(trace).active != Some(ByShortcut)
  {
    hide LatchRun, Actions, Seen;
    var active := LatchRun(trace).active;
    assert active.Some? ==> active.value.ByModifiers? || active.value.ByShortcut?;
    var one := trace + [OnModifiers(s, now)];
    Snoc(trace, OnModifiers(s, now));
    Snoc(one, OnModifiers(pair, later));
    assert one + [OnModifiers(pair, later)] == trace + [OnModifiers(s, now), OnModifiers(pair, later)];
  }

  const CHORD: Call := OnModifiers(ModifierSample(true, true, true, false), 0)
  const CONTROL_ALONE: Call := OnModifiers(ModifierSample(true, false, false, false), 0)
  const PAIR_AGAIN: Call := OnModifiers(ModifierSample(true, true, false, false), 0)

  /** Control stays down from the chord to the pair that arms. */
  lemma ChordedPairRearms()
    ensures LatchRun([CHORD]).poisoned
    ensures LatchRun([CHORD] + [CONTROL_ALONE, PAIR_AGAIN]).armDeadline == Some(300 * MILLISECOND)
  {
    hide LatchRun, Actions, Seen;
    Snoc([], CHORD);
    assert [] + [CHORD] == [CHORD];
    assert LatchRun([]) == DEFAULT by { NothingRuns(); }
    OneKeyUpIsEnough([CHORD], CONTROL_ALONE.s, 0, PAIR_AGAIN.s, 0);
  }

  lemma NothingRuns()
    ensures LatchRun([]) == DEFAULT
  {
  }
}
