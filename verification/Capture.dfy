/**
 * The microphone capture: one engine state, a worker thread per recording, and one transcription
 * consumer that takes finished recordings from a channel. A take is named by its sequence number,
 * which its file path carries. Each method is one locked section.
 */
module Captures {
  import opened Basics

  datatype Recording = Recording(take: nat, durationMs: nat)

  datatype Failure = Failure(overlay: Option<string>, detail: string)

  datatype Inner =
    | Idle
    | Capturing
    | Ready(recording: Recording)
    | Transcribing(recording: Recording)
    | Failed(failure: Failure)

  datatype Engine = Engine(inner: Inner, sequence: nat)

  // ---------- the sections as functions ----------

  /** The new worker's take, if one is spawned. */
  function AfterStart(e: Engine): (Engine, Option<nat>) {
    if e.inner.Capturing? then (e, None) else (Engine(Capturing, e.sequence + 1), Some(e.sequence))
  }

  /** The worker's state update: whatever the state is by then, it is replaced. */
  function AfterFinish(e: Engine, outcome: Result<Recording, string>): Engine {
    e.(inner := if outcome.Ok? then Ready(outcome.value) else Failed(Failure(None, outcome.error)))
  }

  function AfterMarkTranscribing(e: Engine, r: Recording): Engine {
    if e.inner.Ready? && e.inner.recording.take == r.take then e.(inner := Transcribing(r)) else e
  }

  predicate IsCurrent(e: Engine, r: Recording) {
    e.inner.Transcribing? && e.inner.recording.take == r.take
  }

  function AfterMarkTranscribed(e: Engine): Engine {
    if e.inner.Transcribing? then e.(inner := Idle) else e
  }

  function AfterMarkFailed(e: Engine, overlay: string, detail: string): Engine {
    if e.inner.Transcribing? then e.(inner := Failed(Failure(Some(overlay), detail))) else e
  }

  class Capture {
    var inner: Inner
    var sequence: nat

    ghost function Value(): Engine
      reads this
    {
      Engine(inner, sequence)
    }

    constructor ()
      ensures Value() == Engine(Idle, 0)
    {
      inner, sequence := Idle, 0;
    }

    method NextTake() returns (take: nat)
      modifies this`sequence
      ensures take == old(sequence) && sequence == old(sequence) + 1
    {
      take := sequence;
      sequence := sequence + 1;
    }

    method Start() returns (worker: Option<nat>)
      modifies this
      ensures (Value(), worker) == AfterStart(old(Value()))
    {
      if inner.Capturing? {
        return None;
      }
      var take := NextTake();
      inner := Capturing;
      return Some(take);
    }

    method FinishCapture(outcome: Result<Recording, string>)
      modifies this`inner
      ensures Value() == AfterFinish(old(Value()), outcome)
    {
      match outcome
      case Ok(recording) => inner := Ready(recording);
      case Err(error) => inner := Failed(Failure(None, error));
    }

    method MarkTranscribing(recording: Recording)
      modifies this`inner
      ensures Value() == AfterMarkTranscribing(old(Value()), recording)
    {
      var matches := inner.Ready? && inner.recording.take == recording.take;
      if matches {
        inner := Transcribing(recording);
      }
    }

    method IsCurrentTake(recording: Recording) returns (current: bool)
      ensures current <==> IsCurrent(Value(), recording)
    {
      return inner.Transcribing? && inner.recording.take == recording.take;
    }

    method MarkTranscribed()
      modifies this`inner
      ensures Value() == AfterMarkTranscribed(old(Value()))
    {
      if inner.Transcribing? {
        inner := Idle;
      }
    }

    method MarkTranscriptionFailed(overlay: string, detail: string)
      modifies this`inner
      ensures Value() == AfterMarkFailed(old(Value()), overlay, detail)
    {
      if inner.Transcribing? {
        inner := Failed(Failure(Some(overlay), detail));
      }
    }
  }

  // ---------- runs ----------

  /**
   * Where the consumer is with the recording it holds: just received, transcribing, transcribed,
   * found current, reported to the engine as transcribed, or failed.
   */
  datatype Stage = Received | Working | Transcribed | Confirmed | Settled | Broken

  datatype Consumer = Waiting | Holding(recording: Recording, stage: Stage)

  /**
   * The whole system: the engine, the takes whose workers still record, the recordings whose
   * workers have still to hand them over, the channel, the consumer, and the transcripts emitted.
   */
  datatype World = World(
    engine: Engine,
    recorders: set<nat>,
    leaving: set<Recording>,
    channel: seq<Recording>,
    consumer: Consumer,
    emitted: seq<nat>)

  datatype Action =
    | Start
    | Finish(take: nat, outcome: Result<nat, string>)
    | Send(recording: Recording)
    | Receive
    | Mark
    | Answer(ok: bool)
    | Check
    | Settle
    | Emit
    | ReportFailure(overlay: string, detail: string)

  /** A step that its thread cannot take now leaves the world as it is. */
  function Next(w: World, a: Action): World {
    match a
    case Start =>
      var (e, worker) := AfterStart(w.engine);
      w.(engine := e, recorders := if worker.Some? then w.recorders + {worker.value} else w.recorders)
    case Finish(take, outcome) =>
      if take !in w.recorders then w else
      var recorders := w.recorders - {take};
      if outcome.Ok? then
        var r := Recording(take, outcome.value);
        w.(engine := AfterFinish(w.engine, Ok(r)), recorders := recorders, leaving := w.leaving + {r})
      else w.(engine := AfterFinish(w.engine, Err(outcome.error)), recorders := recorders)
    case Send(r) => if r !in w.leaving then w else w.(leaving := w.leaving - {r}, channel := w.channel + [r])
    case Receive =>
      if !w.consumer.Waiting? || w.channel == [] then w
      else w.(channel := w.channel[1..], consumer := Holding(w.channel[0], Received))
    case Mark =>
      if !At(w, Received) then w
      else w.(engine := AfterMarkTranscribing(w.engine, w.consumer.recording),
              consumer := w.consumer.(stage := Working))
    case Answer(ok) => if !At(w, Working) then w
                       else w.(consumer := w.consumer.(stage := if ok then Transcribed else Broken))
    case Check =>
      if !At(w, Transcribed) then w
      else w.(consumer := if IsCurrent(w.engine, w.consumer.recording) then w.consumer.(stage := Confirmed)
                          else Waiting)
    case Settle =>
      if !At(w, Confirmed) then w
      else w.(engine := AfterMarkTranscribed(w.engine), consumer := w.consumer.(stage := Settled))
    case Emit =>
      if !At(w, Settled) then w
      else w.(consumer := Waiting, emitted := w.emitted + [w.consumer.recording.take])
    case ReportFailure(overlay, detail) =>
      if !At(w, Broken) then w else w.(engine := AfterMarkFailed(w.engine, overlay, detail), consumer := Waiting)
  }

  predicate At(w: World, stage: Stage) {
    w.consumer.Holding? && w.consumer.stage == stage
  }

  const START: World := World(Engine(Idle, 0), {}, {}, [], Waiting, [])

  function Run(actions: seq<Action>): World {
    if actions == [] then START else Next(Run(actions[..|actions| - 1]), actions[|actions| - 1])
  }

  /** The take the engine's state is about. */
  function Carried(e: Engine): Option<nat> {
    if e.inner.Ready? || e.inner.Transcribing? then Some(e.inner.recording.take) else None
  }

  /** A take that is over: older than every take still to come, and not being recorded. */
  ghost predicate Over(w: World, take: nat) {
    take < w.engine.sequence && take !in w.recorders
  }

  ghost predicate LeavingIsPlaced(w: World) {
    && (forall r :: r in w.leaving ==> Over(w, r.take))
    && (forall r, q :: r in w.leaving && q in w.leaving && r.take == q.take ==> r == q)
  }

  ghost predicate ChannelIsPlaced(w: World) {
    && (forall k :: 0 <= k < |w.channel| ==> Over(w, w.channel[k].take))
    && (forall r, k :: r in w.leaving && 0 <= k < |w.channel| ==> r.take != w.channel[k].take)
    && (forall j, k :: 0 <= j < k < |w.channel| ==> w.channel[j].take != w.channel[k].take)
  }

  ghost predicate ConsumerIsPlaced(w: World) {
    w.consumer.Holding? ==>
      && Over(w, w.consumer.recording.take)
      && (forall r :: r in w.leaving ==> r.take != w.consumer.recording.take)
      && (forall k :: 0 <= k < |w.channel| ==> w.channel[k].take != w.consumer.recording.take)
  }

  /** A finished take sits in one place only, and is older than every take still to come. */
  ghost predicate Placed(w: World) {
    LeavingIsPlaced(w) && ChannelIsPlaced(w) && ConsumerIsPlaced(w)
  }

  /**
   * One recorder runs while the engine is capturing and none otherwise, and it has the newest
   * take; a recording the engine carries is the newest take; and only the recording the consumer
   * holds is ever being transcribed.
   */
  ghost predicate Sound(w: World) {
    && w.recorders == (if w.engine.inner.Capturing? then {w.engine.sequence - 1} else {})
    && (w.engine.inner.Capturing? ==> w.engine.sequence > 0)
    && (Carried(w.engine).Some? ==> Carried(w.engine).value == w.engine.sequence - 1)
    && (w.engine.inner.Transcribing? ==>
          && w.consumer.Holding? && !w.consumer.stage.Received? && !w.consumer.stage.Settled?
          && w.consumer.recording.take == w.engine.inner.recording.take)
    && (At(w, Confirmed) ==>
          !w.engine.inner.Idle?
          && (w.consumer.recording.take == w.engine.sequence - 1 ==> w.engine.inner.Transcribing?))
    && (At(w, Settled) ==> (w.consumer.recording.take == w.engine.sequence - 1 <==> w.engine.inner.Idle?))
  }

  lemma SendKeepsPlaced(w: World, r: Recording)
    requires Placed(w)
    ensures Placed(Next(w, Send(r)))
  {
    var n := Next(w, Send(r));
    if r in w.leaving {
      hide Next;
      assert LeavingIsPlaced(n) && ConsumerIsPlaced(n);
      assert forall k :: 0 <= k < |n.channel| ==>
                           n.channel[k] == r || (k < |w.channel| && n.channel[k] == w.channel[k]);
    }
  }

  lemma ReceiveKeepsPlaced(w: World)
    requires Placed(w)
    ensures Placed(Next(w, Receive))
  {
    var n := Next(w, Receive);
    if w.consumer.Waiting? && w.channel != [] {
      hide Next;
      assert LeavingIsPlaced(n) && ChannelIsPlaced(n);
    }
  }

  lemma StartKeepsPlaced(w: World)
    requires Placed(w)
    ensures Placed(Next(w, Start))
  {
    var n := Next(w, Start);
    assert forall take: nat :: Over(w, take) ==> Over(n, take);
    hide Over, Next;
  }

  lemma FinishKeepsPlaced(w: World, take: nat, outcome: Result<nat, string>)
    requires Placed(w) && Sound(w)
    ensures Placed(Next(w, Finish(take, outcome)))
  {
    var n := Next(w, Finish(take, outcome));
    assert forall t: nat :: Over(w, t) ==> Over(n, t);
    if take in w.recorders {
      assert !Over(w, take) && Over(n, take);
    }
    assert forall r :: r in n.leaving ==> r in w.leaving || (r.take == take && take in w.recorders);
    hide Over, Next, Sound;
  }

  lemma StepKeepsPlaced(w: World, a: Action)
    requires Placed(w) && Sound(w)
    ensures Placed(Next(w, a))
  {
    hide Placed, Next, Sound;
    match a
    case Send(r) => SendKeepsPlaced(w, r);
    case Receive => ReceiveKeepsPlaced(w);
    case Start => StartKeepsPlaced(w);
    case Finish(take, outcome) => FinishKeepsPlaced(w, take, outcome);
    case _ => ConsumerKeepsPlaced(w, a);
  }

  lemma ConsumerKeepsPlaced(w: World, a: Action)
    requires Placed(w) && !a.Send? && !a.Receive? && !a.Start? && !a.Finish?
    ensures Placed(Next(w, a))
  {
    var n := Next(w, a);
    assert n.engine.sequence == w.engine.sequence && n.recorders == w.recorders;
    assert n.leaving == w.leaving && n.channel == w.channel;
    assert n.consumer.Holding? ==> w.consumer.Holding? && n.consumer.recording == w.consumer.recording;
    hide Next;
  }

  lemma StepKeepsSound(w: World, a: Action)
    requires Placed(w) && Sound(w)
    ensures Sound(Next(w, a))
  {
    hide ChannelIsPlaced, LeavingIsPlaced;
    if a.Start? || a.Finish? || a.Send? || a.Receive? {
      RecorderKeepsSound(w, a);
    } else {
      hide ConsumerIsPlaced;
    }
  }

  lemma RecorderKeepsSound(w: World, a: Action)
    requires Placed(w) && Sound(w) && (a.Start? || a.Finish? || a.Send? || a.Receive?)
    ensures Sound(Next(w, a))
  {
  }

  lemma {:induction false} RunIsSound(actions: seq<Action>)
    ensures Sound(Run(actions)) && Placed(Run(actions))
    decreases |actions|
  {
    hide Next, Sound, Placed;
    if actions == [] {
      assert Sound(START) && Placed(START) by { StartIsSound(); }
    } else {
      RunIsSound(actions[..|actions| - 1]);
      StepKeepsPlaced(Run(actions[..|actions| - 1]), actions[|actions| - 1]);
      StepKeepsSound(Run(actions[..|actions| - 1]), actions[|actions| - 1]);
    }
  }

  lemma StartIsSound()
    ensures Sound(START) && Placed(START)
  {
  }

  /** At most one worker records, exactly while the engine is capturing, and it records the newest take. */
  lemma OneRecorder(actions: seq<Action>)
    ensures var w := Run(actions);
            |w.recorders| <= 1
            && (w.engine.inner.Capturing? <==> w.recorders != {})
            && forall t :: t in w.recorders ==> t == w.engine.sequence - 1
  {
    RunIsSound(actions);
    hide Run, Placed;
  }

  function RunFrom(w: World, more: seq<Action>): World
    decreases |more|
  {
    if more == [] then w else RunFrom(Next(w, more[0]), more[1..])
  }

  lemma {:induction false} RunFromKeeps(w: World, more: seq<Action>)
    requires Sound(w) && Placed(w)
    ensures Sound(RunFrom(w, more)) && Placed(RunFrom(w, more))
    ensures RunFrom(w, more).engine.sequence >= w.engine.sequence
    decreases |more|
  {
    hide Sound, Placed;
    if more != [] {
      StepKeepsPlaced(w, more[0]);
      StepKeepsSound(w, more[0]);
      RunFromKeeps(Next(w, more[0]), more[1..]);
    }
  }

  /** The takes the engine carries never go back: a superseded recording is never current again. */
  lemma SupersededNeverReturns(actions: seq<Action>, more: seq<Action>, take: nat)
    requires take + 1 < Run(actions).engine.sequence
    ensures Carried(RunFrom(Run(actions), more).engine) != Some(take)
    ensures forall d :: !IsCurrent(RunFrom(Run(actions), more).engine, Recording(take, d))
  {
    hide Run, RunFrom, Placed;
    RunIsSound(actions);
    RunFromKeeps(Run(actions), more);
  }

  lemma CarriedNeverDecreases(actions: seq<Action>, more: seq<Action>)
    requires Carried(Run(actions).engine).Some? && Carried(RunFrom(Run(actions), more).engine).Some?
    ensures Carried(Run(actions).engine).value <= Carried(RunFrom(Run(actions), more).engine).value
  {
    hide Run, RunFrom, Placed;
    RunIsSound(actions);
    RunFromKeeps(Run(actions), more);
  }

  predicate IsConsumers(a: Action) {
    a.Mark? || a.Check? || a.Settle? || a.Emit? || a.ReportFailure?
  }

  /**
   * The consumer changes the engine only when the engine carries the very take it holds, so a
   * stale transcription never overwrites a newer recording, although settling and reporting a
   * failure do not compare the takes.
   */
  lemma ConsumerTouchesOnlyItsTake(actions: seq<Action>, a: Action)
    requires IsConsumers(a)
    ensures var w := Run(actions);
            Next(w, a).engine != w.engine ==>
            w.consumer.Holding? && Carried(w.engine) == Some(w.consumer.recording.take)
            && w.consumer.recording.take == w.engine.sequence - 1
  {
    hide Run, Placed;
    RunIsSound(actions);
  }

  /** A recording that is current is the newest take, is the one the consumer holds, and nothing is being recorded. */
  lemma CurrentIsNewestAndHeld(actions: seq<Action>, r: Recording)
    requires IsCurrent(Run(actions).engine, r)
    ensures var w := Run(actions);
            r.take == w.engine.sequence - 1 && w.consumer.Holding?
            && w.consumer.recording.take == r.take && w.recorders == {}
  {
    hide Run, Placed;
    RunIsSound(actions);
  }

  /** The backend's answer decides whether the recording goes on to its check or is reported as failed. */
  lemma AnswerDecides(actions: seq<Action>, ok: bool)
    requires At(Run(actions), Working)
    ensures var w, w' := Run(actions), Next(Run(actions), Answer(ok));
            At(w', if ok then Transcribed else Broken) && w'.consumer.recording == w.consumer.recording
            && w'.engine == w.engine
  {
    hide Run;
  }

  /**
   * A failed transcription is reported once: the engine shows the failure exactly when it is still
   * transcribing, which is then this very take, and the consumer is free again.
   */
  lemma FailureIsReported(actions: seq<Action>, overlay: string, detail: string)
    ensures var w, w' := Run(actions), Next(Run(actions), ReportFailure(overlay, detail));
            if At(w, Broken) then
              && w'.consumer.Waiting?
              && w'.engine.inner == (if w.engine.inner.Transcribing? then Failed(Failure(Some(overlay), detail))
                                     else w.engine.inner)
              && (w.engine.inner.Transcribing? ==> w.engine.inner.recording.take == w.consumer.recording.take)
            else w' == w
  {
    hide Run, Placed;
    RunIsSound(actions);
  }

  // ---------- the transcript that is emitted ----------

  /** The step at `k` starts a new recording. */
  predicate StartsAt(actions: seq<Action>, k: int) {
    0 <= k < |actions| && actions[k].Start? && !Run(actions[..k]).engine.inner.Capturing?
  }

  /** The consumer is past its check and has not emitted yet. */
  predicate Owing(w: World) {
    w.consumer.Holding? && (w.consumer.stage.Confirmed? || w.consumer.stage.Settled?)
  }

  /**
   * The step at `c` found the recording current that the consumer still holds, and its transcript is still
   * to be emitted.
   */
  ghost predicate CheckedAt(actions: seq<Action>, c: int) {
    && 0 <= c < |actions| && actions[c].Check?
    && var w := Run(actions);
       Owing(w)
       && (forall k :: c < k <= |actions| ==> HoldsAt(actions, k, w.consumer.recording))
       && At(Run(actions[..c]), Transcribed) && IsCurrent(Run(actions[..c]).engine, w.consumer.recording)
  }

  ghost predicate HoldsAt(actions: seq<Action>, k: int, r: Recording) {
    0 <= k <= |actions| && var w := Run(actions[..k]);
    Owing(w) && w.consumer.recording == r
  }

  ghost predicate NoStartSince(actions: seq<Action>, c: int) {
    forall k :: c < k < |actions| ==> !StartsAt(actions, k)
  }

  lemma RunSnoc(actions: seq<Action>, a: Action)
    ensures Run(actions + [a]) == Next(Run(actions), a)
  {
    assert (actions + [a])[..|actions|] == actions;
  }

  lemma StartsSnoc(actions: seq<Action>, a: Action, k: int)
    requires k < |actions|
    ensures StartsAt(actions + [a], k) <==> StartsAt(actions, k)
  {
    hide Run;
    if 0 <= k {
      assert (actions + [a])[..k] == actions[..k];
    }
  }

  lemma HoldsSnoc(actions: seq<Action>, a: Action, k: int, r: Recording)
    requires k <= |actions|
    ensures HoldsAt(actions + [a], k, r) <==> HoldsAt(actions, k, r)
  {
    hide Run;
    if 0 <= k {
      assert (actions + [a])[..k] == actions[..k];
    }
  }

  lemma OwingKeepsRecording(w: World, a: Action)
    requires Owing(w) && Owing(Next(w, a))
    ensures Next(w, a).consumer.recording == w.consumer.recording
  {
  }

  /** A step leaves a confirmed or settled recording with the consumer unless it emits. */
  lemma CheckSnoc(actions: seq<Action>, a: Action, c: int)
    requires CheckedAt(actions, c) && Owing(Next(Run(actions), a))
    ensures CheckedAt(actions + [a], c)
  {
    hide Run, Next, StartsAt, IsCurrent, HoldsAt;
    var more := actions + [a];
    RunSnoc(actions, a);
    var r := Run(actions).consumer.recording;
    OwingKeepsRecording(Run(actions), a);
    forall k | c < k <= |more| ensures HoldsAt(more, k, r) {
      if k <= |actions| {
        HoldsSnoc(actions, a, k, r);
      } else {
        HoldsLast(more, r);
      }
    }
    assert more[..c] == actions[..c];
  }

  lemma NoStartSnoc(actions: seq<Action>, a: Action, c: int)
    requires 0 <= c < |actions|
    ensures NoStartSince(actions + [a], c) <==> NoStartSince(actions, c) && !StartsAt(actions + [a], |actions|)
  {
    hide StartsAt;
    var more := actions + [a];
    forall k | c < k < |actions| ensures StartsAt(more, k) <==> StartsAt(actions, k) {
      StartsSnoc(actions, a, k);
    }
  }

  lemma CheckIsInRange(actions: seq<Action>, c: int)
    requires CheckedAt(actions, c)
    ensures 0 <= c < |actions|
  {
    hide Run;
  }

  lemma HoldsLast(actions: seq<Action>, r: Recording)
    requires Owing(Run(actions)) && Run(actions).consumer.recording == r
    ensures HoldsAt(actions, |actions|, r)
  {
    assert actions[..|actions|] == actions;
  }

  /** The check itself is where it all begins. */
  lemma CheckBegins(actions: seq<Action>, a: Action)
    requires a.Check? && At(Run(actions), Transcribed)
             && IsCurrent(Run(actions).engine, Run(actions).consumer.recording)
    ensures CheckedAt(actions + [a], |actions|) && NoStartSince(actions + [a], |actions|)
  {
    hide Run, IsCurrent, HoldsAt, StartsAt;
    var more := actions + [a];
    RunSnoc(actions, a);
    assert more[..|actions|] == actions;
    HoldsLast(more, Run(actions).consumer.recording);
  }

  /**
   * A confirmed recording was found current at some step, and is still the newest exactly when nothing
   * started since.
   */
  lemma {:induction false} ConfirmedWasChecked(actions: seq<Action>) returns (c: int)
    requires At(Run(actions), Confirmed) || At(Run(actions), Settled)
    ensures CheckedAt(actions, c)
    ensures var w := Run(actions);
            w.consumer.recording.take == w.engine.sequence - 1 <==> NoStartSince(actions, c)
    decreases |actions|
  {
    hide Run, CheckedAt, NoStartSince, Placed;
    RunAtStart();
    var front, a := actions[..|actions| - 1], actions[|actions| - 1];
    assert front + [a] == actions;
    RunSnoc(front, a);
    RunIsSound(front);
    var w := Run(front);
    if At(w, Transcribed) {
      c := |front|;
      CheckBegins(front, a);
    } else {
      c := ConfirmedWasChecked(front);
      CheckSnoc(front, a, c);
      CheckIsInRange(front, c);
      NoStartSnoc(front, a, c);
      StartMovesOn(front, a);
      HeldIsOld(front);
    }
  }

  lemma RunAtStart()
    ensures Run([]) == START
  {
  }

  lemma StartMovesOn(actions: seq<Action>, a: Action)
    ensures Next(Run(actions), a).engine.sequence ==
              Run(actions).engine.sequence + (if StartsAt(actions + [a], |actions|) then 1 else 0)
  {
    hide Run, StartsAt, Next;
    StartsLast(actions, a);
    OnlyStartNumbers(Run(actions), a);
  }

  lemma StartsLast(actions: seq<Action>, a: Action)
    ensures StartsAt(actions + [a], |actions|) <==> a.Start? && !Run(actions).engine.inner.Capturing?
  {
    hide Run;
    assert (actions + [a])[..|actions|] == actions;
  }

  lemma OnlyStartNumbers(w: World, a: Action)
    ensures Next(w, a).engine.sequence ==
              w.engine.sequence + (if a.Start? && !w.engine.inner.Capturing? then 1 else 0)
  {
  }

  lemma HeldIsOld(actions: seq<Action>)
    ensures Run(actions).consumer.Holding? ==> Run(actions).consumer.recording.take < Run(actions).engine.sequence
  {
    hide Run, Sound;
    RunIsSound(actions);
  }

  /**
   * Every transcript emitted was found current at an earlier check of the same hold. Its take is the
   * newest at the emission exactly when no recording was started since that check, which is exactly
   * when the engine is then idle.
   */
  lemma EmittedIsNewestIff(actions: seq<Action>) returns (c: int)
    requires At(Run(actions), Settled)
    ensures Next(Run(actions), Emit).emitted == Run(actions).emitted + [Run(actions).consumer.recording.take]
    ensures CheckedAt(actions, c)
    ensures var w := Run(actions);
            (w.consumer.recording.take == w.engine.sequence - 1 <==> NoStartSince(actions, c))
            && (w.consumer.recording.take == w.engine.sequence - 1 <==> w.engine.inner.Idle?)
  {
    hide Run, Placed, CheckedAt, NoStartSince;
    RunIsSound(actions);
    c := ConfirmedWasChecked(actions);
  }

  /** The step at `m` reported the recording to the engine after its check. */
  predicate ReportedAt(actions: seq<Action>, m: int) {
    0 <= m < |actions| && actions[m].Settle? && At(Run(actions[..m]), Confirmed)
  }

  lemma ReportedSnoc(actions: seq<Action>, a: Action, m: int)
    requires ReportedAt(actions, m)
    ensures ReportedAt(actions + [a], m)
  {
    hide Run;
    assert (actions + [a])[..m] == actions[..m];
  }

  lemma ReportBegins(actions: seq<Action>)
    requires At(Run(actions), Confirmed)
    ensures ReportedAt(actions + [Settle], |actions|)
  {
    hide Run;
    assert (actions + [Settle])[..|actions|] == actions;
  }

  /** A settled recording was found current by a check and reported to the engine after it. */
  lemma {:induction false} SettledWasReported(actions: seq<Action>) returns (c: int, m: int)
    requires At(Run(actions), Settled)
    ensures c < m && CheckedAt(actions, c) && ReportedAt(actions, m)
    decreases |actions|
  {
    hide Run, CheckedAt, ReportedAt;
    RunAtStart();
    var front, a := actions[..|actions| - 1], actions[|actions| - 1];
    assert front + [a] == actions;
    RunSnoc(front, a);
    if At(Run(front), Confirmed) {
      c := ConfirmedWasChecked(front);
      m := |front|;
      CheckIsInRange(front, c);
      ReportBegins(front);
    } else {
      c, m := SettledWasReported(front);
      ReportedSnoc(front, a, m);
    }
    CheckSnoc(front, a, c);
  }

  lemma EmittersAreSettled(w: World, a: Action)
    ensures Next(w, a).emitted != w.emitted <==> a.Emit? && At(w, Settled)
  {
    assert forall t: nat :: |w.emitted + [t]| == |w.emitted| + 1;
  }

  /**
   * In every run, a step that emits emits the take of the recording in hand, which an earlier check
   * found current and which was reported to the engine between that check and the emission.
   */
  lemma EmittedWasCheckedAndReported(actions: seq<Action>, a: Action) returns (c: int, m: int)
    requires Next(Run(actions), a).emitted != Run(actions).emitted
    ensures At(Run(actions), Settled)
            && Next(Run(actions), a).emitted == Run(actions).emitted + [Run(actions).consumer.recording.take]
    ensures c < m && CheckedAt(actions, c) && ReportedAt(actions, m)
  {
    hide Run, CheckedAt, ReportedAt;
    EmittersAreSettled(Run(actions), a);
    c, m := SettledWasReported(actions);
  }

  /**
   * Check, report and emission are three steps. A recording that starts between them is left alone,
   * but the transcript of the take it superseded is still emitted: `early` starts it before the
   * report to the engine, and otherwise it starts after.
   */
  function LateStart(early: bool): seq<Action> {
    [Start, Finish(0, Ok(1000)), Send(Recording(0, 1000)), Receive] + [Mark, Answer(true), Check]
    + (if early then [Start, Settle, Emit] else [Settle, Start, Emit])
  }

  lemma StaleTranscriptCanEscape(early: bool)
    ensures var w := Run(LateStart(early));
            w.emitted == [0] && w.engine == Engine(Capturing, 2) && w.recorders == {1}
  {
    hide Run, Next;
    var r := Recording(0, 1000);
    var handover := [Start, Finish(0, Ok(1000)), Send(r), Receive];
    var checked := handover + [Mark, Answer(true), Check];
    RunAtStart();
    RunFour([], Start, Finish(0, Ok(1000)), Send(r), Receive);
    assert [] + handover == handover;
    AfterHandover(r);
    RunThree(handover, Mark, Answer(true), Check);
    AfterCheck(Run(handover), r);
    AfterLateStart(Run(checked), r);
    if early {
      RunThree(checked, Start, Settle, Emit);
    } else {
      RunThree(checked, Settle, Start, Emit);
    }
  }

  lemma RunThree(actions: seq<Action>, x: Action, y: Action, z: Action)
    ensures Run(actions + [x, y, z]) == Next(Next(Next(Run(actions), x), y), z)
  {
    hide Next;
    assert actions + [x, y, z] == actions + [x] + [y] + [z];
    RunSnoc(actions + [x] + [y], z);
    RunSnoc(actions + [x], y);
    RunSnoc(actions, x);
  }

  lemma RunFour(actions: seq<Action>, v: Action, x: Action, y: Action, z: Action)
    ensures Run(actions + [v, x, y, z]) == Next(Next(Next(Next(Run(actions), v), x), y), z)
  {
    hide Next;
    assert actions + [v, x, y, z] == actions + [v] + [x, y, z];
    RunThree(actions + [v], x, y, z);
    RunSnoc(actions, v);
  }

  lemma AfterHandover(r: Recording)
    requires r == Recording(0, 1000)
    ensures Next(Next(Next(Next(START, Start), Finish(0, Ok(1000))), Send(r)), Receive) ==
            World(Engine(Ready(r), 1), {}, {}, [], Holding(r, Received), [])
  {
    assert Next(START, Start) == World(Engine(Capturing, 1), {0}, {}, [], Waiting, []);
    var w2 := World(Engine(Ready(r), 1), {}, {r}, [], Waiting, []);
    assert Next(World(Engine(Capturing, 1), {0}, {}, [], Waiting, []), Finish(0, Ok(1000))) == w2;
    assert Next(w2, Send(r)) == World(Engine(Ready(r), 1), {}, {}, [r], Waiting, []);
  }

  lemma AfterCheck(w: World, r: Recording)
    requires w == World(Engine(Ready(r), 1), {}, {}, [], Holding(r, Received), [])
    ensures Next(Next(Next(w, Mark), Answer(true)), Check) ==
            World(Engine(Transcribing(r), 1), {}, {}, [], Holding(r, Confirmed), [])
  {
    var w1 := World(Engine(Transcribing(r), 1), {}, {}, [], Holding(r, Working), []);
    assert Next(w, Mark) == w1;
    assert Next(w1, Answer(true)) == World(Engine(Transcribing(r), 1), {}, {}, [], Holding(r, Transcribed), []);
  }

  lemma AfterLateStart(w: World, r: Recording)
    requires w == World(Engine(Transcribing(r), 1), {}, {}, [], Holding(r, Confirmed), [])
    ensures Next(Next(Next(w, Start), Settle), Emit) == World(Engine(Capturing, 2), {1}, {}, [], Waiting, [r.take])
    ensures Next(Next(Next(w, Settle), Start), Emit) == World(Engine(Capturing, 2), {1}, {}, [], Waiting, [r.take])
  {
    assert Next(w, Start) == World(Engine(Capturing, 2), {1}, {}, [], Holding(r, Confirmed), []);
    assert Next(w, Settle) == World(Engine(Idle, 1), {}, {}, [], Holding(r, Settled), []);
    var late := World(Engine(Capturing, 2), {1}, {}, [], Holding(r, Settled), []);
    assert Next(Next(w, Start), Settle) == late && Next(Next(w, Settle), Start) == late;
  }
}
