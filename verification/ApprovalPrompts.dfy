/**
 * Batches and prompts of the approval gate: what the panel is told about a batch, what one prompt
 * or one denial does to all of its steps, and when two prompts can be open for one request.
 */
module ApprovalPrompts {
  import opened Basics
  import opened Gate = ApprovalGate
  import opened ApprovalRuns
  import Safety = ApprovalSafety

  // ---------- batches ----------

  /** Before its time a batch is pending as a whole or not at all, whatever happened so far. */
  lemma BatchMovesAsOne(actions: seq<Action>)
    requires Run(Init(), actions).store.batch.Some?
    requires Run(Init(), actions).clock < Run(Init(), actions).store.batch.value.expiresAt
    ensures var b := Run(Init(), actions).store.batch.value;
            (AllAre(b.entries, Pending) || NoneIs(b.entries, Pending)) && NoneIs(b.entries, Expired)
            && forall k :: 0 <= k < |b.entries| ==> b.entries[k].expiresAt == b.expiresAt
  {
    hide Run, Init, SoundLog, SoundStore, SoundThreads;
    Safety.Reachable(actions);
  }

  lemma AnyInIs(es: seq<Entry>, state: EntryState)
    ensures AnyIn(es, state) <==> !NoneIs(es, state)
  {
    forall k | 0 <= k < |es| && es[k].state == state ensures AnyIn(es, state) {
      assert es[k] in es;
    }
  }

  lemma AnyDueIs(b: Batch, now: nat)
    requires b.entries != [] && forall k :: 0 <= k < |b.entries| ==> b.entries[k].expiresAt == b.expiresAt
    ensures AnyDue(b.entries, now) <==> now >= b.expiresAt
  {
    assert b.entries[0] in b.entries;
  }

  /** The state shown for a batch is pending, or authorized, exactly when every step is and it is in time. */
  lemma BatchStateIsUnanimous(actions: seq<Action>, now: nat)
    requires Run(Init(), actions).store.batch.Some?
    ensures var b := Run(Init(), actions).store.batch.value;
            && (BatchState(b, now).Pending? <==> AllAre(b.entries, Pending) && now < b.expiresAt)
            && (BatchState(b, now).Authorized? <==> AllAre(b.entries, Authorized) && now < b.expiresAt)
  {
    hide Run, Init, SoundLog, SoundStore, SoundThreads, AnyIn, AnyNotIn, AnyDue;
    Safety.Reachable(actions);
    UniformState(Run(Init(), actions).store, Run(Init(), actions).clock, now);
  }

  lemma UniformState(s: Store, clock: nat, now: nat)
    requires Uniform(s, clock) && s.batch.Some?
    ensures var b := s.batch.value;
            && (BatchState(b, now).Pending? <==> AllAre(b.entries, Pending) && now < b.expiresAt)
            && (BatchState(b, now).Authorized? <==> AllAre(b.entries, Authorized) && now < b.expiresAt)
  {
    hide AnyIn, AnyNotIn, AnyDue;
    var b := s.batch.value;
    AnyDueIs(b, now);
    AnyInIs(b.entries, Expired);
    AnyInIs(b.entries, Denied);
    AnyInIs(b.entries, Consumed);
    NoneOther(b.entries, Authorized);
    assert AllAre(b.entries, Pending) ==> b.entries[0].state.Pending?;
    assert AllAre(b.entries, Authorized) ==> b.entries[0].state.Authorized?;
    if BatchState(b, now).Pending? {
      assert forall k :: 0 <= k < |b.entries| ==> b.entries[k].state.Pending? || b.entries[k].state.Authorized?;
    }
  }

  /** The panel is shown a request exactly when one can still be acted on. */
  lemma PanelShowsTheActionable(actions: seq<Action>, now: nat)
    ensures var s := Run(Init(), actions).store;
            Current(s, now).1.Some? <==>
            || (s.current.Some? && Live(s.current.value.state) && now < s.current.value.expiresAt)
            || (s.batch.Some? && now < s.batch.value.expiresAt
                && (AllAre(s.batch.value.entries, Pending) || AllAre(s.batch.value.entries, Authorized)))
  {
    hide Run, Init, SoundLog, SoundEntry, SoundThreads, Uniform, BatchState, SnapshotOfBatch, AllAre;
    Safety.Reachable(actions);
    var sys := Run(Init(), actions);
    if sys.store.batch.Some? {
      UniformState(sys.store, sys.clock, now);
    }
  }

  lemma FinishIsForAll(s: Store, clock: nat, ok: bool, now: nat)
    requires Uniform(s, clock) && s.batch.Some?
    ensures var b := s.batch.value;
            var c := FinishBatch(s, b.id, ok, now).0.batch.value;
            && (AllAre(c.entries, Authorized) <==>
                  now < b.expiresAt && (AllAre(b.entries, Authorized) || (AllAre(b.entries, Pending) && ok)))
            && (!AllAre(c.entries, Authorized) ==>
                  c.entries == b.entries || (AllAre(c.entries, Expired) && now >= b.expiresAt))
  {
    hide AnyNotIn, BatchState;
    var b := s.batch.value;
    var c := FinishBatch(s, b.id, ok, now).0.batch.value;
    NoneOther(b.entries, Pending);
    assert AllAre(b.entries, Pending) ==> b.entries[0].state.Pending?;
    assert now >= b.expiresAt ==> c.entries[0].state.Expired?;
  }

  /** One answered prompt authorizes every step of its batch, or none of them. */
  lemma OnePromptForAll(actions: seq<Action>, t: nat, now: nat)
    requires var sys := Run(Init(), actions);
             Enabled(sys, Finish(t, now)) && sys.threads[t].key.Group? && sys.store.batch.Some?
             && sys.store.batch.value.id == sys.threads[t].key.batchId
    ensures var sys := Run(Init(), actions);
            var b, c := sys.store.batch.value, NextStore(sys, Finish(t, now)).batch.value;
            && (AllAre(c.entries, Authorized) <==>
                  now < b.expiresAt
                  && (AllAre(b.entries, Authorized) || (AllAre(b.entries, Pending) && sys.threads[t].phase.ok)))
            && (!AllAre(c.entries, Authorized) ==>
                  c.entries == b.entries || (AllAre(c.entries, Expired) && now >= b.expiresAt))
  {
    hide Run, Init, SoundLog, SoundStore, SoundThreads, AnyNotIn, BatchState;
    Safety.Reachable(actions);
    var sys := Run(Init(), actions);
    FinishIsForAll(sys.store, sys.clock, sys.threads[t].phase.ok, now);
  }

  /** One answered prompt authorizes its single request exactly when it was pending, in time and answered yes. */
  lemma OnePromptForOne(actions: seq<Action>, t: nat, now: nat)
    requires var sys := Run(Init(), actions);
             Enabled(sys, Finish(t, now)) && sys.threads[t].key.Single? && HoldsSingle(sys.store, sys.threads[t].key.id)
    ensures var sys := Run(Init(), actions);
            var e, f := sys.store.current.value, NextStore(sys, Finish(t, now)).current.value;
            && (f.state.Authorized? <==>
                  now < e.expiresAt && (e.state.Authorized? || (e.state.Pending? && sys.threads[t].phase.ok)))
            && (f.state != e.state && !f.state.Authorized? ==> f.state.Expired? && now >= e.expiresAt)
  {
    hide Run, Init, AnyNotIn, BatchState;
  }

  /** A status that calls an entry live only while it is live and in time, and otherwise names how it died. */
  predicate Tells(status: Status, e: Entry, now: nat) {
    && status.id == e.request.id
    && (Live(status.state) <==> Live(e.state) && now < e.expiresAt)
    && status.state == (if Live(e.state) && now >= e.expiresAt then Expired else e.state)
  }

  /** A status is given for exactly what the store holds, and it is timely. */
  lemma StatusIsTimely(actions: seq<Action>, id: nat, now: nat)
    ensures var s := Run(Init(), actions).store;
            var status := GetStatus(s, id, now).1;
            && (status.Some? <==> exists k :: 0 <= k < |Entries(s)| && Entries(s)[k].request.id == id)
            && (status.Some? ==> forall k :: 0 <= k < |Entries(s)| && Entries(s)[k].request.id == id ==>
                                               Tells(status.value, Entries(s)[k], now))
  {
    hide Run, Init, SoundLog, SoundEntry, SoundThreads, Uniform, Tells, GetStatus;
    Safety.Reachable(actions);
    var s := Run(Init(), actions).store;
    if s.batch.Some? {
      StatusOfStep(s, id, now);
    } else {
      StatusOfSingle(s, id, now);
    }
  }

  lemma StatusOfSingle(s: Store, id: nat, now: nat)
    requires s.batch.None?
    ensures var status := GetStatus(s, id, now).1;
            && (status.Some? <==> exists k :: 0 <= k < |Entries(s)| && Entries(s)[k].request.id == id)
            && (status.Some? ==> forall k :: 0 <= k < |Entries(s)| && Entries(s)[k].request.id == id ==>
                                               Tells(status.value, Entries(s)[k], now))
  {
    if s.current.Some? {
      assert Entries(s) == [s.current.value];
      assert Entries(s)[0] == s.current.value;
    }
  }

  lemma StatusOfStep(s: Store, id: nat, now: nat)
    requires s.current.None? && s.batch.Some? && DistinctIds(s.batch.value.entries)
    ensures var status := GetStatus(s, id, now).1;
            && (status.Some? <==> exists k :: 0 <= k < |Entries(s)| && Entries(s)[k].request.id == id)
            && (status.Some? ==> forall k :: 0 <= k < |Entries(s)| && Entries(s)[k].request.id == id ==>
                                               Tells(status.value, Entries(s)[k], now))
  {
    hide WithStep, Tells;
    var es := s.batch.value.entries;
    var i := IndexOf(es, id);
    assert Entries(s) == es;
    if i < |es| {
      ExpiredTells(es[i], now);
      assert forall k :: 0 <= k < |es| && es[k].request.id == id ==> k == i;
    }
  }

  lemma ExpiredTells(e: Entry, now: nat)
    ensures Tells(StatusOf(ExpireIfDue(e, now)), e, now)
  {
  }

  /** Denying one step denies the whole batch, or nothing of it. */
  lemma OneDenialForAll(actions: seq<Action>, id: nat, now: nat)
    requires HoldsStep(Run(Init(), actions).store, id)
    ensures var s := Run(Init(), actions).store;
            var b, c := s.batch.value, Deny(s, id, now).0.batch.value;
            && (Deny(s, id, now).1.Ok? <==> AllAre(b.entries, Pending) && now < b.expiresAt)
            && (Deny(s, id, now).1.Ok? ==> AllAre(c.entries, Denied) && Deny(s, id, now).1.value == HashesOf(b.entries))
            && (Deny(s, id, now).1.Err? ==>
                  c.entries == b.entries || (AllAre(c.entries, Expired) && now >= b.expiresAt))
  {
    hide Run, Init, AnyNotIn, BatchState, IndexOf;
    NoneOther(Run(Init(), actions).store.batch.value.entries, Pending);
  }

  // ---------- one prompt at a time ----------

  /** A thread under way for its key: asking, answered (or past its prompt) but not yet recorded, or unwinding. */
  predicate Open(t: Thread) {
    !t.phase.Finished?
  }

  predicate Latched(s: Store, key: Key) {
    if key.Single? then HoldsSingle(s, key.id) && s.current.value.inFlight
    else HoldsBatch(s, key.batchId) && s.batch.value.inFlight
  }

  /** A prompt could be opened for this key if the latch allowed it. */
  ghost predicate Askable(s: Store, key: Key) {
    if key.Single? then HoldsSingle(s, key.id) && s.current.value.state.Pending?
    else HoldsBatch(s, key.batchId) && |s.batch.value.entries| > 0 && AllAre(s.batch.value.entries, Pending)
  }

  ghost predicate OneOpen(sys: Sys) {
    forall t, u :: t in sys.threads && u in sys.threads && t != u && Open(sys.threads[t]) && Open(sys.threads[u]) ==>
      sys.threads[t].key != sys.threads[u].key
  }

  ghost predicate LatchHolds(sys: Sys) {
    forall t :: t in sys.threads && Open(sys.threads[t]) && Askable(sys.store, sys.threads[t].key) ==>
                  Latched(sys.store, sys.threads[t].key)
  }

  ghost predicate Exclusive(sys: Sys) {
    OneOpen(sys) && LatchHolds(sys)
  }

  ghost predicate OpenFor(sys: Sys, key: Key) {
    exists u :: u in sys.threads && Open(sys.threads[u]) && sys.threads[u].key == key
  }

  /**
   * The guard of a finished thread is dropped late: by now another thread is under way for its key,
   * over a request that is still pending.
   */
  ghost predicate Late(sys: Sys, a: Action) {
    a.Drop? && InPhase(sys, a.thread, Finished)
    && Askable(sys.store, sys.threads[a.thread].key) && OpenFor(sys, sys.threads[a.thread].key)
  }

  /** The key whose latch an action may clear. */
  ghost predicate Releases(sys: Sys, a: Action, key: Key)
    requires Enabled(sys, a)
  {
    (a.Exit? || a.Drop? || a.Finish?) && sys.threads[a.thread].key == key
  }

  /**
   * What was not pending is not pending later, and a latch over a pending request is cleared only by its own
   * thread.
   */
  lemma LatchStays(sys: Sys, a: Action, key: Key)
    requires Inv(sys) && Enabled(sys, a) && !Begins(a) && Askable(NextStore(sys, a), key)
    ensures Askable(sys.store, key)
    ensures !Releases(sys, a, key) && Latched(sys.store, key) ==> Latched(NextStore(sys, a), key)
  {
    AskableBefore(sys, a, key);
    hide Inv, AnyNotIn, BatchState, Askable, LiveOf, HashesOf, SnapshotOfBatch, IndexOf;
    if Latched(sys.store, key) && !Releases(sys, a, key) {
      LatchKept(sys, a, key);
    }
  }

  lemma AskableBefore(sys: Sys, a: Action, key: Key)
    requires Inv(sys) && Enabled(sys, a) && !Begins(a) && Askable(NextStore(sys, a), key)
    ensures Askable(sys.store, key)
  {
    hide Inv, NextStore, NowOf, GrantOf;
    StepEvolves(sys, a);
    hide Uniform;
  }

  lemma LatchKept(sys: Sys, a: Action, key: Key)
    requires Enabled(sys, a) && !Begins(a) && Latched(sys.store, key) && !Releases(sys, a, key)
    requires Askable(NextStore(sys, a), key)
    ensures Latched(NextStore(sys, a), key)
  {
    hide AnyNotIn, BatchState, LiveOf, HashesOf, SnapshotOfBatch, WithState, AllDenied, AllLocked;
  }

  lemma OpenedAlone(sys: Sys, a: Action)
    requires Inv(sys) && Exclusive(sys) && Enabled(sys, a) && !Begins(a)
    ensures OneOpen(Next(sys, a))
  {
    hide Inv, NextStore, Emitted, AnyNotIn, BatchState;
    match a
    case Prepare(t, id, _, now) =>
      if PrepareAuthorize(sys.store, id, now).1.Ok? {
        assert Askable(sys.store, Single(id)) && !Latched(sys.store, Single(id));
      }
    case PrepareGroup(t, b, now) =>
      if PrepareBatch(sys.store, b, now).1.Ok? {
        GroupIsAskable(sys, b, now);
      }
    case _ =>
  }

  lemma GroupIsAskable(sys: Sys, batchId: nat, now: nat)
    requires Inv(sys) && PrepareBatch(sys.store, batchId, now).1.Ok?
    ensures Askable(sys.store, Group(batchId)) && !Latched(sys.store, Group(batchId))
    ensures Latched(PrepareBatch(sys.store, batchId, now).0, Group(batchId))
  {
    hide SoundLog, SoundStore, SoundThreads, AnyNotIn, BatchState;
    NoneOther(sys.store.batch.value.entries, Pending);
  }

  /**
   * An open thread of the next state either was open before and keeps its latch, or is the one just
   * prepared and holds the latch, or shares its key with a guard dropped in time.
   */
  lemma ThreadOrigin(sys: Sys, a: Action, t: nat)
    requires Inv(sys) && Exclusive(sys) && Enabled(sys, a) && !Begins(a) && !Late(sys, a)
    requires t in NextThreads(sys, a) && Open(NextThreads(sys, a)[t])
    ensures var key := NextThreads(sys, a)[t].key;
            || (t in sys.threads && sys.threads[t].key == key && Open(sys.threads[t]) && !Releases(sys, a, key))
            || Latched(NextStore(sys, a), key)
            || !Askable(sys.store, key)
  {
    hide Inv, AnyNotIn, BatchState, LatchHolds, FinishKey, DropKey, Deny, GetStatus, SnapshotOf, Current,
        TakeAuthorized, InvalidateForLock, Askable;
    if a.PrepareGroup? && PrepareBatch(sys.store, a.batchId, a.now).1.Ok? {
      GroupIsAskable(sys, a.batchId, a.now);
    }
  }

  lemma LatchFollows(sys: Sys, a: Action)
    requires Inv(sys) && Exclusive(sys) && Enabled(sys, a) && !Begins(a) && !Late(sys, a)
    ensures LatchHolds(Next(sys, a))
  {
    hide Inv, NextStore, NextThreads, Emitted, Askable, Latched, Releases, OneOpen, Late;
    var next := Next(sys, a);
    forall t | t in next.threads && Open(next.threads[t]) && Askable(next.store, next.threads[t].key)
      ensures Latched(next.store, next.threads[t].key)
    {
      ThreadOrigin(sys, a, t);
      LatchStays(sys, a, next.threads[t].key);
    }
  }

  lemma BeginKeepsExclusive(sys: Sys, a: Action)
    requires Inv(sys) && Exclusive(sys) && Enabled(sys, a) && Begins(a)
    ensures Exclusive(Next(sys, a))
  {
    hide SoundLog, SoundStore, Uniform, LiveOf, Validate, FirstInvalid, Emitted;
    var next := Next(sys, a);
    forall t | t in sys.threads ensures Askable(next.store, sys.threads[t].key) ==> next.store == sys.store {
      assert SoundThread(sys.log, sys.store, sys.threads[t]);
    }
  }

  lemma StepKeepsExclusive(sys: Sys, a: Action)
    requires Inv(sys) && Exclusive(sys) && !Late(sys, a)
    ensures Exclusive(Next(sys, a))
  {
    hide Inv, NextStore, NextThreads, Emitted, OneOpen, LatchHolds, Late;
    if Enabled(sys, a) {
      if Begins(a) {
        BeginKeepsExclusive(sys, a);
      } else {
        OpenedAlone(sys, a);
        LatchFollows(sys, a);
      }
    }
  }

  /** No guard of the run is dropped late. */
  ghost predicate DropsInTime(actions: seq<Action>) {
    forall k :: 0 <= k < |actions| ==> !LateAt(actions, k)
  }

  ghost predicate LateAt(actions: seq<Action>, k: nat)
    requires k < |actions|
  {
    Late(Run(Init(), actions[..k]), actions[k])
  }

  lemma DropsInTimeFront(actions: seq<Action>)
    requires actions != [] && DropsInTime(actions)
    ensures DropsInTime(actions[..|actions| - 1])
            && !Late(Run(Init(), actions[..|actions| - 1]), actions[|actions| - 1])
  {
    hide Late, Run, Init;
    var front := actions[..|actions| - 1];
    forall k | 0 <= k < |front| ensures !LateAt(front, k) {
      assert front[..k] == actions[..k];
      assert !LateAt(actions, k);
    }
    assert !LateAt(actions, |front|);
  }

  lemma {:induction false} RunKeepsExclusive(actions: seq<Action>)
    requires DropsInTime(actions)
    ensures Exclusive(Run(Init(), actions))
    decreases |actions|
  {
    hide Inv, Exclusive, Next, DropsInTime, Late, Run;
    if actions == [] {
      NothingIsOpen();
    } else {
      var front, a := actions[..|actions| - 1], actions[|actions| - 1];
      DropsInTimeFront(actions);
      RunKeepsExclusive(front);
      Safety.Reachable(front);
      StepKeepsExclusive(Run(Init(), front), a);
      RunSnoc(Init(), front, a);
      assert front + [a] == actions;
    }
  }

  lemma NothingIsOpen()
    ensures Exclusive(Run(Init(), []))
  {
  }

  /**
   * In every run in which no finished thread drops its guard late, no request and no batch ever has
   * two threads under way, let alone two prompts. Prompting, answering, finishing and dropping are
   * steps of their own, a thread may panic, and any other thread may act in between.
   */
  lemma PromptsAreExclusive(actions: seq<Action>)
    requires DropsInTime(actions)
    ensures OneOpen(Run(Init(), actions))
  {
    hide Run, Inv, LatchHolds, OneOpen, DropsInTime;
    RunKeepsExclusive(actions);
  }

  /** A thread asks for a prompt of this key. */
  function AskFor(thread: nat, key: Key, now: nat): Action {
    if key.Single? then Prepare(thread, key.id, Webview, now) else PrepareGroup(thread, key.batchId, now)
  }

  predicate InTime(s: Store, key: Key, now: nat) {
    if key.Single? then HoldsSingle(s, key.id) ==> now < s.current.value.expiresAt
    else HoldsBatch(s, key.batchId) ==> now < s.batch.value.expiresAt
  }

  /** The owner is asked for this key; a wallet-only request has no prompt. */
  predicate AsksOwner(s: Store, key: Key) {
    key.Group? || (HoldsSingle(s, key.id) && s.current.value.request.mode.TouchId?)
  }

  /** The thread prompts while another is under way for the same key. */
  ghost predicate SecondPrompt(sys: Sys, u: nat) {
    InPhase(sys, u, Prompting)
    && exists v :: v in sys.threads && v != u && Open(sys.threads[v]) && sys.threads[v].key == sys.threads[u].key
  }

  /**
   * The condition is exact: once a finished thread drops its guard, the next thread to ask for its
   * key before the deadline gets under way beside another if and only if the drop was late, and it
   * then opens a second prompt if and only if the owner is asked at all.
   */
  lemma SecondPromptIffLate(actions: seq<Action>, t: nat, u: nat)
    requires DropsInTime(actions)
    requires var sys := Run(Init(), actions);
             InPhase(sys, t, Finished) && u !in sys.threads && InTime(sys.store, sys.threads[t].key, sys.clock)
    ensures var sys := Run(Init(), actions);
            var after := Next(Next(sys, Drop(t)), AskFor(u, sys.threads[t].key, sys.clock));
            && (OneOpen(after) <==> !Late(sys, Drop(t)))
            && (SecondPrompt(after, u) <==> Late(sys, Drop(t)) && AsksOwner(sys.store, sys.threads[t].key))
  {
    hide Run, Inv, OneOpen, LatchHolds, DropsInTime, Next, Late, SecondPrompt, AsksOwner;
    var sys := Run(Init(), actions);
    PromptsTheOwner(sys, t, u);
    RunKeepsExclusive(actions);
    Safety.Reachable(actions);
    StepKeepsInv(sys, Drop(t));
    if Late(sys, Drop(t)) {
      LateDropLetsAnotherIn(sys, t, u);
    } else {
      StepKeepsExclusive(sys, Drop(t));
      AskingIsNeverLate(Next(sys, Drop(t)), u, sys.threads[t].key, sys.clock);
      StepKeepsExclusive(Next(sys, Drop(t)), AskFor(u, sys.threads[t].key, sys.clock));
      OneOpenHasNoSecond(Next(Next(sys, Drop(t)), AskFor(u, sys.threads[t].key, sys.clock)), u);
    }
  }

  lemma OneOpenHasNoSecond(sys: Sys, u: nat)
    requires OneOpen(sys)
    ensures !SecondPrompt(sys, u)
  {
  }

  /** A thread that asks and then prompts asked for a key the owner is asked about. */
  lemma PromptsTheOwner(sys: Sys, t: nat, u: nat)
    requires InPhase(sys, t, Finished) && u !in sys.threads
    ensures SecondPrompt(Next(Next(sys, Drop(t)), AskFor(u, sys.threads[t].key, sys.clock)), u) ==>
              AsksOwner(sys.store, sys.threads[t].key)
  {
    hide Emitted, PrepareBatch;
  }

  lemma AskingIsNeverLate(sys: Sys, u: nat, key: Key, now: nat)
    ensures !Late(sys, AskFor(u, key, now))
  {
  }

  lemma LateDropLetsAnotherIn(sys: Sys, t: nat, u: nat)
    requires Inv(sys) && Late(sys, Drop(t)) && u !in sys.threads && InTime(sys.store, sys.threads[t].key, sys.clock)
    ensures var after := Next(Next(sys, Drop(t)), AskFor(u, sys.threads[t].key, sys.clock));
            !OneOpen(after) && (AsksOwner(sys.store, sys.threads[t].key) ==> SecondPrompt(after, u))
  {
    hide Inv, Emitted, AnyNotIn, BatchState;
    var key := sys.threads[t].key;
    var dropped := Next(sys, Drop(t));
    var asked := Next(dropped, AskFor(u, key, sys.clock));
    var v :| v in sys.threads && Open(sys.threads[v]) && sys.threads[v].key == key;
    assert v != t && v in dropped.threads;
    if key.Group? {
      NoneOther(sys.store.batch.value.entries, Pending);
    }
    assert Open(asked.threads[v]) && asked.threads[v].key == key;
    assert u in asked.threads && Open(asked.threads[u]) && asked.threads[u].key == key;
  }

  /** Threads that finish and drop in one step are never late. */
  lemma {:induction false} LeavingAtOnceIsInTime(actions: seq<Action>)
    requires forall k :: 0 <= k < |actions| ==> !actions[k].Finish?
    ensures DropsInTime(actions)
  {
    hide Run, Init;
    forall k | 0 <= k < |actions| ensures !LateAt(actions, k) {
      NoneIsFinished(actions[..k]);
    }
  }

  lemma {:induction false} NoneIsFinished(actions: seq<Action>)
    requires forall k :: 0 <= k < |actions| ==> !actions[k].Finish?
    ensures forall t :: !InPhase(Run(Init(), actions), t, Finished)
    decreases |actions|
  {
    hide Run, Next;
    if actions == [] {
      EmptyRun();
    } else {
      var front, a := actions[..|actions| - 1], actions[|actions| - 1];
      NoneIsFinished(front);
      RunSnoc(Init(), front, a);
      assert front + [a] == actions;
      StepFinishesNone(Run(Init(), front), a);
    }
  }

  lemma StepFinishesNone(sys: Sys, a: Action)
    requires !a.Finish? && forall t :: !InPhase(sys, t, Finished)
    ensures forall t :: !InPhase(Next(sys, a), t, Finished)
  {
    hide NextStore, Emitted;
    forall t ensures !InPhase(Next(sys, a), t, Finished) {
      assert !InPhase(sys, t, Finished);
    }
  }

  lemma EmptyRun()
    ensures Run(Init(), []) == Init()
  {
  }

  /** With a drop of its own, a finished thread clears a latch that may be another's by then. */
  lemma DropKeepsLatchIff(sys: Sys, t: nat)
    requires LatchHolds(sys) && InPhase(sys, t, Finished)
    ensures var key := sys.threads[t].key;
            LatchHolds(Next(sys, Drop(t))) <==>
            !(Askable(sys.store, key)
              && exists u :: u in sys.threads && Open(sys.threads[u]) && sys.threads[u].key == key)
  {
    var key, next := sys.threads[t].key, Next(sys, Drop(t));
    assert !Latched(next.store, key);
    assert Askable(next.store, key) <==> Askable(sys.store, key);
    forall u | u in sys.threads && Open(sys.threads[u]) && sys.threads[u].key == key ensures u in next.threads {
    }
    forall other: Key | other != key
      ensures Askable(next.store, other) == Askable(sys.store, other)
              && Latched(next.store, other) == Latched(sys.store, other) {
    }
  }

  /** The interleaving that opens two prompts for one request asked of the owner. */
  function TwoPrompts(r: Request): seq<Action> {
    [Begin(r, 0), Prepare(0, 1, Webview, 0), Answer(0, false), Finish(0, 0)] +
    [Prepare(1, 1, Webview, 0), Drop(0), Prepare(2, 1, Webview, 0)]
  }

  lemma TwoPromptsOpen(r: Request)
    requires Validate(r, false).None? && r.mode.TouchId?
    ensures var sys := Run(Init(), TwoPrompts(r));
            InPhase(sys, 1, Prompting) && InPhase(sys, 2, Prompting) && sys.threads[1].key == sys.threads[2].key
  {
    hide Validate, Next, Run;
    var a := TwoPrompts(r);
    RunOfSeven(Init(), a);
    AfterFailedPrompt(r);
    AfterStaleDrop(Next(Next(Next(Next(Init(), a[0]), a[1]), a[2]), a[3]), NewEntry(r, 1, 0));
  }

  lemma AfterFailedPrompt(r: Request)
    requires Validate(r, false).None? && r.mode.TouchId?
    ensures var a := TwoPrompts(r);
            var sys := Next(Next(Next(Next(Init(), a[0]), a[1]), a[2]), a[3]);
            sys.store == Store(1, 0, Some(NewEntry(r, 1, 0)), None)
            && sys.threads == map[0 := Thread(Single(1), Finished)]
  {
    hide Validate, LiveOf, Emitted;
    var s1 := Next(Init(), Begin(r, 0));
    var s2 := Next(s1, Prepare(0, 1, Webview, 0));
    assert s2.threads == map[0 := Thread(Single(1), Prompting)];
    var s3 := Next(s2, Answer(0, false));
    assert s3.threads == map[0 := Thread(Single(1), Answered(false))];
  }

  lemma AfterStaleDrop(sys: Sys, e: Entry)
    requires sys.store == Store(1, 0, Some(e), None) && sys.threads == map[0 := Thread(Single(1), Finished)]
    requires e.request.id == 1 && e.state.Pending? && !e.inFlight && e.expiresAt > 0 && e.request.mode.TouchId?
    ensures var last := Next(Next(Next(sys, Prepare(1, 1, Webview, 0)), Drop(0)), Prepare(2, 1, Webview, 0));
            InPhase(last, 1, Prompting) && InPhase(last, 2, Prompting) && last.threads[1].key == last.threads[2].key
  {
    hide Emitted;
    var s5 := Next(sys, Prepare(1, 1, Webview, 0));
    assert s5.store.current == Some(e.(inFlight := true));
    var s6 := Next(s5, Drop(0));
    assert s6.store.current == Some(e);
  }

  lemma RunOfSeven(sys: Sys, a: seq<Action>)
    requires |a| == 7
    ensures Run(sys, a) == Next(Next(Next(Next(Next(Next(Next(sys, a[0]), a[1]), a[2]), a[3]), a[4]), a[5]), a[6])
  {
    hide Next;
    var s1 := Next(sys, a[0]);
    var s2 := Next(s1, a[1]);
    var s3 := Next(s2, a[2]);
    assert Run(sys, a) == Run(s1, a[1..]);
    assert Run(s1, a[1..]) == Run(s2, a[1..][1..]) && a[1..][1..] == a[2..];
    assert Run(s2, a[2..]) == Run(s3, a[2..][1..]) && a[2..][1..] == a[3..];
    var s4 := Next(s3, a[3]);
    assert Run(s3, a[3..]) == Run(s4, a[3..][1..]) && a[3..][1..] == a[4..];
    var s5 := Next(s4, a[4]);
    assert Run(s4, a[4..]) == Run(s5, a[4..][1..]) && a[4..][1..] == a[5..];
    var s6 := Next(s5, a[5]);
    assert Run(s5, a[5..]) == Run(s6, a[5..][1..]) && a[5..][1..] == a[6..];
    assert Run(s6, a[6..]) == Run(Next(s6, a[6]), a[6..][1..]) && a[6..][1..] == [];
  }
}
