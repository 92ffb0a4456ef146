/**
 * What every call of the gate answers and what it leaves behind, in every reachable state: each
 * answer is given exactly under its condition, and the store changes in the fields named and no other.
 */
module ApprovalAnswers {
  import opened Basics
  import opened Gate = ApprovalGate
  import opened ApprovalRuns
  import Prompts = ApprovalPrompts
  import Relabelling = ApprovalRelabelling
  import Safety = ApprovalSafety

  /** The single request is left with this state, latch and reason; nothing else changes. */
  predicate SingleBecomes(s: Store, t: Store, state: EntryState, inFlight: bool, reason: Option<string>) {
    s.current.Some?
    && t == Store(s.nextId, s.nextBatchId,
                  Some(Entry(s.current.value.request, state, s.current.value.expiresAt, inFlight, reason)), s.batch)
  }

  predicate EntryBecomes(e: Entry, f: Entry, state: EntryState, inFlight: bool, reason: Option<string>) {
    f == Entry(e.request, state, e.expiresAt, inFlight, reason)
  }

  /** The batch keeps its name and time, gets this latch, and each step is left as `changed` says; no more changes. */
  ghost predicate BatchBecomes(s: Store, t: Store, inFlight: bool, changed: (Entry, Entry) -> bool) {
    && s.batch.Some? && t.batch.Some?
    && t == s.(batch := t.batch)
    && t.batch.value.id == s.batch.value.id && t.batch.value.title == s.batch.value.title
    && t.batch.value.expiresAt == s.batch.value.expiresAt && t.batch.value.inFlight == inFlight
    && |t.batch.value.entries| == |s.batch.value.entries|
    && forall k :: 0 <= k < |s.batch.value.entries| ==> changed(s.batch.value.entries[k], t.batch.value.entries[k])
  }

  /** Every step of the batch gets this state and keeps its latch and reason. */
  ghost predicate StepsBecome(s: Store, t: Store, inFlight: bool, state: EntryState) {
    BatchBecomes(s, t, inFlight, (e: Entry, f: Entry) => EntryBecomes(e, f, state, e.inFlight, e.reason))
  }

  /** Only the latch of the batch changes. */
  ghost predicate LatchBecomes(s: Store, t: Store, inFlight: bool) {
    BatchBecomes(s, t, inFlight, (e: Entry, f: Entry) => f == e)
  }

  /** Only step `k` of the batch changes, and only its state. */
  ghost predicate StepBecomes(s: Store, t: Store, k: nat, state: EntryState) {
    && s.batch.Some? && k < |s.batch.value.entries| && t.batch.Some?
    && t == s.(batch := t.batch)
    && t.batch.value == s.batch.value.(entries := t.batch.value.entries)
    && |t.batch.value.entries| == |s.batch.value.entries|
    && (forall j :: 0 <= j < |s.batch.value.entries| && j != k ==>
                      t.batch.value.entries[j] == s.batch.value.entries[j])
    && EntryBecomes(s.batch.value.entries[k], t.batch.value.entries[k], state, s.batch.value.entries[k].inFlight,
                    s.batch.value.entries[k].reason)
  }

  // ---------- beginning ----------

  /** The checks a request must pass, each refusal naming the first that fails. */
  predicate Acceptable(r: Request, allowWalletOnly: bool) {
    && 1 <= |r.unsignedXdr| <= 16384
    && r.payloadHash == PayloadHashOfXdr(r.unsignedXdr)
    && (r.mode.TouchId? || allowWalletOnly)
  }

  lemma RefusedBegins(r: Request, allowWalletOnly: bool)
    ensures var v := Validate(r, allowWalletOnly);
            && (v.None? <==> Acceptable(r, allowWalletOnly))
            && (v == Some(EmptyXdr) <==> |r.unsignedXdr| == 0)
            && (v.Some? && v.value.OversizedXdr? <==> |r.unsignedXdr| > 16384)
            && (v.Some? && v.value.OversizedXdr? ==> v.value.bytes == |r.unsignedXdr|)
            && (v == Some(HashMismatch) <==>
                  1 <= |r.unsignedXdr| <= 16384 && r.payloadHash != PayloadHashOfXdr(r.unsignedXdr))
            && (v == Some(WalletOnlyNotAllowed) <==>
                  r.mode.WalletOnly? && !allowWalletOnly && Acceptable(r, true))
  {
    hide PayloadHashOfXdr;
  }

  /** A begin is accepted exactly when its request is, and then that request alone is held, fresh, for 120 seconds. */
  lemma BeginAnswers(s: Store, r: Request, allowWalletOnly: bool, now: nat)
    ensures var (t, reply) := StoreRequest(s, r, allowWalletOnly, now);
            && (reply.Ok? <==> Acceptable(r, allowWalletOnly))
            && (reply.Err? ==> t == s && Validate(r, allowWalletOnly) == Some(reply.error))
            && (reply.Ok? ==>
                  && t.nextId == s.nextId + 1 && t.nextBatchId == s.nextBatchId && t.batch.None? && t.current.Some?
                  && reply.value.request == t.current.value.request
                  && t.current.value ==
                       Entry(Request(s.nextId + 1, r.payloadHash, r.unsignedXdr, r.summary, r.intent, r.mode),
                             Pending, now + 120_000_000_000, false, None))
            && (reply.Ok? ==> forall k :: 0 <= k < |reply.value.superseded| ==>
                                            reply.value.superseded[k].reason == "superseded")
  {
    hide PayloadHashOfXdr, Validate, LiveOf;
    RefusedBegins(r, allowWalletOnly);
  }

  /** A batch is begun exactly when it has one to eight steps, all acceptable; else the first refusal is the answer. */
  lemma BeginBatchAnswers(s: Store, title: string, rs: seq<Request>, now: nat)
    ensures var (t, reply) := BeginBatch(s, title, rs, now);
            && (reply.Ok? <==> 1 <= |rs| <= 8 && forall k :: 0 <= k < |rs| ==> Acceptable(rs[k], false))
            && (reply.Err? ==> t == s)
            && (reply == Err(EmptyBatch) <==> |rs| == 0)
            && (|rs| > 8 ==> reply == Err(BatchTooLarge(|rs|)))
            && (forall k :: RefusedFirst(rs, k) && |rs| <= 8 ==>
                              reply.Err? && Validate(rs[k], false) == Some(reply.error))
            && (reply.Ok? ==>
                  && t.nextId == s.nextId + |rs| && t.nextBatchId == s.nextBatchId + 1
                  && t.current.None? && t.batch.Some?
                  && t.batch.value.id == s.nextBatchId + 1 == reply.value.batchId && t.batch.value.title == title
                  && t.batch.value.expiresAt == now + 120_000_000_000 && !t.batch.value.inFlight
                  && |t.batch.value.entries| == |rs| == |reply.value.ids|
                  && (forall k :: 0 <= k < |rs| ==>
                        reply.value.ids[k] == s.nextId + 1 + k == t.batch.value.entries[k].request.id)
                  && (forall k :: 0 <= k < |rs| ==>
                        IsFreshStep(t.batch.value.entries[k], rs[k], s.nextId + 1 + k, now)))
            && (reply.Ok? ==> forall k :: 0 <= k < |reply.value.superseded| ==>
                                            reply.value.superseded[k].reason == "superseded")
  {
    hide PayloadHashOfXdr, Validate, LiveOf, FirstInvalid, Acceptable;
    FirstRefusal(rs);
  }

  predicate IsFreshStep(e: Entry, r: Request, id: nat, now: nat) {
    e == Entry(Request(id, r.payloadHash, r.unsignedXdr, r.summary, r.intent, r.mode),
               Pending, now + 120_000_000_000, false, None)
  }

  /** Step `k` is the first that is refused. */
  ghost predicate RefusedFirst(rs: seq<Request>, k: int) {
    0 <= k < |rs| && !Acceptable(rs[k], false) && forall j :: 0 <= j < k ==> Acceptable(rs[j], false)
  }

  lemma {:induction false} FirstRefusal(rs: seq<Request>)
    ensures FirstInvalid(rs).None? <==> forall k :: 0 <= k < |rs| ==> Acceptable(rs[k], false)
    ensures forall k :: RefusedFirst(rs, k) ==>
                          FirstInvalid(rs) == Validate(rs[k], false) && FirstInvalid(rs).Some?
    ensures FirstInvalid(rs) != Some(EmptyBatch)
  {
    hide Validate, Acceptable, FirstInvalid;
    if rs == [] {
      NoneRefused();
    } else {
      var front, last := rs[..|rs| - 1], rs[|rs| - 1];
      FirstRefusal(front);
      RefusedBegins(last, false);
      NoEmptyBatch(last);
      FirstInvalidIs(rs);
      FirstInFront(rs);
      hide RefusedFirst;
    }
  }

  /** The first refused step is among the earlier ones, or is the last and they are all acceptable. */
  lemma FirstInFront(rs: seq<Request>)
    requires rs != []
    ensures var front := rs[..|rs| - 1];
            && (forall k :: RefusedFirst(rs, k) ==> RefusedFirst(front, k) || k == |front|)
            && (RefusedFirst(rs, |front|) ==> forall k :: 0 <= k < |front| ==> Acceptable(front[k], false))
            && (RefusedFirst(rs, |front|) ==> !Acceptable(rs[|front|], false))
            && (forall k :: RefusedFirst(front, k) ==> 0 <= k < |front| && front[k] == rs[k])
            && ((forall k :: 0 <= k < |rs| ==> Acceptable(rs[k], false)) <==>
                  (forall k :: 0 <= k < |front| ==> Acceptable(front[k], false)) && Acceptable(rs[|front|], false))
  {
    hide Acceptable;
    var front := rs[..|rs| - 1];
    assert forall k :: 0 <= k < |front| ==> front[k] == rs[k];
  }

  lemma NoneRefused()
    ensures FirstInvalid([]).None?
  {
  }

  lemma FirstInvalidIs(rs: seq<Request>)
    requires rs != []
    ensures var first := FirstInvalid(rs[..|rs| - 1]);
            FirstInvalid(rs) == if first.Some? then first else Validate(rs[|rs| - 1], false)
  {
    hide Validate;
  }

  lemma NoEmptyBatch(r: Request)
    ensures Validate(r, false) != Some(EmptyBatch)
  {
    hide PayloadHashOfXdr;
  }

  // ---------- prompts ----------

  /** A single request can be prompted for exactly when it is held, pending, in time and has no prompt open. */
  lemma PrepareAnswers(s: Store, id: nat, now: nat)
    ensures var (t, reply) := PrepareAuthorize(s, id, now);
            var held := s.current.Some? && s.current.value.request.id == id;
            && (reply == Err(NotFound) <==> !held)
            && (held ==>
                  var e := s.current.value;
                  && (reply.Ok? <==> e.state.Pending? && now < e.expiresAt && !e.inFlight)
                  && (reply == Err(TimedOut) <==> e.state.Pending? && now >= e.expiresAt)
                  && (reply == Err(Busy) <==> e.state.Pending? && now < e.expiresAt && e.inFlight)
                  && (reply == Err(NotPending(e.state)) <==> !e.state.Pending?)
                  && (reply.Ok? ==> SingleBecomes(s, t, Pending, true, e.reason)
                                    && reply.value == Plan(e.request.mode, "Approve " + e.request.summary.title))
                  && (reply == Err(TimedOut) ==> SingleBecomes(s, t, Expired, e.inFlight, e.reason)))
            && (reply.Err? && reply != Err(TimedOut) ==> t == s)
  {
  }

  /** The same for a batch: all steps pending, in time, and no prompt open. */
  lemma PrepareBatchAnswers(actions: seq<Action>, id: nat, now: nat)
    ensures var s := Run(Init(), actions).store;
            var (t, reply) := PrepareBatch(s, id, now);
            var held := s.batch.Some? && s.batch.value.id == id;
            && (reply == Err(NotFound) <==> !held)
            && (held ==>
                  var b := s.batch.value;
                  && (reply.Ok? <==> AllAre(b.entries, Pending) && now < b.expiresAt && !b.inFlight)
                  && (reply == Err(TimedOut) <==> now >= b.expiresAt)
                  && (reply == Err(Busy) <==> AllAre(b.entries, Pending) && now < b.expiresAt && b.inFlight)
                  && (reply == Err(NotPending(BatchState(b, now))) <==>
                        !AllAre(b.entries, Pending) && now < b.expiresAt)
                  && (reply.Ok? ==> LatchBecomes(s, t, true) && reply.value == "Approve " + b.title)
                  && (reply == Err(TimedOut) ==> StepsBecome(s, t, b.inFlight, Expired)))
            && (reply.Err? && reply != Err(TimedOut) ==> t == s)
  {
    hide Run, Init, AnyNotIn, BatchState;
    var s := Run(Init(), actions).store;
    if s.batch.Some? {
      NoneOther(s.batch.value.entries, Pending);
    }
  }

  /**
   * Recording a prompt of a single request answers with what is approved exactly when it is pending
   * and in time, authorizes it exactly when the owner said yes besides, and opens the latch always.
   */
  lemma FinishAnswers(s: Store, id: nat, approved: bool, now: nat)
    ensures var (t, reply) := FinishAuthorize(s, id, approved, now);
            var held := s.current.Some? && s.current.value.request.id == id;
            && (reply == Err(NotFound) <==> !held)
            && (!held ==> t == s)
            && (held ==>
                  var e := s.current.value;
                  && (reply.Ok? <==> e.state.Pending? && now < e.expiresAt)
                  && (reply == Err(TimedOut) <==> e.state.Expired? || now >= e.expiresAt)
                  && (reply == Err(NotPending(e.state)) <==>
                        !e.state.Pending? && !e.state.Expired? && now < e.expiresAt)
                  && (reply.Ok? ==>
                        && SingleBecomes(s, t, if approved then Authorized else Pending, false, e.reason)
                        && reply.value ==
                             Payload(e.request.payloadHash, e.request.unsignedXdr, e.request.summary, e.request.intent))
                  && (reply == Err(TimedOut) ==> SingleBecomes(s, t, Expired, false, e.reason))
                  && (reply == Err(NotPending(e.state)) ==> SingleBecomes(s, t, e.state, false, e.reason)))
  {
  }

  /** The same for a batch, with one receipt a step, in order. */
  lemma FinishBatchAnswers(actions: seq<Action>, id: nat, approved: bool, now: nat)
    ensures var s := Run(Init(), actions).store;
            var (t, reply) := FinishBatch(s, id, approved, now);
            var held := s.batch.Some? && s.batch.value.id == id;
            && (reply == Err(NotFound) <==> !held)
            && (!held ==> t == s)
            && (held ==>
                  var b := s.batch.value;
                  && (reply.Ok? <==> AllAre(b.entries, Pending) && now < b.expiresAt)
                  && (reply == Err(TimedOut) <==> now >= b.expiresAt)
                  && (reply == Err(NotPending(BatchState(b, now))) <==>
                        !AllAre(b.entries, Pending) && now < b.expiresAt)
                  && (reply.Ok? && approved ==> StepsBecome(s, t, false, Authorized))
                  && (reply.Ok? && !approved ==> LatchBecomes(s, t, false))
                  && (reply.Ok? ==>
                        && |reply.value| == |b.entries|
                        && forall k :: 0 <= k < |b.entries| ==>
                                         reply.value[k] == (b.entries[k].request.id, b.entries[k].request.payloadHash))
                  && (reply == Err(TimedOut) ==> StepsBecome(s, t, false, Expired))
                  && (reply == Err(NotPending(BatchState(b, now))) ==> LatchBecomes(s, t, false)))
  {
    hide Run, Init, AnyNotIn, BatchState;
    var s := Run(Init(), actions).store;
    if s.batch.Some? {
      NoneOther(s.batch.value.entries, Pending);
    }
  }

  /** A guard's drop opens its own latch and does nothing else. */
  lemma DropAnswers(s: Store, id: nat)
    ensures var t := DropGuard(s, id);
            if s.current.Some? && s.current.value.request.id == id
            then SingleBecomes(s, t, s.current.value.state, false, s.current.value.reason) else t == s
    ensures var t := DropBatchGuard(s, id);
            if s.batch.Some? && s.batch.value.id == id then LatchBecomes(s, t, false) else t == s
  {
  }

  // ---------- denying, taking, locking ----------

  /** A single request can be denied exactly while it is pending and in time, an open prompt or not. */
  lemma DenyAnswers(actions: seq<Action>, id: nat, now: nat)
    requires Run(Init(), actions).store.batch.None?
    ensures var s := Run(Init(), actions).store;
            var (t, reply) := Deny(s, id, now);
            var held := s.current.Some? && s.current.value.request.id == id;
            && (reply == Err(NotFound) <==> !held)
            && (held ==>
                  var e := s.current.value;
                  && (reply.Ok? <==> e.state.Pending? && now < e.expiresAt)
                  && (reply == Err(TimedOut) <==> e.state.Expired? || now >= e.expiresAt)
                  && (reply == Err(NotPending(e.state)) <==>
                        !e.state.Pending? && !e.state.Expired? && now < e.expiresAt)
                  && (reply.Ok? ==>
                        SingleBecomes(s, t, Denied, false, Some("denied by user"))
                        && reply.value == [e.request.payloadHash])
                  && (reply == Err(TimedOut) ==> SingleBecomes(s, t, Expired, e.inFlight, e.reason)))
            && (reply.Err? && reply != Err(TimedOut) ==> t == s)
  {
    hide Run, Init;
  }

  /** A denial of one step denies the batch exactly while all steps are pending and in time. */
  lemma DenyStepAnswers(actions: seq<Action>, id: nat, now: nat)
    requires Run(Init(), actions).store.batch.Some?
    ensures var s := Run(Init(), actions).store;
            var b, (t, reply) := s.batch.value, Deny(s, id, now);
            var held := exists k :: 0 <= k < |b.entries| && b.entries[k].request.id == id;
            && (reply == Err(NotFound) <==> !held)
            && (held ==>
                  && (reply.Ok? <==> AllAre(b.entries, Pending) && now < b.expiresAt)
                  && (reply == Err(TimedOut) <==> now >= b.expiresAt)
                  && (reply == Err(NotPending(BatchState(b, now))) <==>
                        !AllAre(b.entries, Pending) && now < b.expiresAt)
                  && (reply.Ok? ==>
                        && BatchBecomes(s, t, b.inFlight, (e: Entry, f: Entry) =>
                                        EntryBecomes(e, f, Denied, false, Some("denied by user")))
                        && |reply.value| == |b.entries|
                        && forall k :: 0 <= k < |b.entries| ==> reply.value[k] == b.entries[k].request.payloadHash)
                  && (reply == Err(TimedOut) ==> StepsBecome(s, t, b.inFlight, Expired)))
            && (reply.Err? && reply != Err(TimedOut) ==> t == s)
  {
    hide Run, Init, AnyNotIn, BatchState, IndexOf, SoundLog, SoundEntry, SoundThreads, Uniform;
    Safety.Reachable(actions);
    var s := Run(Init(), actions).store;
    NoneOther(s.batch.value.entries, Pending);
  }

  /** A take of the single request gives its payload exactly when it is authorized and in time, and consumes it. */
  lemma TakeAnswers(actions: seq<Action>, id: nat, now: nat)
    requires Run(Init(), actions).store.batch.None?
    ensures var s := Run(Init(), actions).store;
            var (t, reply) := TakeAuthorized(s, id, now);
            var held := s.current.Some? && s.current.value.request.id == id;
            && (reply == Err(NotFound) <==> !held)
            && (held ==>
                  var e := s.current.value;
                  && (reply.Ok? <==> e.state.Authorized? && now < e.expiresAt)
                  && (reply == Err(TimedOut) <==> e.state.Expired? || now >= e.expiresAt)
                  && (reply == Err(NotAuthorized(e.state)) <==>
                        !e.state.Authorized? && !e.state.Expired? && now < e.expiresAt)
                  && (reply.Ok? ==>
                        && SingleBecomes(s, t, Consumed, e.inFlight, e.reason)
                        && reply.value ==
                             Payload(e.request.payloadHash, e.request.unsignedXdr, e.request.summary, e.request.intent))
                  && (reply == Err(TimedOut) ==> SingleBecomes(s, t, Expired, e.inFlight, e.reason)))
            && (reply.Err? && reply != Err(TimedOut) ==> t == s)
  {
    hide Run, Init;
  }

  /** The same for a step of a batch; the other steps stand. */
  lemma TakeStepAnswers(actions: seq<Action>, k: nat, now: nat)
    requires Run(Init(), actions).store.batch.Some? && k < |Run(Init(), actions).store.batch.value.entries|
    ensures var s := Run(Init(), actions).store;
            var e := s.batch.value.entries[k];
            var (t, reply) := TakeAuthorized(s, e.request.id, now);
            && (reply.Ok? <==> e.state.Authorized? && now < e.expiresAt)
            && (reply == Err(TimedOut) <==> e.state.Expired? || now >= e.expiresAt)
            && (reply == Err(NotAuthorized(e.state)) <==>
                  !e.state.Authorized? && !e.state.Expired? && now < e.expiresAt)
            && (reply.Ok? ==>
                  && StepBecomes(s, t, k, Consumed)
                  && reply.value ==
                       Payload(e.request.payloadHash, e.request.unsignedXdr, e.request.summary, e.request.intent))
            && (reply == Err(TimedOut) ==> StepBecomes(s, t, k, Expired))
            && (reply.Err? && reply != Err(TimedOut) ==> t == s)
  {
    hide Run, Init, IndexOf, SoundLog, SoundEntry, SoundThreads, Uniform;
    Safety.Reachable(actions);
    var s := Run(Init(), actions).store;
    var es := s.batch.value.entries;
    Relabelling.FoundOnce(es, es[k].request.id);
    assert es[k := es[k]] == es;
  }

  /** An id that is not held is not found, by any call. */
  lemma UnknownAnswers(s: Store, id: nat, now: nat)
    requires forall k :: 0 <= k < |Entries(s)| ==> Entries(s)[k].request.id != id
    ensures TakeAuthorized(s, id, now) == (s, Err(NotFound)) && Deny(s, id, now) == (s, Err(NotFound))
    ensures GetStatus(s, id, now) == (s, None) && SnapshotOf(s, id, now) == (s, None)
  {
    NotHeld(s, id);
    hide IndexOf, Entries;
  }

  lemma NotHeld(s: Store, id: nat)
    requires forall k :: 0 <= k < |Entries(s)| ==> Entries(s)[k].request.id != id
    ensures !HoldsSingle(s, id) && !HoldsStep(s, id)
  {
    hide IndexOf;
    if s.current.Some? {
      assert Entries(s)[0] == s.current.value;
    }
    if s.batch.Some? {
      StepsNotHeld(s, id);
    }
  }

  lemma StepsNotHeld(s: Store, id: nat)
    requires s.batch.Some? && forall k :: 0 <= k < |Entries(s)| ==> Entries(s)[k].request.id != id
    ensures forall k :: 0 <= k < |s.batch.value.entries| ==> s.batch.value.entries[k].request.id != id
  {
    var offset := if s.current.Some? then 1 else 0;
    forall k | 0 <= k < |s.batch.value.entries| ensures s.batch.value.entries[k].request.id != id {
      assert Entries(s)[offset + k] == s.batch.value.entries[k];
    }
  }

  /** Locking denies what is live, with its latch open and the lock as reason, and leaves the rest. */
  lemma LockAnswers(s: Store)
    ensures var t := InvalidateForLock(s).0;
            && t.nextId == s.nextId && t.nextBatchId == s.nextBatchId
            && t.current.Some? == s.current.Some? && t.batch.Some? == s.batch.Some?
            && (s.current.Some? ==> LockedFrom(s.current.value, t.current.value))
            && (s.batch.Some? ==>
                  BatchBecomes(s.(current := t.current), t, s.batch.value.inFlight,
                               (e: Entry, f: Entry) => LockedFrom(e, f)))
  {
    hide LiveOf, HashesOf;
    var t := InvalidateForLock(s).0;
    assert s.batch.Some? ==> t == s.(current := t.current).(batch := t.batch);
  }

  predicate LockedFrom(e: Entry, f: Entry) {
    if e.state.Pending? || e.state.Authorized? then EntryBecomes(e, f, Denied, false, Some("wallet locked")) else f == e
  }

  // ---------- what the panel learns ----------

  /** The states of an entry and of a batch as they are shown: what is live is expired once its time has come. */
  function Shown(e: Entry, now: nat): EntryState {
    if (e.state.Pending? || e.state.Authorized?) && now >= e.expiresAt then Expired else e.state
  }

  /** The state derived for a batch of any run. */
  lemma BatchStateIs(actions: seq<Action>, now: nat)
    requires Run(Init(), actions).store.batch.Some?
    ensures var b := Run(Init(), actions).store.batch.value;
            var state := BatchState(b, now);
            var intact := now < b.expiresAt && NoneIs(b.entries, Expired);
            && (state.Expired? <==> !intact)
            && (state.Denied? <==> intact && !NoneIs(b.entries, Denied))
            && (state.Consumed? <==> intact && NoneIs(b.entries, Denied) && !NoneIs(b.entries, Consumed))
            && (state.Authorized? <==> intact && AllAre(b.entries, Authorized))
            && (state.Pending? <==> intact && AllAre(b.entries, Pending))
  {
    hide Run, Init, SoundLog, SoundStore, SoundThreads, AnyIn, AnyNotIn, AnyDue;
    Safety.Reachable(actions);
    var b := Run(Init(), actions).store.batch.value;
    Prompts.AnyDueIs(b, now);
    Prompts.AnyInIs(b.entries, Expired);
    Prompts.AnyInIs(b.entries, Denied);
    Prompts.AnyInIs(b.entries, Consumed);
    NoneOther(b.entries, Authorized);
    assert AllAre(b.entries, Pending) ==> b.entries[0].state.Pending?;
    assert AllAre(b.entries, Authorized) ==> b.entries[0].state.Authorized?;
    if NoneIs(b.entries, Expired) && NoneIs(b.entries, Denied) && NoneIs(b.entries, Consumed) {
      assert NoneIs(b.entries, Pending) ==> AllAre(b.entries, Authorized);
    }
  }

  /** The data of an entry, at most its state brought up to date. */
  predicate Pictures(p: Snapshot, e: Entry, now: nat) {
    p == EntrySnapshot(e.request.id, e.request.payloadHash, e.request.summary, e.request.mode, Shown(e, now),
                       e.expiresAt)
  }

  /** The data of a batch: its state as derived, and each step's id, title and state. */
  ghost predicate PicturesBatch(p: Snapshot, b: Batch, now: nat) {
    && p.BatchSnapshot?
    && p.batchId == b.id && p.title == b.title && p.expiresAt == b.expiresAt && p.state == BatchState(b, now)
    && |p.steps| == |b.entries|
    && forall k :: 0 <= k < |b.entries| ==>
                     p.steps[k] == Step(b.entries[k].request.id, b.entries[k].request.summary.title, b.entries[k].state)
  }

  /** A snapshot of an id shows the data of what holds it, and marks a single request that is overdue. */
  lemma SnapshotAnswers(actions: seq<Action>, id: nat, now: nat)
    ensures var s := Run(Init(), actions).store;
            var (t, p) := SnapshotOf(s, id, now);
            && (s.batch.Some? ==> t == s && (p.Some? ==> PicturesBatch(p.value, s.batch.value, now)))
            && (s.current.Some? && s.current.value.request.id == id ==>
                  && p.Some? && Pictures(p.value, s.current.value, now)
                  && SingleBecomes(s, t, Shown(s.current.value, now), s.current.value.inFlight, s.current.value.reason))
            && (p.Some? <==> exists k :: 0 <= k < |Entries(s)| && Entries(s)[k].request.id == id)
  {
    hide Run, Init, SoundLog, SoundEntry, SoundThreads, Uniform, BatchState, IndexOf;
    Safety.Reachable(actions);
    var s := Run(Init(), actions).store;
    if s.batch.Some? {
      assert Entries(s) == s.batch.value.entries;
    } else if s.current.Some? {
      assert Entries(s)[0] == s.current.value;
    }
  }

  /** What the panel is given without asking for an id is the same picture of what is held. */
  lemma CurrentAnswers(actions: seq<Action>, now: nat)
    ensures var s := Run(Init(), actions).store;
            var (t, p) := Current(s, now);
            && (p.Some? ==> s.batch.Some? || s.current.Some?)
            && (p.Some? && s.batch.Some? ==> PicturesBatch(p.value, s.batch.value, now))
            && (p.Some? && s.batch.None? ==> Pictures(p.value, s.current.value, now))
            && (s.batch.Some? || s.current.None? ==> t == s)
            && (s.batch.None? && s.current.Some? ==>
                  SingleBecomes(s, t, Shown(s.current.value, now), s.current.value.inFlight, s.current.value.reason))
  {
    hide Run, Init, BatchState;
  }

  /** A status is that of the entry held under its id, reason included, and marks the entry when it is overdue. */
  lemma StatusAnswers(actions: seq<Action>, k: nat, now: nat)
    requires k < |Entries(Run(Init(), actions).store)|
    ensures var s := Run(Init(), actions).store;
            var e := Entries(s)[k];
            var (t, status) := GetStatus(s, e.request.id, now);
            && status == Some(Status(e.request.id, Shown(e, now), e.reason))
            && (s.batch.None? ==> SingleBecomes(s, t, Shown(e, now), e.inFlight, e.reason))
            && (s.batch.Some? ==> StepBecomes(s, t, k, Shown(e, now)))
  {
    hide Run, Init, IndexOf, SoundLog, SoundEntry, SoundThreads, Uniform;
    Safety.Reachable(actions);
    var s := Run(Init(), actions).store;
    if s.batch.Some? {
      assert Entries(s) == s.batch.value.entries;
      Relabelling.FoundOnce(s.batch.value.entries, Entries(s)[k].request.id);
    }
  }
}
