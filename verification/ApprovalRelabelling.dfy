/**
 * What can still happen to a request that was denied, expired or consumed: the set of dead states
 * is closed, but a late call may relabel a denied or consumed request as expired.
 */
module ApprovalRelabelling {
  import opened Basics
  import opened Gate = ApprovalGate
  import opened ApprovalRuns
  import Safety = ApprovalSafety

  /**
   * {Denied, Expired, Consumed} is closed under every step, and the one change inside it is to
   * `Expired`, by a call at or after the request's time.
   */
  lemma DeadSetIsClosed(sys: Sys, a: Action, k: nat)
    requires Inv(sys) && Enabled(sys, a) && !Begins(a) && k < |Entries(sys.store)| && !Live(Entries(sys.store)[k].state)
    ensures k < |Entries(NextStore(sys, a))|
    ensures var e, f := Entries(sys.store)[k], Entries(NextStore(sys, a))[k];
            f.request == e.request && !Live(f.state) &&
            (f.state != e.state ==> f.state.Expired? && NowOf(sys, a) >= e.expiresAt)
  {
    hide Inv, NextStore, NowOf, GrantOf, Evolution, Uniform, Entries;
    StepEvolves(sys, a);
    Safety.EntriesEvolve(sys.store, NextStore(sys, a), NowOf(sys, a), GrantOf(sys, a));
  }

  // ---------- which calls relabel ----------

  /** The prompt an entry of the store is authorized by. */
  function EntryKey(s: Store, k: nat): Key
    requires k < |Entries(s)|
  {
    KeyOf(Entries(s)[k].request.id, if s.batch.Some? then Some(s.batch.value.id) else None)
  }

  /** The call reaches the entry: it settles its prompt, opens its batch, denies it or its batch, or takes it. */
  predicate Reaches(sys: Sys, a: Action, k: nat)
    requires Enabled(sys, a) && k < |Entries(sys.store)|
  {
    match a
    case Finish(t, _) => sys.threads[t].key == EntryKey(sys.store, k)
    case Exit(t, _) => sys.threads[t].key == EntryKey(sys.store, k)
    case PrepareGroup(_, b, _) => Group(b) == EntryKey(sys.store, k)
    case DenyOne(id, _) => Entries(sys.store)[k].request.id == id || HoldsStep(sys.store, id)
    case Take(id, _) => Entries(sys.store)[k].request.id == id
    case _ => false
  }

  /** The entry is not marked expired although its time has come. */
  predicate Overdue(e: Entry, now: nat) {
    !e.state.Expired? && now >= e.expiresAt
  }

  predicate Changes(s: Store, t: Store, k: nat) {
    k < |Entries(s)| && k < |Entries(t)| && Entries(t)[k].state != Entries(s)[k].state
  }

  /** One slot is filled, its ids differ, and the steps of a batch share its time. */
  ghost predicate Tidy(s: Store) {
    && (s.current.None? || s.batch.None?)
    && DistinctIds(Entries(s))
    && (s.batch.Some? ==>
          var b := s.batch.value;
          forall k :: 0 <= k < |b.entries| ==> b.entries[k].expiresAt == b.expiresAt)
  }

  /**
   * In every reachable state, a step changes the state of a dead request exactly when the request is
   * overdue and not yet marked, and the step is a call that reaches it. No other call relabels.
   */
  lemma RelabelledExactlyWhenOverdue(sys: Sys, a: Action, k: nat)
    requires Inv(sys) && Enabled(sys, a) && !Begins(a) && k < |Entries(sys.store)| && !Live(Entries(sys.store)[k].state)
    ensures Changes(sys.store, NextStore(sys, a), k) <==>
              Overdue(Entries(sys.store)[k], NowOf(sys, a)) && Reaches(sys, a, k)
  {
    hide Inv, Tidy, Changes, Entries, Overdue, EntryKey, HoldsStep;
    var s := sys.store;
    InvIsTidy(sys);
    match a
    case Prepare(_, id, _, now) => PrepareRelabelsNone(s, id, now, k);
    case PrepareGroup(_, b, now) => PrepareBatchRelabels(s, b, now, k);
    case Finish(t, now) => FinishRelabels(s, sys.threads[t].key, sys.threads[t].phase.ok, now, k);
    case Drop(t) => DropRelabelsNone(s, sys.threads[t].key, k);
    case Exit(t, now) => ExitRelabels(s, sys.threads[t].key, sys.threads[t].phase.ok, now, k);
    case DenyOne(id, now) => DenyRelabels(s, id, now, k);
    case AskStatus(id, now) => AskingRelabelsNone(s, id, now, k);
    case AskSnapshot(id, now) => AskingRelabelsNone(s, id, now, k);
    case AskCurrent(now) => AskingRelabelsNone(s, 0, now, k);
    case Take(id, now) => TakeRelabels(s, id, now, k);
    case Lock => LockRelabelsNone(s, k);
    case _ => SameStore(s, k);
  }

  lemma InvIsTidy(sys: Sys)
    requires Inv(sys)
    ensures Tidy(sys.store)
  {
    hide SoundEntry, SoundLog, SoundThreads;
  }

  lemma SameStore(s: Store, k: nat)
    ensures !Changes(s, s, k)
  {
  }

  lemma PrepareRelabelsNone(s: Store, id: nat, now: nat, k: nat)
    requires Tidy(s) && k < |Entries(s)| && !Live(Entries(s)[k].state)
    ensures !Changes(s, PrepareAuthorize(s, id, now).0, k)
  {
  }

  lemma PrepareBatchRelabels(s: Store, b: nat, now: nat, k: nat)
    requires Tidy(s) && k < |Entries(s)| && !Live(Entries(s)[k].state)
    ensures Changes(s, PrepareBatch(s, b, now).0, k) <==> Overdue(Entries(s)[k], now) && Group(b) == EntryKey(s, k)
  {
    hide AnyNotIn, BatchState;
  }

  lemma FinishRelabels(s: Store, key: Key, ok: bool, now: nat, k: nat)
    requires Tidy(s) && k < |Entries(s)| && !Live(Entries(s)[k].state)
    ensures Changes(s, FinishKey(s, key, ok, now), k) <==> Overdue(Entries(s)[k], now) && key == EntryKey(s, k)
  {
    if key.Single? {
      hide FinishBatch;
    } else {
      FinishBatchRelabels(s, key.batchId, ok, now, k);
      hide FinishBatch, FinishAuthorize;
    }
  }

  lemma FinishBatchRelabels(s: Store, b: nat, ok: bool, now: nat, k: nat)
    requires Tidy(s) && k < |Entries(s)| && !Live(Entries(s)[k].state)
    ensures Changes(s, FinishBatch(s, b, ok, now).0, k) <==> Overdue(Entries(s)[k], now) && Group(b) == EntryKey(s, k)
  {
    hide BatchState;
    if s.batch.Some? {
      NoneOther(s.batch.value.entries, Pending);
      hide AnyNotIn;
    }
  }

  lemma DropRelabelsNone(s: Store, key: Key, k: nat)
    ensures !Changes(s, DropKey(s, key), k) && |Entries(DropKey(s, key))| == |Entries(s)|
    ensures k < |Entries(s)| ==> Entries(DropKey(s, key))[k].state == Entries(s)[k].state
  {
  }

  lemma ExitRelabels(s: Store, key: Key, ok: bool, now: nat, k: nat)
    requires Tidy(s) && k < |Entries(s)| && !Live(Entries(s)[k].state)
    ensures Changes(s, DropKey(FinishKey(s, key, ok, now), key), k) <==>
              Overdue(Entries(s)[k], now) && key == EntryKey(s, k)
  {
    hide Tidy, FinishKey, DropKey, Entries;
    FinishRelabels(s, key, ok, now, k);
    DropRelabelsNone(FinishKey(s, key, ok, now), key, k);
  }

  lemma DenyRelabels(s: Store, id: nat, now: nat, k: nat)
    requires Tidy(s) && k < |Entries(s)| && !Live(Entries(s)[k].state)
    ensures Changes(s, Deny(s, id, now).0, k) <==>
              Overdue(Entries(s)[k], now) && (Entries(s)[k].request.id == id || HoldsStep(s, id))
  {
    hide BatchState, IndexOf;
    if s.batch.Some? {
      StepIsHeld(s, k);
      NoneOther(s.batch.value.entries, Pending);
      hide AnyNotIn;
    }
  }

  /** The id of a step of the batch is found. */
  lemma StepIsHeld(s: Store, k: nat)
    requires s.batch.Some? && s.current.None? && k < |Entries(s)|
    ensures HoldsStep(s, Entries(s)[k].request.id)
  {
  }

  lemma TakeRelabels(s: Store, id: nat, now: nat, k: nat)
    requires Tidy(s) && k < |Entries(s)| && !Live(Entries(s)[k].state)
    ensures Changes(s, TakeAuthorized(s, id, now).0, k) <==>
              Overdue(Entries(s)[k], now) && Entries(s)[k].request.id == id
  {
    if s.batch.Some? {
      BatchOnly(s);
      TakenStepRelabels(s, id, now, k);
      BatchOnly(TakeAuthorized(s, id, now).0);
      hide Entries, TakeAuthorized, DistinctIds;
    } else {
      TakenSingleRelabels(s, id, now);
      hide TakeAuthorized;
    }
  }

  lemma BatchOnly(s: Store)
    requires s.current.None? && s.batch.Some?
    ensures Entries(s) == s.batch.value.entries
  {
  }

  lemma TakenSingleRelabels(s: Store, id: nat, now: nat)
    requires s.current.Some? && s.batch.None? && !Live(s.current.value.state)
    ensures var t, e := TakeAuthorized(s, id, now).0, s.current.value;
            && t.current.Some? && t.batch.None?
            && (t.current.value.state != e.state <==> Overdue(e, now) && e.request.id == id)
  {
    hide IndexOf;
  }

  lemma TakenStepRelabels(s: Store, id: nat, now: nat, k: nat)
    requires s.current.None? && s.batch.Some? && DistinctIds(s.batch.value.entries)
    requires k < |s.batch.value.entries| && !Live(s.batch.value.entries[k].state)
    ensures var t, e := TakeAuthorized(s, id, now).0, s.batch.value.entries[k];
            && t.current.None? && t.batch.Some? && |t.batch.value.entries| == |s.batch.value.entries|
            && (t.batch.value.entries[k].state != e.state <==> Overdue(e, now) && e.request.id == id)
  {
    hide IndexOf, DistinctIds;
    FoundOnce(s.batch.value.entries, id);
  }

  lemma FoundOnce(es: seq<Entry>, id: nat)
    requires DistinctIds(es)
    ensures forall k :: 0 <= k < |es| && es[k].request.id == id ==> IndexOf(es, id) == k
  {
  }

  lemma AskingRelabelsNone(s: Store, id: nat, now: nat, k: nat)
    requires k < |Entries(s)| && !Live(Entries(s)[k].state)
    ensures !Changes(s, GetStatus(s, id, now).0, k)
    ensures !Changes(s, SnapshotOf(s, id, now).0, k)
    ensures !Changes(s, Current(s, now).0, k)
  {
    hide SnapshotOfBatch, BatchState, IndexOf;
  }

  lemma LockRelabelsNone(s: Store, k: nat)
    requires k < |Entries(s)| && !Live(Entries(s)[k].state)
    ensures !Changes(s, InvalidateForLock(s).0, k)
  {
    hide LiveOf, HashesOf;
  }

  // ---------- a run that relabels ----------

  /** A request is denied, and denied again when its time is up. */
  function DeniedTwice(r: Request): seq<Action> {
    [Begin(r, 0), DenyOne(1, 0), Tick(APPROVAL_TTL), DenyOne(1, APPROVAL_TTL)]
  }

  lemma DeniedBecomesExpired(r: Request)
    requires Validate(r, false).None?
    ensures var before, after := Run(Init(), DeniedTwice(r)[..3]).store, Run(Init(), DeniedTwice(r)).store;
            && |Entries(before)| == 1 && Entries(before)[0].request.id == 1 && Entries(before)[0].state.Denied?
            && |Entries(after)| == 1 && Entries(after)[0].request.id == 1 && Entries(after)[0].state.Expired?
  {
    hide Run, Next, Validate;
    var a := DeniedTwice(r);
    var begun := Next(Init(), a[0]);
    var denied := Next(begun, a[1]);
    RunOfNone();
    RunSnoc(Init(), [], a[0]);
    RunSnoc(Init(), [a[0]], a[1]);
    RunSnoc(Init(), [a[0], a[1]], a[2]);
    RunSnoc(Init(), [a[0], a[1], a[2]], a[3]);
    assert [] + [a[0]] == [a[0]] && [a[0]] + [a[1]] == [a[0], a[1]];
    assert [a[0], a[1]] + [a[2]] == a[..3] && a[..3] + [a[3]] == a;
    assert a[..3] == [a[0], a[1], a[2]];
    BegunAlone(r);
    DeniedWhenDenied(begun, r);
    ExpiredWhenLate(denied);
  }

  lemma RunOfNone()
    ensures Run(Init(), []) == Init()
  {
  }

  lemma BegunAlone(r: Request)
    requires Validate(r, false).None?
    ensures var sys := Next(Init(), Begin(r, 0));
            sys.clock == 0 && sys.store == Store(1, 0, Some(NewEntry(r, 1, 0)), None)
  {
    hide Validate, Emitted;
  }

  lemma DeniedWhenDenied(sys: Sys, r: Request)
    requires sys.clock == 0 && sys.store == Store(1, 0, Some(NewEntry(r, 1, 0)), None)
    ensures var next := Next(sys, DenyOne(1, 0));
            next.clock == 0 && next.store == Store(1, 0, Some(DeniedEntry(NewEntry(r, 1, 0), DENIED_REASON)), None)
  {
    hide Emitted;
  }

  lemma ExpiredWhenLate(sys: Sys)
    requires sys.clock == 0 && sys.store.batch.None? && HoldsSingle(sys.store, 1)
    requires sys.store.current.value.expiresAt == APPROVAL_TTL && sys.store.current.value.state.Denied?
    ensures var waited := Next(sys, Tick(APPROVAL_TTL));
            && waited.store == sys.store
            && Next(waited, DenyOne(1, APPROVAL_TTL)).store ==
                 sys.store.(current := Some(sys.store.current.value.(state := Expired)))
  {
    hide Emitted;
  }
}
