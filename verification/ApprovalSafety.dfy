/**
 * What the gate promises over every run: a release is earned, every request ends once, the dead
 * stay dead, and an approval nobody disturbs is released.
 */
module ApprovalSafety {
  import opened Basics
  import opened Gate = ApprovalGate
  import opened ApprovalRuns

  lemma InitHolds()
    ensures Inv(Init())
  {
  }

  lemma Reachable(actions: seq<Action>)
    ensures Inv(Run(Init(), actions))
  {
    hide Inv, Run, Init;
    InitHolds();
    RunKeepsInv(Init(), actions);
  }

  // ---------- releases ----------

  /**
   * Every release is of the XDR stored when its request was issued, with the digest of that XDR,
   * before the request's time is up, and after an approval that covers it: its own prompt or its
   * batch's for a Touch ID request, the in-process path for a wallet-only one.
   */
  lemma ReleasesAreEarned(actions: seq<Action>, j: nat)
    requires j < |Run(Init(), actions).log| && Run(Init(), actions).log[j].Released?
    ensures var log := Run(Init(), actions).log;
            exists i, k :: 0 <= i < k < j && JustifiedBy(log[i], log[k], log[j])
  {
    hide Run, Init, JustifiedBy, EndsOnce, IssuedOnce, SoundStore, SoundThreads, Uniform;
    Reachable(actions);
    var log := Run(Init(), actions).log;
    assert Justified(log[..j], log[j]);
    var i, k :| 0 <= i < k < |log[..j]| && JustifiedBy(log[..j][i], log[..j][k], log[j]);
    assert JustifiedBy(log[i], log[k], log[j]);
  }

  /** A request is issued once, and ends at most once: one release, or one rejection report. */
  lemma EveryRequestEndsOnce(actions: seq<Action>)
    ensures IssuedOnce(Run(Init(), actions).log) && EndsOnce(Run(Init(), actions).log)
  {
    hide Run, Init, EndsOnce, IssuedOnce, SoundStore, SoundThreads, Uniform;
    Reachable(actions);
  }

  /** A release carries what its own issue carried, after it and before its deadline: ids are issued once. */
  lemma ReleaseIsOfItsIssue(actions: seq<Action>, i: nat, j: nat)
    requires var log := Run(Init(), actions).log;
             i < |log| && j < |log| && log[i].Issued? && log[j].Released? && log[i].request.id == log[j].id
    ensures var log := Run(Init(), actions).log; var r := log[i].request;
            i < j && log[j].payload == Payload(r.payloadHash, r.unsignedXdr, r.summary, r.intent)
            && log[j].at < log[i].at + APPROVAL_TTL
  {
    hide Run, Init, PayloadHashOfXdr;
    ReleasesAreEarned(actions, j);
    EveryRequestEndsOnce(actions);
    var log := Run(Init(), actions).log;
    var m, k :| 0 <= m < k < j && JustifiedBy(log[m], log[k], log[j]);
    assert m == i;
  }

  /** A request the gate accepts is issued, under the next id, with exactly what it carries. */
  lemma BegunIsIssued(sys: Sys, r: Request, now: nat)
    requires now <= sys.clock && Validate(r, false).None?
    ensures var log := Next(sys, Begin(r, now)).log;
            |log| > 0 && log[|log| - 1] == Issued(r.(id := sys.store.nextId + 1), now, None)
  {
    hide LiveOf, Entries, RejectionsOf, Validate;
  }

  /** Every later release of a request begun here carries exactly what was begun. */
  lemma ReleasedIsWhatWasBegun(actions: seq<Action>, r: Request, now: nat, more: seq<Action>, j: nat)
    requires now <= Run(Init(), actions).clock && Validate(r, false).None?
    requires var log := Run(Next(Run(Init(), actions), Begin(r, now)), more).log;
             j < |log| && log[j].Released? && log[j].id == Run(Init(), actions).store.nextId + 1
    ensures var log := Run(Next(Run(Init(), actions), Begin(r, now)), more).log;
            log[j].payload == Payload(r.payloadHash, r.unsignedXdr, r.summary, r.intent)
            && log[j].at < now + APPROVAL_TTL
  {
    hide Run, Init, Next, Validate;
    var sys := Run(Init(), actions);
    var begun := Next(sys, Begin(r, now));
    BegunIsIssued(sys, r, now);
    LogGrows(begun, more);
    RunSnoc(Init(), actions, Begin(r, now));
    RunConcat(Init(), actions + [Begin(r, now)], more);
    var log := Run(begun, more).log;
    assert log[|begun.log| - 1] == log[..|begun.log|][|begun.log| - 1];
    ReleaseIsOfItsIssue(actions + [Begin(r, now)] + more, |begun.log| - 1, j);
  }

  /** An XDR is released exactly when its request is authorized and in time, from the single slot or the batch. */
  lemma ReleasedExactlyWhenAuthorized(actions: seq<Action>, id: nat, now: nat)
    ensures var s := Run(Init(), actions).store;
            TakeAuthorized(s, id, now).1.Ok? <==>
            exists k :: 0 <= k < |Entries(s)| && Entries(s)[k].request.id == id
                        && Entries(s)[k].state.Authorized? && now < Entries(s)[k].expiresAt
  {
    hide Run, Init, SoundLog, SoundEntry, SoundThreads, Uniform;
    Reachable(actions);
    var s := Run(Init(), actions).store;
    TakeIff(Run(Init(), actions).log, s, id, now);
  }

  lemma TakeIff(log: seq<Event>, s: Store, id: nat, now: nat)
    requires SoundStore(log, s)
    ensures TakeAuthorized(s, id, now).1.Ok? <==>
            exists k :: 0 <= k < |Entries(s)| && Entries(s)[k].request.id == id
                        && Entries(s)[k].state.Authorized? && now < Entries(s)[k].expiresAt
  {
    hide SoundEntry;
    assert DistinctIds(Entries(s));
    if TakeAuthorized(s, id, now).1.Ok? {
      var k := TakeReleasesOne(s, id, now);
    }
    forall k | 0 <= k < |Entries(s)| && Entries(s)[k].request.id == id
               && Entries(s)[k].state.Authorized? && now < Entries(s)[k].expiresAt
      ensures TakeAuthorized(s, id, now).1.Ok?
    {
      if s.batch.Some? {
        var i := IndexOf(s.batch.value.entries, id);
        assert i <= k;
        assert i == k;
      }
    }
  }

  /** The instant lies before the deadline of what was begun, and the clock has reached it. */
  predicate Timely(begin: nat, instant: nat, clock: nat) {
    instant <= clock && instant < begin + APPROVAL_TTL
  }

  /**
   * Left alone, a valid request is released, whatever came before: begun at one instant, prompted,
   * approved and taken at any later ones before its deadline. A Touch ID request is approved at the
   * prompt, a wallet-only one by the in-process path.
   */
  lemma UndisturbedApprovalReleases(actions: seq<Action>, r: Request, t: nat, id: nat, begin: nat, wait: nat,
      asked: nat, finished: nat, taken: nat)
    requires var sys := Run(Init(), actions);
             t !in sys.threads && id == sys.store.nextId + 1 && begin <= sys.clock
             && Timely(begin, asked, sys.clock + wait) && Timely(begin, finished, sys.clock + wait)
             && Timely(begin, taken, sys.clock + wait)
    requires Validate(r, true).None?
    ensures Released(id, Payload(r.payloadHash, r.unsignedXdr, r.summary, r.intent), taken)
            in Run(Run(Init(), actions), ApprovalSteps(r, t, id, begin, wait, asked, finished, taken)).log
  {
    hide Run, Init, Validate, Emitted, Next, ApprovalSteps;
    var sys := Run(Init(), actions);
    RunOfApproval(sys, r, t, id, begin, wait, asked, finished, taken);
    var s3 := PreparedAfterThree(sys, r, t, id, begin, wait, asked);
    var s5 := AuthorizedAfterFive(s3, t, NewEntry(r, id, begin), finished);
    ReleasedBySixth(s5, NewEntry(r, id, begin), taken);
  }

  /** A request begun on the path its mode asks for, some time passing, and every step until the take. */
  function ApprovalSteps(r: Request, t: nat, id: nat, begin: nat, wait: nat, asked: nat, finished: nat,
      taken: nat): seq<Action> {
    [BeginFor(r, begin), Tick(wait), Prepare(t, id, PathOf(r.mode), asked)]
    + [Answer(t, true), Finish(t, finished), Take(id, taken)]
  }

  function BeginFor(r: Request, now: nat): Action {
    if r.mode.TouchId? then Begin(r, now) else BeginWalletOnly(r, now)
  }

  function PathOf(mode: Mode): Path {
    if mode.TouchId? then Webview else InProcess
  }

  lemma RunOfApproval(sys: Sys, r: Request, t: nat, id: nat, begin: nat, wait: nat, asked: nat, finished: nat,
      taken: nat)
    ensures Run(sys, ApprovalSteps(r, t, id, begin, wait, asked, finished, taken)) ==
            Next(Next(Next(Next(Next(Next(sys, BeginFor(r, begin)), Tick(wait)), Prepare(t, id, PathOf(r.mode), asked)),
              Answer(t, true)), Finish(t, finished)), Take(id, taken))
  {
    hide Next, BeginFor, PathOf;
    RunOfSix(sys, BeginFor(r, begin), Tick(wait), Prepare(t, id, PathOf(r.mode), asked),
      Answer(t, true), Finish(t, finished), Take(id, taken));
  }

  lemma RunOfThree(sys: Sys, a: Action, b: Action, c: Action)
    ensures Run(sys, [a, b, c]) == Next(Next(Next(sys, a), b), c)
  {
    hide Next, Run;
    RunOfOne(sys, a);
    RunSnoc(sys, [a], b);
    RunSnoc(sys, [a, b], c);
    assert [a] + [b] == [a, b] && [a, b] + [c] == [a, b, c];
  }

  lemma RunOfOne(sys: Sys, a: Action)
    ensures Run(sys, [a]) == Next(sys, a)
  {
    hide Next;
    assert Run(sys, [a]) == Run(Next(sys, a), [a][1..]) && [a][1..] == [];
  }

  lemma RunOfSix(sys: Sys, a: Action, b: Action, c: Action, d: Action, e: Action, f: Action)
    ensures Run(sys, [a, b, c] + [d, e, f]) == Next(Next(Next(Next(Next(Next(sys, a), b), c), d), e), f)
  {
    hide Next, Run;
    RunOfThree(sys, a, b, c);
    RunSnoc(sys, [a, b, c], d);
    RunSnoc(sys, [a, b, c] + [d], e);
    RunSnoc(sys, [a, b, c] + [d] + [e], f);
    assert [a, b, c] + [d] + [e] + [f] == [a, b, c] + [d, e, f];
  }

  lemma PreparedAfterThree(sys: Sys, r: Request, t: nat, id: nat, begin: nat, wait: nat, asked: nat) returns (s3: Sys)
    requires t !in sys.threads && id == sys.store.nextId + 1 && begin <= sys.clock
    requires asked <= sys.clock + wait && asked < begin + APPROVAL_TTL && Validate(r, true).None?
    ensures s3 == Next(Next(Next(sys, BeginFor(r, begin)), Tick(wait)), Prepare(t, id, PathOf(r.mode), asked))
    ensures s3.store.current == Some(NewEntry(r, id, begin).(inFlight := true)) && s3.clock == sys.clock + wait
    ensures s3.threads == sys.threads[t := Thread(Single(id), if r.mode.TouchId? then Prompting else Answered(true))]
  {
    hide Emitted, Validate, BeginFor;
    var s1 := Next(sys, BeginFor(r, begin));
    BegunAfterOne(sys, r, begin);
    var s2 := Next(s1, Tick(wait));
    s3 := Next(s2, Prepare(t, id, PathOf(r.mode), asked));
  }

  lemma BegunAfterOne(sys: Sys, r: Request, begin: nat)
    requires begin <= sys.clock && Validate(r, true).None?
    ensures var s1 := Next(sys, BeginFor(r, begin));
            s1.store.current == Some(NewEntry(r, sys.store.nextId + 1, begin))
            && s1.threads == sys.threads && s1.clock == sys.clock
  {
    hide Emitted, LiveOf, PayloadHashOfXdr;
    assert r.mode.WalletOnly? ==> r.(mode := WalletOnly) == r;
  }

  lemma AuthorizedAfterFive(s3: Sys, t: nat, e: Entry, finished: nat) returns (s5: Sys)
    requires s3.store.current == Some(e.(inFlight := true)) && e.state.Pending?
             && finished <= s3.clock && finished < e.expiresAt
    requires t in s3.threads
             && s3.threads[t] ==
                  Thread(Single(e.request.id), if e.request.mode.TouchId? then Prompting else Answered(true))
    ensures s5 == Next(Next(s3, Answer(t, true)), Finish(t, finished))
    ensures s5.store.current == Some(e.(state := Authorized, inFlight := false)) && s5.clock == s3.clock
  {
    hide Emitted;
    var s4 := Next(s3, Answer(t, true));
    assert s4.store == s3.store && t in s4.threads && s4.threads[t] == Thread(Single(e.request.id), Answered(true));
    s5 := Next(s4, Finish(t, finished));
  }

  lemma TakeEmits(sys: Sys, id: nat, now: nat)
    requires now <= sys.clock && TakeAuthorized(sys.store, id, now).1.Ok?
    ensures Emitted(sys, Take(id, now)) == [Released(id, TakeAuthorized(sys.store, id, now).1.value, now)]
  {
    hide TakeAuthorized;
  }

  lemma ReleasedBySixth(sys: Sys, e: Entry, now: nat)
    requires sys.store.current == Some(e.(state := Authorized, inFlight := false))
             && now <= sys.clock && now < e.expiresAt
    ensures Released(e.request.id, PayloadOf(e), now) in Next(sys, Take(e.request.id, now)).log
  {
    hide Emitted;
    TakeEmits(sys, e.request.id, now);
    var log := Next(sys, Take(e.request.id, now)).log;
    assert log[|log| - 1] == Released(e.request.id, PayloadOf(e), now);
  }

  /** The same for any one step of a batch, which one answered prompt approves. */
  lemma UndisturbedBatchReleases(actions: seq<Action>, title: string, rs: seq<Request>, k: nat, t: nat, begin: nat,
      wait: nat, asked: nat, finished: nat, taken: nat)
    requires var sys := Run(Init(), actions);
             t !in sys.threads && begin <= sys.clock && Timely(begin, asked, sys.clock + wait)
             && Timely(begin, finished, sys.clock + wait) && Timely(begin, taken, sys.clock + wait)
    requires 0 < |rs| <= MAX_BATCH_ITEMS && FirstInvalid(rs).None? && k < |rs|
    ensures var sys := Run(Init(), actions);
            var id, batch := sys.store.nextId + 1 + k, sys.store.nextBatchId + 1;
            Released(id, Payload(rs[k].payloadHash, rs[k].unsignedXdr, rs[k].summary, rs[k].intent), taken)
            in Run(sys, BatchSteps(title, rs, t, id, batch, begin, wait, asked, finished, taken)).log
  {
    hide Run, Init, FirstInvalid, Emitted, Next, NewEntries, NewEntry, BatchSteps, DistinctIds, WithState, AnyNotIn;
    var sys := Run(Init(), actions);
    var id, batch := sys.store.nextId + 1 + k, sys.store.nextBatchId + 1;
    RunOfBatch(sys, title, rs, t, id, batch, begin, wait, asked, finished, taken);
    var s3 := BatchPreparedAfterThree(sys, title, rs, t, batch, begin, wait, asked);
    var entries := NewEntries(rs, sys.store.nextId, begin);
    NewEntriesArePending(rs, sys.store.nextId, begin);
    NewEntryAt(rs, sys.store.nextId, begin, k);
    var s5 := BatchAuthorizedAfterFive(s3, t, batch, entries, begin, finished);
    StepReleasedBySixth(s5, entries, k, begin, taken);
  }

  /** A batch begun, some time passing, its one prompt, and the take of one step. */
  function BatchSteps(title: string, rs: seq<Request>, t: nat, id: nat, batch: nat, begin: nat, wait: nat, asked: nat,
      finished: nat, taken: nat): seq<Action>
  {
    [BeginGroup(title, rs, begin), Tick(wait), PrepareGroup(t, batch, asked)]
    + [Answer(t, true), Finish(t, finished), Take(id, taken)]
  }

  lemma RunOfBatch(sys: Sys, title: string, rs: seq<Request>, t: nat, id: nat, batch: nat, begin: nat, wait: nat,
      asked: nat, finished: nat, taken: nat)
    ensures Run(sys, BatchSteps(title, rs, t, id, batch, begin, wait, asked, finished, taken)) ==
            Next(Next(Next(Next(Next(Next(sys, BeginGroup(title, rs, begin)), Tick(wait)),
                                PrepareGroup(t, batch, asked)),
              Answer(t, true)), Finish(t, finished)), Take(id, taken))
  {
    hide Next;
    RunOfSix(sys, BeginGroup(title, rs, begin), Tick(wait), PrepareGroup(t, batch, asked),
      Answer(t, true), Finish(t, finished), Take(id, taken));
  }

  lemma BatchPreparedAfterThree(sys: Sys, title: string, rs: seq<Request>, t: nat, batch: nat, begin: nat, wait: nat,
      asked: nat) returns (s3: Sys)
    requires t !in sys.threads && batch == sys.store.nextBatchId + 1 && begin <= sys.clock
    requires asked <= sys.clock + wait && asked < begin + APPROVAL_TTL
    requires 0 < |rs| <= MAX_BATCH_ITEMS && FirstInvalid(rs).None?
    ensures s3 == Next(Next(Next(sys, BeginGroup(title, rs, begin)), Tick(wait)), PrepareGroup(t, batch, asked))
    ensures s3.store.current.None? && s3.clock == sys.clock + wait
    ensures s3.store.batch ==
            Some(Batch(batch, title, NewEntries(rs, sys.store.nextId, begin), begin + APPROVAL_TTL, true))
    ensures s3.threads == sys.threads[t := Thread(Group(batch), Prompting)]
  {
    hide Emitted, FirstInvalid, BatchState, AnyNotIn, NewEntries;
    var s1 := Next(sys, BeginGroup(title, rs, begin));
    var entries := NewEntries(rs, sys.store.nextId, begin);
    assert s1.store.current.None? && s1.threads == sys.threads && s1.clock == sys.clock
           && s1.store.batch == Some(Batch(batch, title, entries, begin + APPROVAL_TTL, false)) by { hide LiveOf; }
    var s2 := Next(s1, Tick(wait));
    assert !AnyNotIn(entries, Pending) by { NewEntriesArePending(rs, sys.store.nextId, begin); }
    s3 := Next(s2, PrepareGroup(t, batch, asked));
  }

  lemma NewEntryAt(rs: seq<Request>, nextId: nat, now: nat, k: nat)
    requires k < |rs|
    ensures var es := NewEntries(rs, nextId, now);
            |es| == |rs| && DistinctIds(es) && es[k].expiresAt == now + APPROVAL_TTL
            && es[k].request.id == nextId + 1 + k
            && PayloadOf(es[k]) == Payload(rs[k].payloadHash, rs[k].unsignedXdr, rs[k].summary, rs[k].intent)
  {
  }

  lemma NewEntriesArePending(rs: seq<Request>, nextId: nat, now: nat)
    ensures !AnyNotIn(NewEntries(rs, nextId, now), Pending)
  {
    NoneOther(NewEntries(rs, nextId, now), Pending);
  }

  lemma BatchAuthorizedAfterFive(s3: Sys, t: nat, batch: nat, entries: seq<Entry>, begin: nat, finished: nat)
    returns (s5: Sys)
    requires s3.store.batch.Some? && s3.store.current.None?
    requires var b := s3.store.batch.value; b.id == batch && b.entries == entries && b.expiresAt == begin + APPROVAL_TTL
    requires !AnyNotIn(entries, Pending) && finished <= s3.clock && finished < begin + APPROVAL_TTL
    requires t in s3.threads && s3.threads[t] == Thread(Group(batch), Prompting)
    ensures s5 == Next(Next(s3, Answer(t, true)), Finish(t, finished))
    ensures s5.store.current.None? && s5.clock == s3.clock
    ensures s5.store.batch.Some? && s5.store.batch.value.entries == WithState(entries, Authorized)
  {
    hide Emitted, BatchState, AnyNotIn, WithState;
    var s4 := Next(s3, Answer(t, true));
    assert s4.store == s3.store && t in s4.threads && s4.threads[t] == Thread(Group(batch), Answered(true));
    s5 := Next(s4, Finish(t, finished));
  }

  lemma StepReleasedBySixth(sys: Sys, entries: seq<Entry>, k: nat, begin: nat, now: nat)
    requires sys.store.current.None? && sys.store.batch.Some?
    requires sys.store.batch.value.entries == WithState(entries, Authorized) && k < |entries|
    requires DistinctIds(entries) && entries[k].expiresAt == begin + APPROVAL_TTL
    requires now <= sys.clock && now < begin + APPROVAL_TTL
    ensures Released(entries[k].request.id, PayloadOf(entries[k]), now)
            in Next(sys, Take(entries[k].request.id, now)).log
  {
    hide Emitted;
    var id := entries[k].request.id;
    var steps := sys.store.batch.value.entries;
    assert IndexOf(steps, id) == k by {
      assert steps[k].request.id == id;
      assert forall i :: 0 <= i < |steps| && i != k ==>
                           entries[i].request.id != id && steps[i].request.id == entries[i].request.id;
    }
    assert TakeAuthorized(sys.store, id, now).1 == Ok(PayloadOf(entries[k]));
    TakeEmits(sys, id, now);
    var log := Next(sys, Take(id, now)).log;
    assert log[|log| - 1] == Released(id, PayloadOf(entries[k]), now);
  }

  // ---------- the dead ----------

  ghost predicate LiveIn(s: Store, id: nat) {
    exists k :: 0 <= k < |Entries(s)| && Entries(s)[k].request.id == id && Live(Entries(s)[k].state)
  }

  ghost predicate EndsWereLive(more: seq<Event>, s: Store) {
    forall i :: 0 <= i < |more| && IsEnd(more[i]) ==> LiveIn(s, more[i].id)
  }

  lemma RejectedWereLive(s: Store, es: seq<Entry>, reason: string)
    requires forall k :: 0 <= k < |es| ==> es[k] in Entries(s) && Live(es[k].state)
    ensures EndsWereLive(RejectionsOf(es, reason), s)
  {
    hide Entries;
    forall k | 0 <= k < |es| ensures LiveIn(s, es[k].request.id) {
      var j :| 0 <= j < |Entries(s)| && Entries(s)[j] == es[k];
    }
  }

  lemma ReplacedWereLive(s: Store, es: seq<Entry>, at: nat, batch: Option<nat>)
    ensures EndsWereLive(Replacing(s, es, at, batch), s)
  {
    hide LiveOf, Entries, LiveIn;
    var r := RejectionsOf(LiveOf(Entries(s)), SUPERSEDED_REASON);
    RejectedWereLive(s, LiveOf(Entries(s)), SUPERSEDED_REASON);
  }

  lemma DeniedWereLive(s: Store, id: nat, now: nat)
    requires Deny(s, id, now).1.Ok?
    ensures EndsWereLive(
              RejectionsOf(if HoldsStep(s, id) then s.batch.value.entries else [s.current.value], DENIED_REASON), s)
  {
    hide BatchState, AnyNotIn, LiveIn;
    var es := if HoldsStep(s, id) then s.batch.value.entries else [s.current.value];
    if HoldsStep(s, id) {
      NoneOther(es, Pending);
    }
    RejectedWereLive(s, es, DENIED_REASON);
  }

  lemma TakenWasLive(s: Store, id: nat, now: nat)
    requires TakeAuthorized(s, id, now).1.Ok? && DistinctIds(Entries(s))
    ensures LiveIn(s, id)
  {
    hide TakeAuthorized, Entries;
    var k := TakeReleasesOne(s, id, now);
  }

  lemma StepEndsTheLive(sys: Sys, a: Action)
    requires Inv(sys) && Enabled(sys, a)
    ensures EndsWereLive(Emitted(sys, a), sys.store)
  {
    var s := sys.store;
    hide Inv, DistinctIds, EndsWereLive, LiveOf, Entries, StoreRequest, TakeAuthorized, Deny, EmittedByBegin,
        PrepareAuthorize,
        RejectionsOf, IssuesOf, FirstInvalid;
    EntriesAreDistinct(sys);
    match a
    case Begin(r, now) => BeginEndsTheLive(s, r, false, now);
    case BeginWalletOnly(r, now) => BeginEndsTheLive(s, r.(mode := WalletOnly), true, now);
    case BeginGroup(title, rs, now) =>
      if BeginBatch(s, title, rs, now).1.Ok? {
        ReplacedWereLive(s, Entries(BeginBatch(s, title, rs, now).0), now,
                         Some(BeginBatch(s, title, rs, now).1.value.batchId));
      }
      NoneWereLive(s);
    case DenyOne(id, now) =>
      if Deny(s, id, now).1.Ok? { DeniedWereLive(s, id, now); }
      NoneWereLive(s);
    case Take(id, now) =>
      if TakeAuthorized(s, id, now).1.Ok? { ReleaseWasLive(s, id, now); }
      NoneWereLive(s);
    case Lock => RejectedWereLive(s, LiveOf(Entries(s)), LOCKED_REASON);
    case Prepare(_, id, _, _) => ApprovedWasLive(s, Approved(Single(id), WalletPath));
    case Answer(t, _) => ApprovedWasLive(s, Approved(sys.threads[t].key, TouchPrompt));
    case _ => NoneWereLive(s);
  }

  lemma EntriesAreDistinct(sys: Sys)
    requires Inv(sys)
    ensures DistinctIds(Entries(sys.store))
  {
    hide SoundEntry, SoundLog, SoundThreads, Uniform;
  }

  lemma NoneWereLive(s: Store)
    ensures EndsWereLive([], s)
  {
  }

  lemma ApprovedWasLive(s: Store, approval: Event)
    requires approval.Approved?
    ensures EndsWereLive([approval], s) && EndsWereLive([], s)
  {
  }

  lemma ReleaseWasLive(s: Store, id: nat, now: nat)
    requires TakeAuthorized(s, id, now).1.Ok? && DistinctIds(Entries(s))
    ensures EndsWereLive([Released(id, TakeAuthorized(s, id, now).1.value, now)], s)
  {
    hide TakeAuthorized, LiveIn;
    TakenWasLive(s, id, now);
  }

  lemma BeginEndsTheLive(s: Store, r: Request, allowWalletOnly: bool, now: nat)
    ensures EndsWereLive(EmittedByBegin(s, r, allowWalletOnly, now), s)
  {
    hide EndsWereLive, LiveOf, Entries, StoreRequest, Replacing;
    if StoreRequest(s, r, allowWalletOnly, now).1.Ok? {
      SingleIsFresh(s, r, allowWalletOnly, now);
      ReplacedWereLive(s, [NewEntry(r, s.nextId + 1, now)], now, None);
    } else {
      NoneWereLive(s);
    }
  }

  /** A known request that is not live does not come back to life. */
  lemma DeadStaysDead(sys: Sys, a: Action, id: nat)
    requires Inv(sys) && id <= sys.store.nextId && !LiveIn(sys.store, id)
    ensures id <= Next(sys, a).store.nextId && !LiveIn(Next(sys, a).store, id)
  {
    if Enabled(sys, a) {
      if Begins(a) { BeginDropsAll(sys, a, id); } else { EvolvingDead(sys, a, id); }
    }
  }

  predicate MayEvolve(e: Entry, f: Entry, now: nat) {
    Evolves(e, f, now, true) || Evolves(e, f, now, false)
  }

  /** In a store that evolves, each entry does. */
  lemma EntriesEvolve(s: Store, t: Store, now: nat, grant: Option<Key>)
    requires Evolution(s, t, now, grant)
    ensures t.nextId == s.nextId && |Entries(t)| == |Entries(s)|
    ensures forall k :: 0 <= k < |Entries(s)| ==> MayEvolve(Entries(s)[k], Entries(t)[k], now)
  {
    hide Evolves;
    forall k | 0 <= k < |Entries(s)| ensures MayEvolve(Entries(s)[k], Entries(t)[k], now) {
      if s.current.Some? && k == 0 {
        assert Evolves(Entries(s)[k], Entries(t)[k], now, grant == Some(Single(s.current.value.request.id)));
      } else {
        assert Evolves(Entries(s)[k], Entries(t)[k], now, grant == Some(Group(s.batch.value.id)));
      }
    }
  }

  lemma EvolvingDead(sys: Sys, a: Action, id: nat)
    requires Inv(sys) && Enabled(sys, a) && !Begins(a) && !LiveIn(sys.store, id)
    ensures NextStore(sys, a).nextId == sys.store.nextId && !LiveIn(NextStore(sys, a), id)
  {
    hide Inv, NextStore, NowOf, GrantOf, Evolution, Uniform, Entries;
    StepEvolves(sys, a);
    var s, t := sys.store, NextStore(sys, a);
    EntriesEvolve(s, t, NowOf(sys, a), GrantOf(sys, a));
    forall k | 0 <= k < |Entries(t)| && Entries(t)[k].request.id == id ensures !Live(Entries(t)[k].state) {
      assert Entries(s)[k].request.id == id;
    }
  }

  /** After a begin, a request known before it is live only if the begin was refused. */
  lemma BeginDropsAll(sys: Sys, a: Action, id: nat)
    requires Enabled(sys, a) && Begins(a) && id <= sys.store.nextId
    ensures id <= NextStore(sys, a).nextId
    ensures NextStore(sys, a) == sys.store || !LiveIn(NextStore(sys, a), id)
  {
    hide LiveOf, Validate, FirstInvalid;
  }

  lemma {:induction false} DeadForGood(sys: Sys, actions: seq<Action>, id: nat)
    requires Inv(sys) && id <= sys.store.nextId && !LiveIn(sys.store, id)
    ensures |sys.log| <= |Run(sys, actions).log|
    ensures forall i :: |sys.log| <= i < |Run(sys, actions).log| && IsEnd(Run(sys, actions).log[i]) ==>
                          Run(sys, actions).log[i].id != id
    decreases |actions|
  {
    hide Inv, LiveIn, Emitted, NextStore, NextThreads, Enabled;
    if actions != [] {
      var next := Next(sys, actions[0]);
      StepKeepsInv(sys, actions[0]);
      DeadStaysDead(sys, actions[0], id);
      if Enabled(sys, actions[0]) { StepEndsTheLive(sys, actions[0]); }
      DeadForGood(next, actions[1..], id);
      LogGrows(next, actions[1..]);
    }
  }

  lemma {:induction false} LogGrows(sys: Sys, actions: seq<Action>)
    ensures |sys.log| <= |Run(sys, actions).log| && Run(sys, actions).log[..|sys.log|] == sys.log
    decreases |actions|
  {
    hide Emitted, NextStore, NextThreads, Enabled;
    if actions != [] {
      var next := Next(sys, actions[0]);
      LogGrows(next, actions[1..]);
      assert next.log[..|sys.log|] == sys.log;
    }
  }

  /** Once a request that was issued is no longer live, no later step of any run releases or reports it. */
  lemma NoReturn(actions: seq<Action>, more: seq<Action>, id: nat)
    requires id <= Run(Init(), actions).store.nextId && !LiveIn(Run(Init(), actions).store, id)
    ensures var mid := Run(Init(), actions);
            forall i :: |mid.log| <= i < |Run(mid, more).log| && IsEnd(Run(mid, more).log[i]) ==>
                          Run(mid, more).log[i].id != id
  {
    hide Run, Init, Inv, LiveIn;
    Reachable(actions);
    DeadForGood(Run(Init(), actions), more, id);
  }

  predicate Ousts(sys: Sys, a: Action) {
    Enabled(sys, a) && (a.Lock? || (Begins(a) && NextStore(sys, a) != sys.store))
  }

  /** A lock, and a begin that is accepted, leave nothing live that was known before. */
  lemma OustedAreDead(sys: Sys, a: Action, id: nat)
    requires Inv(sys) && Ousts(sys, a) && id <= sys.store.nextId
    ensures id <= NextStore(sys, a).nextId && !LiveIn(NextStore(sys, a), id)
  {
    if a.Lock? {
      hide SoundThreads, Uniform;
      LockAppends(sys.log, sys.store);
    } else {
      BeginDropsAll(sys, a, id);
    }
  }

  /**
   * A lock, or a begin that supersedes, is final: no request known before it is ever released
   * afterwards, whatever its prompt answers and whenever that answer lands.
   */
  lemma OustedIsNeverReleased(actions: seq<Action>, a: Action, more: seq<Action>, id: nat)
    requires Ousts(Run(Init(), actions), a) && id <= Run(Init(), actions).store.nextId
    ensures var mid := Run(Init(), actions);
            var log := Run(Next(mid, a), more).log;
            forall i :: |mid.log| <= i < |log| && log[i].Released? ==> log[i].id != id
  {
    hide Run, Init, Inv, LiveIn, NextStore, Emitted, NextThreads;
    var mid := Run(Init(), actions);
    Reachable(actions);
    OustedAreDead(mid, a, id);
    StepKeepsInv(mid, a);
    DeadForGood(Next(mid, a), more, id);
    LogGrows(Next(mid, a), more);
    OustersReleaseNothing(mid, a);
    var log := Run(Next(mid, a), more).log;
    forall i | |mid.log| <= i < |log| ensures log[i].Released? ==> log[i].id != id {
      if i < |mid.log| + |Emitted(mid, a)| {
        assert log[i] == log[..|Next(mid, a).log|][i] == Emitted(mid, a)[i - |mid.log|];
      }
    }
  }

  lemma OustersReleaseNothing(sys: Sys, a: Action)
    requires Ousts(sys, a)
    ensures forall i :: 0 <= i < |Emitted(sys, a)| ==> !Emitted(sys, a)[i].Released?
  {
    hide LiveOf, NextStore, Validate, FirstInvalid;
  }

  /** Nothing live is ousted in silence: each such request gets its report, with the hash it was issued with. */
  lemma OustedAreReported(actions: seq<Action>, a: Action, k: nat)
    requires var sys := Run(Init(), actions);
             Ousts(sys, a) && k < |Entries(sys.store)| && Live(Entries(sys.store)[k].state)
    ensures var sys := Run(Init(), actions); var e := Entries(sys.store)[k];
            exists reason :: Rejected(e.request.id, e.request.payloadHash, reason) in Emitted(sys, a)
  {
    hide Run, Init, Inv;
    var sys := Run(Init(), actions);
    var e := Entries(sys.store)[k];
    OusterReports(sys, a);
    hide Emitted, NextStore, Entries, LiveOf;
    var es := LiveOf(Entries(sys.store));
    assert e in es;
    var j :| 0 <= j < |es| && es[j] == e;
    var reason := if a.Lock? then LOCKED_REASON else SUPERSEDED_REASON;
    assert RejectionsOf(es, reason)[j] == Rejected(e.request.id, e.request.payloadHash, reason);
    assert Emitted(sys, a)[j] == Rejected(e.request.id, e.request.payloadHash, reason);
  }

  /** The payload hashes an operation returns as rejected. */
  function Reported(sys: Sys, a: Action): seq<string>
    requires Enabled(sys, a)
  {
    var s := sys.store;
    match a
    case Begin(r, now) => SupersededHashes(StoreRequest(s, r, false, now).1)
    case BeginWalletOnly(r, now) => SupersededHashes(StoreRequest(s, r.(mode := WalletOnly), true, now).1)
    case BeginGroup(title, rs, now) =>
      var r := BeginBatch(s, title, rs, now).1;
      if r.Ok? then HashesIn(r.value.superseded) else []
    case DenyOne(id, now) => if Deny(s, id, now).1.Ok? then Deny(s, id, now).1.value else []
    case Lock => InvalidateForLock(s).1
    case _ => []
  }

  function SupersededHashes(r: Result<Begun, BeginError>): seq<string> {
    if r.Ok? then HashesIn(r.value.superseded) else []
  }

  function HashesIn(rs: seq<SupersededRequest>): seq<string> {
    seq(|rs|, k requires 0 <= k < |rs| => rs[k].payloadHash)
  }

  predicate IsRejection(ev: Event, hash: string) {
    ev.Rejected? && ev.payloadHash == hash
  }

  ghost predicate Lists(out: seq<string>, log: seq<Event>) {
    && |out| <= |log|
    && (forall k :: 0 <= k < |out| ==> IsRejection(log[k], out[k]))
    && (forall k :: |out| <= k < |log| ==> !log[k].Rejected?)
  }

  lemma BeginListsItsReports(sys: Sys, a: Action)
    requires Enabled(sys, a) && Begins(a)
    ensures Lists(Reported(sys, a), Emitted(sys, a))
  {
    hide LiveOf, Validate, FirstInvalid;
  }

  lemma OthersListTheirReports(sys: Sys, a: Action)
    requires Enabled(sys, a) && !Begins(a)
    ensures Lists(Reported(sys, a), Emitted(sys, a))
  {
    hide LiveOf, IndexOf, AnyNotIn, BatchState, TakeAuthorized, StoreRequest, BeginBatch;
  }

  /** Every report an operation returns is a rejection in the log, in order, and the log has no other. */
  lemma ReportsAreTheLog(sys: Sys, a: Action)
    requires Enabled(sys, a)
    ensures Lists(Reported(sys, a), Emitted(sys, a))
  {
    hide Lists, Reported, Emitted;
    if Begins(a) { BeginListsItsReports(sys, a); } else { OthersListTheirReports(sys, a); }
  }

  lemma OusterReports(sys: Sys, a: Action)
    requires Ousts(sys, a)
    ensures RejectionsOf(LiveOf(Entries(sys.store)), if a.Lock? then LOCKED_REASON else SUPERSEDED_REASON)
            <= Emitted(sys, a)
  {
    hide LiveOf, Validate, FirstInvalid, RejectionsOf, Entries;
  }
}
