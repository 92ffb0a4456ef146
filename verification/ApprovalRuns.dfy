/**
 * The approval gate under every interleaving. A run is any sequence of locked sections taken
 * by any number of threads, with a clock that only moves forward: a section reads its instant
 * before it takes the lock, so `now` may lag behind the clock. A thread that prepared a prompt
 * answers it (or panics) outside the lock, finishes, and drops its guard, each a step of its own.
 * The log records what the gate let out and why.
 */
module ApprovalRuns {
  import opened Basics
  import opened Gate = ApprovalGate

  datatype Key = Single(id: nat) | Group(batchId: nat)

  /** How an approval came about: the owner answered a prompt, or the in-process anchor path ran. */
  datatype Way = TouchPrompt | WalletPath

  datatype Path = Webview | InProcess

  /** A prompt thread: asking, answered, unwound by a panic, or finished with its guard still held. */
  datatype Phase = Prompting | Answered(ok: bool) | Panicked | Finished

  datatype Thread = Thread(key: Key, phase: Phase)

  datatype Event =
    | Issued(request: Request, at: nat, batch: Option<nat>)
    | Approved(key: Key, way: Way)
    | Rejected(id: nat, payloadHash: string, reason: string)
    | Released(id: nat, payload: Payload, at: nat)

  datatype Sys = Sys(store: Store, clock: nat, threads: map<nat, Thread>, log: seq<Event>)

  datatype Action =
    | Tick(nanos: nat)
    | Begin(request: Request, now: nat)
    | BeginWalletOnly(request: Request, now: nat)
    | BeginGroup(title: string, requests: seq<Request>, now: nat)
    | Prepare(thread: nat, id: nat, path: Path, now: nat)
    | PrepareGroup(thread: nat, batchId: nat, now: nat)
    | Answer(thread: nat, ok: bool)
    | Panic(thread: nat)
    | Finish(thread: nat, now: nat)
    | Drop(thread: nat)
    | Exit(thread: nat, now: nat)
    | DenyOne(id: nat, now: nat)
    | AskStatus(id: nat, now: nat)
    | AskSnapshot(id: nat, now: nat)
    | AskCurrent(now: nat)
    | Take(id: nat, now: nat)
    | Lock

  function WayOf(mode: Mode): Way {
    if mode.TouchId? then TouchPrompt else WalletPath
  }

  /** The prompt an issued request is authorized by: its own, or its batch's. */
  function KeyOf(id: nat, batch: Option<nat>): Key {
    if batch.Some? then Group(batch.value) else Single(id)
  }

  predicate InPhase(sys: Sys, t: nat, phase: Phase) {
    t in sys.threads && sys.threads[t].phase == phase
  }

  predicate HasAnswered(sys: Sys, t: nat) {
    t in sys.threads && sys.threads[t].phase.Answered?
  }

  /** A thread may act when its phase allows it, at an instant the clock has reached. */
  predicate Enabled(sys: Sys, a: Action) {
    match a
    case Tick(_) => true
    case Prepare(t, _, _, now) => t !in sys.threads && now <= sys.clock
    case PrepareGroup(t, _, now) => t !in sys.threads && now <= sys.clock
    case Answer(t, _) => InPhase(sys, t, Prompting)
    case Panic(t) => InPhase(sys, t, Prompting)
    case Finish(t, now) => HasAnswered(sys, t) && now <= sys.clock
    case Exit(t, now) => HasAnswered(sys, t) && now <= sys.clock
    case Drop(t) => InPhase(sys, t, Panicked) || InPhase(sys, t, Finished)
    case Lock => true
    case _ => a.now <= sys.clock
  }

  function FinishKey(s: Store, key: Key, ok: bool, now: nat): Store {
    if key.Single? then FinishAuthorize(s, key.id, ok, now).0 else FinishBatch(s, key.batchId, ok, now).0
  }

  function DropKey(s: Store, key: Key): Store {
    if key.Single? then DropGuard(s, key.id) else DropBatchGuard(s, key.batchId)
  }

  function NextStore(sys: Sys, a: Action): Store
    requires Enabled(sys, a)
  {
    var s := sys.store;
    match a
    case Tick(_) => s
    case Begin(r, now) => StoreRequest(s, r, false, now).0
    case BeginWalletOnly(r, now) => StoreRequest(s, r.(mode := WalletOnly), true, now).0
    case BeginGroup(title, rs, now) => BeginBatch(s, title, rs, now).0
    case Prepare(_, id, _, now) => PrepareAuthorize(s, id, now).0
    case PrepareGroup(_, b, now) => PrepareBatch(s, b, now).0
    case Answer(_, _) => s
    case Panic(_) => s
    case Finish(t, now) => FinishKey(s, sys.threads[t].key, sys.threads[t].phase.ok, now)
    case Drop(t) => DropKey(s, sys.threads[t].key)
    case Exit(t, now) => DropKey(FinishKey(s, sys.threads[t].key, sys.threads[t].phase.ok, now), sys.threads[t].key)
    case DenyOne(id, now) => Deny(s, id, now).0
    case AskStatus(id, now) => GetStatus(s, id, now).0
    case AskSnapshot(id, now) => SnapshotOf(s, id, now).0
    case AskCurrent(now) => Current(s, now).0
    case Take(id, now) => TakeAuthorized(s, id, now).0
    case Lock => InvalidateForLock(s).0
  }

  /** Where a prepared thread goes: to the prompt, or past it when its path and mode do not match. */
  function PreparedPhase(path: Path, mode: Mode): Phase {
    if path.InProcess? then Answered(mode.WalletOnly?) else if mode.TouchId? then Prompting else Answered(false)
  }

  function NextThreads(sys: Sys, a: Action): map<nat, Thread>
    requires Enabled(sys, a)
  {
    match a
    case Prepare(t, id, path, now) =>
      var r := PrepareAuthorize(sys.store, id, now).1;
      if r.Ok? then sys.threads[t := Thread(Single(id), PreparedPhase(path, r.value.mode))] else sys.threads
    case PrepareGroup(t, b, now) =>
      if PrepareBatch(sys.store, b, now).1.Ok? then sys.threads[t := Thread(Group(b), Prompting)] else sys.threads
    case Answer(t, ok) => sys.threads[t := sys.threads[t].(phase := Answered(ok))]
    case Panic(t) => sys.threads[t := sys.threads[t].(phase := Panicked)]
    case Finish(t, _) => sys.threads[t := sys.threads[t].(phase := Finished)]
    case Drop(t) => sys.threads - {t}
    case Exit(t, _) => sys.threads - {t}
    case _ => sys.threads
  }

  function RejectionsOf(es: seq<Entry>, reason: string): seq<Event> {
    seq(|es|, k requires 0 <= k < |es| => Rejected(es[k].request.id, es[k].request.payloadHash, reason))
  }

  function IssuesOf(es: seq<Entry>, at: nat, batch: Option<nat>): seq<Event> {
    seq(|es|, k requires 0 <= k < |es| => Issued(es[k].request, at, batch))
  }

  /** What a step lets out. */
  function Emitted(sys: Sys, a: Action): seq<Event>
    requires Enabled(sys, a)
  {
    var s := sys.store;
    match a
    case Begin(r, now) => EmittedByBegin(s, r, false, now)
    case BeginWalletOnly(r, now) => EmittedByBegin(s, r.(mode := WalletOnly), true, now)
    case BeginGroup(title, rs, now) =>
      var (t, r) := BeginBatch(s, title, rs, now);
      if r.Err? then []
      else RejectionsOf(LiveOf(Entries(s)), SUPERSEDED_REASON) + IssuesOf(Entries(t), now, Some(r.value.batchId))
    case Prepare(_, id, path, now) =>
      var r := PrepareAuthorize(s, id, now).1;
      if r.Ok? && path.InProcess? && r.value.mode.WalletOnly? then [Approved(Single(id), WalletPath)] else []
    case Answer(t, ok) => if ok then [Approved(sys.threads[t].key, TouchPrompt)] else []
    case DenyOne(id, now) =>
      if Deny(s, id, now).1.Err? then []
      else RejectionsOf(if HoldsStep(s, id) then s.batch.value.entries else [s.current.value], DENIED_REASON)
    case Take(id, now) =>
      var r := TakeAuthorized(s, id, now).1;
      if r.Ok? then [Released(id, r.value, now)] else []
    case Lock => RejectionsOf(LiveOf(Entries(s)), LOCKED_REASON)
    case _ => []
  }

  function EmittedByBegin(s: Store, r: Request, allowWalletOnly: bool, now: nat): seq<Event> {
    var (t, reply) := StoreRequest(s, r, allowWalletOnly, now);
    if reply.Err? then []
    else RejectionsOf(LiveOf(Entries(s)), SUPERSEDED_REASON) + [Issued(reply.value.request, now, None)]
  }

  /** One step; a step that is not enabled does nothing, so every sequence of actions is a run. */
  function Next(sys: Sys, a: Action): Sys {
    if !Enabled(sys, a) then sys
    else Sys(NextStore(sys, a), if a.Tick? then sys.clock + a.nanos else sys.clock, NextThreads(sys, a),
             sys.log + Emitted(sys, a))
  }

  function Init(): Sys {
    Sys(Empty(), 0, map[], [])
  }

  function Run(sys: Sys, actions: seq<Action>): Sys
    decreases |actions|
  {
    if actions == [] then sys else Run(Next(sys, actions[0]), actions[1..])
  }

  // ---------- how one locked section may change an entry ----------

  /**
   * A dead entry stays as it is or is relabelled expired, nothing becomes pending, an entry becomes authorized only
   * when its prompt is granted, and it expires only at its time.
   */
  predicate Evolves(e: Entry, f: Entry, now: nat, granted: bool) {
    && f.request == e.request
    && f.expiresAt == e.expiresAt
    && (!Live(e.state) ==> f.state == e.state || f.state.Expired?)
    && (f.state.Pending? ==> e.state.Pending?)
    && (f.state.Authorized? ==> e.state.Authorized? || (granted && e.state.Pending?))
    && (f.state.Expired? ==> e.state.Expired? || now >= e.expiresAt)
  }

  ghost predicate StepsEvolve(es: seq<Entry>, fs: seq<Entry>, now: nat, granted: bool) {
    |fs| == |es| && forall k :: 0 <= k < |es| ==> Evolves(es[k], fs[k], now, granted)
  }

  /** The store keeps its entries, each of which evolves; `grant` is the prompt granted, if any. */
  ghost predicate Evolution(s: Store, t: Store, now: nat, grant: Option<Key>) {
    && t.nextId == s.nextId && t.nextBatchId == s.nextBatchId
    && t.current.Some? == s.current.Some?
    && (s.current.Some? ==>
          Evolves(s.current.value, t.current.value, now, grant == Some(Single(s.current.value.request.id))))
    && t.batch.Some? == s.batch.Some?
    && (s.batch.Some? ==>
          && t.batch.value.id == s.batch.value.id
          && t.batch.value.expiresAt == s.batch.value.expiresAt
          && StepsEvolve(s.batch.value.entries, t.batch.value.entries, now, grant == Some(Group(s.batch.value.id))))
  }

  // ---------- batches ----------

  ghost predicate AllAre(es: seq<Entry>, state: EntryState) {
    forall k :: 0 <= k < |es| ==> es[k].state == state
  }

  ghost predicate NoneIs(es: seq<Entry>, state: EntryState) {
    forall k :: 0 <= k < |es| ==> es[k].state != state
  }

  /**
   * A batch has steps, they share its expiry, a step is marked expired only once that time has
   * come, and until then the steps are pending all together or not at all.
   */
  ghost predicate Uniform(s: Store, clock: nat) {
    s.batch.Some? ==>
      var b := s.batch.value;
      && |b.entries| > 0
      && (forall k :: 0 <= k < |b.entries| ==> b.entries[k].expiresAt == b.expiresAt)
      && (clock < b.expiresAt ==> NoneIs(b.entries, Expired))
      && (NoneIs(b.entries, Expired) ==> AllAre(b.entries, Pending) || NoneIs(b.entries, Pending))
  }

  ghost predicate DistinctIds(es: seq<Entry>) {
    forall j, k :: 0 <= j < k < |es| ==> es[j].request.id != es[k].request.id
  }

  /** The grant of a step: the prompt whose success it records. */
  function GrantOf(sys: Sys, a: Action): Option<Key>
    requires Enabled(sys, a)
  {
    if (a.Finish? || a.Exit?) && sys.threads[a.thread].phase.ok then Some(sys.threads[a.thread].key) else None
  }

  function NowOf(sys: Sys, a: Action): nat {
    match a
    case Tick(_) => sys.clock
    case Answer(_, _) => sys.clock
    case Panic(_) => sys.clock
    case Drop(_) => sys.clock
    case Lock => sys.clock
    case _ => a.now
  }

  predicate Begins(a: Action) {
    a.Begin? || a.BeginWalletOnly? || a.BeginGroup?
  }

  lemma NoneOther(es: seq<Entry>, state: EntryState)
    ensures AnyNotIn(es, state) <==> !AllAre(es, state)
  {
    forall k | 0 <= k < |es| && es[k].state != state ensures AnyNotIn(es, state) {
      assert es[k] in es;
    }
  }

  lemma PrepareEvolves(s: Store, id: nat, now: nat, clock: nat)
    requires Uniform(s, clock) && now <= clock
    ensures var t := PrepareAuthorize(s, id, now).0; Evolution(s, t, now, None) && Uniform(t, clock)
  {
    hide BatchState;
  }

  lemma PrepareBatchEvolves(s: Store, batchId: nat, now: nat, clock: nat)
    requires Uniform(s, clock) && now <= clock
    ensures var t := PrepareBatch(s, batchId, now).0; Evolution(s, t, now, None) && Uniform(t, clock)
  {
    hide BatchState;
  }

  lemma FinishEvolves(s: Store, key: Key, ok: bool, now: nat, clock: nat)
    requires Uniform(s, clock) && now <= clock
    ensures var t := FinishKey(s, key, ok, now);
            Evolution(s, t, now, if ok then Some(key) else None) && Uniform(t, clock)
  {
    if key.Single? {
      hide FinishBatch;
    } else {
      FinishBatchEvolves(s, key.batchId, ok, now, clock);
      hide FinishBatch;
    }
  }

  lemma FinishBatchEvolves(s: Store, batchId: nat, ok: bool, now: nat, clock: nat)
    requires Uniform(s, clock) && now <= clock
    ensures var t := FinishBatch(s, batchId, ok, now).0;
            Evolution(s, t, now, if ok then Some(Group(batchId)) else None) && Uniform(t, clock)
  {
    hide BatchState, AnyNotIn;
    if s.batch.Some? {
      NoneOther(s.batch.value.entries, Pending);
    }
  }

  lemma DropEvolves(s: Store, key: Key, now: nat, clock: nat)
    requires Uniform(s, clock)
    ensures var t := DropKey(s, key); Evolution(s, t, now, None) && Uniform(t, clock)
  {
    var t := DropKey(s, key);
    if s.batch.Some? {
      assert t.batch.value.entries == s.batch.value.entries;
    }
  }

  lemma ExitEvolves(s: Store, key: Key, ok: bool, now: nat, clock: nat)
    requires Uniform(s, clock) && now <= clock
    ensures var t := DropKey(FinishKey(s, key, ok, now), key);
            Evolution(s, t, now, if ok then Some(key) else None) && Uniform(t, clock)
  {
    FinishEvolves(s, key, ok, now, clock);
    DropEvolves(FinishKey(s, key, ok, now), key, now, clock);
  }

  lemma DenyEvolves(s: Store, id: nat, now: nat, clock: nat)
    requires Uniform(s, clock) && now <= clock
    ensures var t := Deny(s, id, now).0; Evolution(s, t, now, None) && Uniform(t, clock)
  {
    hide BatchState, AnyNotIn;
    if s.batch.Some? {
      NoneOther(s.batch.value.entries, Pending);
    }
  }

  /** Replacing one step keeps a batch uniform when it expires in time and is otherwise pending no more or no less. */
  lemma StepKeepsUniform(s: Store, k: nat, f: Entry, now: nat, clock: nat)
    requires Uniform(s, clock) && now <= clock && s.batch.Some? && k < |s.batch.value.entries|
    requires Evolves(s.batch.value.entries[k], f, now, false)
    requires f.state.Expired? || (f.state.Pending? <==> s.batch.value.entries[k].state.Pending?)
    ensures Uniform(WithStep(s, k, f), clock) && Evolution(s, WithStep(s, k, f), now, None)
  {
    var es, fs := s.batch.value.entries, WithStep(s, k, f).batch.value.entries;
    assert forall j :: 0 <= j < |es| ==> Evolves(es[j], fs[j], now, false);
    if NoneIs(fs, Expired) {
      assert forall j :: 0 <= j < |es| ==> !fs[j].state.Expired? && (j != k ==> es[j] == fs[j]);
      assert fs[k] == f && !es[k].state.Expired?;
      assert NoneIs(es, Expired);
    }
  }

  lemma StatusEvolves(s: Store, id: nat, now: nat, clock: nat)
    requires Uniform(s, clock) && now <= clock
    ensures var t := GetStatus(s, id, now).0; Evolution(s, t, now, None) && Uniform(t, clock)
  {
    hide WithStep;
    if HoldsStep(s, id) && !HoldsSingle(s, id) {
      var k := IndexOf(s.batch.value.entries, id);
      StepKeepsUniform(s, k, ExpireIfDue(s.batch.value.entries[k], now), now, clock);
    }
  }

  lemma SnapshotEvolves(s: Store, id: nat, now: nat, clock: nat)
    requires Uniform(s, clock) && now <= clock
    ensures var t := SnapshotOf(s, id, now).0; Evolution(s, t, now, None) && Uniform(t, clock)
    ensures var t := Current(s, now).0; Evolution(s, t, now, None) && Uniform(t, clock)
  {
    hide SnapshotOfBatch, BatchState;
  }

  lemma TakeEvolves(s: Store, id: nat, now: nat, clock: nat)
    requires Uniform(s, clock) && now <= clock
    ensures var t := TakeAuthorized(s, id, now).0; Evolution(s, t, now, None) && Uniform(t, clock)
  {
    hide WithStep;
    if HoldsStep(s, id) && !HoldsSingle(s, id) {
      var k := IndexOf(s.batch.value.entries, id);
      StepKeepsUniform(s, k, TakeEntry(s.batch.value.entries[k], now).0, now, clock);
    }
  }

  lemma LockEvolves(s: Store, now: nat, clock: nat)
    requires Uniform(s, clock)
    ensures var t := InvalidateForLock(s).0; Evolution(s, t, now, None) && Uniform(t, clock)
  {
    hide LiveOf, HashesOf;
    var t := InvalidateForLock(s).0;
    if s.batch.Some? {
      LockingEvolves(s.batch.value.entries, now);
      hide AllLocked;
    }
  }

  lemma LockingEvolves(es: seq<Entry>, now: nat)
    ensures var fs := AllLocked(es);
            && StepsEvolve(es, fs, now, false) && NoneIs(fs, Pending) && (NoneIs(fs, Expired) <==> NoneIs(es, Expired))
            && forall k :: 0 <= k < |es| ==> fs[k].expiresAt == es[k].expiresAt
  {
    var fs := AllLocked(es);
    assert forall k :: 0 <= k < |es| ==> fs[k] == LockedEntry(es[k]);
  }

  // ---------- what the log says ----------

  predicate IsEnd(ev: Event) {
    ev.Rejected? || ev.Released?
  }

  ghost predicate IssuedOnce(log: seq<Event>) {
    forall i, j :: 0 <= i < j < |log| && log[i].Issued? && log[j].Issued? ==> log[i].request.id != log[j].request.id
  }

  /** Every request meets at most one end: one rejection report or one release. */
  ghost predicate EndsOnce(log: seq<Event>) {
    forall i, j :: 0 <= i < j < |log| && IsEnd(log[i]) && IsEnd(log[j]) ==> log[i].id != log[j].id
  }

  ghost predicate Unended(log: seq<Event>, id: nat) {
    forall i :: 0 <= i < |log| && IsEnd(log[i]) ==> log[i].id != id
  }

  ghost predicate IssuedWith(log: seq<Event>, i: int, key: Key) {
    0 <= i < |log| && log[i].Issued? && KeyOf(log[i].request.id, log[i].batch) == key
  }

  /** The approval is in the log, after every request it covers was issued. */
  ghost predicate Covered(log: seq<Event>, approval: Event)
    requires approval.Approved?
  {
    exists k :: 0 <= k < |log| && log[k] == approval && forall i :: IssuedWith(log, i, approval.key) ==> i < k
  }

  /** A release the gate may make: issued, intact, in time, and approved in between. */
  ghost predicate Justified(log: seq<Event>, release: Event)
    requires release.Released?
  {
    exists i, k :: 0 <= i < k < |log| && JustifiedBy(log[i], log[k], release)
  }

  ghost predicate JustifiedBy(issue: Event, approval: Event, release: Event)
    requires release.Released?
  {
    && issue.Issued?
    && issue.request.id == release.id
    && release.payload ==
         Payload(issue.request.payloadHash, issue.request.unsignedXdr, issue.request.summary, issue.request.intent)
    && release.payload.payloadHash == PayloadHashOfXdr(release.payload.unsignedXdr)
    && release.at < issue.at + APPROVAL_TTL
    && approval == Approved(KeyOf(release.id, issue.batch), WayOf(issue.request.mode))
  }

  ghost predicate AllJustified(log: seq<Event>) {
    forall i :: 0 <= i < |log| && log[i].Released? ==> Justified(log[..i], log[i])
  }

  ghost predicate SoundIssue(ev: Event, low: nat, high: nat, lowBatch: nat, highBatch: nat)
    requires ev.Issued?
  {
    && low < ev.request.id <= high
    && ev.request.payloadHash == PayloadHashOfXdr(ev.request.unsignedXdr)
    && (ev.batch.Some? ==> lowBatch < ev.batch.value <= highBatch && ev.request.mode.TouchId?)
  }

  ghost predicate SoundIssues(log: seq<Event>, low: nat, high: nat, lowBatch: nat, highBatch: nat) {
    forall i :: 0 <= i < |log| && log[i].Issued? ==> SoundIssue(log[i], low, high, lowBatch, highBatch)
  }

  ghost predicate EndsBelow(log: seq<Event>, high: nat) {
    forall i :: 0 <= i < |log| && IsEnd(log[i]) ==> log[i].id <= high
  }

  ghost predicate SoundLog(log: seq<Event>, nextId: nat, nextBatchId: nat) {
    && SoundIssues(log, 0, nextId, 0, nextBatchId)
    && EndsBelow(log, nextId)
    && IssuedOnce(log)
    && EndsOnce(log)
    && AllJustified(log)
  }

  lemma JustifiedLater(log: seq<Event>, more: seq<Event>, release: Event)
    requires release.Released? && Justified(log, release)
    ensures Justified(log + more, release)
  {
    var i, k :| 0 <= i < k < |log| && JustifiedBy(log[i], log[k], release);
    assert (log + more)[i] == log[i] && (log + more)[k] == log[k];
  }

  lemma CoveredLater(log: seq<Event>, more: seq<Event>, approval: Event)
    requires approval.Approved? && Covered(log, approval)
    requires forall i :: 0 <= i < |more| ==> !IssuedWith(more, i, approval.key)
    ensures Covered(log + more, approval)
  {
    var k :| 0 <= k < |log| && log[k] == approval && forall i :: IssuedWith(log, i, approval.key) ==> i < k;
    forall i | IssuedWith(log + more, i, approval.key) ensures i < k {
      if i < |log| {
        assert IssuedWith(log, i, approval.key);
      } else {
        assert IssuedWith(more, i - |log|, approval.key);
      }
    }
    assert (log + more)[k] == approval;
  }

  /** What a step may append to a sound log. */
  ghost predicate Appendable(log: seq<Event>, more: seq<Event>, nextId: nat, nextId': nat, nextBatchId: nat,
      nextBatchId': nat) {
    && SoundIssues(more, nextId, nextId', nextBatchId, nextBatchId')
    && EndsBelow(more, nextId)
    && IssuedOnce(more)
    && EndsOnce(more)
    && (forall i :: 0 <= i < |more| && IsEnd(more[i]) ==> Unended(log, more[i].id))
    && (forall i :: 0 <= i < |more| && more[i].Released? ==> Justified(log, more[i]))
  }

  lemma SoundLogGrows(log: seq<Event>, more: seq<Event>, nextId: nat, nextId': nat, nextBatchId: nat, nextBatchId': nat)
    requires SoundLog(log, nextId, nextBatchId) && nextId <= nextId' && nextBatchId <= nextBatchId'
    requires Appendable(log, more, nextId, nextId', nextBatchId, nextBatchId')
    ensures SoundLog(log + more, nextId', nextBatchId')
  {
    hide Justified, AllJustified;
    JustifiedGrows(log, more);
  }

  lemma JustifiedGrows(log: seq<Event>, more: seq<Event>)
    requires AllJustified(log) && forall i :: 0 <= i < |more| && more[i].Released? ==> Justified(log, more[i])
    ensures AllJustified(log + more)
  {
    hide Justified;
    var whole := log + more;
    forall i | 0 <= i < |whole| && whole[i].Released? ensures Justified(whole[..i], whole[i]) {
      if i < |log| {
        assert whole[..i] == log[..i];
      } else {
        assert whole[..i] == log + more[..i - |log|];
        JustifiedLater(log, more[..i - |log|], whole[i]);
      }
    }
  }

  // ---------- the invariant of every run ----------

  /** An entry of the store as the log knows it. */
  ghost predicate SoundEntry(log: seq<Event>, e: Entry, batch: Option<nat>) {
    && e.expiresAt >= APPROVAL_TTL
    && Issued(e.request, e.expiresAt - APPROVAL_TTL, batch) in log
    && (e.state.Authorized? ==> Covered(log, Approved(KeyOf(e.request.id, batch), WayOf(e.request.mode))))
    && (Live(e.state) ==> Unended(log, e.request.id))
  }

  ghost predicate SoundStore(log: seq<Event>, s: Store) {
    && (s.current.Some? ==> s.batch.None? && SoundEntry(log, s.current.value, None))
    && (s.batch.Some? ==>
          && 0 < s.batch.value.id <= s.nextBatchId
          && DistinctIds(s.batch.value.entries)
          && forall k ::
               0 <= k < |s.batch.value.entries| ==> SoundEntry(log, s.batch.value.entries[k], Some(s.batch.value.id)))
  }

  ghost predicate KnownKey(s: Store, key: Key) {
    if key.Single? then key.id <= s.nextId else key.batchId <= s.nextBatchId
  }

  ghost predicate SoundThread(log: seq<Event>, s: Store, t: Thread) {
    && KnownKey(s, t.key)
    && (t.phase.Prompting? ==> forall i :: IssuedWith(log, i, t.key) ==> log[i].request.mode.TouchId?)
    && (t.phase == Answered(true) ==>
          forall i :: IssuedWith(log, i, t.key) ==> Covered(log, Approved(t.key, WayOf(log[i].request.mode))))
  }

  ghost predicate SoundThreads(log: seq<Event>, s: Store, threads: map<nat, Thread>) {
    forall t :: t in threads ==> SoundThread(log, s, threads[t])
  }

  ghost predicate Inv(sys: Sys) {
    && SoundLog(sys.log, sys.store.nextId, sys.store.nextBatchId)
    && SoundStore(sys.log, sys.store)
    && Uniform(sys.store, sys.clock)
    && SoundThreads(sys.log, sys.store, sys.threads)
  }

  /** Fresh requests never fall under a key that is already known. */
  lemma FreshKeys(more: seq<Event>, s: Store, s': Store, key: Key)
    requires SoundIssues(more, s.nextId, s'.nextId, s.nextBatchId, s'.nextBatchId) && KnownKey(s, key)
    ensures forall i :: !IssuedWith(more, i, key)
  {
  }

  lemma SoundThreadLater(log: seq<Event>, more: seq<Event>, s: Store, s': Store, t: Thread)
    requires SoundThread(log, s, t) && s.nextId <= s'.nextId && s.nextBatchId <= s'.nextBatchId
    requires SoundIssues(more, s.nextId, s'.nextId, s.nextBatchId, s'.nextBatchId)
    ensures SoundThread(log + more, s', t)
  {
    hide Covered;
    FreshKeys(more, s, s', t.key);
    forall i | IssuedWith(log + more, i, t.key)
      ensures IssuedWith(log, i, t.key)
      ensures t.phase == Answered(true) ==> Covered(log + more, Approved(t.key, WayOf((log + more)[i].request.mode)))
    {
      assert !IssuedWith(more, i - |log|, t.key);
      if t.phase == Answered(true) {
        CoveredLater(log, more, Approved(t.key, WayOf(log[i].request.mode)));
      }
    }
  }

  /** A request issued under a key carries the mode every other request of that key carries. */
  lemma IssuedUnderKey(log: seq<Event>, s: Store, ev: Event, i: nat, key: Key)
    requires SoundLog(log, s.nextId, s.nextBatchId)
    requires ev.Issued? && ev in log && KeyOf(ev.request.id, ev.batch) == key && IssuedWith(log, i, key)
    ensures log[i].request.mode == ev.request.mode
  {
    hide AllJustified, EndsOnce;
    var j :| 0 <= j < |log| && log[j] == ev;
    assert key.Single? ==> i == j;
  }

  /** An entry that evolves without new issues stays sound, given the coverage of a granted prompt. */
  lemma SoundEntryEvolves(log: seq<Event>, more: seq<Event>, e: Entry, f: Entry, batch: Option<nat>, now: nat,
      granted: bool)
    requires SoundEntry(log, e, batch) && Evolves(e, f, now, granted)
    requires forall i :: 0 <= i < |more| ==> !more[i].Issued?
    requires granted ==> Covered(log, Approved(KeyOf(e.request.id, batch), WayOf(e.request.mode)))
    requires Live(f.state) ==> Unended(more, f.request.id)
    ensures SoundEntry(log + more, f, batch)
  {
    hide Covered;
    if f.state.Authorized? {
      CoveredLater(log, more, Approved(KeyOf(e.request.id, batch), WayOf(e.request.mode)));
    }
  }

  ghost predicate GrantCovered(log: seq<Event>, grant: Option<Key>) {
    grant.Some? ==>
      forall i :: IssuedWith(log, i, grant.value) ==> Covered(log, Approved(grant.value, WayOf(log[i].request.mode)))
  }

  lemma GrantedEntryEvolves(log: seq<Event>, more: seq<Event>, e: Entry, f: Entry, batch: Option<nat>, now: nat,
      grant: Option<Key>)
    requires SoundEntry(log, e, batch) && GrantCovered(log, grant)
    requires Evolves(e, f, now, grant == Some(KeyOf(e.request.id, batch)))
    requires forall i :: 0 <= i < |more| ==> !more[i].Issued?
    requires Live(f.state) ==> Unended(more, f.request.id)
    ensures SoundEntry(log + more, f, batch)
  {
    hide Covered, Unended, Evolves;
    var i :| 0 <= i < |log| && log[i] == Issued(e.request, e.expiresAt - APPROVAL_TTL, batch);
    assert IssuedWith(log, i, KeyOf(e.request.id, batch));
    SoundEntryEvolves(log, more, e, f, batch, now, grant == Some(KeyOf(e.request.id, batch)));
  }

  lemma SoundStoreEvolves(log: seq<Event>, more: seq<Event>, s: Store, t: Store, now: nat, grant: Option<Key>)
    requires SoundStore(log, s) && Evolution(s, t, now, grant) && GrantCovered(log, grant)
    requires forall i :: 0 <= i < |more| ==> !more[i].Issued?
    requires forall k :: 0 <= k < |Entries(t)| && Live(Entries(t)[k].state) ==> Unended(more, Entries(t)[k].request.id)
    ensures SoundStore(log + more, t)
  {
    hide Covered, Unended, SoundEntry, Evolves;
    if s.current.Some? {
      assert Entries(t)[0] == t.current.value;
      GrantedEntryEvolves(log, more, s.current.value, t.current.value, None, now, grant);
    }
    if s.batch.Some? {
      var b := s.batch.value;
      assert Entries(t) == t.batch.value.entries;
      forall k | 0 <= k < |b.entries| ensures SoundEntry(log + more, t.batch.value.entries[k], Some(b.id)) {
        GrantedEntryEvolves(log, more, b.entries[k], t.batch.value.entries[k], Some(b.id), now, grant);
      }
      SameIds(b.entries, t.batch.value.entries, now, grant == Some(Group(b.id)));
    }
  }

  lemma SameIds(es: seq<Entry>, fs: seq<Entry>, now: nat, granted: bool)
    requires DistinctIds(es) && StepsEvolve(es, fs, now, granted)
    ensures DistinctIds(fs)
  {
    forall j, k | 0 <= j < k < |fs| ensures fs[j].request.id != fs[k].request.id {
      assert Evolves(es[j], fs[j], now, granted) && Evolves(es[k], fs[k], now, granted);
    }
  }

  // ---------- what each step appends ----------

  lemma KnownEntry(log: seq<Event>, s: Store, k: nat)
    requires SoundLog(log, s.nextId, s.nextBatchId) && SoundStore(log, s) && k < |Entries(s)|
    ensures SoundEntry(log, Entries(s)[k], if s.batch.Some? then Some(s.batch.value.id) else None)
    ensures Entries(s)[k].request.id <= s.nextId
    ensures Entries(s)[k].request.payloadHash == PayloadHashOfXdr(Entries(s)[k].request.unsignedXdr)
  {
    hide SoundStore, SoundEntry, SoundIssues, AllJustified, EndsOnce, IssuedOnce, EndsBelow, Entries;
    EntryIsSound(log, s, k);
    IssueOfEntry(log, Entries(s)[k], if s.batch.Some? then Some(s.batch.value.id) else None, s.nextId, s.nextBatchId);
  }

  lemma EntryIsSound(log: seq<Event>, s: Store, k: nat)
    requires SoundStore(log, s) && k < |Entries(s)|
    ensures SoundEntry(log, Entries(s)[k], if s.batch.Some? then Some(s.batch.value.id) else None)
  {
    hide SoundEntry;
  }

  lemma IssueOfEntry(log: seq<Event>, e: Entry, batch: Option<nat>, nextId: nat, nextBatchId: nat)
    requires SoundIssues(log, 0, nextId, 0, nextBatchId) && SoundEntry(log, e, batch)
    ensures e.request.id <= nextId && e.request.payloadHash == PayloadHashOfXdr(e.request.unsignedXdr)
  {
    hide Covered, Unended, PayloadHashOfXdr;
    var i :| 0 <= i < |log| && log[i] == Issued(e.request, e.expiresAt - APPROVAL_TTL, batch);
    assert SoundIssue(log[i], 0, nextId, 0, nextBatchId);
  }

  ghost predicate LiveEntriesOf(es: seq<Entry>, s: Store) {
    DistinctIds(es) && forall k :: 0 <= k < |es| ==> es[k] in Entries(s) && Live(es[k].state)
  }

  /** Reporting live entries as rejected keeps the log sound. */
  lemma RejectionsAppend(log: seq<Event>, s: Store, es: seq<Entry>, reason: string)
    requires SoundLog(log, s.nextId, s.nextBatchId) && SoundStore(log, s) && LiveEntriesOf(es, s)
    ensures Appendable(log, RejectionsOf(es, reason), s.nextId, s.nextId, s.nextBatchId, s.nextBatchId)
  {
    hide SoundLog, SoundStore, Unended, Justified;
    forall k | 0 <= k < |es| ensures es[k].request.id <= s.nextId && Unended(log, es[k].request.id) {
      var j :| 0 <= j < |Entries(s)| && Entries(s)[j] == es[k];
      KnownEntry(log, s, j);
    }
  }

  lemma {:induction false} LiveOfIsDistinct(es: seq<Entry>)
    requires DistinctIds(es)
    ensures DistinctIds(LiveOf(es))
  {
    if es != [] {
      var front, last := es[..|es| - 1], es[|es| - 1];
      LiveOfIsDistinct(front);
      var kept := LiveOf(front);
      forall k | 0 <= k < |kept| ensures kept[k].request.id != last.request.id {
        assert kept[k] in front;
      }
    }
  }

  lemma LiveEntriesAreLive(log: seq<Event>, s: Store)
    requires SoundStore(log, s)
    ensures LiveEntriesOf(LiveOf(Entries(s)), s)
  {
    hide SoundEntry, LiveOf;
    LiveOfIsDistinct(Entries(s));
  }

  ghost predicate NoneIssued(more: seq<Event>) {
    forall i :: 0 <= i < |more| ==> !more[i].Issued?
  }

  /** No entry still live is reported as ended. */
  ghost predicate EndsAreDead(more: seq<Event>, t: Store) {
    forall k :: 0 <= k < |Entries(t)| && Live(Entries(t)[k].state) ==> Unended(more, Entries(t)[k].request.id)
  }

  ghost predicate Appends(log: seq<Event>, more: seq<Event>, s: Store, t: Store) {
    && NoneIssued(more)
    && Appendable(log, more, s.nextId, s.nextId, s.nextBatchId, s.nextBatchId)
    && EndsAreDead(more, t)
  }

  lemma LockAppends(log: seq<Event>, s: Store)
    requires SoundLog(log, s.nextId, s.nextBatchId) && SoundStore(log, s)
    ensures var t := InvalidateForLock(s).0;
            Appends(log, RejectionsOf(LiveOf(Entries(s)), LOCKED_REASON), s, t)
    ensures forall k :: 0 <= k < |Entries(InvalidateForLock(s).0)| ==> !Live(Entries(InvalidateForLock(s).0)[k].state)
  {
    hide LiveOf, SoundLog, SoundStore, Appendable, Unended, HashesOf;
    LiveEntriesAreLive(log, s);
    RejectionsAppend(log, s, LiveOf(Entries(s)), LOCKED_REASON);
  }

  lemma DenyAppends(log: seq<Event>, s: Store, id: nat, now: nat)
    requires SoundLog(log, s.nextId, s.nextBatchId) && SoundStore(log, s) && Deny(s, id, now).1.Ok?
    ensures Appends(log,
                    RejectionsOf(if HoldsStep(s, id) then s.batch.value.entries else [s.current.value], DENIED_REASON),
                    s, Deny(s, id, now).0)
  {
    hide SoundLog, Appendable, SoundEntry, DenyBatch, DenyEntry, IndexOf;
    var es := if HoldsStep(s, id) then s.batch.value.entries else [s.current.value];
    hide Deny, HoldsStep;
    assert s.batch.Some? ==> s.current.None? && DistinctIds(s.batch.value.entries);
    hide SoundStore;
    DeniedAreLive(s, id, now);
    RejectionsAppend(log, s, es, DENIED_REASON);
    RejectionsAreRejections(es, DENIED_REASON);
  }

  lemma RejectionsAreRejections(es: seq<Entry>, reason: string)
    ensures NoneIssued(RejectionsOf(es, reason))
  {
  }

  /** A denial is of live entries, all of which it leaves denied. */
  lemma DeniedAreLive(s: Store, id: nat, now: nat)
    requires Deny(s, id, now).1.Ok? && (s.batch.Some? ==> s.current.None? && DistinctIds(s.batch.value.entries))
    ensures LiveEntriesOf(if HoldsStep(s, id) then s.batch.value.entries else [s.current.value], s)
    ensures var t := Deny(s, id, now).0;
            forall k :: 0 <= k < |Entries(t)| ==> !Live(Entries(t)[k].state)
  {
    hide BatchState, AnyNotIn, IndexOf;
    if HoldsStep(s, id) {
      NoneOther(s.batch.value.entries, Pending);
    }
  }

  lemma CoveredAfter(log: seq<Event>, approval: Event, i: nat) returns (k: nat)
    requires approval.Approved? && Covered(log, approval) && IssuedWith(log, i, approval.key)
    ensures i < k < |log| && log[k] == approval
  {
    k :| 0 <= k < |log| && log[k] == approval && forall i :: IssuedWith(log, i, approval.key) ==> i < k;
  }

  lemma TakenIsJustified(log: seq<Event>, s: Store, k: nat, now: nat)
    requires SoundLog(log, s.nextId, s.nextBatchId) && SoundStore(log, s) && k < |Entries(s)|
    requires Entries(s)[k].state.Authorized? && now < Entries(s)[k].expiresAt
    ensures Justified(log, Released(Entries(s)[k].request.id, PayloadOf(Entries(s)[k]), now))
    ensures Unended(log, Entries(s)[k].request.id) && Entries(s)[k].request.id <= s.nextId
  {
    hide SoundLog, SoundStore, Unended, Covered, Entries;
    var e := Entries(s)[k];
    KnownEntry(log, s, k);
    var batch := if s.batch.Some? then Some(s.batch.value.id) else None;
    var key := KeyOf(e.request.id, batch);
    var approval := Approved(key, WayOf(e.request.mode));
    var i :| 0 <= i < |log| && log[i] == Issued(e.request, e.expiresAt - APPROVAL_TTL, batch);
    var j := CoveredAfter(log, approval, i);
    assert JustifiedBy(log[i], log[j], Released(e.request.id, PayloadOf(e), now));
  }

  /** A release comes from one authorized entry in time, and leaves that entry dead. */
  lemma TakeReleasesOne(s: Store, id: nat, now: nat) returns (k: nat)
    requires TakeAuthorized(s, id, now).1.Ok?
    requires DistinctIds(Entries(s))
    ensures k < |Entries(s)| && Entries(s)[k].request.id == id
            && Entries(s)[k].state.Authorized? && now < Entries(s)[k].expiresAt
    ensures TakeAuthorized(s, id, now).1.value == PayloadOf(Entries(s)[k])
    ensures Entries(TakeAuthorized(s, id, now).0) == Entries(s)[k := Entries(s)[k].(state := Consumed)]
  {
    k := if HoldsSingle(s, id) then 0
         else (if s.current.Some? then 1 else 0) + IndexOf(s.batch.value.entries, id);
  }

  lemma TakeAppends(log: seq<Event>, s: Store, id: nat, now: nat)
    requires SoundLog(log, s.nextId, s.nextBatchId) && SoundStore(log, s) && TakeAuthorized(s, id, now).1.Ok?
    ensures var (t, r) := TakeAuthorized(s, id, now); Appends(log, [Released(id, r.value, now)], s, t)
  {
    hide TakeAuthorized, SoundLog, Justified, Unended, SoundEntry;
    assert DistinctIds(Entries(s));
    hide SoundStore, Entries;
    var k := TakeReleasesOne(s, id, now);
    TakenIsJustified(log, s, k, now);
    var (t, r) := TakeAuthorized(s, id, now);
    ReleaseAppends(log, Released(id, r.value, now), s.nextId, s.nextBatchId);
    forall j | 0 <= j < |Entries(t)| && Live(Entries(t)[j].state)
      ensures Unended([Released(id, r.value, now)], Entries(t)[j].request.id)
    {
      assert j != k && (if j < k then Entries(s)[j].request.id != Entries(s)[k].request.id
                        else Entries(s)[k].request.id != Entries(s)[j].request.id);
      UnendedByRelease(Released(id, r.value, now), Entries(t)[j].request.id);
    }
  }

  lemma UnendedByRelease(release: Event, id: nat)
    requires release.Released? && release.id != id
    ensures Unended([release], id)
  {
  }

  lemma ReleaseAppends(log: seq<Event>, release: Event, nextId: nat, nextBatchId: nat)
    requires release.Released? && Justified(log, release) && Unended(log, release.id) && release.id <= nextId
    ensures NoneIssued([release]) && Appendable(log, [release], nextId, nextId, nextBatchId, nextBatchId)
  {
    hide Justified, Unended;
  }

  // ---------- beginning ----------

  ghost predicate FreshEntries(es: seq<Entry>, s: Store, at: nat, batch: Option<nat>) {
    forall k :: 0 <= k < |es| ==>
      && es[k].request.id == s.nextId + 1 + k && es[k].state.Pending? && es[k].expiresAt == at + APPROVAL_TTL
      && es[k].request.payloadHash == PayloadHashOfXdr(es[k].request.unsignedXdr)
      && (batch.Some? ==> batch.value == s.nextBatchId + 1 && es[k].request.mode.TouchId?)
  }

  function Replacing(s: Store, es: seq<Entry>, at: nat, batch: Option<nat>): seq<Event> {
    RejectionsOf(LiveOf(Entries(s)), SUPERSEDED_REASON) + IssuesOf(es, at, batch)
  }

  lemma ReplacingAppends(log: seq<Event>, s: Store, es: seq<Entry>, at: nat, batch: Option<nat>)
    requires SoundLog(log, s.nextId, s.nextBatchId) && SoundStore(log, s) && FreshEntries(es, s, at, batch)
    ensures Appendable(log, Replacing(s, es, at, batch), s.nextId, s.nextId + |es|,
                       s.nextBatchId, if batch.Some? then s.nextBatchId + 1 else s.nextBatchId)
    ensures forall k :: 0 <= k < |es| ==> SoundEntry(log + Replacing(s, es, at, batch), es[k], batch)
  {
    hide LiveOf, SoundStore, Justified, AllJustified, EndsOnce, IssuedOnce, SoundEntry, SoundIssues, FreshEntries,
        Unended, RejectionsOf, IssuesOf, EndsBelow;
    LiveEntriesAreLive(log, s);
    var r := RejectionsOf(LiveOf(Entries(s)), SUPERSEDED_REASON);
    RejectionsAppend(log, s, LiveOf(Entries(s)), SUPERSEDED_REASON);
    var issues := IssuesOf(es, at, batch);
    assert NoneIssued(r) && (forall i :: 0 <= i < |issues| ==> issues[i].Issued?)
      by { hide EndsBelow; RejectionsAreEnds(LiveOf(Entries(s)), SUPERSEDED_REASON); AllIssues(es, at, batch); }
    IssuesFollow(r, issues, es, s, at, batch);
    forall k | 0 <= k < |es| ensures SoundEntry(log + (r + issues), es[k], batch) {
      FreshIsSound(log, r, es, s, at, batch, k);
    }
  }

  lemma FreshIsSound(log: seq<Event>, r: seq<Event>, es: seq<Entry>, s: Store, at: nat, batch: Option<nat>, k: nat)
    requires FreshEntries(es, s, at, batch) && k < |es|
    requires EndsBelow(log, s.nextId) && EndsBelow(r, s.nextId)
    ensures SoundEntry(log + (r + IssuesOf(es, at, batch)), es[k], batch)
  {
    hide PayloadHashOfXdr;
    var whole := log + (r + IssuesOf(es, at, batch));
    assert whole[|log| + |r| + k] == Issued(es[k].request, at, batch);
    forall i | 0 <= i < |whole| && IsEnd(whole[i]) ensures whole[i].id != es[k].request.id {
      assert i < |log| + |r|;
      assert whole[i] == if i < |log| then log[i] else r[i - |log|];
    }
  }

  lemma RejectionsAreEnds(es: seq<Entry>, reason: string)
    ensures NoneIssued(RejectionsOf(es, reason))
    ensures forall i :: 0 <= i < |RejectionsOf(es, reason)| ==> RejectionsOf(es, reason)[i].Rejected?
  {
  }

  lemma AllIssues(es: seq<Entry>, at: nat, batch: Option<nat>)
    ensures forall i :: 0 <= i < |IssuesOf(es, at, batch)| ==> IssuesOf(es, at, batch)[i].Issued?
  {
  }

  lemma IssuesFollow(r: seq<Event>, issues: seq<Event>, es: seq<Entry>, s: Store, at: nat, batch: Option<nat>)
    requires NoneIssued(r) && EndsBelow(r, s.nextId) && EndsOnce(r)
    requires FreshEntries(es, s, at, batch) && issues == IssuesOf(es, at, batch)
    ensures SoundIssues(r + issues, s.nextId, s.nextId + |es|, s.nextBatchId,
                        if batch.Some? then s.nextBatchId + 1 else s.nextBatchId)
    ensures EndsBelow(r + issues, s.nextId) && EndsOnce(r + issues) && IssuedOnce(r + issues)
  {
    hide PayloadHashOfXdr;
  }

  lemma SingleIsFresh(s: Store, r: Request, allowWalletOnly: bool, now: nat)
    requires StoreRequest(s, r, allowWalletOnly, now).1.Ok?
    ensures FreshEntries([NewEntry(r, s.nextId + 1, now)], s, now, None)
    ensures EmittedByBegin(s, r, allowWalletOnly, now) == Replacing(s, [NewEntry(r, s.nextId + 1, now)], now, None)
  {
    hide PayloadHashOfXdr, LiveOf;
  }

  lemma {:induction false} AllValid(rs: seq<Request>, k: nat)
    requires FirstInvalid(rs).None? && k < |rs|
    ensures Validate(rs[k], false).None?
    decreases |rs|
  {
    hide Validate;
    if k < |rs| - 1 {
      AllValid(rs[..|rs| - 1], k);
    }
  }

  lemma GroupIsFresh(s: Store, title: string, rs: seq<Request>, now: nat)
    requires BeginBatch(s, title, rs, now).1.Ok?
    ensures FreshEntries(NewEntries(rs, s.nextId, now), s, now, Some(s.nextBatchId + 1))
  {
    hide PayloadHashOfXdr, LiveOf, FirstInvalid;
    forall k | 0 <= k < |rs| ensures Validate(rs[k], false).None? {
      AllValid(rs, k);
    }
  }

  /** A begin that succeeds: the old requests are gone, the new ones sound. */
  lemma SingleBegins(log: seq<Event>, s: Store, r: Request, allowWalletOnly: bool, now: nat)
    requires SoundLog(log, s.nextId, s.nextBatchId) && SoundStore(log, s)
    ensures var t := StoreRequest(s, r, allowWalletOnly, now).0;
            var more := EmittedByBegin(s, r, allowWalletOnly, now);
            Appendable(log, more, s.nextId, t.nextId, s.nextBatchId, t.nextBatchId) && SoundStore(log + more, t)
  {
    hide SoundLog, PayloadHashOfXdr, LiveOf, SoundEntry, Replacing, EmittedByBegin, FreshEntries;
    if StoreRequest(s, r, allowWalletOnly, now).1.Ok? {
      SingleIsFresh(s, r, allowWalletOnly, now);
      var es := [NewEntry(r, s.nextId + 1, now)];
      ReplacingAppends(log, s, es, now, None);
      assert SoundEntry(log + Replacing(s, es, now, None), es[0], None);
    } else {
      NothingAppends(log, s);
      assert EmittedByBegin(s, r, allowWalletOnly, now) == [] by { EmittedByFailure(s, r, allowWalletOnly, now); }
      assert log + [] == log;
    }
  }

  lemma EmittedByFailure(s: Store, r: Request, allowWalletOnly: bool, now: nat)
    requires StoreRequest(s, r, allowWalletOnly, now).1.Err?
    ensures EmittedByBegin(s, r, allowWalletOnly, now) == []
  {
  }

  lemma NothingAppends(log: seq<Event>, s: Store)
    ensures Appends(log, [], s, s)
  {
  }

  lemma GroupBegins(log: seq<Event>, s: Store, title: string, rs: seq<Request>, now: nat)
    requires SoundLog(log, s.nextId, s.nextBatchId) && SoundStore(log, s) && BeginBatch(s, title, rs, now).1.Ok?
    ensures var t := BeginBatch(s, title, rs, now).0;
            var more := Replacing(s, Entries(t), now, Some(t.nextBatchId));
            Appendable(log, more, s.nextId, t.nextId, s.nextBatchId, t.nextBatchId) && SoundStore(log + more, t)
    ensures Entries(BeginBatch(s, title, rs, now).0) == NewEntries(rs, s.nextId, now)
  {
    hide SoundLog, PayloadHashOfXdr, LiveOf, SoundEntry, Replacing, FirstInvalid;
    GroupIsFresh(s, title, rs, now);
    ReplacingAppends(log, s, NewEntries(rs, s.nextId, now), now, Some(s.nextBatchId + 1));
    assert Entries(BeginBatch(s, title, rs, now).0) == NewEntries(rs, s.nextId, now);
  }

  // ---------- the invariant holds in every run ----------

  lemma ApprovedNow(log: seq<Event>, approval: Event)
    requires approval.Approved?
    ensures Covered(log + [approval], approval)
  {
    assert (log + [approval])[|log|] == approval;
    assert forall i :: IssuedWith(log + [approval], i, approval.key) ==> i < |log|;
  }

  lemma ThreadsLater(log: seq<Event>, more: seq<Event>, s: Store, t: Store, threads: map<nat, Thread>)
    requires SoundThreads(log, s, threads) && s.nextId <= t.nextId && s.nextBatchId <= t.nextBatchId
    requires SoundIssues(more, s.nextId, t.nextId, s.nextBatchId, t.nextBatchId)
    ensures SoundThreads(log + more, t, threads)
  {
    hide SoundThread, SoundIssues;
    forall k | k in threads ensures SoundThread(log + more, t, threads[k]) {
      SoundThreadLater(log, more, s, t, threads[k]);
    }
  }

  lemma OneSlot(log: seq<Event>, s: Store)
    requires SoundStore(log, s)
    ensures s.current.None? || s.batch.None?
  {
  }

  /** A thread that just prepared a single request knows the request's mode, and has covered it if it may. */
  lemma PreparedIsSound(sys: Sys, id: nat, path: Path, now: nat)
    requires Inv(sys) && PrepareAuthorize(sys.store, id, now).1.Ok?
    ensures var mode := PrepareAuthorize(sys.store, id, now).1.value.mode;
            var more := if path.InProcess? && mode.WalletOnly? then [Approved(Single(id), WalletPath)] else [];
            SoundThread(sys.log + more, sys.store, Thread(Single(id), PreparedPhase(path, mode)))
  {
    hide SoundLog, SoundStore, SoundThreads, Uniform, Covered, PrepareAuthorize;
    var s, log := sys.store, sys.log;
    PreparedHolds(s, id, now);
    var mode := s.current.value.request.mode;
    var more := if path.InProcess? && mode.WalletOnly? then [Approved(Single(id), WalletPath)] else [];
    HeldModeIsIssued(log, s, more, id);
    if more != [] {
      ApprovedNow(log, Approved(Single(id), WalletPath));
    }
  }

  lemma PreparedHolds(s: Store, id: nat, now: nat)
    requires PrepareAuthorize(s, id, now).1.Ok?
    ensures HoldsSingle(s, id) && PrepareAuthorize(s, id, now).1.value.mode == s.current.value.request.mode
  {
  }

  /** The mode of the held request is the mode it was issued with, and its key is known. */
  lemma HeldModeIsIssued(log: seq<Event>, s: Store, more: seq<Event>, id: nat)
    requires SoundLog(log, s.nextId, s.nextBatchId) && SoundStore(log, s) && HoldsSingle(s, id) && NoneIssued(more)
    ensures KnownKey(s, Single(id))
    ensures forall i :: IssuedWith(log + more, i, Single(id)) ==>
                          (log + more)[i].request.mode == s.current.value.request.mode
  {
    hide SoundLog, SoundStore, Covered, Unended;
    var e := s.current.value;
    assert Entries(s)[0] == e;
    KnownEntry(log, s, 0);
    assert s.batch.None? by { OneSlot(log, s); }
    hide Entries;
    var issue := Issued(e.request, e.expiresAt - APPROVAL_TTL, None);
    forall i | IssuedWith(log + more, i, Single(id)) ensures (log + more)[i].request.mode == e.request.mode {
      assert IssuedWith(log, i, Single(id));
      IssuedUnderKey(log, s, issue, i, Single(id));
    }
  }

  lemma GroupThreadIsSound(sys: Sys, batchId: nat, now: nat)
    requires Inv(sys) && PrepareBatch(sys.store, batchId, now).1.Ok?
    ensures SoundThread(sys.log, sys.store, Thread(Group(batchId), Prompting))
  {
    hide BatchState, EndsOnce, IssuedOnce, AllJustified, SoundThreads, Uniform;
    forall i | IssuedWith(sys.log, i, Group(batchId)) ensures sys.log[i].request.mode.TouchId? {
      assert SoundIssue(sys.log[i], 0, sys.store.nextId, 0, sys.store.nextBatchId);
    }
  }

  lemma AnsweredIsSound(sys: Sys, t: nat, ok: bool)
    requires Inv(sys) && InPhase(sys, t, Prompting)
    ensures var key := sys.threads[t].key;
            SoundThread(sys.log + (if ok then [Approved(key, TouchPrompt)] else []),
                        sys.store, Thread(key, Answered(ok)))
  {
    hide SoundLog, SoundStore, Uniform, Covered;
    var key := sys.threads[t].key;
    assert SoundThread(sys.log, sys.store, sys.threads[t]);
    if ok {
      var log' := sys.log + [Approved(key, TouchPrompt)];
      ApprovedNow(sys.log, Approved(key, TouchPrompt));
      forall i | IssuedWith(log', i, key) ensures log'[i].request.mode.TouchId? {
        assert IssuedWith(sys.log, i, key);
      }
    }
  }

  /** Every step but a begin lets the store evolve and appends what that allows. */
  lemma StepEvolves(sys: Sys, a: Action)
    requires Inv(sys) && Enabled(sys, a) && !Begins(a)
    ensures Evolution(sys.store, NextStore(sys, a), NowOf(sys, a), GrantOf(sys, a))
    ensures Uniform(NextStore(sys, a), Next(sys, a).clock)
  {
    hide SoundLog, SoundStore, SoundThreads, Uniform, Evolution;
    var s, clock := sys.store, sys.clock;
    match a
    case Tick(_) => StandsStill(s, clock, Next(sys, a).clock);
    case Answer(_, _) => StandsStill(s, clock, clock);
    case Panic(_) => StandsStill(s, clock, clock);
    case Prepare(_, id, _, now) => PrepareEvolves(s, id, now, clock);
    case PrepareGroup(_, b, now) => PrepareBatchEvolves(s, b, now, clock);
    case Finish(t, now) => FinishEvolves(s, sys.threads[t].key, sys.threads[t].phase.ok, now, clock);
    case Drop(t) => DropEvolves(s, sys.threads[t].key, clock, clock);
    case Exit(t, now) => ExitEvolves(s, sys.threads[t].key, sys.threads[t].phase.ok, now, clock);
    case DenyOne(id, now) => DenyEvolves(s, id, now, clock);
    case AskStatus(id, now) => StatusEvolves(s, id, now, clock);
    case AskSnapshot(id, now) => SnapshotEvolves(s, id, now, clock);
    case AskCurrent(now) => SnapshotEvolves(s, 0, now, clock);
    case Take(id, now) => TakeEvolves(s, id, now, clock);
    case Lock => LockEvolves(s, clock, clock);
  }

  lemma StandsStill(s: Store, clock: nat, later: nat)
    requires Uniform(s, clock) && clock <= later
    ensures Evolution(s, s, clock, None) && Uniform(s, later)
  {
  }

  lemma StepAppends(sys: Sys, a: Action)
    requires Inv(sys) && Enabled(sys, a) && !Begins(a)
    ensures Appends(sys.log, Emitted(sys, a), sys.store, NextStore(sys, a))
  {
    hide SoundThreads, Uniform, SoundLog, SoundStore, Appends;
    var s, log := sys.store, sys.log;
    var t := NextStore(sys, a);
    match a
    case DenyOne(id, now) =>
      if Deny(s, id, now).1.Ok? { DenyAppends(log, s, id, now); } else { NoEvent(log, s, t); }
    case Take(id, now) =>
      if TakeAuthorized(s, id, now).1.Ok? { TakeAppends(log, s, id, now); } else { NoEvent(log, s, t); }
    case Lock => LockAppends(log, s);
    case Prepare(_, id, _, now) => NoEvent(log, s, t); ApprovalEvent(log, s, t, Approved(Single(id), WalletPath));
    case Answer(k, _) => NoEvent(log, s, t); ApprovalEvent(log, s, t, Approved(sys.threads[k].key, TouchPrompt));
    case _ => NoEvent(log, s, t);
  }

  lemma NoEvent(log: seq<Event>, s: Store, t: Store)
    ensures Appends(log, [], s, t)
  {
  }

  lemma ApprovalEvent(log: seq<Event>, s: Store, t: Store, approval: Event)
    requires approval.Approved?
    ensures Appends(log, [approval], s, t)
  {
  }

  lemma GrantIsCovered(sys: Sys, a: Action)
    requires Inv(sys) && Enabled(sys, a)
    ensures GrantCovered(sys.log, GrantOf(sys, a))
  {
    hide SoundLog, SoundStore, Uniform, Covered;
    if GrantOf(sys, a).Some? {
      assert SoundThread(sys.log, sys.store, sys.threads[a.thread]);
    }
  }

  lemma ThreadsKeep(sys: Sys, a: Action)
    requires Inv(sys) && Enabled(sys, a) && !Begins(a)
    requires SoundThreads(sys.log + Emitted(sys, a), NextStore(sys, a), sys.threads)
    requires NextStore(sys, a).nextId == sys.store.nextId && NextStore(sys, a).nextBatchId == sys.store.nextBatchId
    ensures SoundThreads(sys.log + Emitted(sys, a), NextStore(sys, a), NextThreads(sys, a))
  {
    hide Inv, Covered;
    var log', t := sys.log + Emitted(sys, a), NextStore(sys, a);
    match a
    case Prepare(k, id, path, now) =>
      if PrepareAuthorize(sys.store, id, now).1.Ok? { PreparedIsSound(sys, id, path, now); }
    case PrepareGroup(k, b, now) =>
      if PrepareBatch(sys.store, b, now).1.Ok? {
        GroupThreadIsSound(sys, b, now);
        assert log' == sys.log;
      }
    case Answer(k, ok) => AnsweredIsSound(sys, k, ok);
    case _ =>
  }

  lemma EvolutionKeepsInv(sys: Sys, a: Action)
    requires Inv(sys) && Enabled(sys, a) && !Begins(a)
    ensures Inv(Next(sys, a))
  {
    StepEvolves(sys, a);
    StepAppends(sys, a);
    GrantIsCovered(sys, a);
    hide NextStore, Emitted, NextThreads, GrantOf, NowOf, SoundThreads, Uniform, GrantCovered;
    var s, t, more := sys.store, NextStore(sys, a), Emitted(sys, a);
    SoundLogGrows(sys.log, more, s.nextId, s.nextId, s.nextBatchId, s.nextBatchId);
    SoundStoreEvolves(sys.log, more, s, t, NowOf(sys, a), GrantOf(sys, a));
    ThreadsLater(sys.log, more, s, t, sys.threads);
    ThreadsKeep(sys, a);
  }

  lemma BeginKeepsInv(sys: Sys, a: Action)
    requires Inv(sys) && Enabled(sys, a) && Begins(a)
    ensures Inv(Next(sys, a))
  {
    var s, t, more := sys.store, NextStore(sys, a), Emitted(sys, a);
    assert Appendable(sys.log, more, s.nextId, t.nextId, s.nextBatchId, t.nextBatchId) && SoundStore(sys.log + more, t)
           && s.nextId <= t.nextId && s.nextBatchId <= t.nextBatchId && Uniform(t, sys.clock) by {
      BeginAppends(sys, a);
    }
    hide NextStore, Emitted, NextThreads, SoundThreads, Uniform, SoundStore;
    SoundLogGrows(sys.log, more, s.nextId, t.nextId, s.nextBatchId, t.nextBatchId);
    ThreadsLater(sys.log, more, s, t, sys.threads);
    assert NextThreads(sys, a) == sys.threads by { BeginsTouchNoThread(sys, a); }
  }

  lemma BeginsTouchNoThread(sys: Sys, a: Action)
    requires Enabled(sys, a) && Begins(a)
    ensures NextThreads(sys, a) == sys.threads
  {
  }

  lemma BeginAppends(sys: Sys, a: Action)
    requires Inv(sys) && Enabled(sys, a) && Begins(a)
    ensures var s, t, more := sys.store, NextStore(sys, a), Emitted(sys, a);
            && Appendable(sys.log, more, s.nextId, t.nextId, s.nextBatchId, t.nextBatchId)
            && SoundStore(sys.log + more, t)
            && s.nextId <= t.nextId && s.nextBatchId <= t.nextBatchId && Uniform(t, sys.clock)
  {
    hide SoundLog, SoundStore, Appendable, SoundThreads, EmittedByBegin, StoreRequest, BeginBatch, Uniform, LiveOf,
        RejectionsOf, IssuesOf;
    var s, log := sys.store, sys.log;
    match a
    case Begin(r, now) =>
      SingleBegins(log, s, r, false, now);
      SingleMovesOn(s, r, false, now, sys.clock);
    case BeginWalletOnly(r, now) =>
      SingleBegins(log, s, r.(mode := WalletOnly), true, now);
      SingleMovesOn(s, r.(mode := WalletOnly), true, now, sys.clock);
    case BeginGroup(title, rs, now) =>
      GroupMovesOn(s, title, rs, now, sys.clock);
      if BeginBatch(s, title, rs, now).1.Ok? {
        GroupBegins(log, s, title, rs, now);
      } else {
        Nothing(log, s);
      }
  }

  lemma SingleMovesOn(s: Store, r: Request, allowWalletOnly: bool, now: nat, clock: nat)
    requires Uniform(s, clock)
    ensures var t := StoreRequest(s, r, allowWalletOnly, now).0;
            s.nextId <= t.nextId && s.nextBatchId <= t.nextBatchId && Uniform(t, clock)
  {
    hide Validate, LiveOf;
  }

  lemma GroupMovesOn(s: Store, title: string, rs: seq<Request>, now: nat, clock: nat)
    requires Uniform(s, clock)
    ensures var (t, r) := BeginBatch(s, title, rs, now);
            && s.nextId <= t.nextId && s.nextBatchId <= t.nextBatchId && Uniform(t, clock)
            && (if r.Ok? then r.value.batchId == t.nextBatchId else t == s)
  {
    hide FirstInvalid, LiveOf;
  }

  lemma Nothing(log: seq<Event>, s: Store)
    requires SoundStore(log, s)
    ensures Appendable(log, [], s.nextId, s.nextId, s.nextBatchId, s.nextBatchId) && SoundStore(log + [], s)
  {
    assert log + [] == log;
  }

  lemma StepKeepsInv(sys: Sys, a: Action)
    requires Inv(sys)
    ensures Inv(Next(sys, a))
  {
    hide Inv, NextStore, Emitted, NextThreads;
    if Enabled(sys, a) {
      if Begins(a) { BeginKeepsInv(sys, a); } else { EvolutionKeepsInv(sys, a); }
    }
  }

  lemma {:induction false} RunKeepsInv(sys: Sys, actions: seq<Action>)
    requires Inv(sys)
    ensures Inv(Run(sys, actions))
    decreases |actions|
  {
    hide Inv, Next;
    if actions != [] {
      StepKeepsInv(sys, actions[0]);
      RunKeepsInv(Next(sys, actions[0]), actions[1..]);
    }
  }

  lemma {:induction false} RunSnoc(sys: Sys, actions: seq<Action>, a: Action)
    ensures Run(sys, actions + [a]) == Next(Run(sys, actions), a)
    decreases |actions|
  {
    hide Next;
    if actions == [] {
      assert [a][1..] == [];
      assert [] + [a] == [a];
    } else {
      assert (actions + [a])[1..] == actions[1..] + [a];
      RunSnoc(Next(sys, actions[0]), actions[1..], a);
    }
  }

  lemma {:induction false} RunConcat(sys: Sys, actions: seq<Action>, more: seq<Action>)
    ensures Run(sys, actions + more) == Run(Run(sys, actions), more)
    decreases |actions|
  {
    hide Next;
    if actions == [] {
      assert actions + more == more;
    } else {
      assert (actions + more)[1..] == actions[1..] + more;
      RunConcat(Next(sys, actions[0]), actions[1..], more);
    }
  }
}
