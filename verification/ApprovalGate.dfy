/**
 * The approval gate: at most one live request or one live batch, a latch that marks an open
 * prompt, and a single exit for the unsigned XDR. Each function below is one locked section
 * of the store as a transformation of its value.
 *
 * Identifiers are the gate's counters. A string is its UTF-8 bytes where the gate hashes or
 * measures it, and instants are nanoseconds of the injected clock.
 */
module ApprovalGate {
  import opened Basics
  import Sha256
  import Fips180

  const APPROVAL_TTL: nat := 120_000_000_000
  const MAX_XDR_BYTES: nat := 16 * 1024
  const MAX_BATCH_ITEMS: nat := 8
  const SUPERSEDED_REASON: string := "superseded"
  const DENIED_REASON: string := "denied by user"
  const LOCKED_REASON: string := "wallet locked"

  type Xdr = seq<Fips180.Byte>

  datatype Mode = TouchId | WalletOnly

  datatype EntryState = Pending | Authorized | Denied | Expired | Consumed

  datatype Summary = Summary(title: string, lines: seq<string>)

  datatype Request = Request(
    id: nat,
    payloadHash: string,
    unsignedXdr: Xdr,
    summary: Summary,
    intent: string,
    mode: Mode)

  datatype Entry = Entry(
    request: Request,
    state: EntryState,
    expiresAt: nat,
    inFlight: bool,
    reason: Option<string>)

  datatype Batch = Batch(
    id: nat,
    title: string,
    entries: seq<Entry>,
    expiresAt: nat,
    inFlight: bool)

  datatype Store = Store(
    nextId: nat,
    nextBatchId: nat,
    current: Option<Entry>,
    batch: Option<Batch>)

  datatype Payload = Payload(payloadHash: string, unsignedXdr: Xdr, summary: Summary, intent: string)

  datatype SupersededRequest = SupersededRequest(payloadHash: string, reason: string)

  datatype Begun = Begun(request: Request, superseded: seq<SupersededRequest>)

  datatype BatchBegun = BatchBegun(batchId: nat, ids: seq<nat>, superseded: seq<SupersededRequest>)

  datatype Plan = Plan(mode: Mode, reason: string)

  datatype Status = Status(id: nat, state: EntryState, reason: Option<string>)

  datatype Step = Step(id: nat, title: string, state: EntryState)

  /** What the panel may learn: by type, never the XDR. */
  datatype Snapshot =
    | EntrySnapshot(id: nat, payloadHash: string, summary: Summary, mode: Mode, state: EntryState, expiresAt: nat)
    | BatchSnapshot(batchId: nat, title: string, state: EntryState, steps: seq<Step>, expiresAt: nat)

  datatype BeginError =
    | EmptyXdr
    | OversizedXdr(bytes: nat)
    | HashMismatch
    | WalletOnlyNotAllowed
    | EmptyBatch
    | BatchTooLarge(count: nat)

  datatype GateError = NotFound | NotPending(state: EntryState) | NotAuthorized(state: EntryState) | TimedOut | Busy

  function PayloadHashOfXdr(xdr: Xdr): string {
    Sha256.HexDigest(xdr)
  }

  predicate Live(state: EntryState) {
    state.Pending? || state.Authorized?
  }

  /** Expires a request whose time is up; a dead one keeps its state. */
  function ExpireIfDue(e: Entry, now: nat): Entry {
    if Live(e.state) && now >= e.expiresAt then e.(state := Expired) else e
  }

  function PayloadOf(e: Entry): Payload {
    Payload(e.request.payloadHash, e.request.unsignedXdr, e.request.summary, e.request.intent)
  }

  // ---------- entries of a batch ----------

  predicate AnyIn(es: seq<Entry>, state: EntryState) {
    exists e | e in es :: e.state == state
  }

  predicate AnyNotIn(es: seq<Entry>, state: EntryState) {
    exists e | e in es :: e.state != state
  }

  predicate AnyDue(es: seq<Entry>, now: nat) {
    exists e | e in es :: now >= e.expiresAt
  }

  function WithState(es: seq<Entry>, state: EntryState): (r: seq<Entry>) {
    seq(|es|, k requires 0 <= k < |es| => es[k].(state := state))
  }

  function DeniedEntry(e: Entry, reason: string): Entry {
    e.(state := Denied, inFlight := false, reason := Some(reason))
  }

  function AllDenied(es: seq<Entry>): seq<Entry> {
    seq(|es|, k requires 0 <= k < |es| => DeniedEntry(es[k], DENIED_REASON))
  }

  /** What locking the wallet does to one entry: only a live one changes. */
  function LockedEntry(e: Entry): Entry {
    if Live(e.state) then DeniedEntry(e, LOCKED_REASON) else e
  }

  function AllLocked(es: seq<Entry>): seq<Entry> {
    seq(|es|, k requires 0 <= k < |es| => LockedEntry(es[k]))
  }

  /** The first entry with an id, or the length. */
  function IndexOf(es: seq<Entry>, id: nat): (i: nat)
    ensures i <= |es| && (i < |es| ==> es[i].request.id == id)
    ensures forall k :: 0 <= k < i ==> es[k].request.id != id
  {
    if es == [] || es[0].request.id == id then 0 else 1 + IndexOf(es[1..], id)
  }

  function LiveOf(es: seq<Entry>): (r: seq<Entry>)
    ensures forall e :: e in r <==> e in es && Live(e.state)
  {
    if es == [] then [] else
    if Live(es[|es| - 1].state) then LiveOf(es[..|es| - 1]) + [es[|es| - 1]] else LiveOf(es[..|es| - 1])
  }

  function HashesOf(es: seq<Entry>): seq<string> {
    seq(|es|, k requires 0 <= k < |es| => es[k].request.payloadHash)
  }

  function IdsOf(es: seq<Entry>): seq<nat> {
    seq(|es|, k requires 0 <= k < |es| => es[k].request.id)
  }

  function ReceiptsOf(es: seq<Entry>): seq<(nat, string)> {
    seq(|es|, k requires 0 <= k < |es| => (es[k].request.id, es[k].request.payloadHash))
  }

  function SupersededOf(es: seq<Entry>): seq<SupersededRequest> {
    seq(|es|, k requires 0 <= k < |es| => SupersededRequest(es[k].request.payloadHash, SUPERSEDED_REASON))
  }

  function BatchState(b: Batch, now: nat): EntryState {
    if b.entries == [] then Expired
    else if AnyIn(b.entries, Expired) || AnyDue(b.entries, now) then Expired
    else if AnyIn(b.entries, Denied) then Denied
    else if !AnyNotIn(b.entries, Authorized) then Authorized
    else if AnyIn(b.entries, Consumed) then Consumed
    else Pending
  }

  // ---------- the store as a value ----------

  function Empty(): Store {
    Store(0, 0, None, None)
  }

  /** Everything the store holds: the single request first, then the batch. */
  function Entries(s: Store): seq<Entry> {
    (if s.current.Some? then [s.current.value] else []) + (if s.batch.Some? then s.batch.value.entries else [])
  }

  function Validate(r: Request, allowWalletOnly: bool): Option<BeginError> {
    if r.unsignedXdr == [] then Some(EmptyXdr)
    else if |r.unsignedXdr| > MAX_XDR_BYTES then Some(OversizedXdr(|r.unsignedXdr|))
    else if r.payloadHash != PayloadHashOfXdr(r.unsignedXdr) then Some(HashMismatch)
    else if r.mode.WalletOnly? && !allowWalletOnly then Some(WalletOnlyNotAllowed)
    else None
  }

  function FirstInvalid(rs: seq<Request>): Option<BeginError> {
    if rs == [] then None else
    var first := FirstInvalid(rs[..|rs| - 1]);
    if first.Some? then first else Validate(rs[|rs| - 1], false)
  }

  function NewEntry(r: Request, id: nat, now: nat): Entry {
    Entry(r.(id := id), Pending, now + APPROVAL_TTL, false, None)
  }

  function NewEntries(rs: seq<Request>, nextId: nat, now: nat): seq<Entry> {
    seq(|rs|, k requires 0 <= k < |rs| => NewEntry(rs[k], nextId + 1 + k, now))
  }

  function StoreRequest(s: Store, r: Request, allowWalletOnly: bool, now: nat): (Store, Result<Begun, BeginError>) {
    match Validate(r, allowWalletOnly)
    case Some(e) => (s, Err(e))
    case None =>
      var entry := NewEntry(r, s.nextId + 1, now);
      (Store(s.nextId + 1, s.nextBatchId, Some(entry), None),
       Ok(Begun(entry.request, SupersededOf(LiveOf(Entries(s))))))
  }

  function BeginBatch(s: Store, title: string, rs: seq<Request>, now: nat): (Store, Result<BatchBegun, BeginError>) {
    if rs == [] then (s, Err(EmptyBatch))
    else if |rs| > MAX_BATCH_ITEMS then (s, Err(BatchTooLarge(|rs|)))
    else match FirstInvalid(rs)
    case Some(e) => (s, Err(e))
    case None =>
      var entries := NewEntries(rs, s.nextId, now);
      var batch := Batch(s.nextBatchId + 1, title, entries, now + APPROVAL_TTL, false);
      (Store(s.nextId + |rs|, s.nextBatchId + 1, None, Some(batch)),
       Ok(BatchBegun(batch.id, IdsOf(entries), SupersededOf(LiveOf(Entries(s))))))
  }

  predicate HoldsSingle(s: Store, id: nat) {
    s.current.Some? && s.current.value.request.id == id
  }

  predicate HoldsBatch(s: Store, batchId: nat) {
    s.batch.Some? && s.batch.value.id == batchId
  }

  predicate HoldsStep(s: Store, id: nat) {
    s.batch.Some? && IndexOf(s.batch.value.entries, id) < |s.batch.value.entries|
  }

  function PrepareAuthorize(s: Store, id: nat, now: nat): (Store, Result<Plan, GateError>) {
    if !HoldsSingle(s, id) then (s, Err(NotFound)) else
    var e := s.current.value;
    if !e.state.Pending? then (s, Err(NotPending(e.state)))
    else if now >= e.expiresAt then (s.(current := Some(e.(state := Expired))), Err(TimedOut))
    else if e.inFlight then (s, Err(Busy))
    else (s.(current := Some(e.(inFlight := true))), Ok(Plan(e.request.mode, "Approve " + e.request.summary.title)))
  }

  /** A failed prompt (`approved` false) only opens the latch again. */
  function FinishAuthorize(s: Store, id: nat, approved: bool, now: nat): (Store, Result<Payload, GateError>) {
    if !HoldsSingle(s, id) then (s, Err(NotFound)) else
    var e := s.current.value;
    if e.state.Expired? || now >= e.expiresAt then
      (s.(current := Some(e.(state := Expired, inFlight := false))), Err(TimedOut))
    else if !e.state.Pending? then (s.(current := Some(e.(inFlight := false))), Err(NotPending(e.state)))
    else (s.(current := Some(e.(state := if approved then Authorized else Pending, inFlight := false))),
          Ok(PayloadOf(e)))
  }

  function DropGuard(s: Store, id: nat): Store {
    if HoldsSingle(s, id) then s.(current := Some(s.current.value.(inFlight := false))) else s
  }

  function PrepareBatch(s: Store, batchId: nat, now: nat): (Store, Result<string, GateError>) {
    if !HoldsBatch(s, batchId) then (s, Err(NotFound)) else
    var b := s.batch.value;
    if now >= b.expiresAt then (s.(batch := Some(b.(entries := WithState(b.entries, Expired)))), Err(TimedOut))
    else if AnyNotIn(b.entries, Pending) then (s, Err(NotPending(BatchState(b, now))))
    else if b.inFlight then (s, Err(Busy))
    else (s.(batch := Some(b.(inFlight := true))), Ok("Approve " + b.title))
  }

  function FinishBatch(s: Store, batchId: nat, approved: bool, now: nat):
      (Store, Result<seq<(nat, string)>, GateError>) {
    if !HoldsBatch(s, batchId) then (s, Err(NotFound)) else
    var b := s.batch.value;
    if now >= b.expiresAt then
      (s.(batch := Some(b.(entries := WithState(b.entries, Expired), inFlight := false))), Err(TimedOut))
    else if AnyNotIn(b.entries, Pending) then
      (s.(batch := Some(b.(inFlight := false))), Err(NotPending(BatchState(b, now))))
    else
      var entries := if approved then WithState(b.entries, Authorized) else b.entries;
      (s.(batch := Some(b.(entries := entries, inFlight := false))),
       Ok(ReceiptsOf(b.entries)))
  }

  function DropBatchGuard(s: Store, batchId: nat): Store {
    if HoldsBatch(s, batchId) then s.(batch := Some(s.batch.value.(inFlight := false))) else s
  }

  function DenyBatch(b: Batch, now: nat): (Batch, Result<seq<string>, GateError>) {
    if now >= b.expiresAt then (b.(entries := WithState(b.entries, Expired)), Err(TimedOut))
    else if AnyNotIn(b.entries, Pending) then (b, Err(NotPending(BatchState(b, now))))
    else (b.(entries := AllDenied(b.entries)), Ok(HashesOf(b.entries)))
  }

  function DenyEntry(e: Entry, now: nat): (Entry, Result<seq<string>, GateError>) {
    if e.state.Expired? || now >= e.expiresAt then (e.(state := Expired), Err(TimedOut))
    else if !e.state.Pending? then (e, Err(NotPending(e.state)))
    else (DeniedEntry(e, DENIED_REASON), Ok([e.request.payloadHash]))
  }

  function Deny(s: Store, id: nat, now: nat): (Store, Result<seq<string>, GateError>) {
    if HoldsStep(s, id) then
      var (b, r) := DenyBatch(s.batch.value, now);
      (s.(batch := Some(b)), r)
    else if HoldsSingle(s, id) then
      var (e, r) := DenyEntry(s.current.value, now);
      (s.(current := Some(e)), r)
    else (s, Err(NotFound))
  }

  function StatusOf(e: Entry): Status {
    Status(e.request.id, e.state, e.reason)
  }

  /** The store with one entry of the batch replaced. */
  function WithStep(s: Store, k: nat, e: Entry): Store
    requires s.batch.Some? && k < |s.batch.value.entries|
  {
    s.(batch := Some(s.batch.value.(entries := s.batch.value.entries[k := e])))
  }

  function GetStatus(s: Store, id: nat, now: nat): (Store, Option<Status>) {
    if HoldsSingle(s, id) then
      var e := ExpireIfDue(s.current.value, now);
      (s.(current := Some(e)), Some(StatusOf(e)))
    else if HoldsStep(s, id) then
      var k := IndexOf(s.batch.value.entries, id);
      var e := ExpireIfDue(s.batch.value.entries[k], now);
      (WithStep(s, k, e), Some(StatusOf(e)))
    else (s, None)
  }

  function SnapshotOfEntry(e: Entry): Snapshot {
    EntrySnapshot(e.request.id, e.request.payloadHash, e.request.summary, e.request.mode, e.state, e.expiresAt)
  }

  function SnapshotOfBatch(b: Batch, now: nat): Snapshot {
    BatchSnapshot(b.id, b.title, BatchState(b, now),
                  seq(|b.entries|, k requires 0 <= k < |b.entries| =>
                    Step(b.entries[k].request.id, b.entries[k].request.summary.title, b.entries[k].state)),
                  b.expiresAt)
  }

  function SnapshotOf(s: Store, id: nat, now: nat): (Store, Option<Snapshot>) {
    if HoldsStep(s, id) then (s, Some(SnapshotOfBatch(s.batch.value, now)))
    else if HoldsSingle(s, id) then
      var e := ExpireIfDue(s.current.value, now);
      (s.(current := Some(e)), Some(SnapshotOfEntry(e)))
    else (s, None)
  }

  function Current(s: Store, now: nat): (Store, Option<Snapshot>) {
    if s.batch.Some? then
      (s, if Live(BatchState(s.batch.value, now)) then Some(SnapshotOfBatch(s.batch.value, now)) else None)
    else if s.current.Some? then
      var e := ExpireIfDue(s.current.value, now);
      (s.(current := Some(e)), if Live(e.state) then Some(SnapshotOfEntry(e)) else None)
    else (s, None)
  }

  function TakeEntry(e: Entry, now: nat): (Entry, Result<Payload, GateError>) {
    if e.state.Expired? || now >= e.expiresAt then (e.(state := Expired), Err(TimedOut))
    else if !e.state.Authorized? then (e, Err(NotAuthorized(e.state)))
    else (e.(state := Consumed), Ok(PayloadOf(e)))
  }

  function TakeAuthorized(s: Store, id: nat, now: nat): (Store, Result<Payload, GateError>) {
    if HoldsSingle(s, id) then
      var (e, r) := TakeEntry(s.current.value, now);
      (s.(current := Some(e)), r)
    else if HoldsStep(s, id) then
      var k := IndexOf(s.batch.value.entries, id);
      var (e, r) := TakeEntry(s.batch.value.entries[k], now);
      (WithStep(s, k, e), r)
    else (s, Err(NotFound))
  }

  function InvalidateForLock(s: Store): (Store, seq<string>) {
    (s.(current := if s.current.Some? then Some(LockedEntry(s.current.value)) else None,
        batch := if s.batch.Some? then Some(s.batch.value.(entries := AllLocked(s.batch.value.entries))) else None),
     HashesOf(LiveOf(Entries(s))))
  }

  /** The first refusal of a prefix is the refusal of the whole list. */
  lemma {:induction false} InvalidPrefix(rs: seq<Request>, n: nat)
    requires n <= |rs| && FirstInvalid(rs[..n]).Some?
    ensures FirstInvalid(rs) == FirstInvalid(rs[..n])
    decreases |rs|
  {
    hide Validate;
    if n < |rs| {
      assert rs[..|rs| - 1][..n] == rs[..n];
      InvalidPrefix(rs[..|rs| - 1], n);
    } else {
      assert rs[..n] == rs;
    }
  }

  lemma LiveOfSnoc(es: seq<Entry>, e: Entry)
    ensures LiveOf(es + [e]) == if Live(e.state) then LiveOf(es) + [e] else LiveOf(es)
  {
    assert (es + [e])[..|es|] == es;
  }

  lemma HashesOfSnoc(es: seq<Entry>, e: Entry)
    ensures HashesOf(LiveOf(es + [e])) == HashesOf(LiveOf(es)) + if Live(e.state) then [e.request.payloadHash] else []
  {
    hide LiveOf;
    LiveOfSnoc(es, e);
  }

  lemma SupersededOfNone()
    ensures SupersededOf(LiveOf([])) == []
  {
  }

  lemma SupersededOfSnoc(es: seq<Entry>, e: Entry)
    ensures SupersededOf(LiveOf(es + [e])) ==
              SupersededOf(LiveOf(es))
              + if Live(e.state) then [SupersededRequest(e.request.payloadHash, SUPERSEDED_REASON)] else []
  {
    hide LiveOf;
    LiveOfSnoc(es, e);
  }

  lemma HashesOfSingle(slot: Option<Entry>)
    ensures HashesOf(LiveOf(if slot.Some? then [slot.value] else [])) ==
            if slot.Some? && Live(slot.value.state) then [slot.value.request.payloadHash] else []
  {
    if slot.Some? {
      LiveOfSnoc([], slot.value);
      assert [] + [slot.value] == [slot.value];
    }
  }

  lemma {:induction false} HashesOfConcat(x: seq<Entry>, y: seq<Entry>)
    ensures HashesOf(LiveOf(x + y)) == HashesOf(LiveOf(x)) + HashesOf(LiveOf(y))
    decreases |y|
  {
    hide LiveOf, HashesOf;
    if y == [] {
      HashesOfSingle(None);
      assert x + y == x;
    } else {
      var front, last := y[..|y| - 1], y[|y| - 1];
      HashesOfConcat(x, front);
      HashesOfSnoc(front, last);
      HashesOfSnoc(x + front, last);
      assert front + [last] == y && (x + front) + [last] == x + y;
    }
  }

  lemma StateIgnoresLatch(b: Batch, now: nat)
    ensures BatchState(b.(inFlight := false), now) == BatchState(b, now)
  {
  }
}
