/**
 * The approval store as the gate runs it: four fields changed in place under one lock. Every
 * method is one locked section and does exactly what its function in `ApprovalGate` says.
 */
module ApprovalStores {
  import opened Basics
  import opened Gate = ApprovalGate

  class ApprovalStore {
    var nextId: nat
    var nextBatchId: nat
    var current: Option<Entry>
    var batch: Option<Batch>

    ghost function Value(): Store
      reads this
    {
      Store(nextId, nextBatchId, current, batch)
    }

    constructor ()
      ensures Value() == Empty()
    {
      nextId, nextBatchId, current, batch := 0, 0, None, None;
    }

    method TakeLive() returns (superseded: seq<SupersededRequest>)
      modifies this`current, this`batch
      ensures current == None && batch == None
      ensures superseded == SupersededOf(LiveOf(old(Entries(Value()))))
    {
      hide LiveOf, SupersededOf;
      superseded := [];
      ghost var before := Entries(Value());
      SupersededOfNone();
      if current.Some? {
        SupersededOfSnoc([], current.value);
        assert [] + [current.value] == [current.value];
        if Live(current.value.state) {
          superseded := [SupersededRequest(current.value.request.payloadHash, SUPERSEDED_REASON)];
        }
      }
      ghost var single := if current.Some? then [current.value] else [];
      if batch.Some? {
        var entries := batch.value.entries;
        assert single + entries[..0] == single;
        for k := 0 to |entries|
          invariant batch == old(batch)
          invariant superseded == SupersededOf(LiveOf(single + entries[..k]))
        {
          assert single + entries[..k + 1] == (single + entries[..k]) + [entries[k]];
          SupersededOfSnoc(single + entries[..k], entries[k]);
          if Live(entries[k].state) {
            superseded := superseded + [SupersededRequest(entries[k].request.payloadHash, SUPERSEDED_REASON)];
          }
        }
        assert single + entries[..|entries|] == before;
      } else {
        assert single == before;
      }
      current, batch := None, None;
    }

    method StoreRequest(request: Request, allowWalletOnly: bool, now: nat) returns (r: Result<Begun, BeginError>)
      modifies this
      ensures (Value(), r) == Gate.StoreRequest(old(Value()), request, allowWalletOnly, now)
    {
      hide PayloadHashOfXdr;
      var invalid := Validate(request, allowWalletOnly);
      if invalid.Some? {
        return Err(invalid.value);
      }
      nextId := nextId + 1;
      var stored := request.(id := nextId);
      var superseded := TakeLive();
      current := Some(Entry(stored, Pending, now + APPROVAL_TTL, false, None));
      return Ok(Begun(stored, superseded));
    }

    method BeginBatch(title: string, requests: seq<Request>, now: nat) returns (r: Result<BatchBegun, BeginError>)
      modifies this
      ensures (Value(), r) == Gate.BeginBatch(old(Value()), title, requests, now)
    {
      hide Validate, LiveOf;
      if requests == [] {
        return Err(EmptyBatch);
      }
      if |requests| > MAX_BATCH_ITEMS {
        return Err(BatchTooLarge(|requests|));
      }
      for k := 0 to |requests|
        invariant FirstInvalid(requests[..k]) == None
      {
        assert requests[..k + 1][..k] == requests[..k];
        var invalid := Validate(requests[k], false);
        if invalid.Some? {
          InvalidPrefix(requests, k + 1);
          return Err(invalid.value);
        }
      }
      assert requests[..|requests|] == requests;
      var ids: seq<nat>, entries: seq<Entry> := [], [];
      for k := 0 to |requests|
        invariant nextId == old(nextId) + k
        invariant current == old(current) && batch == old(batch) && nextBatchId == old(nextBatchId)
        invariant entries == NewEntries(requests, old(nextId), now)[..k]
        invariant ids == IdsOf(entries)
      {
        nextId := nextId + 1;
        ids := ids + [nextId];
        entries := entries + [Entry(requests[k].(id := nextId), Pending, now + APPROVAL_TTL, false, None)];
      }
      assert entries == NewEntries(requests, old(nextId), now);
      var superseded := TakeLive();
      nextBatchId := nextBatchId + 1;
      batch := Some(Batch(nextBatchId, title, entries, now + APPROVAL_TTL, false));
      return Ok(BatchBegun(nextBatchId, ids, superseded));
    }

    method PrepareAuthorize(id: nat, now: nat) returns (r: Result<Plan, GateError>)
      modifies this`current
      ensures (Value(), r) == Gate.PrepareAuthorize(old(Value()), id, now)
    {
      if current.None? || current.value.request.id != id {
        return Err(NotFound);
      }
      if !current.value.state.Pending? {
        return Err(NotPending(current.value.state));
      }
      if now >= current.value.expiresAt {
        current := Some(current.value.(state := Expired));
        return Err(TimedOut);
      }
      if current.value.inFlight {
        return Err(Busy);
      }
      current := Some(current.value.(inFlight := true));
      return Ok(Plan(current.value.request.mode, "Approve " + current.value.request.summary.title));
    }

    method FinishAuthorize(id: nat, approved: bool, now: nat) returns (r: Result<Payload, GateError>)
      modifies this`current
      ensures (Value(), r) == Gate.FinishAuthorize(old(Value()), id, approved, now)
    {
      if current.None? || current.value.request.id != id {
        return Err(NotFound);
      }
      if current.value.state.Expired? || now >= current.value.expiresAt {
        current := Some(current.value.(state := Expired, inFlight := false));
        return Err(TimedOut);
      }
      if !current.value.state.Pending? {
        current := Some(current.value.(inFlight := false));
        return Err(NotPending(current.value.state));
      }
      current := Some(current.value.(inFlight := false));
      if approved {
        current := Some(current.value.(state := Authorized));
      }
      return Ok(PayloadOf(current.value));
    }

    method DropGuard(id: nat)
      modifies this`current
      ensures Value() == Gate.DropGuard(old(Value()), id)
    {
      if current.Some? && current.value.request.id == id {
        current := Some(current.value.(inFlight := false));
      }
    }

    /** Gives every step of the batch one state, step by step. */
    method SetSteps(state: EntryState)
      requires batch.Some?
      modifies this`batch
      ensures batch == Some(old(batch.value).(entries := WithState(old(batch.value.entries), state)))
    {
      var entries := batch.value.entries;
      for k := 0 to |entries|
        invariant batch.Some? && |entries| == |old(batch.value.entries)|
        invariant forall j :: 0 <= j < |entries| ==>
          entries[j] == if j < k then old(batch.value.entries)[j].(state := state) else old(batch.value.entries)[j]
      {
        entries := entries[k := entries[k].(state := state)];
      }
      assert entries == WithState(old(batch.value.entries), state);
      batch := Some(batch.value.(entries := entries));
    }

    method PrepareBatch(batchId: nat, now: nat) returns (r: Result<string, GateError>)
      modifies this`batch
      ensures (Value(), r) == Gate.PrepareBatch(old(Value()), batchId, now)
    {
      hide BatchState, WithState;
      if batch.None? || batch.value.id != batchId {
        return Err(NotFound);
      }
      if now >= batch.value.expiresAt {
        SetSteps(Expired);
        return Err(TimedOut);
      }
      if AnyNotIn(batch.value.entries, Pending) {
        return Err(NotPending(BatchState(batch.value, now)));
      }
      if batch.value.inFlight {
        return Err(Busy);
      }
      batch := Some(batch.value.(inFlight := true));
      return Ok("Approve " + batch.value.title);
    }

    method FinishBatch(batchId: nat, approved: bool, now: nat) returns (r: Result<seq<(nat, string)>, GateError>)
      modifies this`batch
      ensures (Value(), r) == Gate.FinishBatch(old(Value()), batchId, approved, now)
    {
      hide BatchState;
      if batch.None? || batch.value.id != batchId {
        return Err(NotFound);
      }
      if now >= batch.value.expiresAt {
        SetSteps(Expired);
        batch := Some(batch.value.(inFlight := false));
        return Err(TimedOut);
      }
      if AnyNotIn(batch.value.entries, Pending) {
        ghost var shown := BatchState(batch.value, now);
        batch := Some(batch.value.(inFlight := false));
        assert BatchState(batch.value, now) == shown by { StateIgnoresLatch(old(batch.value), now); }
        return Err(NotPending(BatchState(batch.value, now)));
      }
      batch := Some(batch.value.(inFlight := false));
      var entries := batch.value.entries;
      var authorized: seq<(nat, string)> := [];
      for k := 0 to |entries|
        invariant |entries| == |old(batch.value.entries)| && |authorized| == k
        invariant batch == Some(old(batch.value).(inFlight := false))
        invariant forall j :: 0 <= j < |entries| ==>
          entries[j] == if approved && j < k then old(batch.value.entries)[j].(state := Authorized)
                        else old(batch.value.entries)[j]
        invariant forall j :: 0 <= j < k ==>
          authorized[j] == (old(batch.value.entries)[j].request.id, old(batch.value.entries)[j].request.payloadHash)
      {
        if approved {
          entries := entries[k := entries[k].(state := Authorized)];
        }
        authorized := authorized + [(entries[k].request.id, entries[k].request.payloadHash)];
      }
      ghost var before := old(batch.value.entries);
      assert entries == if approved then WithState(before, Authorized) else before;
      assert authorized == ReceiptsOf(before);
      batch := Some(batch.value.(entries := entries));
      return Ok(authorized);
    }

    method DropBatchGuard(batchId: nat)
      modifies this`batch
      ensures Value() == Gate.DropBatchGuard(old(Value()), batchId)
    {
      if batch.Some? && batch.value.id == batchId {
        batch := Some(batch.value.(inFlight := false));
      }
    }

    method Deny(id: nat, now: nat) returns (r: Result<seq<string>, GateError>)
      modifies this`current, this`batch
      ensures (Value(), r) == Gate.Deny(old(Value()), id, now)
    {
      hide BatchState;
      if batch.Some? && IndexOf(batch.value.entries, id) < |batch.value.entries| {
        if now >= batch.value.expiresAt {
          SetSteps(Expired);
          return Err(TimedOut);
        }
        if AnyNotIn(batch.value.entries, Pending) {
          return Err(NotPending(BatchState(batch.value, now)));
        }
        var entries := batch.value.entries;
        for k := 0 to |entries|
          invariant |entries| == |old(batch.value.entries)| && batch == old(batch)
          invariant forall j :: 0 <= j < |entries| ==>
            entries[j] == if j < k then DeniedEntry(old(batch.value.entries)[j], DENIED_REASON)
                          else old(batch.value.entries)[j]
        {
          entries := entries[k := entries[k].(state := Denied, inFlight := false, reason := Some(DENIED_REASON))];
        }
        assert entries == AllDenied(old(batch.value.entries));
        batch := Some(batch.value.(entries := entries));
        assert HashesOf(entries) == HashesOf(old(batch.value.entries));
        return Ok(HashesOf(entries));
      }
      if current.None? || current.value.request.id != id {
        return Err(NotFound);
      }
      if current.value.state.Expired? || now >= current.value.expiresAt {
        current := Some(current.value.(state := Expired));
        return Err(TimedOut);
      }
      if !current.value.state.Pending? {
        return Err(NotPending(current.value.state));
      }
      current := Some(current.value.(state := Denied, inFlight := false, reason := Some(DENIED_REASON)));
      return Ok([current.value.request.payloadHash]);
    }

    method GetStatus(id: nat, now: nat) returns (r: Option<Status>)
      modifies this`current, this`batch
      ensures (Value(), r) == Gate.GetStatus(old(Value()), id, now)
    {
      if current.Some? && current.value.request.id == id {
        current := Some(ExpireIfDue(current.value, now));
        return Some(StatusOf(current.value));
      }
      if batch.Some? {
        var k := IndexOf(batch.value.entries, id);
        if k < |batch.value.entries| {
          var e := ExpireIfDue(batch.value.entries[k], now);
          batch := Some(batch.value.(entries := batch.value.entries[k := e]));
          return Some(StatusOf(e));
        }
      }
      return None;
    }

    method SnapshotOf(id: nat, now: nat) returns (r: Option<Snapshot>)
      modifies this`current
      ensures (Value(), r) == Gate.SnapshotOf(old(Value()), id, now)
    {
      hide SnapshotOfBatch;
      if batch.Some? && IndexOf(batch.value.entries, id) < |batch.value.entries| {
        return Some(SnapshotOfBatch(batch.value, now));
      }
      if current.None? || current.value.request.id != id {
        return None;
      }
      current := Some(ExpireIfDue(current.value, now));
      return Some(SnapshotOfEntry(current.value));
    }

    method Current(now: nat) returns (r: Option<Snapshot>)
      modifies this`current
      ensures (Value(), r) == Gate.Current(old(Value()), now)
    {
      hide SnapshotOfBatch, BatchState;
      if batch.Some? {
        if Live(BatchState(batch.value, now)) {
          return Some(SnapshotOfBatch(batch.value, now));
        }
        return None;
      }
      if current.None? {
        return None;
      }
      current := Some(ExpireIfDue(current.value, now));
      if !Live(current.value.state) {
        return None;
      }
      return Some(SnapshotOfEntry(current.value));
    }

    method TakeAuthorized(id: nat, now: nat) returns (r: Result<Payload, GateError>)
      modifies this`current, this`batch
      ensures (Value(), r) == Gate.TakeAuthorized(old(Value()), id, now)
    {
      if current.Some? && current.value.request.id == id {
        if current.value.state.Expired? || now >= current.value.expiresAt {
          current := Some(current.value.(state := Expired));
          return Err(TimedOut);
        }
        if !current.value.state.Authorized? {
          return Err(NotAuthorized(current.value.state));
        }
        current := Some(current.value.(state := Consumed));
        return Ok(PayloadOf(current.value));
      }
      if batch.None? {
        return Err(NotFound);
      }
      var k := IndexOf(batch.value.entries, id);
      if k == |batch.value.entries| {
        return Err(NotFound);
      }
      var e := batch.value.entries[k];
      if e.state.Expired? || now >= e.expiresAt {
        e := e.(state := Expired);
        batch := Some(batch.value.(entries := batch.value.entries[k := e]));
        return Err(TimedOut);
      }
      if !e.state.Authorized? {
        assert batch.value.entries[k := e] == batch.value.entries;
        return Err(NotAuthorized(e.state));
      }
      e := e.(state := Consumed);
      batch := Some(batch.value.(entries := batch.value.entries[k := e]));
      return Ok(PayloadOf(e));
    }

    /** The loop over the batch of a lock: denies every live step and collects their hashes. */
    method LockSteps() returns (denied: seq<string>)
      requires batch.Some?
      modifies this`batch
      ensures batch == Some(old(batch.value).(entries := AllLocked(old(batch.value.entries))))
      ensures denied == HashesOf(LiveOf(old(batch.value.entries)))
    {
      hide LiveOf, HashesOf;
      ghost var before := batch.value.entries;
      var entries := batch.value.entries;
      denied := [];
      HashesOfSingle(None);
      assert before[..0] == [];
      for k := 0 to |entries|
        invariant |entries| == |before| && batch == old(batch)
        invariant forall j :: 0 <= j < |entries| ==> entries[j] == if j < k then LockedEntry(before[j]) else before[j]
        invariant denied == HashesOf(LiveOf(before[..k]))
      {
        assert before[..k + 1] == before[..k] + [before[k]];
        HashesOfSnoc(before[..k], before[k]);
        if Live(entries[k].state) {
          entries := entries[k := entries[k].(state := Denied, inFlight := false, reason := Some(LOCKED_REASON))];
          denied := denied + [entries[k].request.payloadHash];
        }
      }
      assert before[..|before|] == before;
      assert entries == AllLocked(before);
      batch := Some(batch.value.(entries := entries));
    }

    method InvalidateForLock() returns (denied: seq<string>)
      modifies this`current, this`batch
      ensures (Value(), denied) == Gate.InvalidateForLock(old(Value()))
    {
      hide LiveOf, AllLocked, HashesOf;
      denied := [];
      HashesOfSingle(current);
      if current.Some? {
        if Live(current.value.state) {
          current := Some(current.value.(state := Denied, inFlight := false, reason := Some(LOCKED_REASON)));
          denied := [current.value.request.payloadHash];
        }
      }
      ghost var single := if old(current).Some? then [old(current).value] else [];
      if batch.Some? {
        HashesOfConcat(single, batch.value.entries);
        var steps := LockSteps();
        denied := denied + steps;
      } else {
        assert single == old(Entries(Value()));
      }
    }
  }
}
