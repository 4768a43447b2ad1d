// The two dispatcher transactions as the worker runs them, over the whole outbox table
// (apps/worker/src/outbox/seq-allocator.ts, publisher.ts, backoff.ts).
module OutboxStore {
  import opened Prelude
  import opened StreamIds
  import opened Events
  import opened OutboxRows

  function TenantRows(rows: Table, tenantId: string): Table {
    map id | id in rows && rows[id].tenantId == Some(tenantId) :: rows[id]
  }

  datatype BackoffPolicy = BackoffPolicy(baseMs: nat, maxMs: nat)

  function Pow2(k: nat): (p: nat)
    ensures p > 0
  {
    if k == 0 then 1 else 2 * Pow2(k - 1)
  }

  function DelayMs(attempts: int, policy: BackoffPolicy): nat {
    Min(policy.baseMs * Pow2(Max(0, attempts - 1)), policy.maxMs)
  }

  // The delay grows with every failure until it reaches the cap, and stays there.
  lemma {:induction false} BackoffGrows(attempts: nat, policy: BackoffPolicy)
    ensures DelayMs(1, policy) == Min(policy.baseMs, policy.maxMs)
    ensures DelayMs(attempts, policy) <= DelayMs(attempts + 1, policy) <= policy.maxMs
    ensures attempts >= 1 ==> DelayMs(attempts + 1, policy) == Min(2 * DelayMs(attempts, policy), policy.maxMs)
  {
    if attempts >= 1 {
      var p := Pow2(attempts - 1);
      assert Pow2(attempts) == 2 * p;
      assert policy.baseMs * (2 * p) == 2 * (policy.baseMs * p);
    }
  }

  datatype AllocateResult = AllocateResult(leader: bool, stamped: nat)

  datatype PublishOutcome = Published | Failed | Empty | NotLeader

  // How XADD ended: appended, refused, or appended with the reply lost.
  datatype XaddReply = Appended(id: StreamId) | Refused | ReplyLost(id: StreamId)

  class OutboxDb {
    var rows: Table
    var counters: map<string, nat>
    var streams: map<string, seq<Entry>>

    function Counter(tenantId: string): Option<nat>
      reads this
    {
      if tenantId in counters then Some(counters[tenantId]) else None
    }

    function Stream(tenantId: string): seq<Entry>
      reads this
    {
      if tenantId in streams then streams[tenantId] else []
    }

    // allocateTenantSeq: `acquired` and `batch` are the lock's and the SELECT's answers.
    method AllocateTenantSeq(tenantId: string, acquired: bool, batch: seq<string>, batchSize: nat)
      returns (r: AllocateResult)
      requires acquired ==> IsBatch(TenantRows(rows, tenantId), batch, batchSize)
      modifies this`rows, this`counters
      ensures !acquired ==> r == AllocateResult(false, 0) && rows == old(rows) && counters == old(counters)
      ensures acquired ==> r == AllocateResult(true, |batch|)
      ensures acquired ==> Stamps(old(rows), NextOf(old(Counter(tenantId))), batch, rows)
      ensures acquired ==> NextOf(Counter(tenantId)) == NextOf(old(Counter(tenantId))) + |batch|
      ensures forall other :: other != tenantId ==> Counter(other) == old(Counter(other))
    {
      if !acquired { return AllocateResult(false, 0); }
      TenantBatch(rows, tenantId, batch, batchSize);
      StampAllEffect(rows, NextOf(Counter(tenantId)), batch);
      var stamped := StampBatch(tenantId, batch);
      return AllocateResult(true, stamped);
    }

    // Its loop: one value off the tenant's counter and one guarded UPDATE per row.
    method StampBatch(tenantId: string, batch: seq<string>) returns (stamped: nat)
      requires UnstampedBatch(rows, batch)
      modifies this`rows, this`counters
      ensures stamped == |batch|
      ensures rows == StampAll(old(rows), NextOf(old(Counter(tenantId))), batch)
      ensures NextOf(Counter(tenantId)) == NextOf(old(Counter(tenantId))) + |batch|
      ensures forall other :: other != tenantId ==> Counter(other) == old(Counter(other))
    {
      ghost var start, prior := NextOf(Counter(tenantId)), rows;
      stamped := 0;
      for i := 0 to |batch|
        invariant rows == StampAll(prior, start, batch[..i])
        invariant counters == (if i == 0 then old(counters) else old(counters)[tenantId := start + i]) && stamped == i
      {
        StampNext(prior, start, batch, i);
        var nextFree := if tenantId in counters then counters[tenantId] else 1;
        counters := counters[tenantId := nextFree + 1];
        var affected := if batch[i] in rows && rows[batch[i]].serial.None? then 1 else 0;
        rows := StampOne(rows, batch[i], nextFree);
        stamped := stamped + affected;
      }
      assert batch[..|batch|] == batch;
    }

    method Xadd(tenantId: string, id: StreamId, envelope: Envelope)
      modifies this`streams
      ensures Stream(tenantId) == old(Stream(tenantId)) + [Entry(id, Event(envelope))]
      ensures forall other :: other != tenantId ==> Stream(other) == old(Stream(other))
    {
      streams := streams[tenantId := Stream(tenantId) + [Entry(id, Event(envelope))]];
    }

    // publishNextForTenant: `now` is the transaction's start, `answer` the SELECT's row,
    // `workerNow` the worker's own clock when the attempt fails.
    method PublishNextForTenant(tenantId: string, acquired: bool, now: int, answer: Option<string>,
                                reply: XaddReply, workerNow: int, policy: BackoffPolicy)
      returns (outcome: PublishOutcome)
      requires acquired && answer.Some? ==> LowestEligible(TenantRows(rows, tenantId), answer.value, now)
      modifies this`rows, this`streams
      ensures outcome.NotLeader? <==> !acquired
      ensures outcome.Empty? <==> acquired && answer.None?
      ensures outcome.Published? <==> acquired && answer.Some? && reply.Appended?
      ensures outcome.NotLeader? || outcome.Empty? ==> rows == old(rows) && streams == old(streams)
      ensures outcome.Failed? <==> acquired && answer.Some? && !reply.Appended?
      ensures outcome.Published? ==> Dispatches(old(rows), answer.value, rows)
      ensures outcome.Failed? ==>
                var delay := DelayMs(old(rows)[answer.value].attempts + 1, policy);
                BacksOff(old(rows), answer.value, workerNow + delay, rows)
      ensures acquired && answer.Some? && reply.Refused? ==> streams == old(streams)
      ensures acquired && answer.Some? && !reply.Refused? ==>
                && |Stream(tenantId)| == |old(Stream(tenantId))| + 1 && old(Stream(tenantId)) <= Stream(tenantId)
                && var last := Stream(tenantId)[|old(Stream(tenantId))|];
                && last.id == reply.id && last.payload.Event?
                && Tells(last.payload.envelope, answer.value, old(rows)[answer.value])
      ensures forall other :: other != tenantId ==> Stream(other) == old(Stream(other))
    {
      if !acquired { return NotLeader; }
      if answer.None? { return Empty; }
      var id := answer.value;
      assert id in rows && rows[id].serial.Some? && rows[id].tenantId == Some(tenantId);
      var envelope := BuildEnvelope(id, rows[id]).value;
      EnvelopeTells(id, rows[id]);
      if !reply.Refused? { Xadd(envelope.tenantId, reply.id, envelope); }
      if reply.Appended? {
        MarkMeans(rows, id, 0);
        rows := MarkDispatched(rows, id);
        return Published;
      }
      var attempts := rows[id].attempts + 1;
      MarkMeans(rows, id, workerNow + DelayMs(attempts, policy));
      rows := RecordFailure(rows, id, workerNow + DelayMs(attempts, policy));
      return Failed;
    }
  }

  // What a publish leaves of its row is exactly what the state machine's steps leave.
  lemma PublishIsTheStep(rows: Table, id: string, at: int, out: Table)
    requires id in rows && rows[id].serial.Some? && !rows[id].dispatched
    ensures Dispatches(rows, id, out) <==> out == MarkDispatched(rows, id)
    ensures BacksOff(rows, id, at, out) <==> out == RecordFailure(rows, id, at)
  {
    MarkMeans(rows, id, at);
    if BacksOff(rows, id, at, out) {
      assert Eligible(out, id, at) && Eligible(out, id, out[id].availableAt);
      assert out == RecordFailure(rows, id, at);
    }
    if Dispatches(rows, id, out) { assert out == MarkDispatched(rows, id); }
  }

  lemma StampNext(rows: Table, n: nat, batch: seq<string>, i: nat)
    requires UnstampedBatch(rows, batch) && i < |batch|
    ensures var mid := StampAll(rows, n, batch[..i]);
            && batch[i] in mid && mid[batch[i]].serial.None?
            && StampAll(rows, n, batch[..i + 1]) == StampOne(mid, batch[i], n + i)
  {
    PrefixUnstamped(rows, batch, i);
    StampAllEffect(rows, n, batch[..i]);
    LastStamped(rows, n, batch, i);
  }

  lemma PrefixUnstamped(rows: Table, batch: seq<string>, i: nat)
    requires UnstampedBatch(rows, batch) && i < |batch|
    ensures UnstampedBatch(rows, batch[..i]) && Unstamped(rows, batch[i]) && batch[i] !in batch[..i]
  {
  }

  lemma LastStamped(rows: Table, n: nat, batch: seq<string>, i: nat)
    requires i < |batch|
    ensures StampAll(rows, n, batch[..i + 1]) == StampOne(StampAll(rows, n, batch[..i]), batch[i], n + i)
  {
    assert batch[..i + 1][..i] == batch[..i];
  }

  lemma TenantBatch(rows: Table, tenantId: string, batch: seq<string>, limit: nat)
    requires IsBatch(TenantRows(rows, tenantId), batch, limit)
    ensures UnstampedBatch(rows, batch)
    ensures forall i :: 0 <= i < |batch| ==> rows[batch[i]].tenantId == Some(tenantId)
  {
    forall i | 0 <= i < |batch| ensures Unstamped(rows, batch[i]) && rows[batch[i]].tenantId == Some(tenantId) {
      assert Unstamped(TenantRows(rows, tenantId), batch[i]);
    }
  }

  // The stamping is determined: what the loop leaves is what the state machine commits.
  lemma StampsUnique(rows: Table, n: nat, batch: seq<string>, out: Table)
    requires UnstampedBatch(rows, batch) && Stamps(rows, n, batch, out)
    ensures out == StampAll(rows, n, batch)
  {
    StampAllEffect(rows, n, batch);
    var all := StampAll(rows, n, batch);
    forall id | id in rows ensures out[id] == all[id] {
      if id in batch {
        var i :| 0 <= i < |batch| && batch[i] == id;
      }
    }
  }

  // One tenant's allocation is invisible to every other tenant, and to its own rows it
  // is the same stamping that the per-tenant state machine commits.
  lemma AllocationIsTenantLocal(rows: Table, tenantId: string, n: nat, batch: seq<string>, limit: nat, other: string)
    requires IsBatch(TenantRows(rows, tenantId), batch, limit)
    ensures var after := StampAll(rows, n, batch);
            && (other != tenantId ==> TenantRows(after, other) == TenantRows(rows, other))
            && TenantRows(after, tenantId) == StampAll(TenantRows(rows, tenantId), n, batch)
  {
    TenantBatch(rows, tenantId, batch, limit);
    StampAllEffect(rows, n, batch);
    StampedElsewhere(rows, tenantId, n, batch, StampAll(rows, n, batch), other);
    StampedHere(rows, tenantId, n, batch, StampAll(rows, n, batch));
    assert UnstampedBatch(TenantRows(rows, tenantId), batch);
    StampsUnique(TenantRows(rows, tenantId), n, batch, TenantRows(StampAll(rows, n, batch), tenantId));
  }

  lemma StampedElsewhere(rows: Table, tenantId: string, n: nat, batch: seq<string>, out: Table, other: string)
    requires Stamps(rows, n, batch, out)
    requires forall i :: 0 <= i < |batch| ==> batch[i] in rows && rows[batch[i]].tenantId == Some(tenantId)
    ensures other != tenantId ==> TenantRows(out, other) == TenantRows(rows, other)
  {
    forall id | id in rows && id in batch ensures out[id].tenantId == rows[id].tenantId == Some(tenantId) {
      var i :| 0 <= i < |batch| && batch[i] == id;
    }
  }

  lemma StampedHere(rows: Table, tenantId: string, n: nat, batch: seq<string>, out: Table)
    requires Stamps(rows, n, batch, out)
    requires forall i :: 0 <= i < |batch| ==> batch[i] in rows && rows[batch[i]].tenantId == Some(tenantId)
    ensures Stamps(TenantRows(rows, tenantId), n, batch, TenantRows(out, tenantId))
  {
    forall id | id in rows ensures out[id].tenantId == rows[id].tenantId {
      if id in batch {
        var i :| 0 <= i < |batch| && batch[i] == id;
      }
    }
  }
}
