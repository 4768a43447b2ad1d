// The idempotency store as one request runs it, and the interceptor around it
// (apps/api/src/common/idempotency/idempotency.repository.ts, idempotency.interceptor.ts).
module IdempotencyStore {
  import opened Prelude
  import opened IdempotencyRows

  datatype Identity = Identity(tenantId: string, scope: string, principalId: string, key: string)

  // One acquire from start to commit with nobody else at the row: the statements in
  // their order. `clock` is the statement time of the write, at or after `now`.
  function AcquireAlone(row: Option<Row>, hash: string, now: int, clock: int, ttl: int, staleAfter: int, token: nat)
    : (Option<Row>, Outcome)
  {
    var swept := Swept(row, now);
    if swept.None? then (Some(Claimed(hash, now, clock, ttl, token)), Acquired(token))
    else
      match Judge(swept, hash, now, staleAfter)
      case Answer(outcome) => (swept, outcome)
      case MayReclaim(observed) =>
        if Reclaimable(swept, hash, observed, now, staleAfter)
        then (Some(Reclaimed(swept.value, now, clock, ttl, token)), Acquired(token))
        else (swept, InProgress)
  }

  // What the outcome of acquire says about the row it met, case by case.
  lemma AcquireMeans(row: Option<Row>, hash: string, now: int, clock: int, ttl: int, staleAfter: int, token: nat)
    ensures var (after, outcome) := AcquireAlone(row, hash, now, clock, ttl, staleAfter, token);
            var live := row.Some? && row.value.expiresAt > now;
            && (outcome.Acquired? <==>
                  || row.None? || row.value.expiresAt < now
                  || (live && row.value.requestHash == hash && row.value.status == PENDING
                       && now - row.value.lockedAt > staleAfter))
            && (outcome.Retry? <==> row.Some? && row.value.expiresAt == now)
            && (outcome.Mismatch? <==> live && row.value.requestHash != hash)
            && (outcome.Replay? <==> live && row.value.requestHash == hash && row.value.status == DONE)
            && (outcome.InProgress? <==>
                  live && row.value.requestHash == hash && row.value.status == PENDING
                  && now - row.value.lockedAt <= staleAfter)
            && (!outcome.Acquired? ==> after == row)
            && (outcome.Acquired? ==> outcome.token == token && Owns(after, token))
            && (outcome.Acquired? ==>
                 (after.value.requestHash, after.value.lockedAt, after.value.expiresAt) == (hash, clock, now + ttl))
            && (outcome.Replay? ==>
                  && outcome.snapshot == row.value.snapshot
                  && (row.value.httpStatus.Some? ==> outcome.httpStatus == row.value.httpStatus.value)
                  && (row.value.httpStatus.None? ==> outcome.httpStatus == 200))
  {
  }

  // The claim is the same one: who asked, under which token, since when and until when.
  predicate SameClaim(a: Row, b: Row) {
    (a.requestHash, a.token, a.lockedAt, a.expiresAt) == (b.requestHash, b.token, b.lockedAt, b.expiresAt)
  }

  datatype MarkReply = Done | Fails(tookEffect: bool)

  const MARK_DONE_ATTEMPTS: nat := 3

  class IdempotencyRepository {
    var rows: map<Identity, Row>

    function RowOf(id: Identity): Option<Row>
      reads this
    {
      if id in rows then Some(rows[id]) else None
    }

    method Put(id: Identity, row: Option<Row>)
      modifies this
      ensures RowOf(id) == row && forall other :: other != id ==> RowOf(other) == old(RowOf(other))
    {
      match row
      case Some(r) => rows := rows[id := r];
      case None => rows := rows - {id};
    }

    method Acquire(id: Identity, hash: string, ttl: int, staleAfter: int, now: int, clock: int, token: nat)
      returns (outcome: Outcome)
      modifies this
      ensures (RowOf(id), outcome) == AcquireAlone(old(RowOf(id)), hash, now, clock, ttl, staleAfter, token)
      ensures forall other :: other != id ==> RowOf(other) == old(RowOf(other))
    {
      Put(id, Swept(RowOf(id), now));
      if id !in rows {
        Put(id, Some(Claimed(hash, now, clock, ttl, token)));
        return Acquired(token);
      }
      var row := rows[id];
      if row.expiresAt <= now { return Retry; }
      if row.requestHash != hash { return Mismatch; }
      if row.status == DONE {
        return Replay(if row.httpStatus.Some? then row.httpStatus.value else 200, row.snapshot);
      }
      if !Stale(row, now, staleAfter) { return InProgress; }
      if Reclaimable(RowOf(id), hash, row.token, now, staleAfter) {
        Put(id, Some(Reclaimed(row, now, clock, ttl, token)));
        return Acquired(token);
      }
      return InProgress;
    }

    // markDone. For the owner every later acquire before the expiry is answered with this
    // result, or a mismatch, and nothing can complete or release the row again; for anyone
    // else nothing happens at all.
    method MarkDone(id: Identity, token: nat, httpStatus: int, snapshot: Option<string>) returns (affected: nat)
      modifies this
      ensures affected == if Owns(old(RowOf(id)), token) then 1 else 0
      ensures affected == 0 ==> rows == old(rows)
      ensures affected == 1 ==> forall t: nat :: !Owns(RowOf(id), t)
      ensures affected == 1 ==>
                forall hash: string, now: int, staleAfter: int :: now < old(rows[id].expiresAt) ==>
                  Judge(RowOf(id), hash, now, staleAfter) ==
                  Answer(if hash == old(rows[id].requestHash) then Replay(httpStatus, snapshot) else Mismatch)
      ensures affected == 1 ==> RowOf(id).Some? && Completed(old(rows[id]), RowOf(id).value, httpStatus, snapshot)
      ensures forall other :: other != id ==> RowOf(other) == old(RowOf(other))
    {
      affected := 0;
      if id in rows && rows[id].status == PENDING && rows[id].token == token {
        rows := rows[id := rows[id].(status := DONE, httpStatus := Some(httpStatus), snapshot := snapshot)];
        affected := 1;
      }
    }

    // release. For the owner the identity is free: the next acquire gets a claim, whatever
    // its hash; for anyone else nothing happens at all.
    method Release(id: Identity, token: nat) returns (affected: nat)
      modifies this
      ensures affected == if Owns(old(RowOf(id)), token) then 1 else 0
      ensures affected == 0 ==> rows == old(rows)
      ensures affected == 1 ==> RowOf(id).None?
      ensures affected == 1 ==>
                forall hash: string, now: int, clock: int, ttl: int, staleAfter: int, next: nat ::
                  AcquireAlone(RowOf(id), hash, now, clock, ttl, staleAfter, next).1 == Acquired(next)
      ensures forall other :: other != id ==> RowOf(other) == old(RowOf(other))
    {
      affected := 0;
      if id in rows && rows[id].status == PENDING && rows[id].token == token {
        rows := rows - {id};
        affected := 1;
      }
    }

    method SweepExpired(now: int) returns (deleted: nat)
      modifies this
      ensures forall id :: RowOf(id) == Swept(old(RowOf(id)), now)
      ensures deleted == |old(rows)| - |rows|
    {
      var kept := map id | id in rows && !Expired(rows[id], now) :: rows[id];
      assert kept.Keys <= rows.Keys;
      Smaller(kept.Keys, rows.Keys);
      deleted := |rows| - |kept|;
      rows := kept;
    }

    // onSuccess: a non-2xx result gives the claim back; otherwise up to three attempts
    // to record the result, each of which may fail with or without having taken effect.
    method OnSuccess(id: Identity, token: nat, httpStatus: int, snapshot: Option<string>, replies: seq<MarkReply>)
      modifies this
      requires |replies| >= MARK_DONE_ATTEMPTS
      ensures !Owns(old(RowOf(id)), token) ==> rows == old(rows)
      ensures Owns(old(RowOf(id)), token) && !(200 <= httpStatus < 300) ==> RowOf(id).None?
      ensures Owns(old(RowOf(id)), token) && 200 <= httpStatus < 300 && !TookEffect(replies, MARK_DONE_ATTEMPTS) ==>
                rows == old(rows)
      ensures Owns(old(RowOf(id)), token) && 200 <= httpStatus < 300 && TookEffect(replies, MARK_DONE_ATTEMPTS) ==>
                RowOf(id).Some? && Completed(old(rows[id]), RowOf(id).value, httpStatus, snapshot)
      ensures forall other :: other != id ==> RowOf(other) == old(RowOf(other))
    {
      if httpStatus < 200 || httpStatus >= 300 {
        var freed := Release(id, token);
        return;
      }
      for i := 0 to MARK_DONE_ATTEMPTS
        invariant forall j :: 0 <= j < i ==> replies[j].Fails?
        invariant !Owns(old(RowOf(id)), token) || !TookEffect(replies, i) ==> rows == old(rows)
        invariant Owns(old(RowOf(id)), token) && TookEffect(replies, i) ==>
                    RowOf(id).Some? && Completed(old(rows[id]), RowOf(id).value, httpStatus, snapshot)
        invariant forall other :: other != id ==> RowOf(other) == old(RowOf(other))
      {
        if replies[i].Done? || replies[i].tookEffect {
          var marked := MarkDone(id, token, httpStatus, snapshot);
        }
        if replies[i].Done? { return; }
      }
    }
  }

  predicate Completed(before: Row, after: Row, httpStatus: int, snapshot: Option<string>) {
    SameClaim(before, after) && after.status == DONE && after.httpStatus == Some(httpStatus)
    && after.snapshot == snapshot
  }

  // A completed row is exactly what the concurrent protocol's completing step leaves.
  lemma CompletedIsTheStep(row: Row, after: Row, httpStatus: int, snapshot: Option<string>)
    requires row.status == PENDING
    ensures Completed(row, after, httpStatus, snapshot) <==>
              MarkedDone(Some(row), row.token, httpStatus, snapshot) == Some(after)
  {
  }

  // Some attempt among the first n takes effect; a plain success ends the attempts.
  predicate TookEffect(replies: seq<MarkReply>, n: nat)
    requires n <= |replies|
  {
    exists i :: 0 <= i < n && (replies[i].Done? || replies[i].tookEffect)
  }

  lemma Smaller<T>(a: set<T>, b: set<T>)
    requires a <= b
    ensures |a| <= |b|
  {
    assert b == a + (b - a);
  }

  // ---------------------------------------------------------------- the bounded wait

  const POLL_MIN_MS := 50
  const POLL_MAX_MS := 500

  datatype Resolution = Execute(token: nat) | Replayed(httpStatus: int, snapshot: Option<string>)
    | KeyReused | StillInProgress

  predicate Waits(o: Outcome) {
    o.Retry? || o.InProgress?
  }

  function Conclude(o: Outcome): Resolution {
    match o
    case Acquired(token) => Execute(token)
    case Replay(httpStatus, snapshot) => Replayed(httpStatus, snapshot)
    case Mismatch => KeyReused
    case _ => StillInProgress
  }

  // Rounded-up number of polls of the shortest length that fit in the wait.
  function Polls(waitMs: nat): nat {
    (waitMs + POLL_MIN_MS - 1) / POLL_MIN_MS
  }

  // What the request is told after the last answer: its claim's token, the stored result, that
  // its key was used for another request, or that the first one is still at it.
  ghost predicate Tells(r: Resolution, last: Outcome) {
    && (forall token :: r == Execute(token) <==> last == Acquired(token))
    && (forall httpStatus, snapshot :: r == Replayed(httpStatus, snapshot) <==> last == Replay(httpStatus, snapshot))
    && (r.KeyReused? <==> last.Mismatch?)
    && (r.StillInProgress? <==> last.Retry? || last.InProgress?)
  }

  // A wait that ended this way: every answer before the last one meant waiting on.
  ghost predicate Resolves(answers: nat -> Outcome, r: Resolution, calls: nat) {
    && calls >= 1 && Tells(r, answers(calls - 1))
    && forall k: nat :: k < calls - 1 ==> answers(k).Retry? || answers(k).InProgress?
  }

  // While a completed row lasts, a wait for its identity ends with the first call: in the
  // stored status and body for the same request, in a refused key for any other, and never
  // in a claim.
  lemma CompletedEndsTheWait(row: Row, hash: string, now: nat -> int, clock: nat -> int, ttl: int, staleAfter: int,
                             token: nat -> nat, answers: nat -> Outcome, r: Resolution, calls: nat)
    requires row.status == DONE && row.httpStatus.Some? && Resolves(answers, r, calls)
    requires forall k: nat :: k < calls ==>
               && now(k) < row.expiresAt
               && answers(k) == AcquireAlone(Some(row), hash, now(k), clock(k), ttl, staleAfter, token(k)).1
    ensures calls == 1
    ensures r == if hash == row.requestHash then Replayed(row.httpStatus.value, row.snapshot) else KeyReused
  {
    forall k: nat | k < calls
      ensures answers(k) ==
              if hash == row.requestHash then Replay(row.httpStatus.value, row.snapshot) else Mismatch
    {
      AcquireMeans(Some(row), hash, now(k), clock(k), ttl, staleAfter, token(k));
    }
    assert !answers(0).Retry? && !answers(0).InProgress?;
  }

  // resolve. Call k of acquire answers answers(k) and takes took(k); the sleep after it
  // overshoots by late(k). It gives up only once the wait is over, and never makes more
  // than the bounded number of calls.
  method Resolve(waitMs: nat, answers: nat -> Outcome, took: nat -> nat, late: nat -> nat)
    returns (r: Resolution, calls: nat, elapsed: nat)
    ensures calls >= 1 && (calls > 1 ==> POLL_MIN_MS * (calls - 2) < waitMs)
    ensures Resolves(answers, r, calls)
    ensures r.StillInProgress? ==> elapsed >= waitMs
  {
    var now, backoff: int := 0, POLL_MIN_MS;
    calls := 0;
    while true
      invariant now >= 0 && backoff >= POLL_MIN_MS
      invariant now >= POLL_MIN_MS * calls || (now >= waitMs && waitMs > POLL_MIN_MS * (calls - 1))
      invariant calls > 0 ==> waitMs > POLL_MIN_MS * (calls - 1)
      invariant forall k: nat :: k < calls ==> Waits(answers(k))
      decreases Polls(waitMs) + 1 - calls
    {
      var outcome := answers(calls);
      now := now + took(calls);
      calls := calls + 1;
      if !Waits(outcome) {
        return Conclude(outcome), calls, now;
      }
      if now >= waitMs {
        return StillInProgress, calls, now;
      }
      if outcome.Retry? {
        now := now + POLL_MIN_MS + late(calls - 1);
      } else {
        now := now + Min(backoff, waitMs - now) + late(calls - 1);
        backoff := Min((3 * backoff + 1) / 2, POLL_MAX_MS);
      }
    }
  }
}
