// The Idempotency-Key claim protocol for one identity
// (apps/api/src/common/idempotency/idempotency.repository.ts).
module IdempotencyRows {
  import opened Prelude

  datatype Status = PENDING | DONE

  datatype Row = Row(
    requestHash: string,
    status: Status,
    httpStatus: Option<int>,
    snapshot: Option<string>,
    token: nat,
    lockedAt: int,
    expiresAt: int)

  datatype Outcome =
    | Acquired(token: nat)
    | Replay(httpStatus: int, snapshot: Option<string>)
    | InProgress
    | Mismatch
    | Retry

  // DELETE … WHERE "expiresAt" < now()
  predicate Expired(row: Row, now: int) {
    row.expiresAt < now
  }

  function Swept(row: Option<Row>, now: int): Option<Row> {
    if row.Some? && Expired(row.value, now) then None else row
  }

  // INSERT: now is the transaction's start, clock the statement's own time.
  function Claimed(hash: string, now: int, clock: int, ttl: int, token: nat): Row {
    Row(hash, PENDING, None, None, token, clock, now + ttl)
  }

  predicate Stale(row: Row, now: int, staleAfter: int) {
    now - row.lockedAt > staleAfter
  }

  datatype Judgement = Answer(outcome: Outcome) | MayReclaim(token: nat)

  // The SELECT after a conflict and what is concluded from it.
  function Judge(row: Option<Row>, hash: string, now: int, staleAfter: int): Judgement {
    if row.None? || row.value.expiresAt <= now then Answer(Retry)
    else if row.value.requestHash != hash then Answer(Mismatch)
    else if row.value.status == DONE then
      Answer(Replay(if row.value.httpStatus.Some? then row.value.httpStatus.value else 200, row.value.snapshot))
    else if !Stale(row.value, now, staleAfter) then Answer(InProgress)
    else MayReclaim(row.value.token)
  }

  // The WHERE of the conditional UPDATE.
  predicate Reclaimable(row: Option<Row>, hash: string, observed: nat, now: int, staleAfter: int) {
    && row.Some? && row.value.status == PENDING && row.value.requestHash == hash
    && row.value.token == observed && Stale(row.value, now, staleAfter)
  }

  function Reclaimed(row: Row, now: int, clock: int, ttl: int, token: nat): Row {
    row.(lockedAt := clock, token := token, expiresAt := now + ttl)
  }

  predicate Owns(row: Option<Row>, token: nat) {
    row.Some? && row.value.status == PENDING && row.value.token == token
  }

  function MarkedDone(row: Option<Row>, token: nat, httpStatus: int, snapshot: Option<string>): Option<Row> {
    if Owns(row, token)
    then Some(row.value.(status := DONE, httpStatus := Some(httpStatus), snapshot := snapshot))
    else row
  }

  function Released(row: Option<Row>, token: nat): Option<Row> {
    if Owns(row, token) then None else row
  }
}

module Idempotency {
  import opened Prelude
  import opened IdempotencyRows

  // Where a request is: inside its acquire transaction up to Claiming, then answered
  // or running its handler under a token.
  datatype Phase =
    | Begun
    | AfterSweep
    | Conflicted
    | Reclaiming(observed: nat)
    | Claiming(token: nat)
    | Concluding(outcome: Outcome)
    | Answered(outcome: Outcome)
    | Holding(token: nat)

  // now: the start of its acquire transaction, which is what now() means in it.
  datatype Request = Request(hash: string, now: int, phase: Phase)

  // An uncommitted change to the row, and the request whose transaction holds its lock:
  // an update in place, or a delete or insert.
  datatype Writer = Writer(owner: nat, row: Option<Row>, inPlace: bool)

  // History: each committed claim, what it took over, when its row was locked and
  // would expire, and whether its owner has completed or released it.
  datatype Claim = Claim(token: nat, tookOver: Option<nat>, startedAt: int, expiresAt: int, ended: bool)

  datatype State = State(
    ttl: int,
    staleAfter: int,
    clock: int,
    row: Option<Row>,
    writer: Option<Writer>,
    requests: map<nat, Request>,
    nextToken: nat,
    claims: seq<Claim>)

  datatype Step =
    | Tick(clock: int)
    | BeginAcquire(p: nat, hash: string)
    | SweepOwn(p: nat)
    | Insert(p: nat)
    | Look(p: nat)
    | Reclaim(p: nat)
    | Commit(p: nat)
    | Leave(p: nat)
    | MarkDone(p: nat, httpStatus: int, snapshot: Option<string>)
    | Release(p: nat)
    | SweepExpired(now: int)

  ghost predicate Init(s: State) {
    s.row.None? && s.writer.None? && s.requests == map[] && s.claims == [] && s.ttl >= 0 && s.staleAfter >= 0
  }

  predicate At(s: State, p: nat, phase: Phase) {
    p in s.requests && s.requests[p].phase == phase
  }

  function Moved(s: State, p: nat, phase: Phase): State
    requires p in s.requests
  {
    s.(requests := s.requests[p := s.requests[p].(phase := phase)])
  }

  predicate Locks(s: State, p: nat) {
    s.writer.Some? && s.writer.value.owner == p
  }

  // The last claim was completed or released by its owner, if the row says so.
  function Ended(claims: seq<Claim>): seq<Claim>
    requires claims != []
  {
    claims[|claims| - 1 := claims[|claims| - 1].(ended := true)]
  }

  ghost predicate Next(s: State, step: Step, t: State) {
    match step
    case Tick(clock) => clock >= s.clock && t == s.(clock := clock)
    case BeginAcquire(p, hash) =>
      p !in s.requests && t == s.(requests := s.requests[p := Request(hash, s.clock, Begun)])
    case SweepOwn(p) =>
      // deleting an expired row needs its lock; a row that does not match is passed by
      && At(s, p, Begun)
      && var r := s.requests[p];
      && (if s.row.Some? && Expired(s.row.value, r.now)
          then s.writer.None? && t == Moved(s, p, AfterSweep).(writer := Some(Writer(p, None, false)))
          else t == Moved(s, p, AfterSweep))
    case Insert(p) =>
      // ON CONFLICT waits for an insert or delete in flight, not for an update in place
      && At(s, p, AfterSweep)
      && var r := s.requests[p];
      && (if Locks(s, p) || (s.writer.None? && s.row.None?)
          then t == Moved(s, p, Claiming(s.nextToken)).(
                      writer := Some(Writer(p, Some(Claimed(r.hash, r.now, s.clock, s.ttl, s.nextToken)), false)),
                      nextToken := s.nextToken + 1)
          else s.row.Some? && (s.writer.None? || s.writer.value.inPlace) && t == Moved(s, p, Conflicted))
    case Look(p) =>
      && At(s, p, Conflicted)
      && var r := s.requests[p];
      && t == Moved(s, p, match Judge(s.row, r.hash, r.now, s.staleAfter)
                          case Answer(outcome) => Concluding(outcome)
                          case MayReclaim(token) => Reclaiming(token))
    case Reclaim(p) =>
      && p in s.requests && s.requests[p].phase.Reclaiming? && s.writer.None?
      && var r := s.requests[p];
      && t == if Reclaimable(s.row, r.hash, r.phase.observed, r.now, s.staleAfter)
              then Moved(s, p, Claiming(s.nextToken)).(
                     writer := Some(Writer(p, Some(Reclaimed(s.row.value, r.now, s.clock, s.ttl, s.nextToken)), true)),
                     nextToken := s.nextToken + 1)
              else Moved(s, p, Concluding(InProgress))
    case Commit(p) =>
      && p in s.requests
      && (match s.requests[p].phase
         case Claiming(token) =>
           && Locks(s, p) && s.writer.value.row.Some?
           && var row := s.writer.value.row.value;
           && var tookOver := if s.writer.value.inPlace && s.row.Some? then Some(s.row.value.token) else None;
           && t == Moved(s, p, Holding(token)).(
                     row := Some(row),
                     writer := None,
                     claims := s.claims + [Claim(row.token, tookOver, row.lockedAt, row.expiresAt, false)])
         case Concluding(outcome) => t == Moved(s, p, Answered(outcome))
         case _ => false)
    case Leave(p) =>
      // rollback of its transaction, the end of its handler, or a crash
      p in s.requests
      && t == s.(requests := s.requests - {p}, writer := if Locks(s, p) then None else s.writer)
    case MarkDone(p, httpStatus, snapshot) =>
      && p in s.requests && s.requests[p].phase.Holding? && s.writer.None?
      && var token := s.requests[p].phase.token;
      && t == s.(row := MarkedDone(s.row, token, httpStatus, snapshot),
                 claims := if Owns(s.row, token) && s.claims != [] then Ended(s.claims) else s.claims)
    case Release(p) =>
      && p in s.requests && s.requests[p].phase.Holding? && s.writer.None?
      && var token := s.requests[p].phase.token;
      && t == s.(row := Released(s.row, token),
                 claims := if Owns(s.row, token) && s.claims != [] then Ended(s.claims) else s.claims)
    case SweepExpired(now) =>
      now <= s.clock && s.writer.None? && t == s.(row := Swept(s.row, now))
  }

  ghost predicate Run(states: seq<State>, steps: seq<Step>) {
    && |states| == |steps| + 1 && Init(states[0])
    && forall i: nat :: i < |steps| ==> StepAt(states, steps, i)
  }

  ghost predicate StepAt(states: seq<State>, steps: seq<Step>, i: nat)
    requires i < |steps| && |states| == |steps| + 1
  {
    Next(states[i], steps[i], states[i + 1])
  }

  // ---------------------------------------------------------------- invariants

  function LastClaim(s: State): Claim
    requires s.claims != []
  {
    s.claims[|s.claims| - 1]
  }

  // The row is the last claim's.
  ghost predicate RowSound(s: State) {
    && (s.row.Some? ==>
          && s.claims != []
          && s.row.value.token == LastClaim(s).token
          && s.row.value.lockedAt == LastClaim(s).startedAt
          && s.row.value.expiresAt == LastClaim(s).expiresAt
          && (s.row.value.status == DONE <==> LastClaim(s).ended))
    && (s.row.None? && s.claims != [] ==> LastClaim(s).ended || LastClaim(s).expiresAt < s.clock)
  }

  // What a claim may stand on: its predecessor ended, expired, or went stale.
  ghost predicate MayFollow(a: Claim, b: Claim, staleAfter: int) {
    && a.startedAt <= b.startedAt
    && (a.ended || a.expiresAt < b.startedAt || b.startedAt - a.startedAt > staleAfter)
    && (b.tookOver.Some? ==> b.tookOver == Some(a.token))
  }

  ghost predicate ClaimsSound(s: State) {
    && (forall i :: 0 <= i < |s.claims| ==>
          s.claims[i].token < s.nextToken && s.claims[i].startedAt <= s.clock)
    && (forall i, j :: 0 <= i < j < |s.claims| ==> s.claims[i].token < s.claims[j].token)
    && (forall i :: 0 <= i < |s.claims| - 1 ==> MayFollow(s.claims[i], s.claims[i + 1], s.staleAfter))
    && (s.claims != [] ==> s.claims[0].tookOver.None?)
  }

  ghost predicate RequestsSound(s: State) {
    forall p :: p in s.requests ==>
      && s.requests[p].now <= s.clock
      && (s.requests[p].phase.Claiming? <==> Locks(s, p) && s.writer.value.row.Some?)
      && (s.requests[p].phase.Holding? ==>
          exists i :: 0 <= i < |s.claims| && s.claims[i].token == s.requests[p].phase.token)
      && (Locks(s, p) ==> s.requests[p].phase.AfterSweep? || s.requests[p].phase.Claiming?)
  }

  // An uncommitted row can become the next claim.
  ghost predicate WriterSound(s: State) {
    s.writer.Some? ==>
      && s.writer.value.owner in s.requests
      && (s.row.Some? && !s.writer.value.inPlace ==> s.row.value.expiresAt < s.clock)
      && (s.writer.value.inPlace ==> s.row.Some? && s.row.value.status == PENDING)
      && (s.writer.value.row.Some? ==>
            && var row := s.writer.value.row.value;
            && row.status == PENDING && row.token < s.nextToken && row.lockedAt <= s.clock
            && s.requests[s.writer.value.owner].phase == Claiming(row.token)
            && (s.claims != [] ==> LastClaim(s).token < row.token && LastClaim(s).startedAt <= row.lockedAt)
            && (s.claims != [] && !s.writer.value.inPlace ==>
                 LastClaim(s).ended || LastClaim(s).expiresAt < row.lockedAt)
            && (s.row.Some? && !s.writer.value.inPlace ==> s.row.value.expiresAt < row.lockedAt)
            && (s.writer.value.inPlace ==> row.lockedAt - s.row.value.lockedAt > s.staleAfter))
      && (s.writer.value.row.None? ==> s.row.Some? && !s.writer.value.inPlace)
  }

  ghost predicate Inv(s: State) {
    RowSound(s) && ClaimsSound(s) && RequestsSound(s) && WriterSound(s)
  }

  lemma RowKept(s: State, step: Step, t: State)
    requires Inv(s) && Next(s, step, t)
    ensures RowSound(t)
  {
  }

  lemma ClaimsKept(s: State, step: Step, t: State)
    requires Inv(s) && Next(s, step, t)
    ensures ClaimsSound(t)
  {
    if step.Commit? && |t.claims| > |s.claims| {
      CommitFollows(s, step.p, t);
    } else if t.claims != s.claims {
      EndedSound(s, t);
    }
  }

  lemma EndedSound(s: State, t: State)
    requires ClaimsSound(s) && s.claims != [] && t.claims == Ended(s.claims)
    requires s.nextToken == t.nextToken && s.clock == t.clock && s.staleAfter == t.staleAfter
    ensures ClaimsSound(t)
  {
    forall i | 0 <= i < |t.claims| - 1 ensures MayFollow(t.claims[i], t.claims[i + 1], t.staleAfter) {
      assert MayFollow(s.claims[i], s.claims[i + 1], s.staleAfter);
    }
  }

  lemma CommitFollows(s: State, p: nat, t: State)
    requires Inv(s) && Next(s, Commit(p), t) && |t.claims| > |s.claims|
    ensures ClaimsSound(t)
  {
    var added := t.claims[|s.claims|];
    assert s.claims != [] ==> MayFollow(LastClaim(s), added, s.staleAfter);
    forall i | 0 <= i < |t.claims| - 1 ensures MayFollow(t.claims[i], t.claims[i + 1], t.staleAfter) {
      if i < |s.claims| - 1 {
        assert MayFollow(s.claims[i], s.claims[i + 1], s.staleAfter);
      }
    }
  }

  lemma TokensKept(s: State, step: Step, t: State)
    requires Next(s, step, t)
    ensures |s.claims| <= |t.claims|
    ensures forall i :: 0 <= i < |s.claims| ==> t.claims[i].token == s.claims[i].token
  {
  }

  lemma NewHolding(s: State, step: Step, t: State, p: nat)
    requires RequestsSound(s) && WriterSound(s) && Next(s, step, t)
    requires p in t.requests && t.requests[p].phase.Holding?
             && !(p in s.requests && s.requests[p].phase == t.requests[p].phase)
    ensures |s.claims| < |t.claims| && t.claims[|s.claims|].token == t.requests[p].phase.token
  {
  }

  lemma RequestsKept(s: State, step: Step, t: State)
    requires Inv(s) && Next(s, step, t)
    ensures RequestsSound(t)
  {
    TokensKept(s, step, t);
    forall p | p in t.requests && t.requests[p].phase.Holding?
      ensures exists i :: 0 <= i < |t.claims| && t.claims[i].token == t.requests[p].phase.token
    {
      if p in s.requests && s.requests[p].phase == t.requests[p].phase {
        var i :| 0 <= i < |s.claims| && s.claims[i].token == s.requests[p].phase.token;
        assert t.claims[i].token == s.claims[i].token;
      } else {
        NewHolding(s, step, t, p);
      }
    }
  }

  lemma WriterKept(s: State, step: Step, t: State)
    requires Inv(s) && Next(s, step, t)
    ensures WriterSound(t)
  {
    match step
    case Commit(_) =>
    case Insert(p) => InsertWrites(s, p, t);
    case Reclaim(p) => ReclaimWrites(s, p, t);
    case Leave(_) => LeaveKeepsWriter(s, step, t);
    case _ => OtherKeepsWriter(s, step, t);
  }

  lemma InsertWrites(s: State, p: nat, t: State)
    requires Inv(s) && Next(s, Insert(p), t)
    ensures WriterSound(t)
  {
  }

  lemma ReclaimWrites(s: State, p: nat, t: State)
    requires Inv(s) && Next(s, Reclaim(p), t)
    ensures WriterSound(t)
  {
  }

  lemma LeaveKeepsWriter(s: State, step: Step, t: State)
    requires Inv(s) && Next(s, step, t) && step.Leave?
    ensures WriterSound(t)
  {
  }

  lemma OtherKeepsWriter(s: State, step: Step, t: State)
    requires Inv(s) && Next(s, step, t) && !step.Insert? && !step.Reclaim? && !step.Leave? && !step.Commit?
    ensures WriterSound(t)
  {
  }

  lemma {:induction false} RunInv(states: seq<State>, steps: seq<Step>, i: nat)
    requires Run(states, steps) && i < |states|
    ensures Inv(states[i])
  {
    if i > 0 {
      RunInv(states, steps, i - 1);
      var s, t := states[i - 1], states[i];
      assert StepAt(states, steps, i - 1);
      RowKept(s, steps[i - 1], t);
      ClaimsKept(s, steps[i - 1], t);
      RequestsKept(s, steps[i - 1], t);
      WriterKept(s, steps[i - 1], t);
    }
  }

  // ---------------------------------------------------------------- main results

  // Any two claims of one identity: the earlier is over, or the later began after it
  // expired or after its lease went stale. So two unfinished claims stand side by side
  // only through expiry or staleness, measured on the database's own clock.
  lemma {:induction false} ClaimsSeparated(s: State, i: nat, j: nat)
    requires Inv(s) && i < j < |s.claims|
    ensures var a, b := s.claims[i], s.claims[j];
            && a.startedAt <= b.startedAt
            && (a.ended || a.expiresAt < b.startedAt || b.startedAt - a.startedAt > s.staleAfter)
    decreases j
  {
    assert MayFollow(s.claims[j - 1], s.claims[j - 1 + 1], s.staleAfter);
    if i < j - 1 {
      ClaimsSeparated(s, i, j - 1);
    }
  }

  lemma ClaimSafety(states: seq<State>, steps: seq<Step>, k: nat, i: nat, j: nat)
    requires Run(states, steps) && k < |states| && i < j < |states[k].claims|
    ensures var a, b := states[k].claims[i], states[k].claims[j];
            a.ended || a.expiresAt < b.startedAt || b.startedAt - a.startedAt > states[k].staleAfter
  {
    RunInv(states, steps, k);
    ClaimsSeparated(states[k], i, j);
  }

  // At most one reclaimer wins per observed token, and what it took over is the claim
  // just before its own.
  lemma OneTakeoverPerToken(states: seq<State>, steps: seq<Step>, k: nat, i: nat, j: nat)
    requires Run(states, steps) && k < |states| && i < |states[k].claims| && j < |states[k].claims|
    requires states[k].claims[i].tookOver.Some? && states[k].claims[i].tookOver == states[k].claims[j].tookOver
    ensures i == j && i > 0 && states[k].claims[i].tookOver == Some(states[k].claims[i - 1].token)
  {
    RunInv(states, steps, k);
    var s := states[k];
    assert MayFollow(s.claims[i - 1], s.claims[i - 1 + 1], s.staleAfter);
    assert MayFollow(s.claims[j - 1], s.claims[j - 1 + 1], s.staleAfter);
  }

  // Completing or releasing acts only through the token of the last claim while it is
  // unfinished; for a superseded owner it changes nothing.
  lemma OnlyCurrentOwnerActs(states: seq<State>, steps: seq<Step>, k: nat, p: nat)
    requires Run(states, steps) && k < |steps|
    requires (steps[k].MarkDone? || steps[k].Release?) && steps[k].p == p
    requires p in states[k].requests && states[k].requests[p].phase.Holding?
    ensures var s, t, token := states[k], states[k + 1], states[k].requests[p].phase.token;
            && (t.row != s.row ==>
                 Owns(s.row, token) && s.claims != [] && LastClaim(s).token == token && !LastClaim(s).ended)
            && (forall i :: 0 <= i < |s.claims| - 1 && s.claims[i].token == token ==> t == s)
            && |t.claims| == |s.claims| && (forall i :: 0 <= i < |s.claims| - 1 ==> t.claims[i] == s.claims[i])
  {
    RunInv(states, steps, k);
    assert StepAt(states, steps, k);
  }

  // Two requests never hold the same token, so a token names one owner.
  lemma {:induction false} HoldersDistinct(states: seq<State>, steps: seq<Step>, k: nat, p: nat, q: nat)
    requires Run(states, steps) && k < |states|
    requires p in states[k].requests && q in states[k].requests && p != q
    requires states[k].requests[p].phase.Holding? && states[k].requests[q].phase.Holding?
    ensures states[k].requests[p].phase.token != states[k].requests[q].phase.token
  {
    if k > 0 {
      RunInv(states, steps, k - 1);
      var s, t, step := states[k - 1], states[k], steps[k - 1];
      assert StepAt(states, steps, k - 1);
      if p in s.requests && q in s.requests && s.requests[p].phase.Holding? && s.requests[q].phase.Holding? {
        HoldersDistinct(states, steps, k - 1, p, q);
      } else {
        NewHolderIsNewest(s, step, t, p, q);
      }
    }
  }

  lemma NewHolderIsNewest(s: State, step: Step, t: State, p: nat, q: nat)
    requires Inv(s) && Next(s, step, t) && p != q
    requires p in t.requests && q in t.requests && t.requests[p].phase.Holding? && t.requests[q].phase.Holding?
    requires !(p in s.requests && q in s.requests && s.requests[p].phase.Holding? && s.requests[q].phase.Holding?)
    ensures t.requests[p].phase.token != t.requests[q].phase.token
  {
    assert step.Commit? && (step.p == p || step.p == q);
    var older := if step.p == p then q else p;
    assert s.requests[older].phase.Holding?;
    var i :| 0 <= i < |s.claims| && s.claims[i].token == s.requests[older].phase.token;
    assert s.claims[i].token <= LastClaim(s).token;
  }

  lemma {:induction false} ClaimsOnlyGrow(states: seq<State>, steps: seq<Step>, i: nat, j: nat)
    requires Run(states, steps) && i <= j < |states|
    ensures states[i].clock <= states[j].clock && |states[i].claims| <= |states[j].claims|
    ensures forall k :: 0 <= k < |states[i].claims| ==>
              states[j].claims[k] == states[i].claims[k] || states[j].claims[k] == states[i].claims[k].(ended := true)
    decreases j
  {
    if i < j {
      ClaimsOnlyGrow(states, steps, i, j - 1);
      RunInv(states, steps, j - 1);
      assert StepAt(states, steps, j - 1);
    }
  }

  // A completed row stays exactly as it is, and no further claim is made, until the
  // clock has passed its expiry.
  lemma {:induction false} DoneIsStable(states: seq<State>, steps: seq<Step>, i: nat, j: nat)
    requires Run(states, steps) && i <= j < |states|
    requires states[i].row.Some? && states[i].row.value.status == DONE
    ensures states[j].clock <= states[i].row.value.expiresAt ==>
              states[j].row == states[i].row && |states[j].claims| == |states[i].claims|
    decreases j
  {
    if i < j {
      DoneIsStable(states, steps, i, j - 1);
      RunInv(states, steps, j - 1);
      assert StepAt(states, steps, j - 1);
    }
  }

  // n claims were made when `row` was completed. Until another is committed, the row is
  // untouched or gone after expiry, and a claim in preparation began after expiry.
  ghost predicate SettledUntilExpiry(t: State, row: Row, n: nat) {
    && n <= |t.claims|
    && (|t.claims| == n ==> t.row == Some(row) || (t.row.None? && row.expiresAt < t.clock))
    && (|t.claims| == n && t.writer.Some? && t.writer.value.row.Some? ==>
          row.expiresAt < t.writer.value.row.value.lockedAt)
    && (|t.claims| > n ==> t.claims[n].startedAt > row.expiresAt)
  }

  lemma SettledKept(s: State, step: Step, t: State, row: Row, n: nat)
    requires Inv(s) && Next(s, step, t) && row.status == DONE
    requires SettledUntilExpiry(s, row, n)
    ensures SettledUntilExpiry(t, row, n)
  {
    if |s.claims| > n {
      assert t.claims[n].startedAt == s.claims[n].startedAt;
    }
  }

  lemma {:induction false} ExpiryOrUntouched(states: seq<State>, steps: seq<Step>, i: nat, j: nat)
    requires Run(states, steps) && i <= j < |states|
    requires states[i].row.Some? && states[i].row.value.status == DONE
    ensures SettledUntilExpiry(states[j], states[i].row.value, |states[i].claims|)
    decreases j
  {
    if i < j {
      ExpiryOrUntouched(states, steps, i, j - 1);
      RunInv(states, steps, j - 1);
      assert StepAt(states, steps, j - 1);
      SettledKept(states[j - 1], steps[j - 1], states[j], states[i].row.value, |states[i].claims|);
    } else {
      RunInv(states, steps, i);
    }
  }

  // Any claim made after completion began after the completed row had expired: no
  // further handler run starts before that.
  lemma NextRunAfterExpiry(states: seq<State>, steps: seq<Step>, i: nat, j: nat, n: nat)
    requires Run(states, steps) && i <= j < |states|
    requires states[i].row.Some? && states[i].row.value.status == DONE
    requires |states[i].claims| <= n < |states[j].claims|
    ensures states[j].claims[n].startedAt > states[i].row.value.expiresAt
  {
    ExpiryOrUntouched(states, steps, i, j);
    RunInv(states, steps, j);
    if n > |states[i].claims| {
      ClaimsSeparated(states[j], |states[i].claims|, n);
    }
  }

  // A request holding the row's token, or about to, has the hash the row carries.
  ghost predicate HashSound(s: State) {
    && (s.row.Some? ==>
          forall p :: p in s.requests && s.requests[p].phase == Holding(s.row.value.token) ==>
            s.requests[p].hash == s.row.value.requestHash)
    && (s.writer.Some? && s.writer.value.row.Some? ==>
          && s.writer.value.owner in s.requests
          && s.requests[s.writer.value.owner].hash == s.writer.value.row.value.requestHash)
  }

  lemma HashKept(s: State, step: Step, t: State)
    requires Inv(s) && HashSound(s) && Next(s, step, t) && !step.Commit?
    ensures HashSound(t)
  {
  }

  lemma HashCommitted(s: State, p: nat, t: State)
    requires Inv(s) && HashSound(s) && Next(s, Commit(p), t)
    ensures HashSound(t)
  {
    if t.row != s.row {
      var token := t.row.value.token;
      forall q | q in s.requests && s.requests[q].phase.Holding? ensures s.requests[q].phase.token < token {
        var i :| 0 <= i < |s.claims| && s.claims[i].token == s.requests[q].phase.token;
        assert s.claims[i].token <= LastClaim(s).token;
      }
    }
  }

  lemma {:induction false} RunHash(states: seq<State>, steps: seq<Step>, k: nat)
    requires Run(states, steps) && k < |states|
    ensures HashSound(states[k])
  {
    if k > 0 {
      RunHash(states, steps, k - 1);
      RunInv(states, steps, k - 1);
      assert StepAt(states, steps, k - 1);
      if steps[k - 1].Commit? {
        HashCommitted(states[k - 1], steps[k - 1].p, states[k]);
      } else {
        HashKept(states[k - 1], steps[k - 1], states[k]);
      }
    }
  }

  // What the owner's completion leaves behind: the row of its own request, done, with the
  // status and the snapshot it was given.
  lemma Completes(states: seq<State>, steps: seq<Step>, i: nat)
    requires Run(states, steps) && i < |steps| && steps[i].MarkDone?
    requires Held(states[i], steps[i].p)
    ensures var row := states[i + 1].row;
            && row.Some? && row.value.status == DONE && row.value.expiresAt == states[i].row.value.expiresAt
            && row.value.requestHash == states[i].requests[steps[i].p].hash
            && row.value.httpStatus == Some(steps[i].httpStatus) && row.value.snapshot == steps[i].snapshot
  {
    RunHash(states, steps, i);
    assert StepAt(states, steps, i);
  }

  // The request still owns the row's unfinished claim.
  ghost predicate Held(s: State, p: nat) {
    p in s.requests && s.requests[p].phase.Holding? && Owns(s.row, s.requests[p].phase.token)
  }

  // Once an owner has completed its request with a status and a snapshot, every request
  // that reads the row until it expires gets exactly those back if it has the owner's hash
  // and is told of a mismatch if it has another; one whose own transaction began at or
  // after the expiry is told to retry.
  lemma CompletedRequestReplays(states: seq<State>, steps: seq<Step>, i: nat, j: nat, q: nat)
    requires Run(states, steps) && i < j < |steps|
    requires steps[i].MarkDone? && Held(states[i], steps[i].p) && steps[j] == Look(q)
    requires states[j].clock <= states[i].row.value.expiresAt
    ensures q in states[j].requests && q in states[j + 1].requests
    ensures var asked, done := states[j].requests[q], states[i].requests[steps[i].p];
            states[j + 1].requests[q].phase == Concluding(
              if states[i].row.value.expiresAt <= asked.now then Retry
              else if asked.hash != done.hash then Mismatch
              else Replay(steps[i].httpStatus, steps[i].snapshot))
  {
    Completes(states, steps, i);
    DoneIsStable(states, steps, i + 1, j);
    assert StepAt(states, steps, j);
  }
}
