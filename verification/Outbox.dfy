// The outbox dispatcher for one tenant: durable seq allocation and ordered publishing
// (apps/worker/src/outbox/seq-allocator.ts, publisher.ts, envelope.ts).
module OutboxRows {
  import opened Prelude
  import opened Digits
  import opened StreamIds
  import opened Events
  import opened TextOrder

  // An outbox row. createdAt and availableAt both default to the inserting
  // transaction's start time.
  datatype Row = Row(
    tenantId: Option<string>,
    companyId: Option<string>,
    branchId: Option<string>,
    aggregateType: string,
    aggregateId: string,
    eventType: string,
    resourceVersion: Option<nat>,
    actorSummary: string,
    createdAt: int,
    serial: Option<nat>,
    dispatched: bool,
    attempts: nat,
    availableAt: int)

  type Table = map<string, Row>

  datatype EnvelopeError = NoSeq | NoTenant

  function BuildEnvelope(id: string, row: Row): Result<Envelope, EnvelopeError> {
    if row.serial.None? then Err(NoSeq)
    else if row.tenantId.None? then Err(NoTenant)
    else
      Ok(Envelope(
        Some(id), Print(row.serial.value), row.tenantId.value, row.companyId, row.branchId, row.eventType,
        row.aggregateType, row.aggregateId,
        if row.resourceVersion.Some? then Some(Print(row.resourceVersion.value)) else None,
        row.createdAt, row.actorSummary))
  }

  // What an envelope says of its row: every column the client and the gateway are told of.
  ghost predicate Tells(e: Envelope, id: string, row: Row) {
    && e.eventId == Some(id)
    && row.serial.Some? && AllDigits(e.seqText) && Value(e.seqText) == row.serial.value
    && row.tenantId == Some(e.tenantId) && row.companyId == e.companyId && row.branchId == e.branchId
    && row.eventType == e.eventType && row.aggregateType == e.resourceType && row.aggregateId == e.resourceId
    && (row.resourceVersion.Some? <==> e.resourceVersion.Some?)
    && (e.resourceVersion.Some? ==>
          AllDigits(e.resourceVersion.value) && Value(e.resourceVersion.value) == row.resourceVersion.value)
    && row.createdAt == e.occurredAt && row.actorSummary == e.actorSummary
  }

  // A row without a seq is refused, then one without a tenant; any other is told of.
  lemma EnvelopeTells(id: string, row: Row)
    ensures BuildEnvelope(id, row) == Err(NoSeq) <==> row.serial.None?
    ensures BuildEnvelope(id, row) == Err(NoTenant) <==> row.serial.Some? && row.tenantId.None?
    ensures BuildEnvelope(id, row).Ok? ==> Tells(BuildEnvelope(id, row).value, id, row)
  {
  }

  // ORDER BY "createdAt", id; uuids compare as their hexadecimal text does.
  predicate Earlier(rows: Table, a: string, b: string)
    requires a in rows && b in rows
  {
    rows[a].createdAt < rows[b].createdAt || (rows[a].createdAt == rows[b].createdAt && TextLess(a, b))
  }

  predicate Unstamped(rows: Table, id: string) {
    id in rows && rows[id].serial.None? && !rows[id].dispatched
  }

  // What SELECT … WHERE seq IS NULL … ORDER BY … LIMIT may answer.
  ghost predicate IsBatch(rows: Table, batch: seq<string>, limit: nat) {
    && |batch| <= limit
    && (forall i :: 0 <= i < |batch| ==> Unstamped(rows, batch[i]))
    && (forall i, j :: 0 <= i < j < |batch| ==> batch[i] != batch[j] && Earlier(rows, batch[i], batch[j]))
    && (forall id :: Unstamped(rows, id) && id !in batch ==>
          |batch| == limit && forall i :: 0 <= i < |batch| ==> !Earlier(rows, id, batch[i]))
  }

  // INSERT … VALUES 2 ON CONFLICT … + 1 RETURNING nextSeq - 1: the value handed out
  // when the counter row holds `counter` (absent at first).
  function NextOf(counter: Option<nat>): nat {
    if counter.None? then 1 else counter.value
  }

  // UPDATE … SET seq WHERE id AND seq IS NULL
  function StampOne(rows: Table, id: string, n: nat): Table {
    if id in rows && rows[id].serial.None? then rows[id := rows[id].(serial := Some(n))] else rows
  }

  // A stamp is given once: a row that has one keeps it.
  lemma StampOnce(rows: Table, id: string, n: nat, m: nat)
    ensures id in rows && rows[id].serial.Some? ==> StampOne(rows, id, n) == rows
    ensures StampOne(StampOne(rows, id, n), id, m) == StampOne(rows, id, n)
  {
  }

  // The allocation loop over a batch, starting with value n.
  function StampAll(rows: Table, n: nat, batch: seq<string>): Table {
    if batch == [] then rows
    else StampOne(StampAll(rows, n, batch[..|batch| - 1]), batch[|batch| - 1], n + |batch| - 1)
  }

  predicate Eligible(rows: Table, id: string, now: int) {
    id in rows && rows[id].serial.Some? && !rows[id].dispatched && rows[id].availableAt <= now
  }

  // What the publisher's SELECT … ORDER BY seq LIMIT 1 may answer.
  ghost predicate LowestEligible(rows: Table, id: string, now: int) {
    && Eligible(rows, id, now)
    && forall other :: Eligible(rows, other, now) ==> rows[id].serial.value <= rows[other].serial.value
  }

  function MarkDispatched(rows: Table, id: string): Table
    requires id in rows
  {
    rows[id := rows[id].(dispatched := true)]
  }

  function RecordFailure(rows: Table, id: string, at: int): Table
    requires id in rows
  {
    rows[id := rows[id].(attempts := rows[id].attempts + 1, availableAt := at)]
  }

  // Nothing but row id's dispatch mark is different, and the row is never eligible again.
  ghost predicate Dispatches(rows: Table, id: string, out: Table) {
    && id in rows && out.Keys == rows.Keys
    && (forall other :: other in rows && other != id ==> out[other] == rows[other])
    && out[id].dispatched && out[id].(dispatched := rows[id].dispatched) == rows[id]
    && forall now :: !Eligible(out, id, now)
  }

  // Nothing but row id's failure record is different: one more attempt, and not eligible
  // before the given time, from which on it is again.
  ghost predicate BacksOff(rows: Table, id: string, at: int, out: Table) {
    && id in rows && out.Keys == rows.Keys
    && (forall other :: other in rows && other != id ==> out[other] == rows[other])
    && out[id].attempts == rows[id].attempts + 1
    && out[id].(attempts := rows[id].attempts, availableAt := rows[id].availableAt) == rows[id]
    && forall now :: Eligible(out, id, now) <==> now >= at && rows[id].serial.Some? && !rows[id].dispatched
  }

  lemma MarkMeans(rows: Table, id: string, at: int)
    requires id in rows
    ensures Dispatches(rows, id, MarkDispatched(rows, id))
    ensures BacksOff(rows, id, at, RecordFailure(rows, id, at))
  {
  }

  // out is rows with the batch stamped n, n + 1, … in batch order and nothing else touched.
  ghost predicate Stamps(rows: Table, n: nat, batch: seq<string>, out: Table) {
    && out.Keys == rows.Keys
    && (forall id :: id in rows && id !in batch ==> out[id] == rows[id])
    && (forall i :: 0 <= i < |batch| ==> batch[i] in rows && out[batch[i]] == rows[batch[i]].(serial := Some(n + i)))
  }

  ghost predicate UnstampedBatch(rows: Table, batch: seq<string>) {
    && (forall i :: 0 <= i < |batch| ==> Unstamped(rows, batch[i]))
    && (forall i, j :: 0 <= i < j < |batch| ==> batch[i] != batch[j])
  }

  lemma InitOfBatch(rows: Table, batch: seq<string>)
    requires UnstampedBatch(rows, batch) && batch != []
    ensures var k := |batch| - 1;
            && UnstampedBatch(rows, batch[..k]) && Unstamped(rows, batch[k])
            && batch[k] !in batch[..k] && batch == batch[..k] + [batch[k]]
  {
  }

  lemma StampOneMoreEffect(rows: Table, n: nat, init: seq<string>, last: string)
    requires Stamps(rows, n, init, StampAll(rows, n, init)) && Unstamped(rows, last) && last !in init
    ensures Stamps(rows, n, init + [last], StampAll(rows, n, init + [last]))
  {
    assert (init + [last])[..|init|] == init;
    StampsOneMore(rows, n, init, StampAll(rows, n, init), last);
  }

  lemma {:induction false} StampAllEffect(rows: Table, n: nat, batch: seq<string>)
    requires UnstampedBatch(rows, batch)
    ensures Stamps(rows, n, batch, StampAll(rows, n, batch))
  {
    if batch != [] {
      var init, last := batch[..|batch| - 1], batch[|batch| - 1];
      InitOfBatch(rows, batch);
      StampAllEffect(rows, n, init);
      StampOneMoreEffect(rows, n, init, last);
    }
  }

  lemma StampsOneMore(rows: Table, n: nat, batch: seq<string>, mid: Table, id: string)
    requires Stamps(rows, n, batch, mid)
    requires Unstamped(rows, id) && id !in batch
    ensures mid[id] == rows[id]
    ensures Stamps(rows, n, batch + [id], StampOne(mid, id, n + |batch|))
  {
  }
}

module Outbox {
  import opened Prelude
  import opened Digits
  import opened StreamIds
  import opened Events
  import opened TextOrder
  import opened OutboxRows

  // The allocation transaction in flight: its batch, and how far its loop has come.
  // Its writes become visible only when it commits.
  datatype Alloc = Alloc(batch: seq<string>, done: nat)

  // A publisher's selection: the row, its transaction's start, and the table it saw.
  datatype Pick = Pick(id: string, now: int, rows: Table) {
    predicate Readable() {
      id in rows && rows[id].serial.Some? && rows[id].tenantId.Some?
    }

    function Serial(): nat
      requires Readable()
    {
      rows[id].serial.value
    }

    // buildEnvelope of the selected row.
    function Envelope(): Envelope
      requires Readable()
    {
      BuildEnvelope(id, rows[id]).value
    }
  }

  // The publishing transaction in flight, before and after XADD took effect.
  datatype Pub = Selected(pick: Pick) | Added(pick: Pick)

  // One tenant's durable state, the holders of its two advisory locks, the appends still
  // under way from processes whose transaction is gone, and two histories: the ids in the
  // order they were stamped, and the selection each stream entry came from.
  datatype State = State(
    tenant: string,
    clock: int,
    rows: Table,
    counter: Option<nat>,
    stream: seq<Entry>,
    alloc: Option<Alloc>,
    pub: Option<Pub>,
    strays: seq<Pick>,
    issued: seq<string>,
    origins: seq<Pick>)

  datatype Step =
    | Tick(clock: int)
    | Insert(id: string, row: Row)
    | AllocBegin(batch: seq<string>, limit: nat)
    | AllocStamp
    | AllocCommit
    | AllocAbort
    | PubSelect(now: int, id: string)
    | PubXadd(entryId: StreamId)
    | PubCommit
    | PubFail(at: int)
    | PubAbort
    | StrayXadd(i: nat, entryId: StreamId)

  ghost predicate Init(s: State) {
    && s.rows == map[] && s.counter.None? && s.stream == [] && s.alloc.None? && s.pub.None?
    && s.strays == [] && s.issued == [] && s.origins == []
  }

  ghost predicate FreshRow(s: State, row: Row) {
    && row.tenantId == Some(s.tenant) && row.serial.None? && !row.dispatched && row.attempts == 0
    && row.availableAt == row.createdAt <= s.clock
  }

  function EnvelopeOf(s: State, id: string): Envelope
    requires id in s.rows && s.rows[id].serial.Some? && s.rows[id].tenantId.Some?
  {
    BuildEnvelope(id, s.rows[id]).value
  }

  predicate CanBuild(s: State, id: string) {
    id in s.rows && s.rows[id].serial.Some? && s.rows[id].tenantId.Some?
  }

  // XADD of a selection takes effect.
  ghost predicate Xadd(s: State, pick: Pick, entryId: StreamId, t: State) {
    && pick.Readable() && Appends(s.stream, Entry(entryId, Event(pick.Envelope())))
    && t.stream == s.stream + [Entry(entryId, Event(pick.Envelope()))] && t.origins == s.origins + [pick]
  }

  ghost predicate Next(s: State, step: Step, t: State) {
    match step
    case Tick(clock) => clock >= s.clock && t == s.(clock := clock)
    case Insert(id, row) => id !in s.rows && FreshRow(s, row) && t == s.(rows := s.rows[id := row])
    case AllocBegin(batch, limit) =>
      s.alloc.None? && IsBatch(s.rows, batch, limit) && t == s.(alloc := Some(Alloc(batch, 0)))
    case AllocStamp =>
      && s.alloc.Some? && s.alloc.value.done < |s.alloc.value.batch|
      && t == s.(alloc := Some(Alloc(s.alloc.value.batch, s.alloc.value.done + 1)))
    case AllocCommit =>
      && s.alloc.Some? && s.alloc.value.done == |s.alloc.value.batch|
      && var batch := s.alloc.value.batch;
      && t == s.(
           rows := StampAll(s.rows, NextOf(s.counter), batch),
           counter := if batch == [] then s.counter else Some(NextOf(s.counter) + |batch|),
           alloc := None,
           issued := s.issued + batch)
    case AllocAbort => s.alloc.Some? && t == s.(alloc := None)
    case PubSelect(now, id) =>
      && s.pub.None? && now <= s.clock && LowestEligible(s.rows, id, now)
      && t == s.(pub := Some(Selected(Pick(id, now, s.rows))))
    case PubXadd(entryId) =>
      && s.pub.Some? && s.pub.value.Selected? && Xadd(s, s.pub.value.pick, entryId, t)
      && t == s.(stream := t.stream, origins := t.origins, pub := Some(Added(s.pub.value.pick)))
    case PubCommit =>
      && s.pub.Some? && s.pub.value.Added? && s.pub.value.pick.id in s.rows
      && t == s.(rows := MarkDispatched(s.rows, s.pub.value.pick.id), pub := None)
    case PubFail(at) =>
      // XADD threw: it may have taken effect all the same, or may still land
      && s.pub.Some? && s.pub.value.pick.id in s.rows
      && var failed := s.(rows := RecordFailure(s.rows, s.pub.value.pick.id, at), pub := None);
      && (|| t == failed
          || (s.pub.value.Selected? && t == failed.(strays := s.strays + [s.pub.value.pick])))
    case PubAbort =>
      // the transaction is gone with its lock; an XADD already on its way may still land
      && s.pub.Some?
      && (|| t == s.(pub := None)
          || (s.pub.value.Selected? && t == s.(pub := None, strays := s.strays + [s.pub.value.pick])))
    case StrayXadd(i, entryId) =>
      && i < |s.strays| && Xadd(s, s.strays[i], entryId, t)
      && t == s.(stream := t.stream, origins := t.origins, strays := s.strays[..i] + s.strays[i + 1..])
  }

  ghost predicate Run(states: seq<State>, steps: seq<Step>) {
    && |states| == |steps| + 1 && Init(states[0])
    && forall i: nat :: i < |steps| ==> StepAt(states, steps, i)
  }

  ghost predicate StepAt(states: seq<State>, steps: seq<Step>, i: nat)
    requires i < |steps| && |states| == |steps| + 1
  {
    Next(states[i], steps[i], states[i + 1])
  }

  // ---------------------------------------------------------------- invariants

  // Committed seqs are exactly 1 .. nextSeq - 1, each on one row.
  ghost predicate Gapless(s: State) {
    && NextOf(s.counter) == |s.issued| + 1
    && (forall k :: 0 <= k < |s.issued| ==> s.issued[k] in s.rows && s.rows[s.issued[k]].serial == Some(k + 1))
    && (forall id :: id in s.rows && s.rows[id].serial.Some? ==>
          1 <= s.rows[id].serial.value <= |s.issued| && s.issued[s.rows[id].serial.value - 1] == id)
  }

  ghost predicate RowsSound(s: State) {
    forall id :: id in s.rows ==>
      && s.rows[id].tenantId == Some(s.tenant)
      && s.rows[id].createdAt <= s.clock
      && (s.rows[id].attempts == 0 ==> s.rows[id].availableAt == s.rows[id].createdAt)
      && (s.rows[id].dispatched ==> s.rows[id].serial.Some?)
  }

  ghost predicate AllocSound(s: State) {
    s.alloc.Some? ==>
      && s.alloc.value.done <= |s.alloc.value.batch|
      && (forall i :: 0 <= i < |s.alloc.value.batch| ==> Unstamped(s.rows, s.alloc.value.batch[i]))
      && (forall i, j :: 0 <= i < j < |s.alloc.value.batch| ==>
            && s.alloc.value.batch[i] != s.alloc.value.batch[j]
            && Earlier(s.rows, s.alloc.value.batch[i], s.alloc.value.batch[j]))
  }

  // The envelope of a stamped row.
  ghost predicate Carries(s: State, env: Envelope) {
    && env.eventId.Some? && CanBuild(s, env.eventId.value)
    && env == EnvelopeOf(s, env.eventId.value)
  }

  ghost predicate CarriesSerial(s: State, env: Envelope, n: nat) {
    Carries(s, env) && s.rows[env.eventId.value].serial == Some(n)
  }

  // Entry i announces the event with seq n.
  ghost predicate Announces(s: State, i: nat, n: nat) {
    i < |s.stream| && s.stream[i].payload.Event? && CarriesSerial(s, s.stream[i].payload.envelope, n)
  }

  // A selection was the lowest eligible row of a table that has only grown since.
  ghost predicate PickSound(s: State, pick: Pick) {
    && pick.Readable() && LowestEligible(pick.rows, pick.id, pick.now)
    && TableGrows(pick.rows, s.rows)
  }

  // While a selection is in flight no row's attempts move: they are its lock holder's.
  ghost predicate Held(s: State, pick: Pick) {
    forall id :: id in pick.rows && id in s.rows ==> s.rows[id].attempts == pick.rows[id].attempts
  }

  ghost predicate PubSound(s: State) {
    s.pub.Some? ==>
      && PickSound(s, s.pub.value.pick) && Held(s, s.pub.value.pick)
      && !s.rows[s.pub.value.pick.id].dispatched
  }

  ghost predicate StreamSound(s: State) {
    && Increasing(s.stream) && |s.origins| == |s.stream|
    && (forall i :: 0 <= i < |s.origins| ==> PickSound(s, s.origins[i]))
    && (forall i :: 0 <= i < |s.origins| && s.origins[i].Readable() ==>
          s.stream[i].payload == Event(s.origins[i].Envelope()))
    && (forall i :: 0 <= i < |s.strays| ==> PickSound(s, s.strays[i]))
    && PubSound(s)
  }

  ghost predicate Announced(s: State, n: nat) {
    exists i: nat :: Announces(s, i, n)
  }

  ghost predicate DispatchSound(s: State) {
    && (forall id :: id in s.rows && s.rows[id].dispatched && s.rows[id].serial.Some? ==>
          Announced(s, s.rows[id].serial.value))
    && (s.pub.Some? && s.pub.value.Added? && s.pub.value.pick.Readable() ==>
          Announced(s, s.pub.value.pick.Serial()))
  }

  // A publish failure is on record for seq m.
  ghost predicate Failed(s: State, m: nat) {
    exists id :: id in s.rows && s.rows[id].serial == Some(m) && s.rows[id].attempts > 0
  }

  // A lower seq, waiting and never failed, whose row is younger than the transaction.
  ghost predicate CreatedSince(pick: Pick, m: nat) {
    && pick.Readable() && m < pick.Serial()
    && exists id :: id in pick.rows && pick.rows[id].serial == Some(m) && Young(pick.rows[id], pick.now)
  }

  predicate Young(row: Row, now: int) {
    !row.dispatched && row.attempts == 0 && row.createdAt > now
  }

  ghost predicate AnnouncedBefore(s: State, m: nat, i: nat) {
    exists j: nat :: j < i && Announces(s, j, m)
  }

  // Why seq m may come after the selection's seq, appended at position i: only these.
  ghost predicate Settled(s: State, pick: Pick, m: nat, i: nat) {
    AnnouncedBefore(s, m, i) || Failed(s, m) || CreatedSince(pick, m)
  }

  ghost predicate Cleared(s: State, pick: Pick, i: nat) {
    pick.Readable() ==> forall m: nat :: 1 <= m < pick.Serial() ==> Settled(s, pick, m, i)
  }

  ghost predicate OrderSound(s: State) {
    && (forall i: nat :: i < |s.origins| ==> Cleared(s, s.origins[i], i))
    && (forall i: nat :: i < |s.strays| ==> Cleared(s, s.strays[i], |s.stream|))
    && (s.pub.Some? ==> Cleared(s, s.pub.value.pick, |s.stream|))
  }

  ghost predicate Inv(s: State) {
    Gapless(s) && RowsSound(s) && AllocSound(s) && StreamSound(s) && DispatchSound(s) && OrderSound(s)
  }

  // ---------------------------------------------------------------- what a step keeps

  // Rows are never deleted; a stamp, a dispatch mark and the event columns never
  // change, failures only add up, and the stream and the histories only grow.
  ghost predicate Grows(s: State, t: State) {
    && s.tenant == t.tenant && s.clock <= t.clock
    && TableGrows(s.rows, t.rows)
    && s.stream <= t.stream && s.issued <= t.issued && s.origins <= t.origins
  }

  ghost predicate TableGrows(a: Table, b: Table) {
    forall id :: id in a ==> id in b && RowGrows(a[id], b[id])
  }

  ghost predicate RowGrows(a: Row, b: Row) {
    && b == a.(serial := b.serial, dispatched := b.dispatched, attempts := b.attempts, availableAt := b.availableAt)
    && (a.serial.Some? ==> b.serial == a.serial)
    && (a.dispatched ==> b.dispatched)
    && a.attempts <= b.attempts
  }

  lemma TableGrowsTransitive(a: Table, b: Table, c: Table)
    requires TableGrows(a, b) && TableGrows(b, c)
    ensures TableGrows(a, c)
  {
    forall id | id in a ensures id in c && RowGrows(a[id], c[id]) {
      assert RowGrows(a[id], b[id]) && RowGrows(b[id], c[id]);
    }
  }

  lemma CommitEffect(s: State, t: State)
    requires Inv(s) && Next(s, AllocCommit, t)
    ensures var batch := s.alloc.value.batch;
            && Stamps(s.rows, |s.issued| + 1, batch, t.rows)
            && t.issued == s.issued + batch && NextOf(t.counter) == |t.issued| + 1
            && t == s.(rows := t.rows, counter := t.counter, alloc := None, issued := s.issued + batch)
            && forall i :: 0 <= i < |batch| ==> Unstamped(s.rows, batch[i])
  {
    StampAllEffect(s.rows, NextOf(s.counter), s.alloc.value.batch);
  }

  lemma StepGrows(s: State, step: Step, t: State)
    requires Inv(s) && Next(s, step, t)
    ensures Grows(s, t)
  {
    if step.AllocCommit? {
      CommitEffect(s, t);
      CommitGrows(s, t, s.alloc.value.batch);
    } else {
      OtherGrows(s, step, t);
    }
  }

  lemma OtherGrows(s: State, step: Step, t: State)
    requires Next(s, step, t) && !step.AllocCommit?
    ensures Grows(s, t)
  {
  }

  // Only a commit stamps, and no step dispatches an unstamped row.
  ghost predicate SameStamps(s: State, t: State) {
    && t.issued == s.issued && t.counter == s.counter
    && (forall id :: id in s.rows ==> id in t.rows && t.rows[id].serial == s.rows[id].serial)
    && (forall id :: id in t.rows && id !in s.rows ==> t.rows[id].serial.None?)
  }

  lemma OtherSameStamps(s: State, step: Step, t: State)
    requires Next(s, step, t) && !step.AllocCommit?
    ensures SameStamps(s, t)
  {
  }

  lemma UnstampedKept(s: State, step: Step, t: State, id: string)
    requires PubSound(s) && Next(s, step, t) && !step.AllocCommit? && Unstamped(s.rows, id)
    ensures Unstamped(t.rows, id)
  {
    if step.PubCommit? { PickInState(s, s.pub.value.pick); }
  }

  lemma CommitGrows(s: State, t: State, batch: seq<string>)
    requires Stamps(s.rows, |s.issued| + 1, batch, t.rows)
    requires t == s.(rows := t.rows, counter := t.counter, alloc := None, issued := s.issued + batch)
    requires forall i :: 0 <= i < |batch| ==> Unstamped(s.rows, batch[i])
    ensures Grows(s, t)
  {
    forall id | id in s.rows ensures id in t.rows && RowGrows(s.rows[id], t.rows[id]) {
      if id in batch {
        var i :| 0 <= i < |batch| && batch[i] == id;
      }
    }
  }

  // A sound selection still names its row: same seq, same envelope.
  lemma PickInState(s: State, pick: Pick)
    requires PickSound(s, pick)
    ensures pick.id in s.rows && s.rows[pick.id].serial == Some(pick.Serial())
    ensures CarriesSerial(s, pick.Envelope(), pick.Serial())
  {
    assert RowGrows(pick.rows[pick.id], s.rows[pick.id]);
  }

  lemma PickKept(s: State, t: State, pick: Pick)
    requires PickSound(s, pick) && TableGrows(s.rows, t.rows)
    ensures PickSound(t, pick)
  {
    TableGrowsTransitive(pick.rows, s.rows, t.rows);
  }

  lemma CarriesGrows(s: State, t: State, env: Envelope)
    requires TableGrows(s.rows, t.rows)
    ensures Carries(s, env) ==> Carries(t, env)
    ensures forall n: nat :: CarriesSerial(s, env, n) ==> CarriesSerial(t, env, n)
  {
    if Carries(s, env) {
      assert RowGrows(s.rows[env.eventId.value], t.rows[env.eventId.value]);
    }
  }

  lemma AnnouncesGrows(s: State, t: State, i: nat, n: nat)
    requires Grows(s, t) && Announces(s, i, n)
    ensures Announces(t, i, n)
  {
    CarriesGrows(s, t, s.stream[i].payload.envelope);
  }

  lemma AnnouncedGrows(s: State, t: State)
    requires Grows(s, t)
    ensures forall n: nat :: Announced(s, n) ==> Announced(t, n)
    ensures forall n: nat, i: nat :: AnnouncedBefore(s, n, i) ==> AnnouncedBefore(t, n, i)
  {
    forall n: nat | Announced(s, n) ensures Announced(t, n) {
      var i: nat :| Announces(s, i, n);
      AnnouncesGrows(s, t, i, n);
    }
    forall n: nat, i: nat | AnnouncedBefore(s, n, i) ensures AnnouncedBefore(t, n, i) {
      var j: nat :| j < i && Announces(s, j, n);
      AnnouncesGrows(s, t, j, n);
    }
  }

  lemma FailedGrows(s: State, t: State, m: nat)
    requires TableGrows(s.rows, t.rows) && Failed(s, m)
    ensures Failed(t, m)
  {
    var id :| id in s.rows && s.rows[id].serial == Some(m) && s.rows[id].attempts > 0;
    assert RowGrows(s.rows[id], t.rows[id]);
  }

  lemma ClearedGrows(s: State, t: State, pick: Pick, i: nat, j: nat)
    requires Grows(s, t) && i <= j && Cleared(s, pick, i)
    ensures Cleared(t, pick, j)
  {
    if pick.Readable() {
      forall m: nat | 1 <= m < pick.Serial() ensures Settled(t, pick, m, j) {
        assert Settled(s, pick, m, i);
        if AnnouncedBefore(s, m, i) {
          var k: nat :| k < i && Announces(s, k, m);
          AnnouncesGrows(s, t, k, m);
        } else if Failed(s, m) {
          FailedGrows(s, t, m);
        }
      }
    }
  }

  lemma GaplessKept(s: State, step: Step, t: State)
    requires Inv(s) && Next(s, step, t)
    ensures Gapless(t)
  {
    if step.AllocCommit? {
      CommitEffect(s, t);
      CommitGapless(s, t, s.alloc.value.batch);
    } else {
      OtherSameStamps(s, step, t);
      SameStampsGapless(s, t);
    }
  }

  lemma SameStampsGapless(s: State, t: State)
    requires Gapless(s) && SameStamps(s, t)
    ensures Gapless(t)
  {
    forall id | id in t.rows && t.rows[id].serial.Some?
      ensures 1 <= t.rows[id].serial.value <= |t.issued| && t.issued[t.rows[id].serial.value - 1] == id
    {
      assert id in s.rows && s.rows[id].serial == t.rows[id].serial;
    }
  }

  lemma CommitGapless(s: State, t: State, batch: seq<string>)
    requires Gapless(s) && Stamps(s.rows, |s.issued| + 1, batch, t.rows)
    requires t.issued == s.issued + batch && NextOf(t.counter) == |t.issued| + 1
    requires forall i :: 0 <= i < |batch| ==> Unstamped(s.rows, batch[i])
    ensures Gapless(t)
  {
    forall k | 0 <= k < |t.issued| ensures t.issued[k] in t.rows && t.rows[t.issued[k]].serial == Some(k + 1) {
      if k < |s.issued| {
        assert t.issued[k] == s.issued[k] && s.issued[k] !in batch;
      } else {
        assert t.issued[k] == batch[k - |s.issued|];
      }
    }
    forall id | id in t.rows && t.rows[id].serial.Some?
      ensures 1 <= t.rows[id].serial.value <= |t.issued| && t.issued[t.rows[id].serial.value - 1] == id
    {
      if id in batch {
        var i :| 0 <= i < |batch| && batch[i] == id;
      }
    }
  }

  lemma RowsKept(s: State, step: Step, t: State)
    requires Inv(s) && Next(s, step, t)
    ensures RowsSound(t)
  {
    if step.AllocCommit? {
      CommitEffect(s, t);
      CommitRows(s, t, s.alloc.value.batch);
    } else {
      if step.PubCommit? { PickInState(s, s.pub.value.pick); }
      OtherRows(s, step, t);
    }
  }

  lemma OtherRows(s: State, step: Step, t: State)
    requires RowsSound(s) && Next(s, step, t) && !step.AllocCommit?
    requires step.PubCommit? ==> s.rows[s.pub.value.pick.id].serial.Some?
    ensures RowsSound(t)
  {
  }

  lemma CommitRows(s: State, t: State, batch: seq<string>)
    requires RowsSound(s) && Stamps(s.rows, |s.issued| + 1, batch, t.rows)
    requires t.tenant == s.tenant && t.clock == s.clock
    ensures RowsSound(t)
  {
    forall id | id in t.rows
      ensures && t.rows[id].tenantId == Some(t.tenant)
              && t.rows[id].createdAt <= t.clock
              && (t.rows[id].attempts == 0 ==> t.rows[id].availableAt == t.rows[id].createdAt)
              && (t.rows[id].dispatched ==> t.rows[id].serial.Some?)
    {
      if id in batch {
        var i :| 0 <= i < |batch| && batch[i] == id;
      }
    }
  }

  // The batch under allocation stays unstamped: only its own commit stamps.
  lemma AllocKept(s: State, step: Step, t: State)
    requires Inv(s) && Next(s, step, t)
    ensures AllocSound(t)
  {
    if t.alloc.Some? && !step.AllocBegin? {
      SameBatch(s, step, t);
      OtherGrows(s, step, t);
      forall i | 0 <= i < |s.alloc.value.batch| ensures Unstamped(t.rows, s.alloc.value.batch[i]) {
        UnstampedKept(s, step, t, s.alloc.value.batch[i]);
      }
      SameAllocSound(s, t);
    } else if t.alloc.Some? {
      BegunAllocSound(s, step, t);
    }
  }

  lemma BegunAllocSound(s: State, step: Step, t: State)
    requires Next(s, step, t) && step.AllocBegin?
    ensures AllocSound(t)
  {
  }

  lemma SameAllocSound(s: State, t: State)
    requires AllocSound(s) && TableGrows(s.rows, t.rows) && s.alloc.Some? && t.alloc.Some?
    requires t.alloc.value.batch == s.alloc.value.batch && t.alloc.value.done <= |t.alloc.value.batch|
    requires forall i :: 0 <= i < |s.alloc.value.batch| ==> Unstamped(t.rows, s.alloc.value.batch[i])
    ensures AllocSound(t)
  {
    forall i | 0 <= i < |s.alloc.value.batch|
      ensures t.rows[s.alloc.value.batch[i]].createdAt == s.rows[s.alloc.value.batch[i]].createdAt
    {
      assert RowGrows(s.rows[s.alloc.value.batch[i]], t.rows[s.alloc.value.batch[i]]);
    }
  }

  lemma SameBatch(s: State, step: Step, t: State)
    requires Next(s, step, t) && t.alloc.Some? && !step.AllocBegin?
    requires s.alloc.Some? ==> s.alloc.value.done <= |s.alloc.value.batch|
    ensures !step.AllocCommit? && s.alloc.Some? && t.alloc.value.batch == s.alloc.value.batch
    ensures t.alloc.value.done <= |t.alloc.value.batch|
  {
  }

  // Selections in the stream, on the way, or in flight stay what they are.
  lemma StreamKept(s: State, step: Step, t: State)
    requires Inv(s) && Next(s, step, t)
    ensures StreamSound(t)
  {
    StepGrows(s, step, t);
    forall pick | PickSound(s, pick) ensures PickSound(t, pick) {
      PickKept(s, t, pick);
    }
    PubKept(s, step, t);
    if step.PubXadd? || step.StrayXadd? {
      AppendIncreasing(s.stream, t.stream[|s.stream|]);
      AppendedSound(s, step, t);
    } else {
      SameStreamSound(s, step, t);
    }
  }

  lemma AppendedSound(s: State, step: Step, t: State)
    requires StreamSound(s) && Next(s, step, t) && (step.PubXadd? || step.StrayXadd?)
    requires Increasing(t.stream) && PubSound(t) && forall pick :: PickSound(s, pick) ==> PickSound(t, pick)
    ensures StreamSound(t)
  {
    var pick := if step.PubXadd? then s.pub.value.pick else s.strays[step.i];
    AppendedPick(s, step, t, pick);
    StraysSound(s, step, t);
    forall i | 0 <= i < |t.origins|
      ensures PickSound(t, t.origins[i]) && t.stream[i].payload == Event(t.origins[i].Envelope()) {
      if i < |s.origins| { assert PickSound(s, s.origins[i]); }
    }
    forall i | 0 <= i < |t.strays| ensures PickSound(t, t.strays[i]) {
      assert PickSound(s, t.strays[i]);
    }
  }

  lemma AppendedPick(s: State, step: Step, t: State, pick: Pick)
    requires StreamSound(s) && Next(s, step, t) && (step.PubXadd? || step.StrayXadd?)
    requires pick == if step.PubXadd? then s.pub.value.pick else s.strays[step.i]
    ensures PickSound(s, pick) && t.origins == s.origins + [pick]
    ensures |t.stream| == |s.stream| + 1 && s.stream <= t.stream
    ensures t.stream[|s.stream|].payload == Event(pick.Envelope())
  {
  }

  lemma StraysSound(s: State, step: Step, t: State)
    requires StreamSound(s) && Next(s, step, t) && (step.PubXadd? || step.StrayXadd?)
    ensures forall i :: 0 <= i < |t.strays| ==> PickSound(s, t.strays[i])
  {
    StraysCarried(s, step, t);
    forall i | 0 <= i < |t.strays| ensures PickSound(s, t.strays[i]) {
      var k :| 0 <= k < |s.strays| && s.strays[k] == t.strays[i];
    }
  }

  lemma StraysCarried(s: State, step: Step, t: State)
    requires Next(s, step, t) && (step.PubXadd? || step.StrayXadd?)
    ensures forall x :: x in t.strays ==> x in s.strays
  {
  }

  lemma SameStreamSound(s: State, step: Step, t: State)
    requires StreamSound(s) && Next(s, step, t) && !step.PubXadd? && !step.StrayXadd?
    requires PubSound(t) && forall pick :: PickSound(s, pick) ==> PickSound(t, pick)
    ensures StreamSound(t)
  {
    assert t.stream == s.stream && t.origins == s.origins;
    forall i | 0 <= i < |t.strays| ensures PickSound(t, t.strays[i]) {
      if i < |s.strays| { assert PickSound(s, s.strays[i]); } else { assert PickSound(s, s.pub.value.pick); }
    }
  }

  lemma PubKept(s: State, step: Step, t: State)
    requires Inv(s) && Next(s, step, t) && forall pick :: PickSound(s, pick) ==> PickSound(t, pick)
    ensures PubSound(t)
  {
    if step.AllocCommit? {
      CommitEffect(s, t);
      if s.pub.Some? {
        PickInState(s, s.pub.value.pick);
        CommitHeld(s, t, s.alloc.value.batch, s.pub.value.pick);
      }
    } else if step.PubSelect? {
      SelectSound(s, step.now, step.id, t);
    } else {
      OtherHeld(s, step, t);
    }
  }

  lemma CommitHeld(s: State, t: State, batch: seq<string>, pick: Pick)
    requires Stamps(s.rows, |s.issued| + 1, batch, t.rows) && PickSound(s, pick) && Held(s, pick)
    requires forall i :: 0 <= i < |batch| ==> Unstamped(s.rows, batch[i])
    requires pick.id in s.rows && s.rows[pick.id].serial.Some? && !s.rows[pick.id].dispatched
    ensures Held(t, pick) && pick.id in t.rows && !t.rows[pick.id].dispatched
  {
    forall id | id in pick.rows && id in t.rows ensures t.rows[id].attempts == pick.rows[id].attempts {
      if id in batch {
        var i :| 0 <= i < |batch| && batch[i] == id;
      }
    }
    assert pick.id !in batch;
  }

  lemma SelectSound(s: State, now: int, id: string, t: State)
    requires RowsSound(s) && Next(s, PubSelect(now, id), t)
    ensures PubSound(t)
  {
  }

  lemma OtherHeld(s: State, step: Step, t: State)
    requires PubSound(s) && Next(s, step, t) && !step.AllocCommit? && !step.PubSelect?
    requires forall pick :: PickSound(s, pick) ==> PickSound(t, pick)
    ensures PubSound(t)
  {
    if t.pub.Some? {
      assert s.pub.Some? && t.pub.value.pick == s.pub.value.pick;
      PickInState(s, s.pub.value.pick);
    }
  }

  lemma DispatchKept(s: State, step: Step, t: State)
    requires Inv(s) && Next(s, step, t)
    ensures DispatchSound(t)
  {
    StepGrows(s, step, t);
    AnnouncedGrows(s, t);
    if step.AllocCommit? {
      CommitEffect(s, t);
      CommitDispatched(s, t, s.alloc.value.batch);
    } else if step.PubXadd? {
      StreamKept(s, step, t);
      OriginAnnounces(t, |s.stream|);
      XaddDispatched(s, step, t);
    } else {
      if s.pub.Some? { PickInState(s, s.pub.value.pick); }
      OtherDispatched(s, step, t);
    }
  }

  // A stream entry announces the seq of the selection it came from, and no other.
  lemma OriginAnnounces(s: State, i: nat)
    requires StreamSound(s) && i < |s.stream|
    ensures s.origins[i].Readable()
    ensures forall n: nat :: Announces(s, i, n) <==> n == s.origins[i].Serial()
  {
    assert PickSound(s, s.origins[i]);
    PickInState(s, s.origins[i]);
  }

  lemma XaddDispatched(s: State, step: Step, t: State)
    requires DispatchSound(s) && Next(s, step, t) && step.PubXadd?
    requires forall n: nat :: Announced(s, n) ==> Announced(t, n)
    requires Announces(t, |s.stream|, s.pub.value.pick.Serial())
    ensures DispatchSound(t)
  {
  }

  lemma CommitDispatched(s: State, t: State, batch: seq<string>)
    requires DispatchSound(s) && t.pub == s.pub && Stamps(s.rows, |s.issued| + 1, batch, t.rows)
    requires forall i :: 0 <= i < |batch| ==> Unstamped(s.rows, batch[i])
    requires forall n: nat :: Announced(s, n) ==> Announced(t, n)
    ensures DispatchSound(t)
  {
    forall id | id in t.rows && t.rows[id].dispatched && t.rows[id].serial.Some?
      ensures Announced(t, t.rows[id].serial.value)
    {
      if id !in batch { assert t.rows[id] == s.rows[id]; }
    }
  }

  lemma OtherDispatched(s: State, step: Step, t: State)
    requires DispatchSound(s) && Next(s, step, t) && !step.AllocCommit? && !step.PubXadd?
    requires s.pub.Some? ==>
               && s.pub.value.pick.Readable() && s.pub.value.pick.id in s.rows
               && s.rows[s.pub.value.pick.id].serial == Some(s.pub.value.pick.Serial())
    requires forall n: nat :: Announced(s, n) ==> Announced(t, n)
    ensures DispatchSound(t)
  {
  }

  // At a selection, a lower seq is neither announced nor failed exactly when its row is
  // younger than the transaction and it is not announced.
  lemma SkippedExactly(s: State, now: int, id: string, m: nat)
    requires Inv(s) && LowestEligible(s.rows, id, now) && 1 <= m < s.rows[id].serial.value
    ensures !Announced(s, m) && !Failed(s, m) <==> CreatedSince(Pick(id, now, s.rows), m) && !Announced(s, m)
  {
    var lower := s.issued[m - 1];
    assert lower in s.rows && s.rows[lower].serial == Some(m);
    assert s.rows[id].tenantId == Some(s.tenant);
    if !Announced(s, m) && !Failed(s, m) {
      assert !Eligible(s.rows, lower, now);
      assert Young(s.rows[lower], now);
    }
    if CreatedSince(Pick(id, now, s.rows), m) {
      var young :| young in s.rows && s.rows[young].serial == Some(m) && Young(s.rows[young], now);
      forall other | other in s.rows && s.rows[other].serial == Some(m) ensures other == young {
        assert s.issued[m - 1] == other && s.issued[m - 1] == young;
      }
    }
  }

  lemma SelectClears(s: State, now: int, id: string, t: State)
    requires Inv(s) && Next(s, PubSelect(now, id), t)
    ensures Cleared(t, t.pub.value.pick, |t.stream|)
  {
    var pick := t.pub.value.pick;
    if pick.Readable() {
      forall m: nat | 1 <= m < pick.Serial() ensures Settled(t, pick, m, |t.stream|) {
        SkippedExactly(s, now, id, m);
        if Announced(s, m) {
          var i: nat :| Announces(s, i, m);
          assert Announces(t, i, m);
        } else if Failed(s, m) {
          FailedGrows(s, t, m);
        }
      }
    }
  }

  lemma OrderKept(s: State, step: Step, t: State)
    requires Inv(s) && Next(s, step, t)
    ensures OrderSound(t)
  {
    StepGrows(s, step, t);
    forall i: nat | i < |t.origins| ensures Cleared(t, t.origins[i], i) {
      if i < |s.origins| {
        assert t.origins[i] == s.origins[i];
        ClearedGrows(s, t, s.origins[i], i, i);
      } else {
        AppendedCleared(s, step, t, i);
        ClearedGrows(s, t, t.origins[i], |s.stream|, i);
      }
    }
    forall i: nat | i < |t.strays| ensures Cleared(t, t.strays[i], |t.stream|) {
      StrayCleared(s, step, t, i);
      ClearedGrows(s, t, t.strays[i], |s.stream|, |t.stream|);
    }
    if t.pub.Some? {
      if step.PubSelect? {
        SelectClears(s, step.now, step.id, t);
      } else {
        SamePick(s, step, t);
        ClearedGrows(s, t, s.pub.value.pick, |s.stream|, |t.stream|);
      }
    }
  }

  lemma AppendedCleared(s: State, step: Step, t: State, i: nat)
    requires StreamSound(s) && OrderSound(s) && Next(s, step, t) && |s.origins| <= i < |t.origins|
    ensures i == |s.stream| && Cleared(s, t.origins[i], |s.stream|)
  {
    assert step.PubXadd? || step.StrayXadd?;
  }

  lemma StrayCleared(s: State, step: Step, t: State, i: nat)
    requires OrderSound(s) && Next(s, step, t) && i < |t.strays|
    ensures Cleared(s, t.strays[i], |s.stream|)
  {
    if step.StrayXadd? {
      assert t.strays[i] == s.strays[if i < step.i then i else i + 1];
    }
  }

  lemma SamePick(s: State, step: Step, t: State)
    requires Next(s, step, t) && t.pub.Some? && !step.PubSelect?
    ensures s.pub.Some? && t.pub.value.pick == s.pub.value.pick
  {
  }

  lemma StepInv(s: State, step: Step, t: State)
    requires Inv(s) && Next(s, step, t)
    ensures Inv(t)
  {
    GaplessKept(s, step, t);
    RowsKept(s, step, t);
    AllocKept(s, step, t);
    StreamKept(s, step, t);
    DispatchKept(s, step, t);
    OrderKept(s, step, t);
  }

  lemma InitInv(s: State)
    requires Init(s)
    ensures Inv(s)
  {
  }

  lemma {:induction false} RunInv(states: seq<State>, steps: seq<Step>, i: nat)
    requires Run(states, steps) && i < |states|
    ensures Inv(states[i])
  {
    if i > 0 {
      RunInv(states, steps, i - 1);
      assert StepAt(states, steps, i - 1);
      StepInv(states[i - 1], steps[i - 1], states[i]);
    } else {
      InitInv(states[0]);
    }
  }

  lemma GrowsTransitive(a: State, b: State, c: State)
    requires Grows(a, b) && Grows(b, c)
    ensures Grows(a, c)
  {
    TableGrowsTransitive(a.rows, b.rows, c.rows);
  }

  lemma RunStepGrows(states: seq<State>, steps: seq<Step>, i: nat)
    requires Run(states, steps) && i < |steps|
    ensures Grows(states[i], states[i + 1])
  {
    RunInv(states, steps, i);
    assert StepAt(states, steps, i);
    StepGrows(states[i], steps[i], states[i + 1]);
  }

  lemma {:induction false} RunGrows(states: seq<State>, steps: seq<Step>, i: nat, j: nat)
    requires Run(states, steps) && i <= j < |states|
    ensures Grows(states[i], states[j])
    decreases j
  {
    if i < j {
      RunGrows(states, steps, i, j - 1);
      RunStepGrows(states, steps, j - 1);
      GrowsTransitive(states[i], states[j - 1], states[j]);
    }
  }

  // ---------------------------------------------------------------- allocation and durability

  // In every reachable state the committed seqs are exactly 1 .. nextSeq - 1, no two
  // rows share one, and a stamp once committed never changes.
  lemma SeqsGaplessAndStable(states: seq<State>, steps: seq<Step>, i: nat, j: nat)
    requires Run(states, steps) && i <= j < |states|
    ensures var s := states[i];
            && (forall n: nat :: StampedWith(s, n) <==> 1 <= n < NextOf(s.counter))
            && (forall a, b | a in s.rows && b in s.rows ::
                  s.rows[a].serial.Some? && s.rows[a].serial == s.rows[b].serial ==> a == b)
            && (forall id :: id in s.rows && s.rows[id].serial.Some? ==>
                  id in states[j].rows && states[j].rows[id].serial == s.rows[id].serial)
  {
    RunInv(states, steps, i);
    RunGrows(states, steps, i, j);
    GaplessMeans(states[i]);
  }

  ghost predicate StampedWith(s: State, n: nat) {
    exists id :: id in s.rows && s.rows[id].serial == Some(n)
  }

  lemma GaplessMeans(s: State)
    requires Gapless(s)
    ensures forall n: nat :: StampedWith(s, n) <==> 1 <= n < NextOf(s.counter)
    ensures forall a, b | a in s.rows && b in s.rows ::
              s.rows[a].serial.Some? && s.rows[a].serial == s.rows[b].serial ==> a == b
  {
    forall n: nat ensures StampedWith(s, n) <==> 1 <= n < NextOf(s.counter) {
      if 1 <= n < NextOf(s.counter) {
        var id := s.issued[n - 1];
        assert id in s.rows && s.rows[id].serial == Some(n);
      }
    }
  }

  // A commit stamps its batch in (createdAt, id) order.
  lemma BatchStampedInOrder(states: seq<State>, steps: seq<Step>, i: nat, a: string, b: string)
    requires Run(states, steps) && i < |steps| && steps[i].AllocCommit?
    requires a in states[i].rows && b in states[i].rows
    requires states[i].rows[a].serial.None? && states[i].rows[b].serial.None?
    ensures a in states[i + 1].rows && b in states[i + 1].rows
    ensures var after := states[i + 1].rows;
            after[a].serial.Some? && after[b].serial.Some? && after[a].serial.value < after[b].serial.value ==>
              var before := states[i].rows;
              before[a].createdAt < before[b].createdAt
              || (before[a].createdAt == before[b].createdAt && TextLess(a, b))
  {
    RunInv(states, steps, i);
    var s, t := states[i], states[i + 1];
    assert StepAt(states, steps, i);
    CommitEffect(s, t);
    var batch := s.alloc.value.batch;
    if t.rows[a].serial.Some? && t.rows[b].serial.Some? && t.rows[a].serial.value < t.rows[b].serial.value {
      assert a in batch && b in batch;
      var p :| 0 <= p < |batch| && batch[p] == a;
      var q :| 0 <= q < |batch| && batch[q] == b;
      assert p < q;
    }
  }

  // Whatever is stamped later is stamped higher.
  lemma LaterBatchesAbove(states: seq<State>, steps: seq<Step>, i: nat, j: nat, a: string, b: string)
    requires Run(states, steps) && i <= j < |states|
    requires a in states[i].rows && states[i].rows[a].serial.Some?
    requires b in states[i].rows ==> states[i].rows[b].serial.None?
    requires b in states[j].rows && states[j].rows[b].serial.Some?
    ensures states[i].rows[a].serial.value < states[j].rows[b].serial.value
  {
    RunInv(states, steps, i);
    RunInv(states, steps, j);
    RunGrows(states, steps, i, j);
    var s, t := states[i], states[j];
    assert forall k :: 0 <= k < |s.issued| ==> t.issued[k] == s.issued[k];
  }

  // A dispatched row is stamped and in the stream; every entry of a row is the same
  // envelope, whatever crashed between XADD and commit.
  lemma PublishedDurably(states: seq<State>, steps: seq<Step>, k: nat)
    requires Run(states, steps) && k < |states|
    ensures var s := states[k];
            && (forall id :: id in s.rows && s.rows[id].dispatched ==>
                  s.rows[id].serial.Some? && Announced(s, s.rows[id].serial.value))
            && (forall i :: 0 <= i < |s.stream| ==>
                 s.stream[i].payload.Event? && Carries(s, s.stream[i].payload.envelope))
            && (forall i, j | 0 <= i < |s.stream| && 0 <= j < |s.stream|
                  && s.stream[i].payload.Event? && s.stream[j].payload.Event?
                  && s.stream[i].payload.envelope.eventId == s.stream[j].payload.envelope.eventId ::
                  s.stream[i].payload == s.stream[j].payload)
  {
    RunInv(states, steps, k);
  }

  // Row id has been dispatched; no selection of it is in flight or can be made.
  ghost predicate Retired(s: State, id: string) {
    id in s.rows && s.rows[id].dispatched && (s.pub.Some? ==> s.pub.value.pick.id != id)
  }

  lemma RetiredStep(s: State, step: Step, t: State, id: string)
    requires Inv(s) && Next(s, step, t) && Retired(s, id)
    ensures Retired(t, id) && (step.PubSelect? ==> step.id != id)
  {
    StepGrows(s, step, t);
    assert RowGrows(s.rows[id], t.rows[id]);
  }

  lemma RetiredNext(states: seq<State>, steps: seq<Step>, j: nat, id: string)
    requires Run(states, steps) && j < |steps| && Retired(states[j], id)
    ensures Retired(states[j + 1], id) && (steps[j].PubSelect? ==> steps[j].id != id)
  {
    RunInv(states, steps, j);
    assert StepAt(states, steps, j);
    RetiredStep(states[j], steps[j], states[j + 1], id);
  }

  lemma RetiredFirst(states: seq<State>, steps: seq<Step>, i: nat)
    requires Run(states, steps) && i < |steps| && steps[i].PubCommit?
    ensures states[i].pub.Some? && Retired(states[i + 1], states[i].pub.value.pick.id)
  {
    assert StepAt(states, steps, i);
    MarkMeans(states[i].rows, states[i].pub.value.pick.id, 0);
  }

  // A row whose dispatch mark was committed is never selected again.
  lemma {:induction false} DispatchedForGood(states: seq<State>, steps: seq<Step>, i: nat, j: nat)
    requires Run(states, steps) && i < j < |states| && steps[i].PubCommit?
    ensures states[i].pub.Some? && Retired(states[j], states[i].pub.value.pick.id)
    ensures j < |steps| && steps[j].PubSelect? ==> steps[j].id != states[i].pub.value.pick.id
    decreases j
  {
    RetiredFirst(states, steps, i);
    if j > i + 1 {
      DispatchedForGood(states, steps, i, j - 1);
      RetiredNext(states, steps, j - 1, states[i].pub.value.pick.id);
    }
    if j < |steps| { RetiredNext(states, steps, j, states[i].pub.value.pick.id); }
  }

  // Row id waits until the given time; no selection of it is in flight.
  ghost predicate BackedOff(s: State, id: string, at: int) {
    && id in s.rows && s.rows[id].availableAt == at && s.rows[id].attempts > 0
    && (s.pub.Some? ==> s.pub.value.pick.id != id)
  }

  lemma BackedOffStep(s: State, step: Step, t: State, id: string, at: int)
    requires Inv(s) && Next(s, step, t) && BackedOff(s, id, at)
    ensures step.PubSelect? && step.id == id ==> at <= step.now
    ensures !(step.PubSelect? && step.id == id) ==> BackedOff(t, id, at)
  {
    if step.AllocCommit? { CommitEffect(s, t); }
    StepGrows(s, step, t);
    assert RowGrows(s.rows[id], t.rows[id]);
  }

  lemma BackedOffNext(states: seq<State>, steps: seq<Step>, j: nat, id: string, at: int)
    requires Run(states, steps) && j < |steps| && BackedOff(states[j], id, at)
    ensures steps[j].PubSelect? && steps[j].id == id ==> at <= steps[j].now
    ensures !(steps[j].PubSelect? && steps[j].id == id) ==> BackedOff(states[j + 1], id, at)
  {
    RunInv(states, steps, j);
    assert StepAt(states, steps, j);
    BackedOffStep(states[j], steps[j], states[j + 1], id, at);
  }

  lemma BackedOffFirst(states: seq<State>, steps: seq<Step>, i: nat)
    requires Run(states, steps) && i < |steps| && steps[i].PubFail?
    ensures states[i].pub.Some? && BackedOff(states[i + 1], states[i].pub.value.pick.id, steps[i].at)
  {
    assert StepAt(states, steps, i);
    MarkMeans(states[i].rows, states[i].pub.value.pick.id, steps[i].at);
  }

  // A row whose publish failed is selected again no sooner than its backoff says.
  lemma {:induction false} FailureHoldsBack(states: seq<State>, steps: seq<Step>, i: nat, j: nat)
    requires Run(states, steps) && i < j < |states| && steps[i].PubFail? && states[i].pub.Some?
    requires forall k: nat :: i < k < j && steps[k].PubSelect? ==> steps[k].id != states[i].pub.value.pick.id
    ensures BackedOff(states[j], states[i].pub.value.pick.id, steps[i].at)
    ensures j < |steps| && steps[j].PubSelect? && steps[j].id == states[i].pub.value.pick.id ==>
              steps[i].at <= steps[j].now
    decreases j
  {
    BackedOffFirst(states, steps, i);
    if j > i + 1 {
      FailureHoldsBack(states, steps, i, j - 1);
      BackedOffNext(states, steps, j - 1, states[i].pub.value.pick.id, steps[i].at);
    }
    if j < |steps| { BackedOffNext(states, steps, j, states[i].pub.value.pick.id, steps[i].at); }
  }

  // ---------------------------------------------------------------- publish order

  // A selection respects the order of everything that never failed exactly when each
  // waiting lower seq whose row is younger than the transaction is announced already.
  lemma SelectionInOrderExactly(states: seq<State>, steps: seq<Step>, i: nat, now: int, id: string)
    requires Run(states, steps) && i < |steps| && steps[i] == PubSelect(now, id)
    ensures var s := states[i];
            && LowestEligible(s.rows, id, now)
            && ((forall m: nat :: 1 <= m < s.rows[id].serial.value ==> Announced(s, m) || Failed(s, m)) <==>
                (forall m: nat :: CreatedSince(Pick(id, now, s.rows), m) ==> Announced(s, m)))
  {
    RunInv(states, steps, i);
    assert StepAt(states, steps, i);
    var s := states[i];
    assert LowestEligible(s.rows, id, now);
    forall m: nat | 1 <= m < s.rows[id].serial.value
      ensures !Announced(s, m) && !Failed(s, m) <==> CreatedSince(Pick(id, now, s.rows), m) && !Announced(s, m)
    {
      SkippedExactly(s, now, id, m);
    }
    forall m: nat | CreatedSince(Pick(id, now, s.rows), m) ensures m >= 1 {
      var young :| young in s.rows && s.rows[young].serial == Some(m) && Young(s.rows[young], now);
    }
  }

  // A step that makes a selection's entry appear: while its transaction runs, or after.
  predicate IsAppend(step: Step) {
    step.PubXadd? || step.StrayXadd?
  }

  ghost predicate AppendsPick(states: seq<State>, steps: seq<Step>, j: nat, pick: Pick) {
    && j < |steps| && j + 1 < |states| && IsAppend(steps[j])
    && states[j + 1].origins == states[j].origins + [pick]
  }

  // The same carried to the appends: whatever entry an append adds goes back to a selecting
  // step, and it comes ahead of a lower seq that is not announced and has not failed by
  // then exactly when that one's row was younger than the selecting transaction and is
  // still unannounced; an append after its transaction is gone may meanwhile have seen it fail.
  lemma AppendOvertakesExactly(states: seq<State>, steps: seq<Step>, j: nat, m: nat) returns (pick: Pick)
    requires Run(states, steps) && j < |steps| && IsAppend(steps[j]) && m >= 1
    ensures AppendsPick(states, steps, j, pick) && pick.Readable() && SelectedAt(states, steps, pick, j)
    ensures Announces(states[j + 1], |states[j].stream|, pick.Serial())
    ensures var s := states[j];
            m < pick.Serial() && !Announced(s, m) && !Failed(s, m) <==>
              CreatedSince(pick, m) && !Announced(s, m) && (steps[j].StrayXadd? ==> !Failed(s, m))
  {
    RunInv(states, steps, j);
    RunInv(states, steps, j + 1);
    assert StepAt(states, steps, j);
    pick := AppendedBy(states[j], steps[j], states[j + 1]);
    OriginAnnounces(states[j + 1], |states[j].stream|);
    PicksAreSelections(states, steps, j, pick);
    Overtakes(states[j], steps[j], pick, m);
  }

  lemma AppendedBy(s: State, step: Step, t: State) returns (pick: Pick)
    requires StreamSound(s) && Next(s, step, t) && IsAppend(step)
    ensures HasPick(s, pick) && PickSound(s, pick) && t.origins == s.origins + [pick]
    ensures |s.origins| == |s.stream| < |t.stream|
    ensures step.PubXadd? ==> s.pub.Some? && pick == s.pub.value.pick
    ensures step.StrayXadd? ==> step.i < |s.strays| && pick == s.strays[step.i]
  {
    pick := if step.PubXadd? then s.pub.value.pick else s.strays[step.i];
  }

  lemma Overtakes(s: State, step: Step, pick: Pick, m: nat)
    requires Inv(s) && m >= 1 && PickSound(s, pick)
    requires step.PubXadd? ==> s.pub.Some? && pick == s.pub.value.pick
    requires !step.PubXadd? ==> step.StrayXadd? && step.i < |s.strays| && pick == s.strays[step.i]
    ensures m < pick.Serial() && !Announced(s, m) && !Failed(s, m) <==>
              CreatedSince(pick, m) && !Announced(s, m) && (step.StrayXadd? ==> !Failed(s, m))
  {
    if step.PubXadd? && CreatedSince(pick, m) {
      StillNeverFailed(s, pick, m);
    }
    if m < pick.Serial() {
      assert Cleared(s, pick, |s.stream|);
      assert Settled(s, pick, m, |s.stream|);
    }
  }

  // While the selection is in flight, what had not failed has not failed since.
  lemma StillNeverFailed(s: State, pick: Pick, m: nat)
    requires Gapless(s) && PickSound(s, pick) && Held(s, pick) && CreatedSince(pick, m)
    ensures m >= 1 && !Failed(s, m)
  {
    var young :| young in pick.rows && pick.rows[young].serial == Some(m) && Young(pick.rows[young], pick.now);
    assert RowGrows(pick.rows[young], s.rows[young]);
    forall other | other in s.rows && s.rows[other].serial == Some(m) ensures other == young {
      assert s.issued[m - 1] == other && s.issued[m - 1] == young;
    }
  }

  // Every selection on record was a selecting step of the run, over the table of its
  // state; an append made for a transaction already gone keeps its selection.
  ghost predicate SelectedAt(states: seq<State>, steps: seq<Step>, pick: Pick, k: nat) {
    exists i: nat :: i < k && i < |steps| && i < |states|
      && steps[i] == PubSelect(pick.now, pick.id) && pick.rows == states[i].rows
  }

  ghost predicate HasPick(s: State, pick: Pick) {
    || (s.pub.Some? && s.pub.value.pick == pick)
    || pick in s.strays
    || pick in s.origins
  }

  lemma {:induction false} PicksAreSelections(states: seq<State>, steps: seq<Step>, k: nat, pick: Pick)
    requires Run(states, steps) && k < |states| && HasPick(states[k], pick)
    ensures SelectedAt(states, steps, pick, k)
  {
    if k > 0 {
      assert StepAt(states, steps, k - 1);
      PickOrigin(states[k - 1], steps[k - 1], states[k], pick);
      if HasPick(states[k - 1], pick) {
        PicksAreSelections(states, steps, k - 1, pick);
      } else {
        assert steps[k - 1] == PubSelect(pick.now, pick.id) && pick.rows == states[k - 1].rows;
      }
    }
  }

  lemma PickOrigin(s: State, step: Step, t: State, pick: Pick)
    requires Next(s, step, t) && HasPick(t, pick)
    ensures HasPick(s, pick) || (step == PubSelect(pick.now, pick.id) && pick.rows == s.rows)
  {
    if step.StrayXadd? && pick in t.strays {
      var i :| 0 <= i < |t.strays| && t.strays[i] == pick;
      assert pick == s.strays[if i < step.i then i else i + 1];
    }
  }

  // Every entry of the stream was added by one append, when the stream was as long as its
  // position.
  lemma {:induction false} EntryAppended(states: seq<State>, steps: seq<Step>, k: nat, i: nat) returns (j: nat)
    requires Run(states, steps) && k < |states| && i < |states[k].stream|
    ensures j < k && |states[j].stream| == i < |states[k].origins|
    ensures AppendsPick(states, steps, j, states[k].origins[i])
    decreases k
  {
    j := 0;
    if k > 0 {
      if i < |states[k - 1].stream| {
        j := EntryAppended(states, steps, k - 1, i);
        RunStepGrows(states, steps, k - 1);
      } else {
        NewestAppended(states, steps, k - 1);
        j := k - 1;
      }
    }
  }

  lemma NewestAppended(states: seq<State>, steps: seq<Step>, j: nat)
    requires Run(states, steps) && j < |steps| && |states[j + 1].stream| > |states[j].stream|
    ensures |states[j + 1].stream| == |states[j].stream| + 1 == |states[j + 1].origins|
    ensures AppendsPick(states, steps, j, states[j + 1].origins[|states[j].stream|])
  {
    assert StepAt(states, steps, j);
    StreamLonger(states[j], steps[j], states[j + 1]);
    RunInv(states, steps, j);
    var pick := AppendedBy(states[j], steps[j], states[j + 1]);
  }

  lemma StreamLonger(s: State, step: Step, t: State)
    requires Next(s, step, t) && |t.stream| > |s.stream|
    ensures IsAppend(step) && |t.stream| == |s.stream| + 1
  {
  }

  // By now announced, or with a failure already on record.
  ghost predicate AlreadySettled(s: State, m: nat) {
    Announced(s, m) || Failed(s, m)
  }

  // Wherever an entry stands ahead of a lower seq: by the time it was appended that one was
  // announced or had failed, or else its row was younger than the transaction of the very
  // selection the entry came from.
  lemma PublishOrder(states: seq<State>, steps: seq<Step>, k: nat, i: nat, n: nat, m: nat) returns (j: nat)
    requires Run(states, steps) && k < |states|
    requires Announces(states[k], i, n) && 1 <= m < n
    ensures j < k && |states[j].stream| == i < |states[k].origins|
    ensures AppendsPick(states, steps, j, states[k].origins[i])
    ensures AlreadySettled(states[j], m) ||
            (CreatedSince(states[k].origins[i], m) && SelectedAt(states, steps, states[k].origins[i], j))
  {
    RunInv(states, steps, k);
    OriginAnnounces(states[k], i);
    j := EntryAppended(states, steps, k, i);
    var pick := AppendOvertakesExactly(states, steps, j, m);
    SameLast(states[j].origins, pick, states[k].origins[i]);
  }

  lemma SameLast(a: seq<Pick>, p: Pick, q: Pick)
    requires a + [p] == a + [q]
    ensures p == q
  {
    assert (a + [p])[|a|] == (a + [q])[|a|];
  }

  // The promise: no append ever puts a seq ahead of a lower one that has not already failed.
  ghost predicate PublishedInOrder(states: seq<State>, steps: seq<Step>, k: nat) {
    forall j: nat, pick: Pick, m: nat
      | j < k && AppendsPick(states, steps, j, pick) && pick.Readable() && 1 <= m < pick.Serial() ::
      j < |states| && AlreadySettled(states[j], m)
  }

  // Whenever a row was younger than the transaction behind an append, it was announced by
  // then, or had failed by then.
  ghost predicate YoungerSettled(states: seq<State>, steps: seq<Step>, k: nat) {
    forall j: nat, pick: Pick, m: nat
      | j < k && AppendsPick(states, steps, j, pick) && CreatedSince(pick, m) ::
      j < |states| && AlreadySettled(states[j], m)
  }

  // Over whole runs with crashes, failures and late appends the promise is kept exactly when
  // every younger lower row was settled in time.
  lemma PublishOrderExactly(states: seq<State>, steps: seq<Step>, k: nat)
    requires Run(states, steps) && k < |states|
    ensures PublishedInOrder(states, steps, k) <==> YoungerSettled(states, steps, k)
  {
    if YoungerSettled(states, steps, k) {
      forall j: nat, pick: Pick, m: nat
        | j < k && AppendsPick(states, steps, j, pick) && pick.Readable() && 1 <= m < pick.Serial()
        ensures j < |states| && AlreadySettled(states[j], m)
      {
        var p := AppendOvertakesExactly(states, steps, j, m);
        SameLast(states[j].origins, p, pick);
      }
    }
    if PublishedInOrder(states, steps, k) {
      forall j: nat, pick: Pick, m: nat | j < k && AppendsPick(states, steps, j, pick) && CreatedSince(pick, m)
        ensures j < |states| && AlreadySettled(states[j], m)
      {
        YoungerIsLower(states, steps, j, pick, m);
      }
    }
  }

  lemma YoungerIsLower(states: seq<State>, steps: seq<Step>, j: nat, pick: Pick, m: nat)
    requires Run(states, steps) && AppendsPick(states, steps, j, pick) && CreatedSince(pick, m)
    ensures 1 <= m < pick.Serial()
  {
    RunInv(states, steps, j);
    assert StepAt(states, steps, j);
    var p := AppendedBy(states[j], steps[j], states[j + 1]);
    SameLast(states[j].origins, p, pick);
    LowerStamped(states[j], pick, m);
  }

  lemma LowerStamped(s: State, pick: Pick, m: nat)
    requires Gapless(s) && PickSound(s, pick) && CreatedSince(pick, m)
    ensures 1 <= m < pick.Serial()
  {
    var young :| young in pick.rows && pick.rows[young].serial == Some(m) && Young(pick.rows[young], pick.now);
    assert RowGrows(pick.rows[young], s.rows[young]);
  }

  ghost predicate FirstAnnounces(s: State, i: nat, n: nat) {
    Announces(s, i, n) && !AnnouncedBefore(s, n, i)
  }

  ghost predicate FirstsIncrease(s: State) {
    forall i: nat, j: nat, n: nat, m: nat :: i < j && FirstAnnounces(s, i, n) && FirstAnnounces(s, j, m) ==> n < m
  }

  // With no failure on record, first appearances are strictly increasing exactly when no
  // entry's selection left behind a younger lower seq that is announced only after it.
  lemma FirstAnnouncementsIncrease(states: seq<State>, steps: seq<Step>, k: nat)
    requires Run(states, steps) && k < |states|
    requires forall id :: id in states[k].rows ==> states[k].rows[id].attempts == 0
    ensures FirstsIncrease(states[k]) <==>
            forall i: nat, m: nat ::
              i < |states[k].origins| && CreatedSince(states[k].origins[i], m) && Announced(states[k], m) ==>
              AnnouncedBefore(states[k], m, i)
  {
    RunInv(states, steps, k);
    var s := states[k];
    if FirstsIncrease(s) {
      forall i: nat, m: nat | i < |s.origins| && CreatedSince(s.origins[i], m) && Announced(s, m)
        ensures AnnouncedBefore(s, m, i) {
        YoungerBefore(s, i, m);
      }
    } else {
      var i: nat, j: nat, n: nat, m: nat :| i < j && FirstAnnounces(s, i, n) && FirstAnnounces(s, j, m) && n >= m;
      OriginAnnounces(s, i);
      OvertakenByFirst(s, i, j, n, m);
    }
  }

  lemma OvertakenByFirst(s: State, i: nat, j: nat, n: nat, m: nat)
    requires Inv(s) && i < j && FirstAnnounces(s, i, n) && FirstAnnounces(s, j, m) && n >= m
    requires forall id :: id in s.rows ==> s.rows[id].attempts == 0
    ensures i < |s.origins| && CreatedSince(s.origins[i], m) && Announced(s, m) && !AnnouncedBefore(s, m, i)
  {
    LaterFirst(s, i, j, n, m);
    AnnouncedPositive(s, j, m);
    OriginAnnounces(s, i);
    OnlyYounger(s, s.origins[i], m, i);
  }

  lemma LaterFirst(s: State, i: nat, j: nat, n: nat, m: nat)
    requires i < j && FirstAnnounces(s, i, n) && FirstAnnounces(s, j, m)
    ensures m != n && Announced(s, m) && !AnnouncedBefore(s, m, i)
  {
  }

  lemma OnlyYounger(s: State, pick: Pick, m: nat, i: nat)
    requires pick.Readable() && Cleared(s, pick, i) && 1 <= m < pick.Serial() && !AnnouncedBefore(s, m, i)
    requires forall id :: id in s.rows ==> s.rows[id].attempts == 0
    ensures CreatedSince(pick, m)
  {
    assert Settled(s, pick, m, i);
  }

  lemma AnnouncedPositive(s: State, j: nat, m: nat)
    requires Gapless(s) && Announces(s, j, m)
    ensures m >= 1
  {
  }

  lemma YoungerBefore(s: State, i: nat, m: nat)
    requires Inv(s) && FirstsIncrease(s) && i < |s.origins| && CreatedSince(s.origins[i], m) && Announced(s, m)
    ensures AnnouncedBefore(s, m, i)
  {
    OriginAnnounces(s, i);
    var n := s.origins[i].Serial();
    assert Announces(s, i, n) && m < n;
    var at: nat :| Announces(s, at, m);
    YoungerFirst(s, i, n, at, m);
  }

  lemma YoungerFirst(s: State, i: nat, n: nat, at: nat, m: nat)
    requires StreamSound(s) && FirstsIncrease(s) && Announces(s, i, n) && Announces(s, at, m) && m < n
    ensures AnnouncedBefore(s, m, i)
  {
    var p := FirstOf(s, n, i);
    var q := FirstOf(s, m, at);
    OneSeqEach(s, p, n, q, m);
  }

  lemma OneSeqEach(s: State, p: nat, n: nat, q: nat, m: nat)
    requires StreamSound(s) && FirstsIncrease(s) && FirstAnnounces(s, p, n) && FirstAnnounces(s, q, m) && m < n
    ensures q < p
  {
    OriginAnnounces(s, p);
    OriginAnnounces(s, q);
  }

  // Where a seq appears first.
  lemma {:induction false} FirstOf(s: State, n: nat, at: nat) returns (p: nat)
    requires Announces(s, at, n)
    ensures p <= at && FirstAnnounces(s, p, n)
    decreases at
  {
    p := at;
    if AnnouncedBefore(s, n, at) {
      var earlier: nat :| earlier < at && Announces(s, earlier, n);
      p := FirstOf(s, n, earlier);
    }
  }

  // The order can break without a failure. A publisher's transaction begins at time 3
  // and waits; meanwhile `young` (created at 5) is committed and stamped 1, then `senior`
  // (created at 1 by a slow transaction) is committed and stamped 2. To the waiting
  // publisher `young` is not available yet, so it announces seq 2 first.
  function BareRow(tenant: string, createdAt: int, serial: Option<nat>): Row {
    Row(Some(tenant), None, None, "", "", "", None, "", createdAt, serial, false, 0, createdAt)
  }

  function OvertakingSteps(): seq<Step> {
    var none: Option<nat> := None;
    [Tick(10), Insert("young", BareRow("t", 5, none)), AllocBegin(["young"], 50), AllocStamp, AllocCommit,
     Insert("senior", BareRow("t", 1, none)), AllocBegin(["senior"], 50), AllocStamp, AllocCommit,
     PubSelect(3, "senior"), PubXadd(StreamId(10, 0))]
  }

  function OvertakingStates(): seq<State> {
    var none: Option<nat> := None;
    var young, senior := BareRow("t", 5, none), BareRow("t", 1, none);
    var young1, senior2 := BareRow("t", 5, Some(1)), BareRow("t", 1, Some(2));
    var s0 := State("t", 0, map[], None, [], None, None, [], [], []);
    var s1 := s0.(clock := 10);
    var s2 := s1.(rows := map["young" := young]);
    var s5 := s2.(rows := map["young" := young1], counter := Some(2), issued := ["young"]);
    var s6 := s5.(rows := map["young" := young1, "senior" := senior]);
    var s9 := s6.(rows := map["young" := young1, "senior" := senior2],
                  counter := Some(3), issued := ["young", "senior"]);
    var pick := Pick("senior", 3, s9.rows);
    var s10 := s9.(pub := Some(Selected(pick)));
    var s11 := s10.(
      stream := [Entry(StreamId(10, 0), Event(BuildEnvelope("senior", senior2).value))],
      origins := [pick],
      pub := Some(Added(pick)));
    [s0, s1, s2, s2.(alloc := Some(Alloc(["young"], 0))), s2.(alloc := Some(Alloc(["young"], 1))), s5,
     s6, s6.(alloc := Some(Alloc(["senior"], 0))), s6.(alloc := Some(Alloc(["senior"], 1))), s9, s10, s11]
  }

  lemma OvertakingRun()
    ensures Run(OvertakingStates(), OvertakingSteps())
  {
    var states, steps := OvertakingStates(), OvertakingSteps();
    forall i: nat | i < |steps| ensures StepAt(states, steps, i) {
      if i < 4 {
        OvertakingOpens(i);
      } else if i < 6 {
        OvertakingStamps(i);
      } else if i < 8 {
        OvertakingBatch(i);
      } else {
        OvertakingPublishes(i);
      }
    }
  }

  lemma OvertakingOpens(i: nat)
    requires i < 4
    ensures Next(OvertakingStates()[i], OvertakingSteps()[i], OvertakingStates()[i + 1])
  {
  }

  lemma OvertakingStamps(i: nat)
    requires 4 <= i < 6
    ensures Next(OvertakingStates()[i], OvertakingSteps()[i], OvertakingStates()[i + 1])
  {
    assert ["young"][..0] == [];
    assert StampAll(OvertakingStates()[4].rows, 1, ["young"]) == OvertakingStates()[5].rows;
  }

  lemma OvertakingBatch(i: nat)
    requires 6 <= i < 8
    ensures Next(OvertakingStates()[i], OvertakingSteps()[i], OvertakingStates()[i + 1])
  {
  }

  lemma OvertakingPublishes(i: nat)
    requires 8 <= i < 11
    ensures Next(OvertakingStates()[i], OvertakingSteps()[i], OvertakingStates()[i + 1])
  {
    assert ["senior"][..0] == [];
    assert StampAll(OvertakingStates()[8].rows, 2, ["senior"]) == OvertakingStates()[9].rows;
    var s := OvertakingStates()[9];
    assert s.rows["young"].serial == Some(1) && s.rows["senior"].serial == Some(2);
  }

  lemma OrderBreaksWithoutFailure()
    ensures var last := OvertakingStates()[11];
            && Run(OvertakingStates(), OvertakingSteps())
            && Announces(last, 0, 2) && !Announced(last, 1)
            && (forall id :: id in last.rows ==> last.rows[id].attempts == 0)
            && !PublishedInOrder(OvertakingStates(), OvertakingSteps(), 11)
  {
    OvertakingRun();
    NotInOrder();
  }

  lemma NotInOrder()
    ensures !PublishedInOrder(OvertakingStates(), OvertakingSteps(), 11)
  {
    var states, steps := OvertakingStates(), OvertakingSteps();
    var pick := states[10].pub.value.pick;
    assert AppendsPick(states, steps, 10, pick) && pick.Readable() && pick.Serial() == 2;
    assert !AlreadySettled(states[10], 1);
  }
}
