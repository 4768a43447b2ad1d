// Redis Stream entry ids (apps/realtime/src/gateway/cursor.ts).
module StreamIds {
  import opened Prelude
  import opened Digits
  import D = Decimal

  datatype StreamId = StreamId(ms: nat, serial: nat)

  const ZERO_ID := StreamId(0, 0)

  predicate Less(a: StreamId, b: StreamId) {
    a.ms < b.ms || (a.ms == b.ms && a.serial < b.serial)
  }

  predicate AtMost(a: StreamId, b: StreamId) {
    a == b || Less(a, b)
  }

  // /^(\d+)-(\d+)$/
  function ParseId(s: string): (r: Option<StreamId>)
    ensures r.Some? <==> exists a, b :: NonEmptyDigits(a) && NonEmptyDigits(b) && s == a + "-" + b
  {
    var dash := D.IndexOf(s, '-');
    if dash == |s| || !NonEmptyDigits(s[..dash]) || !NonEmptyDigits(s[dash + 1..]) then
      SplitAtDash(s);
      None
    else
      assert s == s[..dash] + "-" + s[dash + 1..];
      Some(StreamId(Value(s[..dash]), Value(s[dash + 1..])))
  }

  predicate NonEmptyDigits(s: string) {
    s != "" && AllDigits(s)
  }

  lemma SplitAtDash(s: string)
    ensures forall a, b :: NonEmptyDigits(a) && NonEmptyDigits(b) && s == a + "-" + b ==>
              D.IndexOf(s, '-') == |a| < |s| && s[..|a|] == a && s[|a| + 1..] == b
  {
    forall a, b | NonEmptyDigits(a) && NonEmptyDigits(b) && s == a + "-" + b
      ensures D.IndexOf(s, '-') == |a| < |s| && s[..|a|] == a && s[|a| + 1..] == b
    {
      assert s[|a|] == '-';
      assert forall j :: 0 <= j < |a| ==> s[j] == a[j];
    }
  }

  function PrintId(id: StreamId): string {
    Print(id.ms) + "-" + Print(id.serial)
  }

  lemma PrintIdRoundTrip(id: StreamId)
    ensures ParseId(PrintId(id)) == Some(id)
  {
    SplitAtDash(PrintId(id));
    assert NonEmptyDigits(Print(id.ms)) && NonEmptyDigits(Print(id.serial));
  }

  lemma EmptyIsNoId()
    ensures ParseId("").None?
  {
  }

  datatype CompareError = NotAStreamId

  // -1, 0 or 1; refuses anything that is not a stream id.
  function CompareStreamIds(a: string, b: string): Result<int, CompareError> {
    var pa, pb := ParseId(a), ParseId(b);
    if pa.None? || pb.None? then Err(NotAStreamId)
    else if pa.value.ms != pb.value.ms then Ok(if pa.value.ms < pb.value.ms then -1 else 1)
    else if pa.value.serial != pb.value.serial then Ok(if pa.value.serial < pb.value.serial then -1 else 1)
    else Ok(0)
  }

  // On the texts of two ids the comparison is the order of the ids, and any other text is refused.
  lemma CompareIsOrder(s: string, t: string)
    ensures CompareStreamIds(s, t) == Err(NotAStreamId) <==> ParseId(s).None? || ParseId(t).None?
    ensures CompareStreamIds(s, t).Ok? ==>
              var a, b := ParseId(s).value, ParseId(t).value;
              && (CompareStreamIds(s, t).value == -1 <==> Less(a, b))
              && (CompareStreamIds(s, t).value == 0 <==> a == b)
              && (CompareStreamIds(s, t).value == 1 <==> Less(b, a))
  {
  }

  lemma CompareOfPrinted(a: StreamId, b: StreamId)
    ensures CompareStreamIds(PrintId(a), PrintId(b)) == Ok(if Less(a, b) then -1 else if a == b then 0 else 1)
  {
    PrintIdRoundTrip(a);
    PrintIdRoundTrip(b);
  }

  // Ids are totally ordered.
  lemma LessIsOrder(a: StreamId, b: StreamId, c: StreamId)
    ensures !(Less(a, b) && Less(b, a)) && (a == b || Less(a, b) || Less(b, a))
    ensures Less(a, b) && Less(b, c) ==> Less(a, c)
  {
  }
}

// The realtime envelope and the stream entries that carry it
// (apps/worker/src/outbox/envelope.ts, apps/realtime/src/auth/topics.ts).
module Events {
  import opened Prelude
  import opened StreamIds

  datatype Envelope = Envelope(
    eventId: Option<string>,
    seqText: string,
    tenantId: string,
    companyId: Option<string>,
    branchId: Option<string>,
    eventType: string,
    resourceType: string,
    resourceId: string,
    resourceVersion: Option<string>,
    occurredAt: int,
    actorSummary: string)

  // What an entry's fields yield: no event field, text that is not JSON, or an envelope.
  datatype Payload = NoEventField | BadJson | Event(envelope: Envelope)

  datatype Entry = Entry(id: StreamId, payload: Payload)

  ghost predicate Increasing(stream: seq<Entry>) {
    forall i, j :: 0 <= i < j < |stream| ==> Less(stream[i].id, stream[j].id)
  }

  function LastId(stream: seq<Entry>): StreamId {
    if stream == [] then ZERO_ID else stream[|stream| - 1].id
  }

  // XADD with an automatic id.
  ghost predicate Appends(stream: seq<Entry>, entry: Entry) {
    Less(LastId(stream), entry.id)
  }

  lemma AppendIncreasing(stream: seq<Entry>, entry: Entry)
    requires Increasing(stream) && Appends(stream, entry)
    ensures Increasing(stream + [entry])
  {
    forall i | 0 <= i < |stream| ensures Less(stream[i].id, entry.id) {
      assert i < |stream| - 1 ==> Less(stream[i].id, LastId(stream));
    }
  }
}

// Stream retention and the admission of a resuming client
// (apps/worker/src/stream-retention/retention.ts; GatewayHub.resume and streamBounds).
module Retention {
  import opened Prelude
  import opened StreamIds
  import opened Events

  // log: every entry ever appended; the first `trimmed` of them are gone.
  datatype Stream = Stream(log: seq<Entry>, trimmed: nat) {
    ghost predicate Valid() {
      trimmed <= |log| && Increasing(log) && forall i :: 0 <= i < |log| ==> Less(ZERO_ID, log[i].id)
    }

    function Retained(): seq<Entry>
      requires trimmed <= |log|
    {
      log[trimmed..]
    }
  }

  // Math.trunc
  function Trunc(x: real): int {
    if x < 0.0 then -(-x).Floor else x.Floor
  }

  // The whole number next to x on the way to zero.
  lemma TruncMeans(x: real)
    ensures x >= 0.0 ==> Trunc(x) >= 0 && Trunc(x) as real <= x < Trunc(x) as real + 1.0
    ensures x < 0.0 ==> Trunc(x) <= 0 && Trunc(x) as real - 1.0 < x <= Trunc(x) as real
  {
  }

  function RetentionFloor(nowMs: real, retentionMs: real): StreamId {
    StreamId(Max(0, Trunc(nowMs) - Trunc(retentionMs)), 0)
  }

  function RetentionFloorId(nowMs: real, retentionMs: real): (s: string)
    ensures ParseId(s) == Some(RetentionFloor(nowMs, retentionMs))
  {
    PrintIdRoundTrip(RetentionFloor(nowMs, retentionMs));
    PrintId(RetentionFloor(nowMs, retentionMs))
  }

  // As time passes the floor never moves back.
  lemma RetentionFloorMonotone(t: real, u: real, retentionMs: real)
    requires t <= u
    ensures AtMost(RetentionFloor(t, retentionMs), RetentionFloor(u, retentionMs))
  {
  }

  // What XTRIM MINID may do: entries go oldest first and only below the floor; without `~`
  // all of those go, with it perhaps fewer.
  ghost predicate Trims(s: Stream, t: Stream, floor: StreamId, approximate: bool) {
    && t.log == s.log && s.trimmed <= t.trimmed <= |s.log|
    && (forall i :: s.trimmed <= i < t.trimmed ==> Less(s.log[i].id, floor))
    && (!approximate ==> forall i :: t.trimmed <= i < |s.log| ==> !Less(s.log[i].id, floor))
  }

  class Redis {
    var streams: map<string, Stream>

    ghost predicate Valid()
      reads this
    {
      forall t :: t in streams ==> streams[t].Valid()
    }

    // trimTenantStream, with XTRIM's own loop: `budget` is how many entries an approximate
    // trim gets to before it stops.
    method TrimTenantStream(tenantId: string, floor: StreamId, approximate: bool, budget: nat)
      returns (removed: nat)
      requires Valid()
      modifies this
      ensures Valid() && streams.Keys == old(streams.Keys)
      ensures tenantId in streams ==> Trims(old(streams)[tenantId], streams[tenantId], floor, approximate)
      ensures forall other :: other in streams && other != tenantId ==> streams[other] == old(streams)[other]
      ensures TrimmedOf(streams, tenantId) == TrimmedOf(old(streams), tenantId) + removed
    {
      removed := 0;
      if tenantId !in streams { return; }
      var s := streams[tenantId];
      while s.trimmed + removed < |s.log| && Less(s.log[s.trimmed + removed].id, floor)
            && (!approximate || removed < budget)
        invariant s.trimmed + removed <= |s.log|
        invariant forall i :: s.trimmed <= i < s.trimmed + removed ==> Less(s.log[i].id, floor)
      {
        removed := removed + 1;
      }
      var t := s.(trimmed := s.trimmed + removed);
      if !approximate { NoneBelowAfter(s, t.trimmed, floor); }
      streams := streams[tenantId := t];
    }

    // One sweep: the same floor for every discovered tenant, each stream on its own.
    method RetentionTick(tenantIds: seq<string>, nowMs: real, retentionMs: real, approximate: bool, budgets: seq<nat>)
      returns (trimmed: nat)
      requires Valid() && |budgets| == |tenantIds|
      requires forall i, j :: 0 <= i < j < |tenantIds| ==> tenantIds[i] != tenantIds[j]
      modifies this
      ensures Valid() && streams.Keys == old(streams.Keys)
      ensures SweptTo(old(streams), streams, tenantIds, RetentionFloor(nowMs, retentionMs), approximate)
      ensures trimmed == TotalTrimmed(streams, tenantIds) - TotalTrimmed(old(streams), tenantIds)
    {
      var floor := RetentionFloor(nowMs, retentionMs);
      trimmed := 0;
      ghost var before := streams;
      for i := 0 to |tenantIds|
        invariant Valid() && streams.Keys == before.Keys
        invariant SweptTo(before, streams, tenantIds[..i], floor, approximate)
        invariant trimmed == TotalTrimmed(streams, tenantIds[..i]) - TotalTrimmed(before, tenantIds[..i])
      {
        ghost var sofar := streams;
        var removed := TrimTenantStream(tenantIds[i], floor, approximate, budgets[i]);
        trimmed := trimmed + removed;
        SweptOneMore(before, sofar, streams, tenantIds, i, floor, approximate);
      }
      assert tenantIds[..|tenantIds|] == tenantIds;
    }
  }

  // In increasing ids, an entry not below the floor has none below it after it.
  lemma NoneBelowAfter(s: Stream, k: nat, floor: StreamId)
    requires s.Valid() && k <= |s.log| && (k < |s.log| ==> !Less(s.log[k].id, floor))
    ensures forall i :: k <= i < |s.log| ==> !Less(s.log[i].id, floor)
  {
  }

  // The discovered tenants' streams are trimmed, the others untouched.
  ghost predicate SweptTo(before: map<string, Stream>, after: map<string, Stream>,
                          tenantIds: seq<string>, floor: StreamId, approximate: bool) {
    && after.Keys == before.Keys
    && forall t :: t in before ==>
         if t in tenantIds then Trims(before[t], after[t], floor, approximate) else after[t] == before[t]
  }

  function TrimmedOf(streams: map<string, Stream>, tenantId: string): nat {
    if tenantId in streams then streams[tenantId].trimmed else 0
  }

  function TotalTrimmed(streams: map<string, Stream>, tenantIds: seq<string>): int {
    if tenantIds == [] then 0
    else TotalTrimmed(streams, tenantIds[..|tenantIds| - 1]) + TrimmedOf(streams, tenantIds[|tenantIds| - 1])
  }

  lemma {:induction false} TotalTrimmedSame(a: map<string, Stream>, b: map<string, Stream>, tenantIds: seq<string>)
    requires forall i :: 0 <= i < |tenantIds| ==> TrimmedOf(a, tenantIds[i]) == TrimmedOf(b, tenantIds[i])
    ensures TotalTrimmed(a, tenantIds) == TotalTrimmed(b, tenantIds)
  {
    if tenantIds != [] { TotalTrimmedSame(a, b, tenantIds[..|tenantIds| - 1]); }
  }

  lemma SweptOneMore(before: map<string, Stream>, sofar: map<string, Stream>, after: map<string, Stream>,
                     tenantIds: seq<string>, i: nat, floor: StreamId, approximate: bool)
    requires i < |tenantIds| && forall j, k :: 0 <= j < k < |tenantIds| ==> tenantIds[j] != tenantIds[k]
    requires SweptTo(before, sofar, tenantIds[..i], floor, approximate)
    requires SweptTo(sofar, after, [tenantIds[i]], floor, approximate)
    ensures SweptTo(before, after, tenantIds[..i + 1], floor, approximate)
    ensures TotalTrimmed(after, tenantIds[..i + 1]) ==
              TotalTrimmed(sofar, tenantIds[..i]) + TrimmedOf(after, tenantIds[i])
    ensures TotalTrimmed(before, tenantIds[..i + 1]) ==
              TotalTrimmed(before, tenantIds[..i]) + TrimmedOf(before, tenantIds[i])
    ensures TrimmedOf(sofar, tenantIds[i]) == TrimmedOf(before, tenantIds[i])
  {
    assert tenantIds[..i + 1] == tenantIds[..i] + [tenantIds[i]];
    assert tenantIds[..i + 1][..i] == tenantIds[..i];
    assert tenantIds[i] !in tenantIds[..i];
    forall k | 0 <= k < i ensures TrimmedOf(after, tenantIds[..i][k]) == TrimmedOf(sofar, tenantIds[..i][k]) {
      assert tenantIds[k] != tenantIds[i];
    }
    TotalTrimmedSame(sofar, after, tenantIds[..i]);
  }

  // ---------------------------------------------------------------- runs

  // A step appends an entry or trims at some floor.
  ghost predicate Step(s: Stream, t: Stream) {
    || (exists e :: Appends(s.log, e) && t == s.(log := s.log + [e]))
    || (exists floor, approximate :: Trims(s, t, floor, approximate))
  }

  ghost predicate Run(run: seq<Stream>) {
    && run != [] && run[0] == Stream([], 0)
    && forall i :: 0 <= i < |run| - 1 ==> Step(run[i], run[i + 1])
  }

  lemma StepValid(s: Stream, t: Stream)
    requires s.Valid() && Step(s, t)
    ensures t.Valid() && s.trimmed <= t.trimmed && s.log <= t.log
  {
    if e :| Appends(s.log, e) && t == s.(log := s.log + [e]) {
      AppendValid(s, e);
    }
  }

  lemma AppendValid(s: Stream, e: Entry)
    requires s.Valid() && Appends(s.log, e)
    ensures s.(log := s.log + [e]).Valid()
  {
    AppendIncreasing(s.log, e);
    assert s.log != [] ==> Less(ZERO_ID, s.log[|s.log| - 1].id);
  }

  lemma {:induction false} RunValid(run: seq<Stream>, i: nat)
    requires Run(run) && i < |run|
    ensures run[i].Valid()
  {
    if i > 0 {
      RunValid(run, i - 1);
      assert Step(run[i - 1], run[i - 1 + 1]);
      StepValid(run[i - 1], run[i]);
    }
  }

  // A trim keeps every entry at or above the floor, and an exact trim keeps no other.
  lemma TrimKeepsFloor(s: Stream, t: Stream, floor: StreamId, approximate: bool, e: Entry)
    requires s.Valid() && Trims(s, t, floor, approximate) && e in s.Retained()
    ensures t.Valid()
    ensures !Less(e.id, floor) ==> e in t.Retained()
    ensures !approximate ==> (e in t.Retained() <==> !Less(e.id, floor))
  {
    var i :| 0 <= i < |s.Retained()| && s.Retained()[i] == e;
    var k := s.trimmed + i;
    assert s.log[k] == e;
    if k >= t.trimmed {
      assert t.Retained()[k - t.trimmed] == e;
    } else {
      forall j | 0 <= j < |t.Retained()| ensures t.Retained()[j] != e {
        assert Less(s.log[k].id, s.log[t.trimmed + j].id);
      }
    }
  }

  // By age: a trim removes no entry inside the window, and an exact trim keeps no other.
  lemma TrimByAge(s: Stream, t: Stream, nowMs: real, retentionMs: real, approximate: bool, e: Entry)
    requires s.Valid() && Trims(s, t, RetentionFloor(nowMs, retentionMs), approximate) && e in s.Retained()
    ensures var inside := e.id.ms >= Trunc(nowMs) - Trunc(retentionMs);
            t.Valid() && (inside ==> e in t.Retained()) && (!approximate ==> (e in t.Retained() <==> inside))
  {
    TrimKeepsFloor(s, t, RetentionFloor(nowMs, retentionMs), approximate, e);
  }

  // A run under a clock that does not run back: every trim is at the floor of a reading no
  // later than the clock.
  ghost predicate TimedRun(run: seq<Stream>, clocks: seq<real>, retentionMs: real) {
    && run != [] && |clocks| == |run| && run[0] == Stream([], 0)
    && forall i: nat :: i < |run| - 1 ==> TimedStep(run[i], run[i + 1], clocks[i], clocks[i + 1], retentionMs)
  }

  ghost predicate TimedStep(s: Stream, t: Stream, before: real, clock: real, retentionMs: real) {
    && before <= clock
    && (|| (exists e :: Appends(s.log, e) && t == s.(log := s.log + [e]))
        || (exists now: real, approximate: bool ::
              now <= clock && Trims(s, t, RetentionFloor(now, retentionMs), approximate)))
  }

  // Over the whole run everything ever removed lies below the floor of the present clock.
  lemma {:induction false} RemovedBelowFloor(run: seq<Stream>, clocks: seq<real>, retentionMs: real, k: nat)
    requires TimedRun(run, clocks, retentionMs) && k < |run|
    ensures run[k].Valid()
    ensures forall i :: 0 <= i < run[k].trimmed ==> Less(run[k].log[i].id, RetentionFloor(clocks[k], retentionMs))
  {
    if k > 0 {
      RemovedBelowFloor(run, clocks, retentionMs, k - 1);
      var s, t := run[k - 1], run[k];
      assert TimedStep(run[k - 1], run[k - 1 + 1], clocks[k - 1], clocks[k - 1 + 1], retentionMs);
      assert Step(s, t);
      StepValid(s, t);
      RetentionFloorMonotone(clocks[k - 1], clocks[k], retentionMs);
      if now: real, approximate: bool :|
            now <= clocks[k] && Trims(s, t, RetentionFloor(now, retentionMs), approximate) {
        RetentionFloorMonotone(now, clocks[k], retentionMs);
      }
    }
  }

  // So an entry whose own timestamp is inside the present window is always still there.
  lemma WindowIntact(run: seq<Stream>, clocks: seq<real>, retentionMs: real, k: nat, e: Entry)
    requires TimedRun(run, clocks, retentionMs) && k < |run|
    requires e in run[k].log && e.id.ms >= Trunc(clocks[k]) - Trunc(retentionMs)
    ensures run[k].trimmed <= |run[k].log| && e in run[k].Retained()
  {
    RemovedBelowFloor(run, clocks, retentionMs, k);
    var i :| 0 <= i < |run[k].log| && run[k].log[i] == e;
    assert i >= run[k].trimmed;
    assert run[k].Retained()[i - run[k].trimmed] == e;
  }

  // ---------------------------------------------------------------- admission

  // XINFO STREAM: the last generated id, and the first retained id if there is one.
  function Tail(s: Stream): StreamId {
    LastId(s.log)
  }

  function Floor(s: Stream): Option<StreamId>
    requires s.trimmed <= |s.log|
  {
    if s.Retained() == [] then None else Some(s.Retained()[0].id)
  }

  datatype Admission = Resync(cursor: string) | InvalidCursor | Replay(from: StreamId, boundary: StreamId)

  // GatewayHub.resume up to the handoff; "" and null are the same to it.
  function Admit(rawCursor: string, tail: StreamId, floor: Option<StreamId>): Admission {
    if rawCursor == "" then Resync(PrintId(tail))
    else
      match ParseId(rawCursor)
      case None => InvalidCursor
      case Some(c) =>
        if Less(tail, c) then Resync(PrintId(tail))
        else if floor.Some? && Less(c, floor.value) then Resync(PrintId(tail))
        else Replay(c, tail)
  }

  // A cursor of this stream, no further than its tail and no older than what is retained.
  predicate Covered(rawCursor: string, tail: StreamId, floor: Option<StreamId>) {
    && ParseId(rawCursor).Some? && AtMost(ParseId(rawCursor).value, tail)
    && (floor.Some? ==> AtMost(floor.value, ParseId(rawCursor).value))
  }

  // The three answers: a text that is no cursor is refused, a covered cursor is replayed from
  // up to the tail, and any other client is told to start over from the tail.
  lemma AdmitExactly(rawCursor: string, tail: StreamId, floor: Option<StreamId>)
    ensures var a := Admit(rawCursor, tail, floor);
            && (a.InvalidCursor? <==> rawCursor != "" && ParseId(rawCursor).None?)
            && (a.Replay? <==> Covered(rawCursor, tail, floor))
            && (a.Resync? <==> rawCursor == "" || (ParseId(rawCursor).Some? && !Covered(rawCursor, tail, floor)))
            && (a.Replay? ==> a.from == ParseId(rawCursor).value && a.boundary == tail)
            && (a.Resync? ==> ParseId(a.cursor) == Some(tail))
  {
    EmptyIsNoId();
    ResyncToTail(rawCursor, tail, floor);
  }

  lemma ResyncToTail(rawCursor: string, tail: StreamId, floor: Option<StreamId>)
    ensures var a := Admit(rawCursor, tail, floor); a.Resync? ==> a.cursor == PrintId(tail)
    ensures ParseId(PrintId(tail)) == Some(tail)
  {
    PrintIdRoundTrip(tail);
  }

  // Nothing the client has not seen was trimmed.
  ghost predicate NothingMissed(s: Stream, cursor: StreamId)
    requires s.trimmed <= |s.log|
  {
    forall i :: 0 <= i < s.trimmed ==> AtMost(s.log[i].id, cursor)
  }

  predicate WithinRetained(s: Stream, cursor: Option<StreamId>)
    requires s.trimmed < |s.log|
  {
    cursor.Some? && AtMost(s.log[s.trimmed].id, cursor.value) && AtMost(cursor.value, Tail(s))
  }

  // While anything is retained, a replay is granted exactly from within the retained
  // range, and then no entry above the cursor was ever trimmed. In general a granted
  // replay misses nothing exactly when something is retained or the cursor is the tail.
  // A client told to start over is given the tail, and resuming from there is granted in the
  // same state and misses nothing.
  lemma ResumeAdmission(run: seq<Stream>, i: nat, rawCursor: string)
    requires Run(run) && i < |run|
    ensures run[i].trimmed <= |run[i].log|
    ensures var s := run[i];
            var a := Admit(rawCursor, Tail(s), Floor(s));
            && (Floor(s).Some? ==> (a.Replay? <==> WithinRetained(s, ParseId(rawCursor))))
            && (a.Replay? ==> AtMost(a.from, a.boundary) && a.boundary == Tail(s))
            && (a.Replay? ==> (NothingMissed(s, a.from) <==> Floor(s).Some? || a.from == Tail(s)))
            && (a.Resync? ==> StartsOver(s, a.cursor))
  {
    RunValid(run, i);
    var s := run[i];
    var a := Admit(rawCursor, Tail(s), Floor(s));
    AdmitExactly(rawCursor, Tail(s), Floor(s));
    if a.Resync? {
      FromTheTail(s, a.cursor);
    } else if a.Replay? {
      ReplayMisses(s, a.from);
    }
  }

  // From this cursor the same state grants a replay that begins at the tail and misses nothing.
  ghost predicate StartsOver(s: Stream, cursor: string)
    requires s.trimmed <= |s.log|
  {
    && ParseId(cursor) == Some(Tail(s)) && NothingMissed(s, Tail(s))
    && Admit(cursor, Tail(s), Floor(s)) == Replay(Tail(s), Tail(s))
  }

  lemma FloorAtMostTail(s: Stream)
    requires s.Valid()
    ensures Floor(s).Some? ==> AtMost(Floor(s).value, Tail(s))
    ensures forall i :: 0 <= i < |s.log| ==> AtMost(s.log[i].id, Tail(s))
  {
    if s.Retained() != [] { assert s.Retained()[0] == s.log[s.trimmed]; }
    if s.log != [] { assert s.log[|s.log| - 1].id == Tail(s); }
  }

  lemma FromTheTail(s: Stream, cursor: string)
    requires s.Valid() && ParseId(cursor) == Some(Tail(s))
    ensures StartsOver(s, cursor)
  {
    FloorAtMostTail(s);
    AdmitExactly(cursor, Tail(s), Floor(s));
  }

  lemma ReplayMisses(s: Stream, from: StreamId)
    requires s.Valid() && AtMost(from, Tail(s)) && (Floor(s).Some? ==> AtMost(Floor(s).value, from))
    ensures NothingMissed(s, from) <==> Floor(s).Some? || from == Tail(s)
  {
    FloorAtMostTail(s);
    if Floor(s).Some? {
      assert s.Retained()[0] == s.log[s.trimmed];
    } else if s.log != [] {
      assert s.trimmed == |s.log|;
      assert s.log[|s.log| - 1].id == Tail(s);
    }
  }

  // The emptied stream: one event, trimmed away; a client that never saw it is told
  // it has resumed with nothing missing.
  lemma EmptiedStreamMisleads(e: Entry)
    requires Less(ZERO_ID, e.id)
    ensures var run := [Stream([], 0), Stream([e], 0), Stream([e], 1)];
            && Run(run)
            && Admit("0-0", Tail(run[2]), Floor(run[2])) == Replay(ZERO_ID, e.id)
            && !NothingMissed(run[2], ZERO_ID)
  {
    var run := [Stream([], 0), Stream([e], 0), Stream([e], 1)];
    assert Appends(run[0].log, e) && run[1] == run[0].(log := run[0].log + [e]);
    var floor := StreamId(e.id.ms + 1, 0);
    assert Trims(run[1], run[2], floor, false);
    PrintIdRoundTrip(ZERO_ID);
    assert PrintId(ZERO_ID) == "0-0";
    assert !AtMost(run[2].log[0].id, ZERO_ID);
  }
}
