// No gap at the handoff: one resume of one registered connection, its steps interleaved
// with everything else the gateway process and Redis do
// (apps/realtime/src/gateway/hub.ts, dedup.ts).
module Handoff {
  import opened Prelude
  import opened StreamIds
  import opened Events
  import opened Dedup
  import opened Gateway

  datatype Phase =
    | Idle
    | Snapshotted(cursor: StreamId, boundary: StreamId)
    | Replaying(cursor: StreamId, boundary: StreamId, from: StreamId, delivered: set<string>)
    | Done(cursor: StreamId, boundary: StreamId)
    | Failed

  // site: dedup cache, connection and stream; heard: the event ids whose live message
  // has reached the hub since the connection was registered.
  datatype State = State(site: Site, phase: Phase, heard: set<string>)

  datatype Step =
    | Append(entry: Entry)
    | Hear(i: nat)
    | Refresh(session: Session)
    | Snapshot(cursor: StreamId)
    | Start
    | Fetch(count: nat)
    | FetchThrows

  // The connection is registered and not replaying; the cache may already hold ids of
  // events that are in the stream.
  ghost predicate Init(s: State) {
    && Increasing(s.site.stream) && s.phase.Idle? && s.heard == {}
    && !s.site.conn.replaying && s.site.conn.liveBuffer == []
    && forall id :: id in s.site.recent.order ==> InStream(s.site.stream, id)
  }

  ghost predicate InStream(stream: seq<Entry>, id: string) {
    exists i :: 0 <= i < |stream| && Names(stream[i], id)
  }

  predicate Names(e: Entry, id: string) {
    e.payload.Event? && e.payload.envelope.eventId == Some(id)
  }

  function Ids(e: Entry): set<string> {
    if e.payload.Event? && e.payload.envelope.eventId.Some? then {e.payload.envelope.eventId.value} else {}
  }

  function Finish(s: State, site: Site, delivered: set<string>, phase: Phase): State {
    s.(site := Drain(Progress(site, delivered, phase.Failed?)), phase := phase)
  }

  ghost predicate Next(s: State, step: Step, t: State) {
    match step
    case Append(entry) =>
      Appends(s.site.stream, entry) && t == s.(site := Interrupt(s.site, 0, Appended(entry)))
    case Hear(i) =>
      // the relay publishes stream entries, late, repeatedly and in any order
      && i < |s.site.stream| && s.site.stream[i].payload.Event?
      && var e := s.site.stream[i];
      && t == s.(site := Interrupt(s.site, 0, Published(Live(e.id, e.payload.envelope))), heard := s.heard + Ids(e))
    case Refresh(session) => t == s.(site := Interrupt(s.site, 0, Refreshed(0, session)))
    case Snapshot(cursor) =>
      && s.phase.Idle? && AtMost(cursor, LastId(s.site.stream))
      && t == s.(phase := Snapshotted(cursor, LastId(s.site.stream)))
    case Start =>
      && s.phase.Snapshotted?
      && t == s.(site := Begin(s.site), phase := Replaying(s.phase.cursor, s.phase.boundary, s.phase.cursor, {}))
    case Fetch(count) =>
      && s.phase.Replaying? && count > 0
      && var p := s.phase;
      && var batch := Take(Between(s.site.stream, p.from, p.boundary), count);
      && var scanned := Scan(s.site, p.delivered, batch);
      && t == if |batch| < count then Finish(s, scanned.0, scanned.1, Done(p.cursor, p.boundary))
              else s.(site := scanned.0, phase := Replaying(p.cursor, p.boundary, batch[|batch| - 1].id, scanned.1))
    case FetchThrows =>
      s.phase.Replaying? && t == Finish(s, s.site, s.phase.delivered, Failed)
  }

  ghost predicate Run(states: seq<State>, steps: seq<Step>) {
    && |states| == |steps| + 1 && Init(states[0])
    && forall i: nat :: i < |steps| ==> StepAt(states, steps, i)
  }

  ghost predicate StepAt(states: seq<State>, steps: seq<Step>, i: nat)
    requires i < |steps| && |states| == |steps| + 1
  {
    Next(states[i], steps[i], states[i + 1])
  }

  // ---------------------------------------------------------------- what reached the client

  ghost predicate SentEvent(frames: seq<Frame>, id: string) {
    exists k :: 0 <= k < |frames| && frames[k].EventFrame? && frames[k].envelope.eventId == Some(id)
  }

  ghost predicate InBuffer(buffer: seq<Buffered>, id: string) {
    exists k :: 0 <= k < |buffer| && buffer[k].envelope.eventId == Some(id)
  }

  ghost predicate Covered(c: Conn, id: string) {
    SentEvent(c.sent, id) || InBuffer(c.liveBuffer, id)
  }

  // Every entry and buffered message of this event is one the session may see.
  ghost predicate Visible(s: State, id: string) {
    && (forall i :: 0 <= i < |s.site.stream| && Names(s.site.stream[i], id) ==>
          IsAuthorized(s.site.conn.session, s.site.stream[i].payload.envelope))
    && (forall k :: 0 <= k < |s.site.conn.liveBuffer| && s.site.conn.liveBuffer[k].envelope.eventId == Some(id) ==>
          IsAuthorized(s.site.conn.session, s.site.conn.liveBuffer[k].envelope))
  }

  // The event's first appearance lies above x.
  ghost predicate FirstAbove(stream: seq<Entry>, id: string, x: StreamId) {
    forall i :: 0 <= i < |stream| && Names(stream[i], id) ==> Less(x, stream[i].id)
  }

  predicate HasBoundary(p: Phase) {
    p.Snapshotted? || p.Replaying? || p.Done?
  }

  // ---------------------------------------------------------------- invariants

  ghost predicate Sound(s: State) {
    && Increasing(s.site.stream)
    && (s.site.conn.replaying <==> s.phase.Replaying?)
    && (!s.site.conn.replaying ==> s.site.conn.liveBuffer == [])
    && (forall id :: id in s.site.recent.order || id in s.heard ==> InStream(s.site.stream, id))
    && (HasBoundary(s.phase) ==> AtMost(s.phase.boundary, LastId(s.site.stream)))
    && (s.phase.Replaying? ==> forall id :: id in s.phase.delivered ==> SentEvent(s.site.conn.sent, id))
  }

  ghost predicate Known(s: State, id: string) {
    id in s.site.recent.order || id in s.heard
  }

  // An event first appended after the snapshot: once heard, it is sent or waiting.
  ghost predicate LiveKept(s: State, id: string) {
    HasBoundary(s.phase) && FirstAbove(s.site.stream, id, s.phase.boundary) && Known(s, id) ==> Covered(s.site.conn, id)
  }

  // An event with an entry in the part of the range already scanned has been sent.
  ghost predicate ReplayKept(s: State, id: string) {
    && (s.phase.Replaying? ==>
          && AtMost(s.phase.cursor, s.phase.from)
          && (Scanned(s, id, s.phase.from) ==> SentEvent(s.site.conn.sent, id)))
    && (s.phase.Done? && Scanned(s, id, s.phase.boundary) ==> SentEvent(s.site.conn.sent, id))
  }

  ghost predicate Scanned(s: State, id: string, upto: StreamId)
    requires HasBoundary(s.phase)
  {
    exists i :: 0 <= i < |s.site.stream| && Names(s.site.stream[i], id)
      && Less(s.phase.cursor, s.site.stream[i].id) && AtMost(s.site.stream[i].id, upto)
      && AtMost(s.site.stream[i].id, s.phase.boundary)
  }

  // ---------------------------------------------------------------- delivering

  // Delivery keeps what was sent, and afterwards every authorised candidate's event is sent.
  lemma {:induction false} DeliverAllCovers(sent: seq<Frame>, delivered: set<string>, cs: seq<Candidate>)
    requires forall id :: id in delivered ==> SentEvent(sent, id)
    ensures var r := DeliverAll(sent, delivered, cs);
            && sent <= r.0
            && (forall id :: id in r.1 ==> SentEvent(r.0, id))
            && (forall id :: SentEvent(sent, id) ==> SentEvent(r.0, id))
            && (forall id :: Offers(cs, id) ==> SentEvent(r.0, id))
  {
    if cs != [] {
      var n := |cs| - 1;
      var init := cs[..n];
      DeliverAllCovers(sent, delivered, init);
      var before := DeliverAll(sent, delivered, init);
      DeliverOneCovers(before.0, before.1, cs[n]);
      forall id | Offers(cs, id) ensures SentEvent(DeliverAll(sent, delivered, cs).0, id) {
        var k :| 0 <= k < |cs| && OffersAt(cs[k], id);
        if k < n {
          assert OffersAt(init[k], id);
        }
      }
    }
  }

  predicate OffersAt(c: Candidate, id: string) {
    c.payload.Event? && c.payload.envelope.eventId == Some(id) && IsAuthorized(c.session, c.payload.envelope)
  }

  ghost predicate Offers(cs: seq<Candidate>, id: string) {
    exists k :: 0 <= k < |cs| && OffersAt(cs[k], id)
  }

  lemma DeliverOneCovers(sent: seq<Frame>, delivered: set<string>, c: Candidate)
    requires forall id :: id in delivered ==> SentEvent(sent, id)
    ensures var r := DeliverOnce(sent, delivered, c);
            && sent <= r.0
            && (forall id :: SentEvent(sent, id) ==> SentEvent(r.0, id))
            && (forall id :: id in r.1 ==> SentEvent(r.0, id))
            && (forall id :: OffersAt(c, id) ==> SentEvent(r.0, id))
  {
    var r := DeliverOnce(sent, delivered, c);
    SentGrows(sent, r.0);
    if r.0 != sent {
      assert r.0[|sent|] == EventFrame(c.cursor, c.payload.envelope);
    }
  }

  lemma SentGrows(a: seq<Frame>, b: seq<Frame>)
    requires a <= b
    ensures forall id :: SentEvent(a, id) ==> SentEvent(b, id)
  {
    forall id | SentEvent(a, id) ensures SentEvent(b, id) {
      var k :| 0 <= k < |a| && a[k].EventFrame? && a[k].envelope.eventId == Some(id);
      assert b[k] == a[k];
    }
  }

  // Receiving an authorised message covers its event and uncovers nothing.
  lemma ReceiveCovers(c: Conn, cursor: StreamId, e: Envelope, id: string)
    ensures Covered(c, id) ==> Covered(Receive(c, cursor, e), id)
    ensures SentEvent(c.sent, id) ==> SentEvent(Receive(c, cursor, e).sent, id)
    ensures e.eventId == Some(id) && IsAuthorized(c.session, e) ==> Covered(Receive(c, cursor, e), id)
  {
    var d := Receive(c, cursor, e);
    SentGrows(c.sent, d.sent);
    if c.replaying {
      if InBuffer(c.liveBuffer, id) {
        var k :| 0 <= k < |c.liveBuffer| && c.liveBuffer[k].envelope.eventId == Some(id);
        assert d.liveBuffer[k] == c.liveBuffer[k];
      }
      assert d.liveBuffer[|c.liveBuffer|] == Buffered(cursor, e);
    } else if IsAuthorized(c.session, e) {
      assert d.sent[|c.sent|] == EventFrame(cursor, e);
    }
  }

  // The drain sends every authorised buffered event that was not sent already.
  lemma DrainCovers(site: Site, delivered: set<string>, threw: bool, id: string)
    requires forall x :: x in delivered ==> SentEvent(site.conn.sent, x)
    requires forall k :: 0 <= k < |site.conn.liveBuffer| && site.conn.liveBuffer[k].envelope.eventId == Some(id) ==>
               IsAuthorized(site.conn.session, site.conn.liveBuffer[k].envelope)
    ensures Covered(site.conn, id) ==> SentEvent(Drain(Progress(site, delivered, threw)).conn.sent, id)
  {
    var c := site.conn;
    var cs := BufferCandidates(c.liveBuffer, c.session);
    DeliverAllCovers(c.sent, delivered, cs);
    if InBuffer(c.liveBuffer, id) {
      var k :| 0 <= k < |c.liveBuffer| && c.liveBuffer[k].envelope.eventId == Some(id);
      assert OffersAt(cs[k], id);
    }
  }

  lemma ScanCovers(site: Site, delivered: set<string>, batch: seq<Entry>, id: string)
    requires forall x :: x in delivered ==> SentEvent(site.conn.sent, x)
    ensures var r := Scan(site, delivered, batch);
            && (forall x :: x in r.1 ==> SentEvent(r.0.conn.sent, x))
            && r.0 == site.(conn := site.conn.(sent := r.0.conn.sent))
            && (Covered(site.conn, id) ==> Covered(r.0.conn, id))
            && (SentEvent(site.conn.sent, id) ==> SentEvent(r.0.conn.sent, id))
            && (forall k | 0 <= k < |batch| && Names(batch[k], id) ::
                  IsAuthorized(site.conn.session, batch[k].payload.envelope) ==>
                  SentEvent(r.0.conn.sent, id))
  {
    var cs := EntryCandidates(batch, site.conn.session);
    DeliverAllCovers(site.conn.sent, delivered, cs);
    if k :| 0 <= k < |batch| && Names(batch[k], id) && IsAuthorized(site.conn.session, batch[k].payload.envelope) {
      assert OffersAt(cs[k], id);
    }
  }

  // ---------------------------------------------------------------- each step

  lemma SoundKept(s: State, step: Step, t: State)
    requires Sound(s) && Next(s, step, t)
    ensures Sound(t)
  {
    match step
    case Append(entry) =>
      AppendIncreasing(s.site.stream, entry);
      InStreamGrows(s.site.stream, entry);
    case Hear(i) =>
      HeardInStream(s, i, t);
      SentGrows(s.site.conn.sent, t.site.conn.sent);
    case Fetch(count) =>
      ScanCovers(s.site, s.phase.delivered, Take(Between(s.site.stream, s.phase.from, s.phase.boundary), count), "");
    case _ =>
  }

  lemma InStreamGrows(stream: seq<Entry>, entry: Entry)
    ensures forall id :: InStream(stream, id) ==> InStream(stream + [entry], id)
  {
    forall id | InStream(stream, id) ensures InStream(stream + [entry], id) {
      var i :| 0 <= i < |stream| && Names(stream[i], id);
      assert Names((stream + [entry])[i], id);
    }
  }

  lemma HeardInStream(s: State, i: nat, t: State)
    requires Sound(s) && Next(s, Hear(i), t)
    ensures forall id :: id in t.site.recent.order || id in t.heard ==> InStream(t.site.stream, id)
  {
    forall id | id in t.site.recent.order || id in t.heard ensures InStream(t.site.stream, id) {
      if !(id in s.site.recent.order || id in s.heard) {
        assert Names(s.site.stream[i], id);
      }
    }
  }

  lemma LiveKeptStep(s: State, step: Step, t: State, id: string)
    requires Sound(s) && Next(s, step, t) && LiveKept(s, id) && Visible(s, id)
    ensures LiveKept(t, id)
  {
    match step
    case Append(entry) => AppendAbove(s.site.stream, entry, id);
    case Hear(i) =>
      var e := s.site.stream[i];
      ReceiveCovers(s.site.conn, e.id, e.payload.envelope, id);
      assert Names(e, id) ==> IsAuthorized(s.site.conn.session, e.payload.envelope);
    case Snapshot(cursor) => NotYetAppended(t, id);
    case Fetch(count) =>
      var p := s.phase;
      var batch := Take(Between(s.site.stream, p.from, p.boundary), count);
      ScanCovers(s.site, p.delivered, batch, id);
      var scanned := Scan(s.site, p.delivered, batch);
      DrainCovers(scanned.0, scanned.1, false, id);
    case _ =>
  }

  // At the snapshot the boundary is the tail: nothing heard or remembered lies above it.
  lemma NotYetAppended(s: State, id: string)
    requires Increasing(s.site.stream) && HasBoundary(s.phase) && s.phase.boundary == LastId(s.site.stream)
    ensures FirstAbove(s.site.stream, id, s.phase.boundary) ==> !InStream(s.site.stream, id)
  {
    if i :| 0 <= i < |s.site.stream| && Names(s.site.stream[i], id) {
      assert !Less(LastId(s.site.stream), s.site.stream[i].id);
    }
  }

  lemma AppendAbove(stream: seq<Entry>, entry: Entry, id: string)
    ensures forall x :: FirstAbove(stream + [entry], id, x) ==> FirstAbove(stream, id, x)
  {
    forall x | FirstAbove(stream + [entry], id, x) ensures FirstAbove(stream, id, x) {
      forall i | 0 <= i < |stream| && Names(stream[i], id) ensures Less(x, stream[i].id) {
        assert (stream + [entry])[i] == stream[i];
      }
    }
  }

  lemma ReplayKeptStep(s: State, step: Step, t: State, id: string)
    requires Sound(s) && Next(s, step, t) && ReplayKept(s, id) && Visible(s, id)
    ensures ReplayKept(t, id)
  {
    match step
    case Append(entry) => AppendScanned(s, entry, t, id);
    case Hear(i) =>
      var e := s.site.stream[i];
      ReceiveCovers(s.site.conn, e.id, e.payload.envelope, id);
      assert forall x | HasBoundary(t.phase) && Scanned(t, id, x) :: Scanned(s, id, x);
    case Refresh(_) => assert forall x | HasBoundary(t.phase) && Scanned(t, id, x) :: Scanned(s, id, x);
    case Fetch(count) => FetchScans(s, count, t, id);
    case _ =>
  }

  lemma AppendScanned(s: State, entry: Entry, t: State, id: string)
    requires Sound(s) && Next(s, Append(entry), t) && ReplayKept(s, id)
    ensures ReplayKept(t, id)
  {
    if HasBoundary(t.phase) {
      forall x | Scanned(t, id, x) ensures Scanned(s, id, x) {
        var i :| 0 <= i < |t.site.stream| && Names(t.site.stream[i], id)
          && Less(t.phase.cursor, t.site.stream[i].id) && AtMost(t.site.stream[i].id, x)
          && AtMost(t.site.stream[i].id, t.phase.boundary);
        assert i < |s.site.stream|;
        assert s.site.stream[i] == t.site.stream[i];
      }
    }
  }

  // Where a fetch leaves off.
  function ReadUpTo(p: Phase, batch: seq<Entry>, count: nat): StreamId
    requires p.Replaying? && count > 0
  {
    if |batch| < count then p.boundary else batch[|batch| - 1].id
  }

  // A fetch scans exactly the next entries above `from`: whatever lies at or below the
  // new position was scanned before or is in this batch.
  lemma FetchScans(s: State, count: nat, t: State, id: string)
    requires Sound(s) && Next(s, Fetch(count), t) && ReplayKept(s, id) && Visible(s, id)
    ensures ReplayKept(t, id)
  {
    var p := s.phase;
    var batch := Take(Between(s.site.stream, p.from, p.boundary), count);
    var scanned := Scan(s.site, p.delivered, batch);
    FetchBounds(s.site.stream, p.from, p.boundary, count);
    if Scanned(s, id, ReadUpTo(p, batch, count)) {
      FetchSends(s, count, id);
      ScanCovers(s.site, p.delivered, batch, id);
      DrainKeepsSent(scanned.0, scanned.1, false, id);
    }
  }

  lemma FetchSends(s: State, count: nat, id: string)
    requires Sound(s) && s.phase.Replaying? && count > 0 && ReplayKept(s, id) && Visible(s, id)
    requires Scanned(s, id, ReadUpTo(s.phase,
                                     Take(Between(s.site.stream, s.phase.from, s.phase.boundary), count), count))
    ensures SentEvent(Scan(s.site, s.phase.delivered,
                           Take(Between(s.site.stream, s.phase.from, s.phase.boundary), count)).0.conn.sent, id)
  {
    var p, stream := s.phase, s.site.stream;
    var batch := Take(Between(stream, p.from, p.boundary), count);
    ScanCovers(s.site, p.delivered, batch, id);
    var i :| 0 <= i < |stream| && Names(stream[i], id) && Less(p.cursor, stream[i].id)
      && AtMost(stream[i].id, ReadUpTo(p, batch, count)) && AtMost(stream[i].id, p.boundary);
    if AtMost(stream[i].id, p.from) {
      assert Scanned(s, id, p.from);
    } else {
      FetchedUpTo(stream, p.from, p.boundary, count, stream[i]);
      var k :| 0 <= k < |batch| && batch[k] == stream[i];
    }
  }

  lemma FetchBounds(stream: seq<Entry>, lo: StreamId, hi: StreamId, count: nat)
    requires count > 0
    ensures var batch := Take(Between(stream, lo, hi), count);
            |batch| == count ==> Less(lo, batch[|batch| - 1].id) && AtMost(batch[|batch| - 1].id, hi)
  {
    var range := Between(stream, lo, hi);
    var batch := Take(range, count);
    BetweenMembers(stream, lo, hi);
    if |batch| == count { assert batch[|batch| - 1] in range; }
  }

  // A batch read above `lo` holds every entry between `lo` and where the reading stops.
  lemma FetchedUpTo(stream: seq<Entry>, lo: StreamId, hi: StreamId, count: nat, e: Entry)
    requires Increasing(stream) && count > 0
    requires e in stream && Less(lo, e.id) && AtMost(e.id, hi)
    requires var batch := Take(Between(stream, lo, hi), count); |batch| == count ==> AtMost(e.id, batch[|batch| - 1].id)
    ensures e in Take(Between(stream, lo, hi), count)
  {
    var range := Between(stream, lo, hi);
    var batch := Take(range, count);
    BetweenMembers(stream, lo, hi);
    BetweenIncreasing(stream, lo, hi);
    var k :| 0 <= k < |range| && range[k] == e;
    assert k < |batch| && batch[k] == e;
  }

  lemma DrainKeepsSent(site: Site, delivered: set<string>, threw: bool, id: string)
    requires forall x :: x in delivered ==> SentEvent(site.conn.sent, x)
    ensures SentEvent(site.conn.sent, id) ==> SentEvent(Drain(Progress(site, delivered, threw)).conn.sent, id)
  {
    DeliverAllCovers(site.conn.sent, delivered, BufferCandidates(site.conn.liveBuffer, site.conn.session));
  }

  // ---------------------------------------------------------------- the run

  lemma {:induction false} RunKeeps(states: seq<State>, steps: seq<Step>, k: nat, id: string)
    requires Run(states, steps) && k < |states|
    requires forall i :: 0 <= i < k ==> Visible(states[i], id)
    ensures Sound(states[k]) && LiveKept(states[k], id) && ReplayKept(states[k], id)
  {
    if k > 0 {
      RunKeeps(states, steps, k - 1, id);
      assert StepAt(states, steps, k - 1);
      SoundKept(states[k - 1], steps[k - 1], states[k]);
      LiveKeptStep(states[k - 1], steps[k - 1], states[k], id);
      ReplayKeptStep(states[k - 1], steps[k - 1], states[k], id);
    }
  }

  // What is buffered came from the stream, and the stream only grows.
  ghost predicate BufferSound(s: State) {
    forall k :: 0 <= k < |s.site.conn.liveBuffer| ==>
      InStreamAs(s.site.stream, s.site.conn.liveBuffer[k].cursor, s.site.conn.liveBuffer[k].envelope)
  }

  ghost predicate InStreamAs(stream: seq<Entry>, cursor: StreamId, e: Envelope) {
    exists i :: 0 <= i < |stream| && stream[i] == Entry(cursor, Event(e))
  }

  lemma InStreamAsGrows(a: seq<Entry>, b: seq<Entry>, cursor: StreamId, e: Envelope)
    requires a <= b && InStreamAs(a, cursor, e)
    ensures InStreamAs(b, cursor, e)
  {
    var i :| 0 <= i < |a| && a[i] == Entry(cursor, Event(e));
    assert b[i] == a[i];
  }

  lemma BufferKept(s: State, step: Step, t: State)
    requires BufferSound(s) && Next(s, step, t)
    ensures BufferSound(t) && s.site.stream <= t.site.stream
  {
    forall k | 0 <= k < |t.site.conn.liveBuffer|
      ensures InStreamAs(t.site.stream, t.site.conn.liveBuffer[k].cursor, t.site.conn.liveBuffer[k].envelope)
    {
      var b := t.site.conn.liveBuffer[k];
      if k < |s.site.conn.liveBuffer| && b == s.site.conn.liveBuffer[k] {
        InStreamAsGrows(s.site.stream, t.site.stream, b.cursor, b.envelope);
      } else {
        assert t.site.stream[step.i] == Entry(b.cursor, Event(b.envelope));
      }
    }
  }

  lemma {:induction false} RunBuffer(states: seq<State>, steps: seq<Step>, i: nat, k: nat)
    requires Run(states, steps) && i <= k < |states|
    ensures BufferSound(states[k]) && states[i].site.stream <= states[k].site.stream
    decreases k
  {
    if k > 0 {
      RunBuffer(states, steps, if i < k then i else k - 1, k - 1);
      assert StepAt(states, steps, k - 1);
      BufferKept(states[k - 1], steps[k - 1], states[k]);
    }
  }

  // Every event sent came from the stream, under its own cursor.
  ghost predicate FromStream(frames: seq<Frame>, stream: seq<Entry>) {
    forall k :: 0 <= k < |frames| && frames[k].EventFrame? ==>
      InStreamAs(stream, frames[k].cursor, frames[k].envelope)
  }

  ghost predicate OfferedFrom(cs: seq<Candidate>, stream: seq<Entry>) {
    forall k :: 0 <= k < |cs| && cs[k].payload.Event? ==> InStreamAs(stream, cs[k].cursor, cs[k].payload.envelope)
  }

  lemma {:induction false} DeliverAllFrom(sent: seq<Frame>, delivered: set<string>,
                                          cs: seq<Candidate>, stream: seq<Entry>)
    requires FromStream(sent, stream) && OfferedFrom(cs, stream)
    ensures FromStream(DeliverAll(sent, delivered, cs).0, stream)
  {
    if cs != [] {
      DeliverAllFrom(sent, delivered, cs[..|cs| - 1], stream);
    }
  }

  lemma FromStreamGrows(frames: seq<Frame>, a: seq<Entry>, b: seq<Entry>)
    requires FromStream(frames, a) && a <= b
    ensures FromStream(frames, b)
  {
    forall k | 0 <= k < |frames| && frames[k].EventFrame? ensures InStreamAs(b, frames[k].cursor, frames[k].envelope) {
      InStreamAsGrows(a, b, frames[k].cursor, frames[k].envelope);
    }
  }

  lemma EntriesOffered(stream: seq<Entry>, lo: StreamId, hi: StreamId, count: nat, session: Session)
    ensures OfferedFrom(EntryCandidates(Take(Between(stream, lo, hi), count), session), stream)
  {
    var range := Between(stream, lo, hi);
    var batch := Take(range, count);
    BetweenMembers(stream, lo, hi);
    forall k | 0 <= k < |batch| && batch[k].payload.Event?
      ensures InStreamAs(stream, batch[k].id, batch[k].payload.envelope)
    {
      assert batch[k] in range;
      var i :| 0 <= i < |stream| && stream[i] == batch[k];
    }
  }

  lemma DrainFrom(site: Site, delivered: set<string>, threw: bool, stream: seq<Entry>)
    requires FromStream(site.conn.sent, stream)
    requires forall k :: 0 <= k < |site.conn.liveBuffer| ==>
               InStreamAs(stream, site.conn.liveBuffer[k].cursor, site.conn.liveBuffer[k].envelope)
    ensures FromStream(Drain(Progress(site, delivered, threw)).conn.sent, stream)
  {
    DeliverAllFrom(site.conn.sent, delivered, BufferCandidates(site.conn.liveBuffer, site.conn.session), stream);
  }

  lemma SentKept(s: State, step: Step, t: State)
    requires BufferSound(s) && FromStream(s.site.conn.sent, s.site.stream) && Next(s, step, t)
    ensures FromStream(t.site.conn.sent, t.site.stream)
  {
    match step
    case Append(entry) => FromStreamGrows(s.site.conn.sent, s.site.stream, t.site.stream);
    case Hear(i) =>
      assert InStreamAs(s.site.stream, s.site.stream[i].id, s.site.stream[i].payload.envelope);
    case Fetch(count) =>
      var p, stream := s.phase, s.site.stream;
      var batch := Take(Between(stream, p.from, p.boundary), count);
      EntriesOffered(stream, p.from, p.boundary, count, s.site.conn.session);
      DeliverAllFrom(s.site.conn.sent, p.delivered, EntryCandidates(batch, s.site.conn.session), stream);
      var scanned := Scan(s.site, p.delivered, batch);
      DrainFrom(scanned.0, scanned.1, false, stream);
    case FetchThrows => DrainFrom(s.site, s.phase.delivered, true, s.site.stream);
    case _ =>
  }

  lemma {:induction false} RunSent(states: seq<State>, steps: seq<Step>, k: nat)
    requires Run(states, steps) && k < |states| && states[0].site.conn.sent == []
    ensures FromStream(states[k].site.conn.sent, states[k].site.stream)
  {
    if k > 0 {
      RunSent(states, steps, k - 1);
      RunBuffer(states, steps, k - 1, k - 1);
      assert StepAt(states, steps, k - 1);
      SentKept(states[k - 1], steps[k - 1], states[k]);
    }
  }

  // ---------------------------------------------------------------- nothing unauthorised is sent

  // Delivery adds events only, each one its session may see.
  lemma {:induction false} DeliverAllAuthorized(sent: seq<Frame>, delivered: set<string>, cs: seq<Candidate>,
                                                session: Session)
    requires forall k :: 0 <= k < |cs| ==> cs[k].session == session
    ensures var r := DeliverAll(sent, delivered, cs).0;
            && sent <= r
            && forall f :: |sent| <= f < |r| ==> r[f].EventFrame? && MaySee(session, r[f].envelope)
  {
    if cs != [] {
      var n := |cs| - 1;
      DeliverAllAuthorized(sent, delivered, cs[..n], session);
      if cs[n].payload.Event? { AuthorizedExactly(session, cs[n].payload.envelope); }
    }
  }

  // The frames a step adds: events the session of the moment may see, and for a live message
  // it may not see, one heartbeat.
  ghost predicate Answers(s: State, step: Step, frame: Frame) {
    match frame
    case EventFrame(_, e) => MaySee(s.site.conn.session, e)
    case Heartbeat(cursor) =>
      && step.Hear? && step.i < |s.site.stream| && s.site.stream[step.i].payload.Event?
      && cursor == s.site.stream[step.i].id
      && !MaySee(s.site.conn.session, s.site.stream[step.i].payload.envelope)
  }

  lemma FramesAnswer(s: State, step: Step, t: State)
    requires Next(s, step, t)
    ensures s.site.conn.sent <= t.site.conn.sent
    ensures forall f :: |s.site.conn.sent| <= f < |t.site.conn.sent| ==> Answers(s, step, t.site.conn.sent[f])
  {
    var c := s.site.conn;
    match step
    case Hear(i) => AuthorizedExactly(c.session, s.site.stream[i].payload.envelope);
    case Fetch(count) =>
      var batch := Take(Between(s.site.stream, s.phase.from, s.phase.boundary), count);
      var scanned := Scan(s.site, s.phase.delivered, batch);
      DeliverAllAuthorized(c.sent, s.phase.delivered, EntryCandidates(batch, c.session), c.session);
      DeliverAllAuthorized(scanned.0.conn.sent, scanned.1, BufferCandidates(c.liveBuffer, c.session), c.session);
    case FetchThrows =>
      DeliverAllAuthorized(c.sent, s.phase.delivered, BufferCandidates(c.liveBuffer, c.session), c.session);
    case _ =>
  }

  // Over the whole run: each event sent was one the session could see as it was at the step
  // that sent it, and each heartbeat stands for a live message it could not.
  lemma {:induction false} FrameAnswers(states: seq<State>, steps: seq<Step>, k: nat, f: nat) returns (i: nat)
    requires Run(states, steps) && k < |states| && states[0].site.conn.sent == [] && f < |states[k].site.conn.sent|
    ensures i < k && |states[i].site.conn.sent| <= f < |states[i + 1].site.conn.sent|
    ensures Answers(states[i], steps[i], states[k].site.conn.sent[f])
  {
    assert StepAt(states, steps, k - 1);
    FramesAnswer(states[k - 1], steps[k - 1], states[k]);
    if f < |states[k - 1].site.conn.sent| {
      i := FrameAnswers(states, steps, k - 1, f);
    } else {
      i := k - 1;
    }
  }

  // What a live message does: nothing if its event is among those remembered; else it waits
  // during a replay, and otherwise is answered with exactly one frame.
  lemma LiveAnswered(states: seq<State>, steps: seq<Step>, k: nat)
    requires Run(states, steps) && k < |steps| && steps[k].Hear?
    ensures steps[k].i < |states[k].site.stream| && states[k].site.stream[steps[k].i].payload.Event?
    ensures var s, t := states[k].site, states[k + 1].site;
            var e := s.stream[steps[k].i];
            if e.payload.envelope.eventId.Some? && e.payload.envelope.eventId.value in s.recent.order
            then t.conn == s.conn && t.recent == s.recent
            else TakesLive(s.conn, t.conn, e.id, e.payload.envelope)
  {
    assert StepAt(states, steps, k);
    ReceiveTakes(states[k].site.conn, states[k].site.stream[steps[k].i].id,
                 states[k].site.stream[steps[k].i].payload.envelope);
  }

  // So an event is visible as soon as every entry of the final stream that names it is one
  // the session of the moment may see.
  lemma VisibleByStream(states: seq<State>, steps: seq<Step>, i: nat, k: nat, id: string)
    requires Run(states, steps) && i <= k < |states|
    requires forall x :: 0 <= x < |states[k].site.stream| && Names(states[k].site.stream[x], id) ==>
               IsAuthorized(states[i].site.conn.session, states[k].site.stream[x].payload.envelope)
    ensures Visible(states[i], id)
  {
    RunBuffer(states, steps, i, i);
    RunBuffer(states, steps, i, k);
    var s, final := states[i], states[k].site.stream;
    forall x | 0 <= x < |s.site.stream| && Names(s.site.stream[x], id)
      ensures IsAuthorized(s.site.conn.session, s.site.stream[x].payload.envelope)
    {
      assert final[x] == s.site.stream[x];
    }
    forall b | 0 <= b < |s.site.conn.liveBuffer| && s.site.conn.liveBuffer[b].envelope.eventId == Some(id)
      ensures IsAuthorized(s.site.conn.session, s.site.conn.liveBuffer[b].envelope)
    {
      var x :| 0 <= x < |s.site.stream|
        && s.site.stream[x] == Entry(s.site.conn.liveBuffer[b].cursor, Event(s.site.conn.liveBuffer[b].envelope));
      assert Names(final[x], id);
    }
  }

  // Once the client is told it has resumed, and at every moment after: an event first
  // appended above its cursor that lies at or below the boundary, or whose live message
  // has reached the hub, has been sent, provided its session could see it throughout.
  lemma NoGap(states: seq<State>, steps: seq<Step>, k: nat, id: string)
    requires Run(states, steps) && k < |states| && states[k].phase.Done?
    requires forall i :: 0 <= i < k ==> Visible(states[i], id)
    requires FirstAbove(states[k].site.stream, id, states[k].phase.cursor)
    requires
      || id in states[k].heard
      || exists i :: 0 <= i < |states[k].site.stream| && Names(states[k].site.stream[i], id)
           && AtMost(states[k].site.stream[i].id, states[k].phase.boundary)
    ensures SentEvent(states[k].site.conn.sent, id)
  {
    RunKeeps(states, steps, k, id);
    var s := states[k];
    if i :| 0 <= i < |s.site.stream| && Names(s.site.stream[i], id) && AtMost(s.site.stream[i].id, s.phase.boundary) {
      assert Scanned(s, id, s.phase.boundary);
    } else {
      forall i | 0 <= i < |s.site.stream| && Names(s.site.stream[i], id)
        ensures Less(s.phase.boundary, s.site.stream[i].id) {
        assert !AtMost(s.site.stream[i].id, s.phase.boundary);
      }
      assert Covered(s.site.conn, id);
    }
  }
}
