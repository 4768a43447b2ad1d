// GatewayHub for one tenant: its connections, its dedup cache and its stream
// (apps/realtime/src/gateway/hub.ts).
module GatewayHub {
  import opened Prelude
  import opened StreamIds
  import opened Events
  import opened Dedup
  import opened Gateway
  import R = Retention

  class Connection {
    var session: Session
    var replaying: bool
    var liveBuffer: seq<Buffered>
    var sent: seq<Frame>

    function View(): Conn
      reads this
    {
      Conn(session, replaying, liveBuffer, sent)
    }

    constructor (session: Session)
      ensures View() == Conn(session, false, [], [])
    {
      this.session := session;
      replaying, liveBuffer, sent := false, [], [];
    }

    // The body of deliverLive's loop.
    method Deliver(cursor: StreamId, envelope: Envelope)
      modifies this
      ensures TakesLive(old(View()), View(), cursor, envelope)
      ensures View() == Receive(old(View()), cursor, envelope)
    {
      ReceiveTakes(View(), cursor, envelope);
      if replaying {
        liveBuffer := liveBuffer + [Buffered(cursor, envelope)];
      } else if IsAuthorized(session, envelope) {
        sent := sent + [EventFrame(cursor, envelope)];
      } else {
        sent := sent + [Heartbeat(cursor)];
      }
    }
  }

  // The event's id is one of those remembered.
  predicate Repeats(r: Recent, e: Envelope) {
    e.eventId.Some? && e.eventId.value in r.order
  }

  datatype Outcome = Resumed(cursor: StreamId) | Answered(admission: R.Admission) | Threw

  class TenantHub {
    var conns: seq<Connection>
    const dedup: RecentEventIds
    var stream: seq<Entry>

    ghost predicate Valid()
      reads this, conns, dedup
    {
      && dedup.Valid()
      && (forall i, j :: 0 <= i < j < |conns| ==> conns[i] != conns[j])
    }

    function SiteOf(me: nat): Site
      requires me < |conns|
      reads this, conns, dedup
    {
      Site(dedup.View(), conns[me].View(), stream)
    }

    constructor (stream: seq<Entry>)
      ensures Valid() && conns == [] && this.stream == stream && fresh(dedup)
    {
      conns := [];
      dedup := new RecentEventIds();
      this.stream := stream;
    }

    // register: a session without a tenant is refused; otherwise a new connection joins,
    // live and with nothing sent, and no other notices.
    method Register(session: Session) returns (joined: bool)
      requires Valid()
      modifies this`conns
      ensures Valid() && (joined <==> session.tenantId.Some?)
      ensures !joined ==> conns == old(conns)
      ensures joined ==>
                && |conns| == |old(conns)| + 1 && conns[..|old(conns)|] == old(conns) && fresh(conns[|old(conns)|])
                && SiteOf(|old(conns)|) == Site(dedup.View(), Conn(session, false, [], []), stream)
      ensures forall k :: 0 <= k < |old(conns)| ==> SiteOf(k) == old(SiteOf(k))
    {
      if session.tenantId.None? { return false; }
      var conn := new Connection(session);
      conns := conns + [conn];
      return true;
    }

    // deliverLive: one offer to the tenant's cache, then every connection in turn.
    method DeliverLive(message: LiveMessage)
      requires Valid()
      modifies conns, dedup
      ensures Valid()
      ensures conns == [] || message.Malformed? || Repeats(old(dedup.View()), message.envelope) ==>
                dedup.View() == old(dedup.View()) && forall k :: 0 <= k < |conns| ==> SiteOf(k) == old(SiteOf(k))
      ensures message.Live? && !Repeats(old(dedup.View()), message.envelope) ==>
                forall k :: 0 <= k < |conns| ==>
                  TakesLive(old(conns[k].View()), conns[k].View(), message.cursor, message.envelope)
      ensures message.Live? && message.envelope.eventId.Some? && conns != [] ==>
                dedup.View() == AfterOffer(old(dedup.View()), message.envelope.eventId.value)
      ensures forall k :: 0 <= k < |conns| ==> SiteOf(k) == Interrupt(old(SiteOf(k)), k, Published(message))
    {
      ghost var before := seq(|conns|, k requires 0 <= k < |conns| reads this, conns => conns[k].View());
      if conns == [] || message.Malformed? { return; }
      var e := message.envelope;
      if e.eventId.Some? {
        var first := dedup.Offer(e.eventId.value);
        if !first { return; }
      }
      for i := 0 to |conns|
        invariant Valid() && dedup.View() == Remember(old(dedup.View()), e)
        invariant forall k :: 0 <= k < |conns| ==>
                    conns[k].View() == if k < i then Receive(old(conns[k].View()), message.cursor, e)
                    else old(conns[k].View())
      {
        conns[i].Deliver(message.cursor, e);
      }
      forall k | 0 <= k < |conns| ensures TakesLive(before[k], conns[k].View(), message.cursor, e) {
        ReceiveTakes(before[k], message.cursor, e);
      }
    }

    // reauthorize, within the tenant; a session without one is refused.
    method Reauthorize(who: nat, session: Session) returns (accepted: bool)
      requires Valid() && who < |conns|
      modifies conns[who]
      ensures Valid() && (accepted <==> session.tenantId.Some?)
      ensures accepted ==> conns[who].View() == old(conns[who].View()).(session := session)
      ensures forall k :: 0 <= k < |conns| ==> SiteOf(k) == Interrupt(old(SiteOf(k)), k, Refreshed(who, session))
    {
      if session.tenantId.None? { return false; }
      conns[who].session := session;
      return true;
    }

    ghost predicate Possible(events: seq<Interruption>)
      reads this
    {
      forall i :: 0 <= i < |events| && events[i].Refreshed? ==> events[i].who < |conns|
    }

    // What the event loop runs while a resume awaits.
    method Await(events: seq<Interruption>)
      requires Valid() && Possible(events)
      modifies this`stream, conns, dedup
      ensures Valid()
      ensures forall k :: 0 <= k < |conns| ==> SiteOf(k) == InterruptAll(old(SiteOf(k)), k, events)
    {
      for i := 0 to |events|
        invariant Valid()
        invariant forall k :: 0 <= k < |conns| ==> SiteOf(k) == InterruptAll(old(SiteOf(k)), k, events[..i])
      {
        assert events[..i + 1][..i] == events[..i];
        match events[i]
        case Published(message) => DeliverLive(message);
        case Refreshed(who, session) => var accepted := Reauthorize(who, session);
        case Appended(entry) => stream := stream + [entry];
      }
      assert events[..|events|] == events;
    }

    // One chunk: each entry authorised against the session as it is now.
    method ScanBatch(me: nat, delivered: set<string>, batch: seq<Entry>) returns (d: set<string>)
      requires Valid() && me < |conns|
      modifies conns[me]
      ensures (SiteOf(me), d) == Scan(old(SiteOf(me)), delivered, batch)
    {
      var conn := conns[me];
      d := delivered;
      ghost var cs := EntryCandidates(batch, conn.session);
      for i := 0 to |batch|
        invariant conn.View() == old(conn.View()).(sent := conn.sent)
        invariant (conn.sent, d) == DeliverAll(old(conn.sent), delivered, cs[..i])
      {
        assert cs[..i + 1][..i] == cs[..i];
        d := DeliverNext(conn, d, Candidate(batch[i].id, batch[i].payload, conn.session));
      }
      assert cs[..|batch|] == cs;
    }

    method DeliverNext(conn: Connection, delivered: set<string>, c: Candidate) returns (d: set<string>)
      modifies conn`sent
      ensures (conn.sent, d) == DeliverOnce(old(conn.sent), delivered, c)
    {
      d := delivered;
      if c.payload.Event? && IsAuthorized(c.session, c.payload.envelope) {
        var id := c.payload.envelope.eventId;
        if id.Some? {
          if id.value in d { return; }
          d := d + {id.value};
        }
        conn.sent := conn.sent + [EventFrame(c.cursor, c.payload.envelope)];
      }
    }

    // The drain of the finally block.
    method DrainBuffer(me: nat, delivered: set<string>, ghost threw: bool)
      requires Valid() && me < |conns|
      modifies conns[me]
      ensures SiteOf(me) == Drain(Progress(old(SiteOf(me)), delivered, threw))
    {
      var conn := conns[me];
      var d := delivered;
      ghost var cs := BufferCandidates(conn.liveBuffer, conn.session);
      for i := 0 to |conn.liveBuffer|
        invariant conn.session == old(conn.session) && conn.liveBuffer == old(conn.liveBuffer)
        invariant (conn.sent, d) == DeliverAll(old(conn.sent), delivered, cs[..i])
      {
        assert cs[..i + 1][..i] == cs[..i];
        d := DeliverNext(conn, d,
                         Candidate(conn.liveBuffer[i].cursor, Event(conn.liveBuffer[i].envelope), conn.session));
      }
      assert cs[..|conn.liveBuffer|] == cs;
      conn.liveBuffer := [];
      conn.replaying := false;
    }

    // One turn of the chunk loop, `rest` being what is still to be scanned.
    method FetchChunk(me: nat, delivered: set<string>, from: StreamId, boundary: StreamId, chunkSize: nat,
                      pending: seq<seq<Interruption>>, left: Option<nat>,
                       ghost origin: seq<Entry>, ghost rest: seq<Entry>)
      returns (d: set<string>, last: StreamId, more: bool, threw: bool)
      requires Valid() && me < |conns| && chunkSize > 0 && Increasing(origin)
      requires Possible(Group(pending)) && AppendsAbove(Group(pending), boundary)
      requires Grown(origin, stream, boundary) && rest == Between(origin, from, boundary)
      modifies this`stream, conns, dedup
      ensures Valid() && Grown(origin, stream, boundary)
      ensures more ==> !threw && chunkSize <= |rest| && Between(origin, last, boundary) == rest[chunkSize..]
      ensures ReplayLoop(old(SiteOf(me)), me, delivered, rest, chunkSize, pending, left) ==
              if more then ReplayLoop(SiteOf(me), me, d, rest[chunkSize..], chunkSize, Later(pending), Earlier(left))
              else Progress(SiteOf(me), d, threw)
    {
      d, last, more, threw := delivered, from, false, false;
      var events := Group(pending);
      Await(events);
      StreamGrown(old(SiteOf(me)), me, events, origin, boundary);
      if left == Some(0) {
        threw := true;
        return;
      }
      GrownBetween(origin, stream, from, boundary);
      var batch := Take(Between(stream, from, boundary), chunkSize);
      if |batch| == 0 { return; }
      d := ScanBatch(me, delivered, batch);
      last := batch[|batch| - 1].id;
      if |batch| < chunkSize { return; }
      BetweenResumes(origin, from, boundary, chunkSize);
      more := true;
    }

    // replayThenHandoff. Group k of the interruptions happens while chunk k is awaited;
    // `throwAt` is the read that throws, if one does.
    method ReplayThenHandoff(me: nat, cursor: StreamId, boundary: StreamId, chunkSize: nat,
                             groups: seq<seq<Interruption>>, throwAt: Option<nat>)
      returns (outcome: Outcome)
      requires Valid() && me < |conns| && chunkSize > 0 && Increasing(stream)
      requires forall k :: 0 <= k < |groups| ==> Possible(groups[k]) && AppendsAbove(groups[k], boundary)
      modifies this`stream, conns, dedup
      ensures Valid()
      ensures var p := ReplayLoop(Begin(old(SiteOf(me))), me, {},
                                  Between(old(stream), cursor, boundary), chunkSize, groups, throwAt);
              && SiteOf(me) == Drain(p)
              && outcome == if p.threw then Threw else Resumed(boundary)
    {
      var conn := conns[me];
      conn.replaying := true;
      conn.liveBuffer := [];
      var delivered: set<string> := {};
      var from, pending, left, more, threw := cursor, groups, throwAt, true, false;
      ghost var rest := Between(stream, cursor, boundary);
      ghost var goal := ReplayLoop(SiteOf(me), me, {}, rest, chunkSize, groups, throwAt);
      while more
        invariant Valid() && Grown(old(stream), stream, boundary)
        invariant forall k :: 0 <= k < |pending| ==> Possible(pending[k]) && AppendsAbove(pending[k], boundary)
        invariant more ==> !threw && rest == Between(old(stream), from, boundary)
        invariant goal == if more then ReplayLoop(SiteOf(me), me, delivered, rest, chunkSize, pending, left)
                          else Progress(SiteOf(me), delivered, threw)
        decreases more, |rest|
      {
        delivered, from, more, threw :=
          FetchChunk(me, delivered, from, boundary, chunkSize, pending, left, old(stream), rest);
        if more { rest := rest[chunkSize..]; }
        pending, left := Later(pending), Earlier(left);
      }
      DrainBuffer(me, delivered, threw);
      return if threw then Threw else Resumed(boundary);
    }

    // resume: `tail` and `floor` are XINFO's answer for the stream as it is when asked;
    // `early` is what happens before that answer is processed.
    method Resume(me: nat, rawCursor: string, tail: StreamId, floor: Option<StreamId>, early: seq<Interruption>,
                  chunkSize: nat, groups: seq<seq<Interruption>>, throwAt: Option<nat>)
      returns (outcome: Outcome)
      requires Valid() && me < |conns| && chunkSize > 0 && Increasing(stream)
      requires stream != [] ==> tail == LastId(stream)
      requires floor == if stream == [] then None else Some(stream[0].id)
      requires Possible(early) && AppendsAbove(early, tail) && Increasing(InterruptAll(SiteOf(me), me, early).stream)
      requires forall k :: 0 <= k < |groups| ==> Possible(groups[k]) && AppendsAbove(groups[k], tail)
      modifies this`stream, conns, dedup
      ensures Valid()
      ensures outcome == Answered(R.InvalidCursor) <==> rawCursor != "" && ParseId(rawCursor).None?
      ensures outcome.Answered? <==> !R.Covered(rawCursor, tail, floor)
      ensures outcome.Answered? && outcome != Answered(R.InvalidCursor) ==>
                outcome.admission.Resync? && ParseId(outcome.admission.cursor) == Some(tail)
      ensures outcome.Resumed? ==> outcome.cursor == tail
      ensures var a := R.Admit(rawCursor, tail, floor);
              var asked := if a.InvalidCursor? then old(SiteOf(me)) else InterruptAll(old(SiteOf(me)), me, early);
              match a
              case Replay(from, boundary) =>
                var p := ReplayLoop(Begin(asked), me, {},
                                    Between(old(stream), from, boundary), chunkSize, groups, throwAt);
                SiteOf(me) == Drain(p) && outcome == if p.threw then Threw else Resumed(boundary)
              case _ => SiteOf(me) == asked && outcome == Answered(a)
    {
      var a := R.Admit(rawCursor, tail, floor);
      R.AdmitExactly(rawCursor, tail, floor);
      if a.InvalidCursor? { return Answered(a); }
      Await(early);
      StreamGrown(old(SiteOf(me)), me, early, old(stream), tail);
      if a.Resync? { return Answered(a); }
      GrownBetween(old(stream), stream, a.from, a.boundary);
      outcome := ReplayThenHandoff(me, a.from, a.boundary, chunkSize, groups, throwAt);
    }
  }

  // Redis ids only increase: whatever is appended later lies above the boundary.
  ghost predicate AppendsAbove(events: seq<Interruption>, boundary: StreamId) {
    forall i :: 0 <= i < |events| && events[i].Appended? ==> Less(boundary, events[i].entry.id)
  }

  ghost predicate Grown(before: seq<Entry>, after: seq<Entry>, boundary: StreamId) {
    before <= after && forall i :: |before| <= i < |after| ==> Less(boundary, after[i].id)
  }

  lemma {:induction false} StreamGrown(s: Site, me: nat, events: seq<Interruption>,
                                       origin: seq<Entry>, boundary: StreamId)
    requires Grown(origin, s.stream, boundary) && AppendsAbove(events, boundary)
    ensures Grown(origin, InterruptAll(s, me, events).stream, boundary)
  {
    if events != [] {
      StreamGrown(s, me, events[..|events| - 1], origin, boundary);
    }
  }

  lemma GrownBetween(before: seq<Entry>, after: seq<Entry>, lo: StreamId, hi: StreamId)
    requires Grown(before, after, hi)
    ensures Between(after, lo, hi) == Between(before, lo, hi)
  {
    assert after == before + after[|before|..];
    BetweenStable(before, after[|before|..], lo, hi);
  }
}
