// The gateway's live fan-out and its race-free replay-to-live handoff
// (apps/realtime/src/gateway/hub.ts, dedup.ts; apps/realtime/src/auth/topics.ts).

// Recently seen event ids, oldest forgotten first.
module Dedup {
  import opened Prelude

  const DEFAULT_CAPACITY: nat := 500

  datatype Recent = Recent(order: seq<string>, capacity: nat) {
    ghost predicate Valid() {
      |order| <= capacity && forall i, j :: 0 <= i < j < |order| ==> order[i] != order[j]
    }
  }

  function Accepts(r: Recent, id: string): bool {
    id !in r.order
  }

  // The last `capacity` accepted ids, oldest first.
  function AfterOffer(r: Recent, id: string): Recent {
    if id in r.order then r
    else
      var all := r.order + [id];
      r.(order := if |all| > r.capacity then all[1..] else all)
  }

  class RecentEventIds {
    const capacity: nat
    var order: seq<string>
    var seen: set<string>

    function View(): Recent
      reads this
    {
      Recent(order, capacity)
    }

    ghost predicate Valid()
      reads this
    {
      View().Valid() && seen == set id | id in order
    }

    constructor (capacity: nat := DEFAULT_CAPACITY)
      ensures Valid() && View() == Recent([], capacity)
    {
      this.capacity := capacity;
      order := [];
      seen := {};
    }

    // offer: true the first time, as far back as the capacity remembers.
    method Offer(id: string) returns (first: bool)
      requires Valid()
      modifies this
      ensures Valid()
      ensures first <==> id !in old(order)
      ensures View() == AfterOffer(old(View()), id)
    {
      if id in seen { return false; }
      seen := seen + {id};
      order := order + [id];
      if |order| > capacity {
        var oldest := order[0];
        order := order[1..];
        seen := seen - {oldest};
        OldestGone(old(order), id);
      }
      return true;
    }
  }

  function AfterOffers(r: Recent, ids: seq<string>): Recent {
    if ids == [] then r else AfterOffer(AfterOffers(r, ids[..|ids| - 1]), ids[|ids| - 1])
  }

  function Last(ids: seq<string>, n: nat): seq<string> {
    if |ids| <= n then ids else ids[|ids| - n..]
  }

  // The ids that were new when offered: not among the last `capacity` such ids before them.
  function NewIds(ids: seq<string>, capacity: nat): seq<string> {
    if ids == [] then []
    else
      var before := NewIds(ids[..|ids| - 1], capacity);
      if ids[|ids| - 1] in Last(before, capacity) then before else before + [ids[|ids| - 1]]
  }

  // Whatever was offered, what a new cache remembers are the last `capacity` of the ids that
  // were new, so it is always the oldest of them that is forgotten.
  lemma {:induction false} RemembersTheLast(ids: seq<string>, capacity: nat)
    ensures AfterOffers(Recent([], capacity), ids) == Recent(Last(NewIds(ids, capacity), capacity), capacity)
  {
    if ids != [] {
      RemembersTheLast(ids[..|ids| - 1], capacity);
      LastOfOneMore(NewIds(ids[..|ids| - 1], capacity), ids[|ids| - 1], capacity);
    }
  }

  lemma LastOfOneMore(before: seq<string>, id: string, n: nat)
    ensures var all := Last(before, n) + [id];
            Last(before + [id], n) == if |all| > n then all[1..] else all
  {
  }

  lemma OldestGone(order: seq<string>, id: string)
    requires id !in order && forall i, j :: 0 <= i < j < |order| ==> order[i] != order[j]
    ensures var all := order + [id];
            (set x | x in all[1..]) == (set x | x in order) + {id} - {all[0]}
  {
    var all := order + [id];
    forall x ensures x in all[1..] <==> (x in order || x == id) && x != all[0] {
      if (x in order || x == id) && x != all[0] {
        assert x in all by { assert all[|order|] == id; }
        var i :| 0 <= i < |all| && all[i] == x;
        assert all[1..][i - 1] == x;
      }
      if x in all[1..] {
        var i :| 0 <= i < |all[1..]| && all[1..][i] == x;
        assert all[i + 1] == x;
      }
    }
  }
}

module Gateway {
  import opened Prelude
  import opened StreamIds
  import opened Events
  import opened Dedup
  import opened Bigint

  // ---------------------------------------------------------------- authorization

  datatype Scope = All | Only(ids: seq<string>)

  datatype Session = Session(tenantId: Option<string>, sessionId: string, companyScope: Scope, branchScope: Scope)

  predicate InScope(scope: Scope, id: Option<string>) {
    id.Some? ==> scope.All? || id.value in scope.ids
  }

  // isAuthorized: every populated scope field must pass.
  predicate IsAuthorized(session: Session, e: Envelope) {
    Some(e.tenantId) == session.tenantId && InScope(session.companyScope, e.companyId)
    && InScope(session.branchScope, e.branchId)
  }

  // What the scopes promise: an event of the session's own tenant, and of one of its companies
  // and one of its branches wherever the event names one and the session is limited to some.
  ghost predicate MaySee(session: Session, e: Envelope) {
    && session.tenantId.Some? && session.tenantId.value == e.tenantId
    && (forall c :: e.companyId == Some(c) && session.companyScope.Only? ==> c in session.companyScope.ids)
    && (forall b :: e.branchId == Some(b) && session.branchScope.Only? ==> b in session.branchScope.ids)
  }

  lemma AuthorizedExactly(session: Session, e: Envelope)
    ensures IsAuthorized(session, e) <==> MaySee(session, e)
  {
    if MaySee(session, e) && e.companyId.Some? { assert e.companyId == Some(e.companyId.value); }
    if MaySee(session, e) && e.branchId.Some? { assert e.branchId == Some(e.branchId.value); }
  }

  // ---------------------------------------------------------------- one connection

  datatype Frame = EventFrame(cursor: StreamId, envelope: Envelope) | Heartbeat(cursor: StreamId)

  datatype Buffered = Buffered(cursor: StreamId, envelope: Envelope)

  // A connection's fields, and the frames sent on its socket so far.
  datatype Conn = Conn(session: Session, replaying: bool, liveBuffer: seq<Buffered>, sent: seq<Frame>)

  // What one live message does to one connection.
  function Receive(c: Conn, cursor: StreamId, e: Envelope): Conn {
    if c.replaying then c.(liveBuffer := c.liveBuffer + [Buffered(cursor, e)])
    else if IsAuthorized(c.session, e) then c.(sent := c.sent + [EventFrame(cursor, e)])
    else c.(sent := c.sent + [Heartbeat(cursor)])
  }

  // The promise of a live message: during a replay it waits in the buffer, and otherwise one
  // frame goes out, the event if the session may see it and else a heartbeat with its cursor.
  ghost predicate TakesLive(before: Conn, after: Conn, cursor: StreamId, e: Envelope) {
    && after.session == before.session && after.replaying == before.replaying
    && (before.replaying ==>
          after.liveBuffer == before.liveBuffer + [Buffered(cursor, e)] && after.sent == before.sent)
    && (!before.replaying ==>
          && after.liveBuffer == before.liveBuffer
          && |after.sent| == |before.sent| + 1 && before.sent <= after.sent
          && var frame := after.sent[|before.sent|];
             if MaySee(before.session, e) then frame == EventFrame(cursor, e) else frame == Heartbeat(cursor))
  }

  lemma ReceiveTakes(c: Conn, cursor: StreamId, e: Envelope)
    ensures TakesLive(c, Receive(c, cursor, e), cursor, e)
  {
    AuthorizedExactly(c.session, e);
  }

  // A message on the tenant's channel: unusable, or a cursor with an envelope.
  datatype LiveMessage = Malformed | Live(cursor: StreamId, envelope: Envelope)

  // What may happen while a resume is waiting: a live message, a refreshed session on
  // one of the tenant's connections, an append to the stream.
  datatype Interruption =
    | Published(message: LiveMessage)
    | Refreshed(who: nat, session: Session)
    | Appended(entry: Entry)

  // All that interruptions can change, seen from connection `me`.
  datatype Site = Site(recent: Recent, conn: Conn, stream: seq<Entry>)

  function Passes(r: Recent, e: Envelope): bool {
    e.eventId.Some? ==> Accepts(r, e.eventId.value)
  }

  function Remember(r: Recent, e: Envelope): Recent {
    if e.eventId.Some? then AfterOffer(r, e.eventId.value) else r
  }

  function Interrupt(s: Site, me: nat, i: Interruption): Site {
    match i
    case Published(Malformed) => s
    case Published(Live(cursor, e)) =>
      s.(recent := Remember(s.recent, e), conn := if Passes(s.recent, e) then Receive(s.conn, cursor, e) else s.conn)
    case Refreshed(who, session) =>
      // a session without a tenant is refused
      if who == me && session.tenantId.Some? then s.(conn := s.conn.(session := session)) else s
    case Appended(entry) => s.(stream := s.stream + [entry])
  }

  function InterruptAll(s: Site, me: nat, events: seq<Interruption>): Site {
    if events == [] then s
    else Interrupt(InterruptAll(s, me, events[..|events| - 1]), me, events[|events| - 1])
  }

  // ---------------------------------------------------------------- delivering once

  // An entry or a buffered message up for sending, with the session current then.
  datatype Candidate = Candidate(cursor: StreamId, payload: Payload, session: Session)

  // deliverOnce
  function SendOnce(sent: seq<Frame>, delivered: set<string>, cursor: StreamId, e: Envelope):
    (seq<Frame>, set<string>) {
    match e.eventId
    case None => (sent + [EventFrame(cursor, e)], delivered)
    case Some(id) =>
      if id in delivered then (sent, delivered) else (sent + [EventFrame(cursor, e)], delivered + {id})
  }

  // deliverOnce behind the checks that guard it in the scan and in the drain.
  function DeliverOnce(sent: seq<Frame>, delivered: set<string>, c: Candidate): (seq<Frame>, set<string>) {
    if c.payload.Event? && IsAuthorized(c.session, c.payload.envelope)
    then SendOnce(sent, delivered, c.cursor, c.payload.envelope)
    else (sent, delivered)
  }

  function DeliverAll(sent: seq<Frame>, delivered: set<string>, cs: seq<Candidate>): (seq<Frame>, set<string>) {
    if cs == [] then (sent, delivered)
    else
      var before := DeliverAll(sent, delivered, cs[..|cs| - 1]);
      DeliverOnce(before.0, before.1, cs[|cs| - 1])
  }

  // Reference: candidate k is sent iff it is an event its session may see and no
  // earlier candidate with its event id was sent.
  ghost predicate SentAt(cs: seq<Candidate>, k: nat)
    requires k < |cs|
  {
    && cs[k].payload.Event? && IsAuthorized(cs[k].session, cs[k].payload.envelope)
    && forall j: nat | j < k :: SameEvent(cs[j], cs[k]) ==> !SentAt(cs, j)
  }

  predicate SameEvent(a: Candidate, b: Candidate) {
    && a.payload.Event? && b.payload.Event?
    && a.payload.envelope.eventId.Some? && a.payload.envelope.eventId == b.payload.envelope.eventId
  }

  ghost function Frames(cs: seq<Candidate>, n: nat): seq<Frame>
    requires n <= |cs|
  {
    if n == 0 then []
    else
      Frames(cs, n - 1) +
      (if SentAt(cs, n - 1) then [EventFrame(cs[n - 1].cursor, cs[n - 1].payload.envelope)] else [])
  }

  ghost predicate SentId(cs: seq<Candidate>, n: nat, id: string)
    requires n <= |cs|
  {
    exists k: nat :: k < n && SentAt(cs, k) && cs[k].payload.envelope.eventId == Some(id)
  }

  lemma {:induction false} SentAtPrefix(cs: seq<Candidate>, n: nat, k: nat)
    requires k < n <= |cs|
    ensures SentAt(cs[..n], k) <==> SentAt(cs, k)
  {
    forall j: nat | j < k ensures SentAt(cs[..n], j) <==> SentAt(cs, j) {
      SentAtPrefix(cs, n, j);
    }
  }

  lemma {:induction false} FramesPrefix(cs: seq<Candidate>, n: nat, k: nat)
    requires k <= n <= |cs|
    ensures Frames(cs[..n], k) == Frames(cs, k)
    ensures forall id :: SentId(cs[..n], k, id) <==> SentId(cs, k, id)
  {
    if k > 0 {
      FramesPrefix(cs, n, k - 1);
      SentAtPrefix(cs, n, k - 1);
    }
    forall j: nat | j < k ensures SentAt(cs[..n], j) <==> SentAt(cs, j) {
      SentAtPrefix(cs, n, j);
    }
  }

  // The one-pass delivery with its set of delivered ids sends exactly the reference.
  lemma {:induction false} DeliverAllExact(sent: seq<Frame>, cs: seq<Candidate>)
    ensures DeliverAll(sent, {}, cs).0 == sent + Frames(cs, |cs|)
    ensures forall id :: id in DeliverAll(sent, {}, cs).1 <==> SentId(cs, |cs|, id)
  {
    if cs != [] {
      var n := |cs| - 1;
      DeliverAllExact(sent, cs[..n]);
      FramesPrefix(cs, n, n);
      SentIdStep(cs, n);
      var (s, d) := DeliverAll(sent, {}, cs[..n]);
      if cs[n].payload.Event? && cs[n].payload.envelope.eventId.Some? {
        AlreadySent(cs, n, cs[n].payload.envelope.eventId.value);
      }
    }
  }

  lemma SentIdStep(cs: seq<Candidate>, n: nat)
    requires n < |cs|
    ensures forall id :: SentId(cs, n + 1, id) <==>
              SentId(cs, n, id) || (SentAt(cs, n) && cs[n].payload.envelope.eventId == Some(id))
  {
  }

  lemma AlreadySent(cs: seq<Candidate>, n: nat, id: string)
    requires n < |cs| && cs[n].payload.Event? && cs[n].payload.envelope.eventId == Some(id)
    ensures SentAt(cs, n) <==> IsAuthorized(cs[n].session, cs[n].payload.envelope) && !SentId(cs, n, id)
  {
    if exists j: nat :: j < n && SameEvent(cs[j], cs[n]) && SentAt(cs, j) {
      var j: nat :| j < n && SameEvent(cs[j], cs[n]) && SentAt(cs, j);
      assert SentId(cs, n, id);
    }
    if SentId(cs, n, id) {
      var j: nat :| j < n && SentAt(cs, j) && cs[j].payload.envelope.eventId == Some(id);
      assert SameEvent(cs[j], cs[n]);
    }
  }

  lemma {:induction false} DeliverAllSplit(sent: seq<Frame>, delivered: set<string>,
                                           a: seq<Candidate>, b: seq<Candidate>)
    ensures DeliverAll(sent, delivered, a + b) ==
            DeliverAll(DeliverAll(sent, delivered, a).0, DeliverAll(sent, delivered, a).1, b)
  {
    if b == [] {
      assert a + b == a;
    } else {
      assert (a + b)[..|a + b| - 1] == a + b[..|b| - 1];
      DeliverAllSplit(sent, delivered, a, b[..|b| - 1]);
    }
  }

  // ---------------------------------------------------------------- reading the stream

  // XRANGE (lo hi, without a count.
  function Between(stream: seq<Entry>, lo: StreamId, hi: StreamId): seq<Entry> {
    if stream == [] then []
    else
      var last := stream[|stream| - 1];
      Between(stream[..|stream| - 1], lo, hi) + (if Less(lo, last.id) && AtMost(last.id, hi) then [last] else [])
  }

  function Take(s: seq<Entry>, count: nat): seq<Entry> {
    if |s| <= count then s else s[..count]
  }

  lemma {:induction false} BetweenMembers(stream: seq<Entry>, lo: StreamId, hi: StreamId)
    ensures forall e :: e in Between(stream, lo, hi) <==> e in stream && Less(lo, e.id) && AtMost(e.id, hi)
  {
    if stream != [] {
      BetweenMembers(stream[..|stream| - 1], lo, hi);
      assert stream == stream[..|stream| - 1] + [stream[|stream| - 1]];
    }
  }

  lemma {:induction false} BetweenIncreasing(stream: seq<Entry>, lo: StreamId, hi: StreamId)
    requires Increasing(stream)
    ensures Increasing(Between(stream, lo, hi))
  {
    if stream != [] {
      var init, last := stream[..|stream| - 1], stream[|stream| - 1];
      BetweenIncreasing(init, lo, hi);
      BetweenMembers(init, lo, hi);
      var b := Between(init, lo, hi);
      forall i | 0 <= i < |b| ensures Less(b[i].id, last.id) {
        assert b[i] in init;
      }
    }
  }

  // Reading on from the last id of a batch yields exactly the rest of the range.
  lemma {:induction false} BetweenResumes(stream: seq<Entry>, lo: StreamId, hi: StreamId, n: nat)
    requires Increasing(stream)
    requires 0 < n <= |Between(stream, lo, hi)|
    ensures Between(stream, Between(stream, lo, hi)[n - 1].id, hi) == Between(stream, lo, hi)[n..]
  {
    var init, last := stream[..|stream| - 1], stream[|stream| - 1];
    var b, all := Between(init, lo, hi), Between(stream, lo, hi);
    BetweenIncreasing(stream, lo, hi);
    BetweenMembers(stream, lo, hi);
    assert all[n - 1] in all;
    if n <= |b| {
      BetweenResumes(init, lo, hi, n);
      assert all[n - 1] == b[n - 1];
      if all != b {
        assert all == b + [last];
        assert all[n..] == b[n..] + [last];
      }
      BetweenMembers(init, lo, hi);
      assert b[n - 1] in init;
    } else {
      assert all == b + [last] && n == |all|;
      NothingAfter(init, last.id, hi);
    }
  }

  lemma {:induction false} NothingAfter(stream: seq<Entry>, lo: StreamId, hi: StreamId)
    requires forall i :: 0 <= i < |stream| ==> Less(stream[i].id, lo)
    ensures Between(stream, lo, hi) == []
  {
    if stream != [] { NothingAfter(stream[..|stream| - 1], lo, hi); }
  }

  // Appends land above the boundary: the range under replay does not change.
  lemma {:induction false} BetweenStable(stream: seq<Entry>, more: seq<Entry>, lo: StreamId, hi: StreamId)
    requires forall i :: 0 <= i < |more| ==> Less(hi, more[i].id)
    ensures Between(stream + more, lo, hi) == Between(stream, lo, hi)
  {
    if more == [] {
      assert stream + more == stream;
    } else {
      assert (stream + more)[..|stream + more| - 1] == stream + more[..|more| - 1];
      BetweenStable(stream, more[..|more| - 1], lo, hi);
    }
  }

  // ---------------------------------------------------------------- the resume, as a function

  function EntryCandidates(entries: seq<Entry>, session: Session): (cs: seq<Candidate>)
    ensures |cs| == |entries|
  {
    seq(|entries|, i requires 0 <= i < |entries| => Candidate(entries[i].id, entries[i].payload, session))
  }

  function BufferCandidates(buffer: seq<Buffered>, session: Session): (cs: seq<Candidate>)
    ensures |cs| == |buffer|
  {
    seq(|buffer|, i requires 0 <= i < |buffer| => Candidate(buffer[i].cursor, Event(buffer[i].envelope), session))
  }

  // The chunk loop over the entries still to be scanned. Group k of the interruptions
  // falls before chunk k is scanned; a read may throw.
  datatype Progress = Progress(site: Site, delivered: set<string>, threw: bool)

  function Group(groups: seq<seq<Interruption>>): seq<Interruption> {
    if groups == [] then [] else groups[0]
  }

  function Later(groups: seq<seq<Interruption>>): seq<seq<Interruption>> {
    if groups == [] then [] else groups[1..]
  }

  function Scan(s: Site, delivered: set<string>, batch: seq<Entry>): (Site, set<string>) {
    var (sent, d) := DeliverAll(s.conn.sent, delivered, EntryCandidates(batch, s.conn.session));
    (s.(conn := s.conn.(sent := sent)), d)
  }

  function ReplayLoop(s: Site, me: nat, delivered: set<string>, entries: seq<Entry>, chunk: nat,
                      groups: seq<seq<Interruption>>, throwAt: Option<nat>): Progress
    requires chunk > 0
    decreases |entries|
  {
    var at := InterruptAll(s, me, Group(groups));
    if throwAt == Some(0) then Progress(at, delivered, true)
    else
      var batch := Take(entries, chunk);
      var (scanned, d) := Scan(at, delivered, batch);
      if |batch| < chunk then Progress(scanned, d, false)
      else ReplayLoop(scanned, me, d, entries[chunk..], chunk, Later(groups), Earlier(throwAt))
  }

  function Earlier(throwAt: Option<nat>): Option<nat> {
    if throwAt.Some? && throwAt.value > 0 then Some(throwAt.value - 1) else None
  }

  function Drain(p: Progress): Site {
    var c := p.site.conn;
    var (sent, _) := DeliverAll(c.sent, p.delivered, BufferCandidates(c.liveBuffer, c.session));
    p.site.(conn := c.(sent := sent, liveBuffer := [], replaying := false))
  }

  function Begin(s: Site): Site {
    s.(conn := s.conn.(replaying := true, liveBuffer := []))
  }

  // ---------------------------------------------------------------- exactness

  // The session as the first n groups of interruptions leave it.
  function SessionAfter(session: Session, me: nat, groups: seq<seq<Interruption>>, n: nat): Session
    decreases n
  {
    if n == 0 then session
    else
      SessionAfter(LastRefresh(session, me, Group(groups)), me, Later(groups), n - 1)
  }

  function LastRefresh(session: Session, me: nat, events: seq<Interruption>): Session {
    if events == [] then session
    else
      var i := events[|events| - 1];
      if i.Refreshed? && i.who == me && i.session.tenantId.Some? then i.session
      else LastRefresh(session, me, events[..|events| - 1])
  }

  // The live messages of a group that get past the dedup cache, in order.
  function Heard(r: Recent, events: seq<Interruption>): (seq<Buffered>, Recent) {
    if events == [] then ([], r)
    else
      var (heard, after) := Heard(r, events[..|events| - 1]);
      var i := events[|events| - 1];
      if i.Published? && i.message.Live? then
        (if Passes(after, i.message.envelope) then heard + [Buffered(i.message.cursor, i.message.envelope)] else heard,
         Remember(after, i.message.envelope))
      else (heard, after)
  }

  // While replaying, interruptions only buffer, refresh and append.
  lemma {:induction false} InterruptedWhileReplaying(s: Site, me: nat, events: seq<Interruption>)
    requires s.conn.replaying
    ensures var t := InterruptAll(s, me, events);
            && t.conn.replaying && t.conn.sent == s.conn.sent
            && t.conn.session == LastRefresh(s.conn.session, me, events)
            && t.conn.liveBuffer == s.conn.liveBuffer + Heard(s.recent, events).0
            && t.recent == Heard(s.recent, events).1
            && s.stream <= t.stream
  {
    if events == [] {
      assert s.conn.liveBuffer + [] == s.conn.liveBuffer;
    } else {
      InterruptedWhileReplaying(s, me, events[..|events| - 1]);
    }
  }

  // The candidates of the whole replay: entry k with the session of its own chunk.
  function ReplayCandidates(session: Session, me: nat, entries: seq<Entry>, chunk: nat,
                            groups: seq<seq<Interruption>>, throwAt: Option<nat>): seq<Candidate>
    requires chunk > 0
    decreases |entries|
  {
    var now := LastRefresh(session, me, Group(groups));
    if throwAt == Some(0) then []
    else
      var batch := Take(entries, chunk);
      if |batch| < chunk then EntryCandidates(batch, now)
      else EntryCandidates(batch, now)
           + ReplayCandidates(now, me, entries[chunk..], chunk, Later(groups), Earlier(throwAt))
  }

  function ChunkOf(k: nat, chunk: nat): nat
    requires chunk > 0
  {
    k / chunk
  }

  // Every entry of the range is scanned exactly once, in order, under the session that
  // its chunk's interruptions left; a throw stops at a chunk edge.
  lemma {:induction false} ScannedInOrder(session: Session, me: nat, entries: seq<Entry>, chunk: nat,
                                          groups: seq<seq<Interruption>>, throwAt: Option<nat>, k: nat)
    requires chunk > 0
    ensures var cs := ReplayCandidates(session, me, entries, chunk, groups, throwAt);
            && |cs| <= |entries| && (throwAt.None? ==> |cs| == |entries|)
            && (k < |cs| ==>
                  cs[k] == Candidate(entries[k].id, entries[k].payload,
                                     SessionAfter(session, me, groups, ChunkOf(k, chunk) + 1)))
    decreases |entries|
  {
    var now := LastRefresh(session, me, Group(groups));
    if throwAt != Some(0) {
      if |entries| >= chunk {
        if k < chunk {
          assert ChunkOf(k, chunk) == 0;
          ScannedInOrder(now, me, entries[chunk..], chunk, Later(groups), Earlier(throwAt), 0);
        } else {
          ScannedInOrder(now, me, entries[chunk..], chunk, Later(groups), Earlier(throwAt), k - chunk);
          NextChunk(k, chunk);
        }
      } else if k < |entries| {
        assert ChunkOf(k, chunk) == 0;
      }
    }
  }

  lemma NextChunk(k: nat, chunk: nat)
    requires 0 < chunk <= k
    ensures ChunkOf(k - chunk, chunk) + 1 == ChunkOf(k, chunk)
  {
    Divide(k, chunk);
    Divide(k - chunk, chunk);
    Gap((k - chunk) / chunk + 1, k / chunk, chunk);
    Gap(k / chunk, (k - chunk) / chunk + 1, chunk);
    Gap((k - chunk) / chunk, 0, chunk);
  }

  lemma {:induction false} ReplayDelivers(s: Site, me: nat, delivered: set<string>, entries: seq<Entry>, chunk: nat,
                                          groups: seq<seq<Interruption>>, throwAt: Option<nat>)
    requires chunk > 0 && s.conn.replaying
    ensures var p := ReplayLoop(s, me, delivered, entries, chunk, groups, throwAt);
            && (p.site.conn.sent, p.delivered) ==
               DeliverAll(s.conn.sent, delivered, ReplayCandidates(s.conn.session, me, entries, chunk, groups, throwAt))
            && p.site.conn.replaying && s.conn.liveBuffer <= p.site.conn.liveBuffer
    decreases |entries|
  {
    InterruptedWhileReplaying(s, me, Group(groups));
    var at := InterruptAll(s, me, Group(groups));
    if throwAt != Some(0) && |entries| >= chunk {
      var batch := Take(entries, chunk);
      assert batch == entries[..chunk];
      var (scanned, d) := Scan(at, delivered, batch);
      ReplayDelivers(scanned, me, d, entries[chunk..], chunk, Later(groups), Earlier(throwAt));
      DeliverAllSplit(s.conn.sent, delivered, EntryCandidates(batch, at.conn.session),
        ReplayCandidates(at.conn.session, me, entries[chunk..], chunk, Later(groups), Earlier(throwAt)));
    }
  }

  // How many groups of interruptions the loop lets in.
  function Rounds(length: nat, chunk: nat, throwAt: Option<nat>): nat
    requires chunk > 0
    decreases length
  {
    if throwAt == Some(0) || length < chunk then 1 else 1 + Rounds(length - chunk, chunk, Earlier(throwAt))
  }

  // All live messages of the first n groups that get past the dedup cache.
  function HeardIn(r: Recent, groups: seq<seq<Interruption>>, n: nat): seq<Buffered>
    decreases n
  {
    if n == 0 then []
    else Heard(r, Group(groups)).0 + HeardIn(Heard(r, Group(groups)).1, Later(groups), n - 1)
  }

  // After n groups the buffer holds every accepted live message since, and the session is
  // the last refreshed one.
  ghost predicate Buffers(s: Site, me: nat, groups: seq<seq<Interruption>>, n: nat, p: Progress) {
    && p.site.conn.liveBuffer == s.conn.liveBuffer + HeardIn(s.recent, groups, n)
    && p.site.conn.session == SessionAfter(s.conn.session, me, groups, n)
  }

  // One more group in front.
  lemma BuffersEarlier(s: Site, at: Site, me: nat, groups: seq<seq<Interruption>>, n: nat, p: Progress)
    requires at.conn.session == LastRefresh(s.conn.session, me, Group(groups))
    requires at.conn.liveBuffer == s.conn.liveBuffer + Heard(s.recent, Group(groups)).0
    requires at.recent == Heard(s.recent, Group(groups)).1
    requires Buffers(at, me, Later(groups), n, p)
    ensures Buffers(s, me, groups, n + 1, p)
  {
    var heard, rest := Heard(s.recent, Group(groups)).0, HeardIn(at.recent, Later(groups), n);
    assert HeardIn(s.recent, groups, n + 1) == heard + rest;
    assert s.conn.liveBuffer + heard + rest == s.conn.liveBuffer + (heard + rest);
  }

  lemma LastBuffers(s: Site, at: Site, me: nat, groups: seq<seq<Interruption>>, p: Progress)
    requires at.conn.session == LastRefresh(s.conn.session, me, Group(groups))
    requires at.conn.liveBuffer == s.conn.liveBuffer + Heard(s.recent, Group(groups)).0
    requires at.recent == Heard(s.recent, Group(groups)).1
    requires p.site == at.(conn := at.conn.(sent := p.site.conn.sent))
    ensures Buffers(s, me, groups, 1, p)
  {
    assert at.conn.liveBuffer + HeardIn(at.recent, Later(groups), 0) == at.conn.liveBuffer;
    BuffersEarlier(s, at, me, groups, 0, p);
  }

  lemma NextRound(s: Site, me: nat, delivered: set<string>, entries: seq<Entry>, chunk: nat,
                  groups: seq<seq<Interruption>>, throwAt: Option<nat>)
    requires chunk > 0 && throwAt != Some(0) && |entries| >= chunk
    ensures var at := InterruptAll(s, me, Group(groups));
            var (scanned, d) := Scan(at, delivered, Take(entries, chunk));
            && ReplayLoop(s, me, delivered, entries, chunk, groups, throwAt) ==
               ReplayLoop(scanned, me, d, entries[chunk..], chunk, Later(groups), Earlier(throwAt))
            && scanned == at.(conn := at.conn.(sent := scanned.conn.sent))
  {
  }

  lemma LastRound(s: Site, me: nat, delivered: set<string>, entries: seq<Entry>, chunk: nat,
                  groups: seq<seq<Interruption>>, throwAt: Option<nat>)
    requires chunk > 0 && (throwAt == Some(0) || |entries| < chunk)
    ensures var p, at := ReplayLoop(s, me, delivered, entries, chunk, groups, throwAt),
                           InterruptAll(s, me, Group(groups));
            p.site == at.(conn := at.conn.(sent := p.site.conn.sent))
  {
  }

  lemma {:induction false} ReplayBuffers(s: Site, me: nat, delivered: set<string>, entries: seq<Entry>, chunk: nat,
                                         groups: seq<seq<Interruption>>, throwAt: Option<nat>)
    requires chunk > 0 && s.conn.replaying
    ensures Buffers(s, me, groups, Rounds(|entries|, chunk, throwAt),
                    ReplayLoop(s, me, delivered, entries, chunk, groups, throwAt))
    decreases |entries|
  {
    var p := ReplayLoop(s, me, delivered, entries, chunk, groups, throwAt);
    var at := InterruptAll(s, me, Group(groups));
    InterruptedWhileReplaying(s, me, Group(groups));
    if throwAt == Some(0) || |entries| < chunk {
      LastRound(s, me, delivered, entries, chunk, groups, throwAt);
      LastBuffers(s, at, me, groups, p);
    } else {
      NextRound(s, me, delivered, entries, chunk, groups, throwAt);
      var (scanned, d) := Scan(at, delivered, Take(entries, chunk));
      ReplayBuffers(scanned, me, d, entries[chunk..], chunk, Later(groups), Earlier(throwAt));
      BuffersEarlier(s, at, me, groups, Rounds(|entries| - chunk, chunk, Earlier(throwAt)), p);
    }
  }

  // One whole resume, under any interleaving: the frames sent are exactly the reference
  // for its entries, each with the session of its moment, followed by the buffered live
  // events with the final session; the buffer ends empty and the connection live.
  lemma ResumeExact(s: Site, me: nat, entries: seq<Entry>, chunk: nat,
                    groups: seq<seq<Interruption>>, throwAt: Option<nat>)
    requires chunk > 0
    ensures var p := ReplayLoop(Begin(s), me, {}, entries, chunk, groups, throwAt);
            var final := Drain(p);
            var n := Rounds(|entries|, chunk, throwAt);
            var last := SessionAfter(s.conn.session, me, groups, n);
            var cs := ReplayCandidates(s.conn.session, me, entries, chunk, groups, throwAt)
                      + BufferCandidates(HeardIn(s.recent, groups, n), last);
            && final.conn.sent == s.conn.sent + Frames(cs, |cs|)
            && final.conn == Conn(last, false, [], final.conn.sent)
  {
    var begun := Begin(s);
    ReplayDelivers(begun, me, {}, entries, chunk, groups, throwAt);
    ReplayBuffers(begun, me, {}, entries, chunk, groups, throwAt);
    assert [] + HeardIn(s.recent, groups, Rounds(|entries|, chunk, throwAt))
           == HeardIn(s.recent, groups, Rounds(|entries|, chunk, throwAt));
    var p := ReplayLoop(begun, me, {}, entries, chunk, groups, throwAt);
    var scanned := ReplayCandidates(s.conn.session, me, entries, chunk, groups, throwAt);
    var drained := BufferCandidates(p.site.conn.liveBuffer, p.site.conn.session);
    DeliverAllSplit(s.conn.sent, {}, scanned, drained);
    DeliverAllExact(s.conn.sent, scanned + drained);
  }
}
