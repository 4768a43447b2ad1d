// From the outbox row to the client's reducer: what the stages promise together
// (apps/worker/src/outbox/envelope.ts, apps/realtime/src/auth/topics.ts,
// packages/realtime-client/src/transport.ts, reducer.ts).
module Pipeline {
  import opened Prelude
  import opened Digits
  import opened StreamIds
  import opened Events
  import opened OutboxRows
  import G = Gateway
  import H = Handoff
  import L = Relay
  import O = Outbox
  import R = Reducer

  // toRealtimeEvent, on the fields the reducer reads.
  function ToRealtimeEvent(e: Envelope): R.RealtimeEvent
    requires e.eventId.Some?
  {
    R.RealtimeEvent(
      e.eventId.value, e.tenantId, e.resourceType, e.resourceId,
      if e.resourceVersion.Some? && AllDigits(e.resourceVersion.value) then Some(Value(e.resourceVersion.value))
        else None)
  }

  // The event a row stands for.
  function EventOfRow(id: string, tenant: string, row: Row): R.RealtimeEvent {
    R.RealtimeEvent(id, tenant, row.aggregateType, row.aggregateId,
                    if row.resourceVersion.Some? then Some(row.resourceVersion.value) else None)
  }

  // A row's envelope is addressed by the row's own columns and read back as the row's event.
  lemma EnvelopeSpeaksForRow(id: string, row: Row, session: G.Session)
    requires row.serial.Some? && row.tenantId.Some?
    ensures BuildEnvelope(id, row).Ok?
    ensures var e := BuildEnvelope(id, row).value;
            && e.eventId == Some(id)
            && AllDigits(e.seqText) && Value(e.seqText) == row.serial.value
            && ToRealtimeEvent(e) == EventOfRow(id, row.tenantId.value, row)
            && (G.IsAuthorized(session, e) <==>
                  && session.tenantId == row.tenantId
                  && G.InScope(session.companyScope, row.companyId)
                  && G.InScope(session.branchScope, row.branchId))
  {
  }

  // The client's events for a list of deliveries, each a position in the stream.
  function Delivered(stream: seq<Entry>, ds: seq<nat>): (es: seq<R.RealtimeEvent>)
    requires Readable(stream, ds)
    ensures |es| == |ds|
  {
    seq(|ds|, i requires 0 <= i < |ds| => ToRealtimeEvent(stream[ds[i]].payload.envelope))
  }

  predicate Readable(stream: seq<Entry>, ds: seq<nat>) {
    forall i :: 0 <= i < |ds| ==>
      ds[i] < |stream| && stream[ds[i]].payload.Event? && stream[ds[i]].payload.envelope.eventId.Some?
  }

  // In every reachable state every entry of the stream is a stamped row of the tenant, and
  // a session that may see it is one of the tenant whose scopes admit the row.
  lemma EntriesAreRows(states: seq<O.State>, steps: seq<O.Step>, k: nat, i: nat, session: G.Session)
    requires O.Run(states, steps) && k < |states| && i < |states[k].stream|
    ensures states[k].stream[i].payload.Event? && states[k].stream[i].payload.envelope.eventId.Some?
    ensures var e := states[k].stream[i].payload.envelope;
            var id := e.eventId.value;
            && id in states[k].rows && Tells(e, id, states[k].rows[id])
            && ToRealtimeEvent(e) == EventOfRow(id, states[k].tenant, states[k].rows[id])
            && (G.IsAuthorized(session, e) <==>
                  && session.tenantId == Some(states[k].tenant)
                  && G.InScope(session.companyScope, states[k].rows[id].companyId)
                  && G.InScope(session.branchScope, states[k].rows[id].branchId))
  {
    O.RunInv(states, steps, k);
    var s := states[k];
    assert O.Carries(s, s.stream[i].payload.envelope);
    var id := s.stream[i].payload.envelope.eventId.value;
    EnvelopeSpeaksForRow(id, s.rows[id], session);
  }

  lemma DeliveredAreRows(states: seq<O.State>, steps: seq<O.Step>, k: nat, ds: seq<nat>)
    requires O.Run(states, steps) && k < |states|
    requires forall i :: 0 <= i < |ds| ==> ds[i] < |states[k].stream|
    ensures Readable(states[k].stream, ds)
    ensures forall i :: 0 <= i < |ds| ==>
              var e := Delivered(states[k].stream, ds)[i];
              e.eventId in states[k].rows && e == EventOfRow(e.eventId, states[k].tenant, states[k].rows[e.eventId])
  {
    var anyone := G.Session(None, "", G.All, G.All);
    forall i | 0 <= i < |ds|
      ensures states[k].stream[ds[i]].payload.Event? && states[k].stream[ds[i]].payload.envelope.eventId.Some?
      ensures var e := ToRealtimeEvent(states[k].stream[ds[i]].payload.envelope);
              e.eventId in states[k].rows && e == EventOfRow(e.eventId, states[k].tenant, states[k].rows[e.eventId])
    {
      EntriesAreRows(states, steps, k, ds[i], anyone);
    }
  }

  // Whatever way two clients were handed the same entries, with any repeats, reorderings,
  // crashes and re-publications in between, their reducers end in the same state.
  lemma ClientsConverge(states: seq<O.State>, steps: seq<O.Step>, k: nat, ds: seq<nat>, es: seq<nat>)
    requires O.Run(states, steps) && k < |states|
    requires forall i :: 0 <= i < |ds| ==> ds[i] < |states[k].stream|
    requires forall i :: 0 <= i < |es| ==> es[i] < |states[k].stream|
    requires forall d :: d in ds <==> d in es
    ensures Readable(states[k].stream, ds) && Readable(states[k].stream, es)
    ensures R.After(Delivered(states[k].stream, ds)) == R.After(Delivered(states[k].stream, es))
  {
    DeliveredAreRows(states, steps, k, ds);
    DeliveredAreRows(states, steps, k, es);
    var a, b := Delivered(states[k].stream, ds), Delivered(states[k].stream, es);
    SameDeliveries(states[k].stream, ds, es);
    SameDeliveries(states[k].stream, es, ds);
    R.OrderAndDuplicatesIrrelevant(a, b);
  }

  lemma SameDeliveries(stream: seq<Entry>, ds: seq<nat>, es: seq<nat>)
    requires Readable(stream, ds) && Readable(stream, es) && forall d :: d in ds ==> d in es
    ensures forall e :: e in Delivered(stream, ds) ==> e in Delivered(stream, es)
  {
    forall e | e in Delivered(stream, ds) ensures e in Delivered(stream, es) {
      var i :| 0 <= i < |ds| && Delivered(stream, ds)[i] == e;
      assert ds[i] in es;
      var j :| 0 <= j < |es| && es[j] == ds[i];
      assert Delivered(stream, es)[j] == e;
    }
  }

  // A client handed every entry at least once, in any order, knows every dispatched row's
  // event, and holds each resource exactly at the highest version any row in the stream
  // gave it.
  lemma ClientReflectsRows(states: seq<O.State>, steps: seq<O.Step>, k: nat, ds: seq<nat>)
    requires O.Run(states, steps) && k < |states|
    requires forall i :: 0 <= i < |ds| ==> ds[i] < |states[k].stream|
    requires forall i: nat :: i < |states[k].stream| ==> i in ds
    ensures Readable(states[k].stream, ds)
    ensures var s, c := states[k], R.After(Delivered(states[k].stream, ds));
            && (forall id :: id in s.rows && s.rows[id].dispatched ==> id in c.seen)
            && (forall id :: id in c.seen ==> id in s.rows)
            && (forall id :: id in c.seen && s.rows[id].resourceVersion.Some? ==>
                  var key := R.ResourceKey(EventOfRow(id, s.tenant, s.rows[id]));
                  key in c.versions && s.rows[id].resourceVersion.value <= c.versions[key])
            && (forall key :: key in c.versions ==> GivenBy(s, c.seen, key, c.versions[key]))
  {
    DeliveredAreRows(states, steps, k, ds);
    var s, es := states[k], Delivered(states[k].stream, ds);
    var c := R.After(es);
    forall id | id in s.rows && s.rows[id].dispatched ensures id in c.seen {
      DispatchedDelivered(states, steps, k, ds, id);
      R.ReducerConverges(es);
    }
    RowsConverge(s, es);
  }

  // Some seen row gave the resource this version.
  ghost predicate GivenBy(s: O.State, seen: set<string>, key: string, version: int) {
    exists id :: id in seen && id in s.rows
      && R.ResourceKey(EventOfRow(id, s.tenant, s.rows[id])) == key
      && EventOfRow(id, s.tenant, s.rows[id]).resourceVersion == Some(version)
  }

  ghost function Index(es: seq<R.RealtimeEvent>, id: string): (i: nat)
    requires R.Offered(es, id)
    ensures i < |es| && es[i].eventId == id
  {
    var i :| 0 <= i < |es| && es[i].eventId == id;
    i
  }

  lemma DispatchedDelivered(states: seq<O.State>, steps: seq<O.Step>, k: nat, ds: seq<nat>, id: string)
    requires O.Run(states, steps) && k < |states| && Readable(states[k].stream, ds)
    requires forall i: nat :: i < |states[k].stream| ==> i in ds
    requires id in states[k].rows && states[k].rows[id].dispatched
    ensures R.Offered(Delivered(states[k].stream, ds), id)
  {
    var i := FirstEntry(states, steps, k, id);
    assert i in ds;
    var j :| 0 <= j < |ds| && ds[j] == i;
    assert Delivered(states[k].stream, ds)[j].eventId == id;
  }

  // ---------------------------------------------------------------- through the relay and the gateway

  // The connection has resumed; the relay has acknowledged what was appended after its
  // boundary, and those messages have reached the hub. Nothing is asked of what was relayed
  // before: the connection may have registered long after.
  ghost predicate CaughtUp(r: L.State, h: H.State) {
    && h.phase.Done? && r.group.Some?
    && (forall i: nat :: i < |r.stream| && Less(h.phase.boundary, r.stream[i].id) ==> i in r.group.value.acked)
    && (forall m :: m in r.channel && m.envelope.eventId.Some? && Less(h.phase.boundary, m.cursor) ==>
          m.envelope.eventId.value in h.heard)
  }

  ghost predicate Admits(session: G.Session, tenant: string, row: Row) {
    session.tenantId == Some(tenant) && G.InScope(session.companyScope, row.companyId)
    && G.InScope(session.branchScope, row.branchId)
  }

  // Over one stream shared by the dispatcher, any number of crashing relays and a
  // connection that resumed from its cursor: once what came after the boundary was relayed
  // and heard, it has been sent every dispatched row its session could see throughout and
  // that first appeared above its cursor; and its client has seen the row's event.
  lemma RowsReachTheClient(os: seq<O.State>, osteps: seq<O.Step>, k: nat,
                           ls: seq<L.State>, lsteps: seq<L.Step>, kl: nat,
                           hs: seq<H.State>, hsteps: seq<H.Step>, kh: nat, id: string)
    requires O.Run(os, osteps) && k < |os| && L.Run(ls, lsteps) && kl < |ls| && H.Run(hs, hsteps) && kh < |hs|
    requires os[k].stream == ls[kl].stream == hs[kh].site.stream
    requires CaughtUp(ls[kl], hs[kh])
    requires id in os[k].rows && os[k].rows[id].dispatched
    requires forall i: nat :: i < kh ==> Admits(hs[i].site.conn.session, os[k].tenant, os[k].rows[id])
    requires H.FirstAbove(os[k].stream, id, hs[kh].phase.cursor)
    ensures H.SentEvent(hs[kh].site.conn.sent, id)
    ensures id in R.After(Received(hs[kh].site.conn.sent)).seen
  {
    forall i: nat | i < kh ensures H.Visible(hs[i], id) {
      RowVisible(os, osteps, k, hs, hsteps, i, kh, id);
    }
    var x := FirstEntry(os, osteps, k, id);
    var e := os[k].stream[x];
    if Less(hs[kh].phase.boundary, e.id) {
      L.AtLeastOnce(ls, lsteps, kl, x);
      assert L.Message(e.id, e.payload.envelope) in ls[kl].channel;
    } else {
      assert H.Names(hs[kh].site.stream[x], id) && AtMost(e.id, hs[kh].phase.boundary);
    }
    H.NoGap(hs, hsteps, kh, id);
    ReceivedSeen(hs[kh].site.conn.sent, id);
  }

  // A dispatched row has an entry of its own in the stream.
  lemma FirstEntry(os: seq<O.State>, osteps: seq<O.Step>, k: nat, id: string) returns (x: nat)
    requires O.Run(os, osteps) && k < |os| && id in os[k].rows && os[k].rows[id].dispatched
    ensures x < |os[k].stream| && os[k].stream[x].payload.Event? && os[k].stream[x].payload.envelope.eventId == Some(id)
  {
    O.PublishedDurably(os, osteps, k);
    O.SeqsGaplessAndStable(os, osteps, k, k);
    var n := os[k].rows[id].serial.value;
    x :| O.Announces(os[k], x, n);
  }

  lemma RowVisible(os: seq<O.State>, osteps: seq<O.Step>, k: nat,
                   hs: seq<H.State>, hsteps: seq<H.Step>, i: nat, kh: nat, id: string)
    requires O.Run(os, osteps) && k < |os| && H.Run(hs, hsteps) && i < kh < |hs| && os[k].stream == hs[kh].site.stream
    requires id in os[k].rows && Admits(hs[i].site.conn.session, os[k].tenant, os[k].rows[id])
    ensures H.Visible(hs[i], id)
  {
    var session := hs[i].site.conn.session;
    forall x | 0 <= x < |os[k].stream| && H.Names(os[k].stream[x], id)
      ensures G.IsAuthorized(session, os[k].stream[x].payload.envelope)
    {
      EntriesAreRows(os, osteps, k, x, session);
    }
    H.VisibleByStream(hs, hsteps, i, kh, id);
  }

  // What the client reads off the frames sent to it.
  function Received(frames: seq<G.Frame>): seq<R.RealtimeEvent> {
    if frames == [] then []
    else
      var last := frames[|frames| - 1];
      Received(frames[..|frames| - 1]) +
      (if last.EventFrame? && last.envelope.eventId.Some? then [ToRealtimeEvent(last.envelope)] else [])
  }

  lemma {:induction false} ReceivedHas(frames: seq<G.Frame>, id: string)
    requires H.SentEvent(frames, id)
    ensures exists m :: 0 <= m < |Received(frames)| && Received(frames)[m].eventId == id
  {
    var n := |frames| - 1;
    var k :| 0 <= k < |frames| && frames[k].EventFrame? && frames[k].envelope.eventId == Some(id);
    if k == n {
      assert Received(frames)[|Received(frames)| - 1].eventId == id;
    } else {
      assert frames[..n][k] == frames[k];
      ReceivedHas(frames[..n], id);
      var m :| 0 <= m < |Received(frames[..n])| && Received(frames[..n])[m].eventId == id;
      assert Received(frames)[m].eventId == id;
    }
  }

  lemma ReceivedSeen(frames: seq<G.Frame>, id: string)
    requires H.SentEvent(frames, id)
    ensures id in R.After(Received(frames)).seen
  {
    ReceivedHas(frames, id);
    var es := Received(frames);
    R.Progress(es, 0, |es|);
    assert es[..|es|] == es;
  }

  // What a client was sent on a new connection are rows of the tenant.
  lemma {:induction false} ReceivedAreRows(os: seq<O.State>, osteps: seq<O.Step>, k: nat, frames: seq<G.Frame>)
    requires O.Run(os, osteps) && k < |os| && H.FromStream(frames, os[k].stream)
    ensures forall m :: 0 <= m < |Received(frames)| ==> IsRow(os[k], Received(frames)[m])
  {
    if frames != [] {
      var n := |frames| - 1;
      ReceivedAreRows(os, osteps, k, frames[..n]);
      var last := frames[n];
      if last.EventFrame? {
        var x :| 0 <= x < |os[k].stream| && os[k].stream[x] == Entry(last.cursor, Event(last.envelope));
        EntriesAreRows(os, osteps, k, x, G.Session(None, "", G.All, G.All));
      }
    }
  }

  ghost predicate IsRow(s: O.State, e: R.RealtimeEvent) {
    e.eventId in s.rows && e == EventOfRow(e.eventId, s.tenant, s.rows[e.eventId])
  }

  // And so, with nothing assumed of delivery but a caught-up relay: the client holds that
  // row's resource at the row's version or a later one, and every version it holds is one
  // that a row it has seen gave the resource.
  lemma ClientHoldsRows(os: seq<O.State>, osteps: seq<O.Step>, k: nat, ls: seq<L.State>, lsteps: seq<L.Step>, kl: nat,
                        hs: seq<H.State>, hsteps: seq<H.Step>, kh: nat, id: string)
    requires O.Run(os, osteps) && k < |os| && L.Run(ls, lsteps) && kl < |ls| && H.Run(hs, hsteps) && kh < |hs|
    requires os[k].stream == ls[kl].stream == hs[kh].site.stream
    requires CaughtUp(ls[kl], hs[kh]) && hs[0].site.conn.sent == []
    requires id in os[k].rows && os[k].rows[id].dispatched
    requires forall i: nat :: i < kh ==> Admits(hs[i].site.conn.session, os[k].tenant, os[k].rows[id])
    requires H.FirstAbove(os[k].stream, id, hs[kh].phase.cursor)
    ensures var c, row := R.After(Received(hs[kh].site.conn.sent)), os[k].rows[id];
            var key := R.ResourceKey(EventOfRow(id, os[k].tenant, row));
            && id in c.seen
            && (row.resourceVersion.Some? ==> key in c.versions && row.resourceVersion.value <= c.versions[key])
            && (forall other :: other in c.versions ==> GivenBy(os[k], c.seen, other, c.versions[other]))
  {
    RowsReachTheClient(os, osteps, k, ls, lsteps, kl, hs, hsteps, kh, id);
    H.RunSent(hs, hsteps, kh);
    ReceivedAreRows(os, osteps, k, hs[kh].site.conn.sent);
    RowsConverge(os[k], Received(hs[kh].site.conn.sent));
  }

  // A client whose events all are rows holds each resource exactly at the highest version
  // of the rows it has seen.
  lemma RowsConverge(s: O.State, es: seq<R.RealtimeEvent>)
    requires forall m :: 0 <= m < |es| ==> IsRow(s, es[m])
    ensures var c := R.After(es);
            && (forall id :: id in c.seen ==> id in s.rows)
            && (forall id :: id in c.seen && s.rows[id].resourceVersion.Some? ==>
                  var key := R.ResourceKey(EventOfRow(id, s.tenant, s.rows[id]));
                  key in c.versions && s.rows[id].resourceVersion.value <= c.versions[key])
            && (forall key :: key in c.versions ==> GivenBy(s, c.seen, key, c.versions[key]))
  {
    R.ReducerConverges(es);
    var c := R.After(es);
    forall id | id in c.seen
      ensures id in s.rows && R.Offered(es, id) && es[Index(es, id)] == EventOfRow(id, s.tenant, s.rows[id]) {
      assert R.Offered(es, id);
      assert IsRow(s, es[Index(es, id)]);
    }
    forall id | id in c.seen && s.rows[id].resourceVersion.Some?
      ensures R.Offers(es, R.ResourceKey(EventOfRow(id, s.tenant, s.rows[id])), s.rows[id].resourceVersion.value)
    {
      assert es[Index(es, id)] == EventOfRow(id, s.tenant, s.rows[id]);
    }
    forall key | key in c.versions ensures GivenBy(s, c.seen, key, c.versions[key]) {
      assert R.Offers(es, key, c.versions[key]);
      var m :| 0 <= m < |es| && R.ResourceKey(es[m]) == key && es[m].resourceVersion == Some(c.versions[key]);
      assert IsRow(s, es[m]) && R.Offered(es, es[m].eventId);
    }
  }
}
