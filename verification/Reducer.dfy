// The client's idempotent event reducer (packages/realtime-client/src/reducer.ts).
module Reducer {
  import opened Prelude

  datatype RealtimeEvent = RealtimeEvent(
    eventId: string,
    tenantId: string,
    resourceType: string,
    resourceId: string,
    resourceVersion: Option<int>)

  datatype ApplyDecision = Applied | Duplicate | Stale

  function ResourceKey(e: RealtimeEvent): string {
    e.tenantId + ":" + e.resourceType + ":" + e.resourceId
  }

  datatype State = State(seen: set<string>, versions: map<string, int>)

  const EMPTY := State({}, map[])

  function Decide(s: State, e: RealtimeEvent): ApplyDecision {
    var k := ResourceKey(e);
    if e.eventId in s.seen then Duplicate
    else if e.resourceVersion.None? then Applied
    else if k in s.versions && e.resourceVersion.value <= s.versions[k] then Stale
    else Applied
  }

  function Next(s: State, e: RealtimeEvent): State {
    State(
      s.seen + {e.eventId},
      if Decide(s, e).Applied? && e.resourceVersion.Some?
      then s.versions[ResourceKey(e) := e.resourceVersion.value] else s.versions)
  }

  // The event's version of its resource, or a later one, has been applied.
  predicate HoldsAtLeast(versions: map<string, int>, e: RealtimeEvent) {
    && e.resourceVersion.Some? && ResourceKey(e) in versions
    && e.resourceVersion.value <= versions[ResourceKey(e)]
  }

  // Resources are told apart by tenant, type and id as long as tenants and types hold no
  // colon; with one in a type, two resources can share a mark.
  lemma KeysTellApart(a: RealtimeEvent, b: RealtimeEvent)
    requires ':' !in a.tenantId && ':' !in b.tenantId && ':' !in a.resourceType && ':' !in b.resourceType
    ensures ResourceKey(a) == ResourceKey(b) <==>
              (a.tenantId, a.resourceType, a.resourceId) == (b.tenantId, b.resourceType, b.resourceId)
  {
    if ResourceKey(a) == ResourceKey(b) {
      var restA, restB := a.resourceType + ":" + a.resourceId, b.resourceType + ":" + b.resourceId;
      assert ResourceKey(a) == a.tenantId + ":" + restA && ResourceKey(b) == b.tenantId + ":" + restB;
      SameUpToColon(a.tenantId, restA, b.tenantId, restB);
      SameUpToColon(a.resourceType, a.resourceId, b.resourceType, b.resourceId);
    }
  }

  lemma SameUpToColon(a: string, s: string, b: string, t: string)
    requires ':' !in a && ':' !in b && a + ":" + s == b + ":" + t
    ensures a == b && s == t
  {
    var all := a + ":" + s;
    assert all == b + ":" + t;
    assert all[|a|] == ':' && all[|b|] == ':';
    assert forall i :: 0 <= i < |a| ==> all[i] in a;
    assert forall i :: 0 <= i < |b| ==> all[i] in b;
    assert a == all[..|a|] && b == all[..|b|];
    assert s == all[|a| + 1..] && t == all[|b| + 1..];
  }

  function KeyPrefix(tenantId: string, resourceType: string): string {
    tenantId + ":" + resourceType + ":"
  }

  // Exactly when some resources of two tenants and types share a mark: when one's tenant and
  // type, as the key spells them, begin the other's.
  lemma SharedExactly(a: RealtimeEvent, b: RealtimeEvent)
    ensures var p, q := KeyPrefix(a.tenantId, a.resourceType), KeyPrefix(b.tenantId, b.resourceType);
            (exists i: string, j: string ::
               ResourceKey(a.(resourceId := i)) == ResourceKey(b.(resourceId := j))) <==> p <= q || q <= p
  {
    var p, q := KeyPrefix(a.tenantId, a.resourceType), KeyPrefix(b.tenantId, b.resourceType);
    forall id: string
      ensures ResourceKey(a.(resourceId := id)) == p + id && ResourceKey(b.(resourceId := id)) == q + id
    {
    }
    if i: string, j: string :| ResourceKey(a.(resourceId := i)) == ResourceKey(b.(resourceId := j)) {
      var key := p + i;
      assert key == q + j;
      assert p == key[..|p|] && q == key[..|q|];
    }
    if p <= q {
      assert ResourceKey(a.(resourceId := q[|p|..])) == ResourceKey(b.(resourceId := ""));
    } else if q <= p {
      assert ResourceKey(a.(resourceId := "")) == ResourceKey(b.(resourceId := p[|q|..]));
    }
  }

  lemma KeysCollide()
    ensures var a := RealtimeEvent("1", "t", "lot:box", "7", Some(2));
            var b := RealtimeEvent("2", "t", "lot", "box:7", Some(1));
            a.resourceId != b.resourceId && Decide(Next(EMPTY, a), b) == Stale
  {
    assert "t" + ":" + "lot:box" + ":" + "7" == "t" + ":" + "lot" + ":" + "box:7";
  }

  class EventReducer {
    var seenEventIds: set<string>
    var versionByResource: map<string, int>

    function Current(): State
      reads this
    {
      State(seenEventIds, versionByResource)
    }

    constructor ()
      ensures Current() == EMPTY
    {
      seenEventIds := {};
      versionByResource := map[];
    }

    method Offer(e: RealtimeEvent) returns (decision: ApplyDecision)
      modifies this
      ensures decision.Duplicate? <==> e.eventId in old(seenEventIds)
      ensures decision.Stale? <==>
                e.eventId !in old(seenEventIds) && HoldsAtLeast(old(versionByResource), e)
      ensures seenEventIds == old(seenEventIds) + {e.eventId}
      ensures decision.Applied? && e.resourceVersion.Some? ==>
                versionByResource == old(versionByResource)[ResourceKey(e) := e.resourceVersion.value]
      ensures !decision.Applied? || e.resourceVersion.None? ==> versionByResource == old(versionByResource)
      ensures decision == Decide(old(Current()), e)
      ensures Current() == Next(old(Current()), e)
    {
      if e.eventId in seenEventIds { return Duplicate; }
      seenEventIds := seenEventIds + {e.eventId};
      if e.resourceVersion.None? { return Applied; }
      var rk := ResourceKey(e);
      if rk in versionByResource && e.resourceVersion.value <= versionByResource[rk] {
        return Stale;
      }
      versionByResource := versionByResource[rk := e.resourceVersion.value];
      return Applied;
    }

    method Reset()
      modifies this
      ensures Current() == EMPTY
    {
      seenEventIds := {};
      versionByResource := map[];
    }
  }

  // The state after offering a sequence of events to a fresh or just-reset reducer.
  function After(events: seq<RealtimeEvent>): State {
    if events == [] then EMPTY
    else Next(After(events[..|events| - 1]), events[|events| - 1])
  }

  // What offering event i of the sequence answered.
  function DecisionAt(events: seq<RealtimeEvent>, i: nat): ApplyDecision
    requires i < |events|
  {
    Decide(After(events[..i]), events[i])
  }

  lemma AfterStep(events: seq<RealtimeEvent>, i: nat)
    requires i < |events|
    ensures After(events[..i + 1]) == Next(After(events[..i]), events[i])
  {
    assert events[..i + 1][..i] == events[..i];
  }

  // Seen is exactly the offered ids; marks only rise, and never disappear.
  lemma {:induction false} Progress(events: seq<RealtimeEvent>, i: nat, j: nat)
    requires i <= j <= |events|
    ensures After(events[..i]).seen <= After(events[..j]).seen
    ensures forall k :: k in After(events[..i]).versions ==>
              k in After(events[..j]).versions && After(events[..i]).versions[k] <= After(events[..j]).versions[k]
    ensures forall m :: i <= m < j ==> events[m].eventId in After(events[..j]).seen
    decreases j
  {
    if i < j {
      Progress(events, i, j - 1);
      AfterStep(events, j - 1);
    }
  }

  // Each id is applied at most once.
  lemma AppliedOnce(events: seq<RealtimeEvent>, i: nat, j: nat)
    requires i < j < |events| && events[i].eventId == events[j].eventId
    ensures DecisionAt(events, j) == Duplicate
  {
    Progress(events, i, j);
  }

  // The versions applied to a resource strictly increase.
  lemma AppliedVersionsIncrease(events: seq<RealtimeEvent>, i: nat, j: nat)
    requires i < j < |events|
    requires ResourceKey(events[i]) == ResourceKey(events[j])
    requires events[i].resourceVersion.Some? && events[j].resourceVersion.Some?
    requires DecisionAt(events, i).Applied? && DecisionAt(events, j).Applied?
    ensures events[i].resourceVersion.value < events[j].resourceVersion.value
  {
    AfterStep(events, i);
    Progress(events, i + 1, j);
  }

  // An event id always names the same event.
  ghost predicate Consistent(events: seq<RealtimeEvent>) {
    forall i, j :: 0 <= i < |events| && 0 <= j < |events| && events[i].eventId == events[j].eventId ==>
      events[i] == events[j]
  }

  ghost predicate Offers(events: seq<RealtimeEvent>, key: string, version: int) {
    exists i :: 0 <= i < |events| && ResourceKey(events[i]) == key && events[i].resourceVersion == Some(version)
  }

  ghost predicate Offered(events: seq<RealtimeEvent>, id: string) {
    exists i :: 0 <= i < |events| && events[i].eventId == id
  }

  // Independent description of where the reducer ends: every offered id seen, and
  // each resource with an offered version at the largest of them.
  ghost predicate Converged(events: seq<RealtimeEvent>, s: State) {
    && (forall id :: id in s.seen <==> Offered(events, id))
    && (forall k :: k in s.versions ==> Offers(events, k, s.versions[k]))
    && (forall k, v :: Offers(events, k, v) ==> k in s.versions && v <= s.versions[k])
  }

  lemma OneMoreOffer(init: seq<RealtimeEvent>, e: RealtimeEvent, k: string, v: int)
    ensures Offers(init + [e], k, v) <==> Offers(init, k, v) || (ResourceKey(e) == k && e.resourceVersion == Some(v))
  {
    var events := init + [e];
    if Offers(init, k, v) {
      var i :| 0 <= i < |init| && ResourceKey(init[i]) == k && init[i].resourceVersion == Some(v);
      assert events[i] == init[i];
    }
    assert events[|init|] == e;
  }

  lemma OneMoreOffered(init: seq<RealtimeEvent>, e: RealtimeEvent, id: string)
    ensures Offered(init + [e], id) <==> Offered(init, id) || id == e.eventId
  {
    var events := init + [e];
    if Offered(init, id) {
      var i :| 0 <= i < |init| && init[i].eventId == id;
      assert events[i].eventId == id;
    }
    assert events[|init|] == e;
  }

  // A duplicate's version was offered before.
  lemma DuplicateOffered(init: seq<RealtimeEvent>, e: RealtimeEvent)
    requires Consistent(init + [e]) && Offered(init, e.eventId) && e.resourceVersion.Some?
    ensures Offers(init, ResourceKey(e), e.resourceVersion.value)
  {
    var i :| 0 <= i < |init| && init[i].eventId == e.eventId;
    assert (init + [e])[i] == (init + [e])[|init|];
  }

  lemma ConvergedStep(init: seq<RealtimeEvent>, e: RealtimeEvent, s: State)
    requires Consistent(init + [e]) && Converged(init, s)
    ensures Converged(init + [e], Next(s, e))
  {
    var t := Next(s, e);
    forall id ensures id in t.seen <==> Offered(init + [e], id) {
      OneMoreOffered(init, e, id);
    }
    if Offered(init, e.eventId) && e.resourceVersion.Some? {
      DuplicateOffered(init, e);
    }
    forall k | k in t.versions ensures Offers(init + [e], k, t.versions[k]) {
      OneMoreOffer(init, e, k, t.versions[k]);
    }
    forall k, v | Offers(init + [e], k, v) ensures k in t.versions && v <= t.versions[k] {
      OneMoreOffer(init, e, k, v);
    }
  }

  lemma {:induction false} ReducerConverges(events: seq<RealtimeEvent>)
    requires Consistent(events)
    ensures Converged(events, After(events))
  {
    if events != [] {
      var init, e := events[..|events| - 1], events[|events| - 1];
      assert events == init + [e];
      assert forall i :: 0 <= i < |init| ==> init[i] == events[i];
      ReducerConverges(init);
      ConvergedStep(init, e, After(init));
    }
  }

  lemma ConvergedUnique(events: seq<RealtimeEvent>, s: State, t: State)
    requires Converged(events, s) && Converged(events, t)
    ensures s == t
  {
    assert s.seen == t.seen;
    assert s.versions.Keys == t.versions.Keys;
    assert s.versions == t.versions;
  }

  // Any two deliveries of the same events, reordered and duplicated at will, end alike.
  lemma OrderAndDuplicatesIrrelevant(a: seq<RealtimeEvent>, b: seq<RealtimeEvent>)
    requires Consistent(a)
    requires forall e :: e in a <==> e in b
    ensures After(a) == After(b)
  {
    assert Consistent(b) by {
      forall i, j | 0 <= i < |b| && 0 <= j < |b| && b[i].eventId == b[j].eventId ensures b[i] == b[j] {
        assert b[i] in a && b[j] in a;
      }
    }
    ReducerConverges(a);
    ReducerConverges(b);
    SameOffers(a, b);
    SameOffers(b, a);
    assert Converged(a, After(b)) by {
      forall id ensures Offered(a, id) <==> Offered(b, id) {
        if i :| 0 <= i < |a| && a[i].eventId == id { assert a[i] in b; }
        if i :| 0 <= i < |b| && b[i].eventId == id { assert b[i] in a; }
      }
    }
    ConvergedUnique(a, After(a), After(b));
  }

  lemma SameOffers(a: seq<RealtimeEvent>, b: seq<RealtimeEvent>)
    requires forall e :: e in a ==> e in b
    ensures forall k, v :: Offers(a, k, v) ==> Offers(b, k, v)
  {
    forall k, v | Offers(a, k, v) ensures Offers(b, k, v) {
      var i :| 0 <= i < |a| && ResourceKey(a[i]) == k && a[i].resourceVersion == Some(v);
      assert a[i] in b;
    }
  }
}
