// Which sockets a gateway holds for a tenant or a session, while sockets come, move and go
// around the awaited SUBSCRIBEs (apps/realtime/src/gateway/hub.ts).

// One of the hub's two maps from a key to the set of connections it holds for the key.
module Membership {
  import opened Prelude

  // A set object of the map. A set that has left the map keeps its identity: whoever awaits
  // the SUBSCRIBE it was made for still adds to it.
  datatype Members = Members(key: string, conns: set<nat>)

  // An addTo call that has not finished: not begun, or awaiting the reply to its SUBSCRIBE.
  datatype Join = Join(conn: nat, key: string, awaits: Option<nat>)

  // `subscribed`: the channels whose last command was SUBSCRIBE.
  datatype Registry = Registry(at: map<string, nat>, sets: seq<Members>, subscribed: set<string>, joins: map<nat, Join>)
  {
    ghost predicate Valid() {
      && (forall k :: k in at ==> at[k] < |sets| && sets[at[k]].key == k)
      && (forall i :: i in joins && joins[i].awaits.Some? ==>
            joins[i].awaits.value < |sets| && sets[joins[i].awaits.value].key == joins[i].key)
    }

    // The connections a message for the key goes to.
    function Reached(key: string): (conns: set<nat>) {
      if key in at && at[key] < |sets| then sets[at[key]].conns else {}
    }

    // An unfinished call would put the connection under the key.
    predicate Joining(c: nat, key: string) {
      exists i :: i in joins && joins[i].conn == c && joins[i].key == key
    }
  }

  const EMPTY := Registry(map[], [], {}, map[])

  function Put(r: Registry, i: nat, conns: set<nat>): Registry {
    if i < |r.sets| then r.(sets := r.sets[i := r.sets[i].(conns := conns)]) else r
  }

  // removeFromTenant, removeFromSession.
  function Drop(r: Registry, c: nat, key: string): Registry {
    if key !in r.at then r
    else
      var rest := r.Reached(key) - {c};
      var kept := Put(r, r.at[key], rest);
      if rest == {} then kept.(at := r.at - {key}, subscribed := r.subscribed - {key}) else kept
  }

  // A call addTo(key, c), with id i.
  function Call(r: Registry, i: nat, c: nat, key: string): Registry {
    r.(joins := r.joins[i := Join(c, key, None)])
  }

  // addToTenant, addToSession up to the await: into the set that is there, or a new one made
  // and a SUBSCRIBE sent.
  function Begin(r: Registry, i: nat): Registry
    requires i in r.joins
  {
    var j := r.joins[i];
    if j.key in r.at then
      Put(r, r.at[j.key], r.Reached(j.key) + {j.conn}).(joins := r.joins - {i})
    else
      Registry(r.at[j.key := |r.sets|], r.sets + [Members(j.key, {})], r.subscribed + {j.key},
               r.joins[i := j.(awaits := Some(|r.sets|))])
  }

  // After the await: into the set object made before it.
  function Finish(r: Registry, i: nat): Registry
    requires i in r.joins && r.joins[i].awaits.Some?
  {
    var j := r.joins[i];
    (if j.awaits.value < |r.sets| then Put(r, j.awaits.value, r.sets[j.awaits.value].conns + {j.conn}) else r)
    .(joins := r.joins - {i})
  }

  // ---------------------------------------------------------------- what a map keeps

  // The set a call awaits is still the key's.
  predicate Lands(r: Registry, j: Join) {
    j.awaits.Some? && j.key in r.at && r.at[j.key] == j.awaits.value
  }

  predicate IsAwaited(r: Registry, i: nat, key: string) {
    i in r.joins && r.joins[i].key == key && Lands(r, r.joins[i])
  }

  // The SUBSCRIBE made for the key's set is not answered yet.
  predicate Awaited(r: Registry, key: string) {
    exists i :: i in r.joins && IsAwaited(r, i, key)
  }

  // A channel is subscribed exactly while its key has a set, no set is kept for nobody, and
  // no two calls await one SUBSCRIBE.
  ghost predicate Served(r: Registry) {
    && r.subscribed == r.at.Keys
    && (forall k :: k in r.at ==> r.Reached(k) != {} || Awaited(r, k))
    && (forall i, n :: i in r.joins && n in r.joins && r.joins[i].awaits.Some? ==>
          r.joins[i].awaits == r.joins[n].awaits ==> i == n)
  }

  lemma Dropped(r: Registry, c: nat, key: string)
    requires r.Valid()
    ensures Drop(r, c, key).Valid()
    ensures forall k :: Drop(r, c, key).Reached(k) == r.Reached(k) - (if k == key then {c} else {})
  {
  }

  lemma Begun(r: Registry, i: nat)
    requires r.Valid() && i in r.joins && r.joins[i].awaits.None?
    ensures Begin(r, i).Valid()
    ensures var j := r.joins[i];
            forall k :: Begin(r, i).Reached(k) == r.Reached(k) + (if k == j.key && k in r.at then {j.conn} else {})
  {
  }

  lemma Finished(r: Registry, i: nat)
    requires r.Valid() && i in r.joins && r.joins[i].awaits.Some?
    ensures Finish(r, i).Valid()
    ensures var j := r.joins[i];
            forall k :: Finish(r, i).Reached(k) == r.Reached(k) + (if k == j.key && Lands(r, j) then {j.conn} else {})
  {
  }

  lemma DropServed(r: Registry, c: nat, key: string)
    requires r.Valid() && Served(r)
    ensures Served(Drop(r, c, key))
  {
    var t := Drop(r, c, key);
    Dropped(r, c, key);
    forall k | k in t.at ensures t.Reached(k) != {} || Awaited(t, k) {
      if t.Reached(k) == {} {
        assert k != key;
        var i :| i in r.joins && IsAwaited(r, i, k);
        assert IsAwaited(t, i, k);
      }
    }
  }

  lemma BeginServed(r: Registry, i: nat)
    requires r.Valid() && Served(r) && i in r.joins && r.joins[i].awaits.None?
    ensures Served(Begin(r, i))
  {
    var t := Begin(r, i);
    Begun(r, i);
    forall k | k in t.at ensures t.Reached(k) != {} || Awaited(t, k) {
      if k == r.joins[i].key && k !in r.at {
        assert IsAwaited(t, i, k);
      } else if t.Reached(k) == {} {
        var n :| n in r.joins && IsAwaited(r, n, k);
        assert IsAwaited(t, n, k);
      }
    }
  }

  lemma CallServed(r: Registry, i: nat, c: nat, key: string)
    requires r.Valid() && Served(r) && (i in r.joins ==> r.joins[i] == Join(c, key, None))
    ensures Call(r, i, c, key).Valid() && Served(Call(r, i, c, key))
  {
    var t := Call(r, i, c, key);
    forall k | k in t.at ensures t.Reached(k) != {} || Awaited(t, k) {
      if t.Reached(k) == {} {
        var n :| n in r.joins && IsAwaited(r, n, k);
        assert IsAwaited(t, n, k);
      }
    }
  }

  lemma Called(r: Registry, i: nat, c: nat, key: string)
    requires r.Valid() && Served(r) && (i in r.joins ==> r.joins[i] == Join(c, key, None))
    ensures var t := Begin(Call(r, i, c, key), i);
            && t.Valid() && Served(t) && (key in r.at ==> t.joins == r.joins - {i})
            && (forall k :: t.Reached(k) == r.Reached(k) + (if k == key && k in r.at then {c} else {}))
  {
    CallServed(r, i, c, key);
    BeginServed(Call(r, i, c, key), i);
    Begun(Call(r, i, c, key), i);
  }

  lemma FinishServed(r: Registry, i: nat)
    requires r.Valid() && Served(r) && i in r.joins && r.joins[i].awaits.Some?
    ensures Served(Finish(r, i))
  {
    var t := Finish(r, i);
    Finished(r, i);
    forall k | k in t.at ensures t.Reached(k) != {} || Awaited(t, k) {
      if t.Reached(k) == {} {
        var n :| n in r.joins && IsAwaited(r, n, k);
        assert IsAwaited(t, n, k);
      }
    }
  }

  // ---------------------------------------------------------------- who is reached

  // `owner`: the key each open connection's session names now. Nobody else is reached under
  // a key, and each of these is, or an unfinished call is to put it there.
  ghost predicate Right(r: Registry, owner: map<nat, string>) {
    && (forall c, k :: c in r.Reached(k) ==> c in owner && owner[c] == k)
    && (forall c :: c in owner ==> c in r.Reached(owner[c]) || r.Joining(c, owner[c]))
  }

  predicate Wanted(j: Join, owner: map<nat, string>) {
    j.conn in owner && owner[j.conn] == j.key
  }

  // A connection some call other than i is to put under the key stays so while the other
  // calls do.
  lemma JoiningKept(r: Registry, t: Registry, i: nat, d: nat, key: string)
    requires r.Joining(d, key)
    requires forall n :: n in r.joins && n != i ==> n in t.joins && t.joins[n] == r.joins[n]
    requires i in r.joins && r.joins[i].conn == d && r.joins[i].key == key ==>
               i in t.joins && t.joins[i].conn == d && t.joins[i].key == key
    ensures t.Joining(d, key)
  {
    var n :| n in r.joins && r.joins[n].conn == d && r.joins[n].key == key;
    assert n in t.joins && t.joins[n].conn == d && t.joins[n].key == key;
  }

  lemma DropRight(r: Registry, owner: map<nat, string>, c: nat, key: string)
    requires r.Valid() && Right(r, owner) && (c in owner ==> owner[c] == key)
    ensures Right(Drop(r, c, key), owner - {c})
  {
    Dropped(r, c, key);
    var t := Drop(r, c, key);
    forall d | d in owner - {c} ensures d in t.Reached(owner[d]) || t.Joining(d, owner[d]) {
      assert d in r.Reached(owner[d]) || r.Joining(d, owner[d]);
    }
  }

  lemma CallRight(r: Registry, owner: map<nat, string>, i: nat, c: nat, key: string, open: bool)
    requires r.Valid() && Right(r, owner) && c !in owner && i !in r.joins
    ensures Right(Call(r, i, c, key), if open then owner[c := key] else owner)
  {
    var t := Call(r, i, c, key);
    var after := if open then owner[c := key] else owner;
    assert forall k :: t.Reached(k) == r.Reached(k);
    assert t.joins[i] == Join(c, key, None);
    forall d | d in after ensures d in t.Reached(after[d]) || t.Joining(d, after[d]) {
      if d in owner && d !in r.Reached(owner[d]) { JoiningKept(r, t, i, d, owner[d]); }
    }
  }

  // A call that joins at once keeps everybody right exactly when its connection is still the
  // key's; one that has to subscribe first always does.
  lemma BeginRight(r: Registry, owner: map<nat, string>, i: nat)
    requires r.Valid() && Right(r, owner) && i in r.joins && r.joins[i].awaits.None?
    ensures Right(Begin(r, i), owner) <==> (r.joins[i].key in r.at ==> Wanted(r.joins[i], owner))
  {
    Begun(r, i);
    var j := r.joins[i];
    if j.key in r.at && !Wanted(j, owner) {
      assert j.conn in Begin(r, i).Reached(j.key);
    } else {
      BegunRight(r, Begin(r, i), owner, i);
    }
  }

  // A call that has moved on leaves everybody right where it adds no stranger, and adds its
  // own connection or is not needed for it.
  lemma BegunRight(r: Registry, t: Registry, owner: map<nat, string>, i: nat)
    requires Right(r, owner) && i in r.joins
    requires forall n :: n in r.joins && n != i ==> n in t.joins && t.joins[n] == r.joins[n]
    requires forall k :: r.Reached(k) <= t.Reached(k) <= r.Reached(k) + {r.joins[i].conn}
    requires var j := r.joins[i];
             && (forall k :: j.conn in t.Reached(k) && j.conn !in r.Reached(k) ==> k == j.key && Wanted(j, owner))
             && (Wanted(j, owner) ==> j.conn in t.Reached(j.key) || t.Joining(j.conn, j.key))
    ensures Right(t, owner)
  {
    forall d | d in owner ensures d in t.Reached(owner[d]) || t.Joining(d, owner[d]) {
      var j := r.joins[i];
      if d !in t.Reached(owner[d]) && !(d == j.conn && owner[d] == j.key) {
        JoiningKept(r, t, i, d, owner[d]);
      }
    }
  }

  // The rest of a call keeps everybody right exactly when its set is still the key's if and
  // only if its connection still is, or the connection is provided for without it.
  predicate InTime(r: Registry, owner: map<nat, string>, i: nat)
    requires i in r.joins
  {
    var j := r.joins[i];
    && (Lands(r, j) ==> Wanted(j, owner))
    && (Wanted(j, owner) ==>
          Lands(r, j) || j.conn in r.Reached(j.key) || r.(joins := r.joins - {i}).Joining(j.conn, j.key))
  }

  lemma FinishRight(r: Registry, owner: map<nat, string>, i: nat)
    requires r.Valid() && Right(r, owner) && i in r.joins && r.joins[i].awaits.Some?
    ensures Right(Finish(r, i), owner) <==> InTime(r, owner, i)
  {
    var t, j := Finish(r, i), r.joins[i];
    Finished(r, i);
    assert t.joins == r.(joins := r.joins - {i}).joins;
    if InTime(r, owner, i) {
      BegunRight(r, t, owner, i);
    } else if Lands(r, j) {
      assert j.conn in t.Reached(j.key);
    }
  }

  // ---------------------------------------------------------------- the maps, in place

  class ChannelMap {
    var at: map<string, nat>
    var sets: seq<Members>
    var subscribed: set<string>
    var joins: map<nat, Join>

    function View(): Registry
      reads this
    {
      Registry(at, sets, subscribed, joins)
    }

    ghost predicate Valid()
      reads this
    {
      View().Valid() && Served(View())
    }

    constructor ()
      ensures Valid() && View() == EMPTY
    {
      at, sets, subscribed, joins := map[], [], {}, map[];
    }

    // Only the connection is taken out; a set left empty goes, and its channel with it.
    method RemoveFrom(c: nat, key: string)
      requires Valid()
      modifies this
      ensures Valid() && View() == Drop(old(View()), c, key)
      ensures forall k :: View().Reached(k) == old(View()).Reached(k) - (if k == key then {c} else {})
    {
      DropServed(View(), c, key);
      Dropped(View(), c, key);
      if key !in at { return; }
      var conns := sets[at[key]].conns - {c};
      sets := sets[at[key] := Members(key, conns)];
      if conns == {} {
        at := at - {key};
        subscribed := subscribed - {key};
      }
    }

    // True when the call has finished without an await.
    method AddTo(i: nat, c: nat, key: string) returns (joined: bool)
      requires Valid() && (i in joins ==> joins[i] == Join(c, key, None))
      modifies this
      ensures Valid() && View() == Begin(Call(old(View()), i, c, key), i)
      ensures joined <==> key in old(at)
      ensures forall k :: View().Reached(k) == old(View()).Reached(k) + (if k == key && joined then {c} else {})
    {
      ghost var called := Call(View(), i, c, key);
      joined := key in at;
      Called(View(), i, c, key);
      if joined {
        sets := sets[at[key] := Members(key, sets[at[key]].conns + {c})];
        joins := joins - {i};
      } else {
        at := at[key := |sets|];
        joins := joins[i := Join(c, key, Some(|sets|))];
        sets := sets + [Members(key, {})];
        subscribed := subscribed + {key};
      }
      assert View() == Begin(called, i);
    }

    // A call still to be made, once an earlier await of its caller is over.
    method Plan(i: nat, c: nat, key: string)
      requires Valid() && i !in joins
      modifies this
      ensures Valid() && View() == Call(old(View()), i, c, key)
    {
      CallServed(View(), i, c, key);
      joins := joins[i := Join(c, key, None)];
    }

    // The rest of a call once its SUBSCRIBE is answered. The connection is reached from now
    // on exactly when the set made before the await is still the key's.
    method Subscribed(i: nat)
      requires Valid() && i in joins && joins[i].awaits.Some?
      modifies this
      ensures Valid() && View() == Finish(old(View()), i)
      ensures var j := old(joins[i]);
              forall k :: View().Reached(k) ==
                old(View()).Reached(k) + (if k == j.key && Lands(old(View()), j) then {j.conn} else {})
    {
      var j := joins[i];
      FinishServed(View(), i);
      Finished(View(), i);
      sets := sets[j.awaits.value := Members(j.key, sets[j.awaits.value].conns + {j.conn})];
      joins := joins - {i};
    }
  }
}

// The hub under any interleaving of its awaiting calls.
module Hub {
  import opened Prelude
  import opened Membership

  // A socket's session as it is now, and whether the socket is still registered.
  datatype Conn = Conn(tenant: string, session: string, open: bool)

  // Ids name connections and calls; a connection's own id is that of its register call.
  datatype State = State(conns: map<nat, Conn>, tenants: Registry, sessions: Registry, used: set<nat>)

  datatype Step =
    | Register(c: nat, tenant: string, session: string)
    | TenantReply(i: nat)
    | BeginSession(i: nat)
    | SessionReply(i: nat)
    | Reauthorize(i: nat, c: nat, tenant: string, session: string)
    | Unregister(c: nat)

  const START := State(map[], EMPTY, EMPTY, {})

  // A message or a close is listened to once register has returned.
  predicate Registered(s: State, c: nat) {
    c in s.conns && c !in s.tenants.joins && c !in s.sessions.joins
  }

  predicate Enabled(s: State, step: Step) {
    match step
    case Register(c, _, _) => c !in s.used
    case TenantReply(i) => i in s.tenants.joins && s.tenants.joins[i].awaits.Some?
    case BeginSession(i) => i !in s.tenants.joins && i in s.sessions.joins && s.sessions.joins[i].awaits.None?
    case SessionReply(i) => i in s.sessions.joins && s.sessions.joins[i].awaits.Some?
    case Reauthorize(i, c, _, _) => i !in s.used && Registered(s, c)
    case Unregister(c) => Registered(s, c) && s.conns[c].open
  }

  // A connection leaves one key and a call i to put it under another is made.
  function Moved(r: Registry, i: nat, c: nat, was: string, key: string): Registry {
    if key == was then r else Call(Drop(r, c, was), i, c, key)
  }

  function BegunIf(r: Registry, i: nat, now: bool): Registry {
    if now && i in r.joins then Begin(r, i) else r
  }

  function After(s: State, step: Step): State
    requires Enabled(s, step)
  {
    match step
    case Register(c, tenant, session) =>
      State(s.conns[c := Conn(tenant, session, true)], Begin(Call(s.tenants, c, c, tenant), c),
            Call(s.sessions, c, c, session), s.used + {c})
    case TenantReply(i) => s.(tenants := Finish(s.tenants, i))
    case BeginSession(i) => s.(sessions := Begin(s.sessions, i))
    case SessionReply(i) => s.(sessions := Finish(s.sessions, i))
    case Reauthorize(i, c, tenant, session) =>
      var was := s.conns[c];
      State(s.conns[c := Conn(tenant, session, was.open)],
            BegunIf(Moved(s.tenants, i, c, was.tenant, tenant), i, true),
            BegunIf(Moved(s.sessions, i, c, was.session, session), i, tenant == was.tenant), s.used + {i})
    case Unregister(c) =>
      var was := s.conns[c];
      s.(conns := s.conns[c := was.(open := false)],
         tenants := Drop(s.tenants, c, was.tenant), sessions := Drop(s.sessions, c, was.session))
  }

  ghost predicate Run(states: seq<State>, steps: seq<Step>) {
    && |states| == |steps| + 1 && states[0] == START
    && forall n :: 0 <= n < |steps| ==> StepAt(states, steps, n)
  }

  ghost predicate StepAt(states: seq<State>, steps: seq<Step>, n: nat) {
    n + 1 < |states| && n < |steps| && Enabled(states[n], steps[n]) && states[n + 1] == After(states[n], steps[n])
  }

  function TenantOf(s: State): map<nat, string> {
    map c | c in s.conns && s.conns[c].open :: s.conns[c].tenant
  }

  function SessionOf(s: State): map<nat, string> {
    map c | c in s.conns && s.conns[c].open :: s.conns[c].session
  }

  // ---------------------------------------------------------------- what holds in any case

  ghost predicate Sound(s: State) {
    && s.conns.Keys <= s.used
    && s.tenants.Valid() && Served(s.tenants) && s.tenants.joins.Keys <= s.used
    && s.sessions.Valid() && Served(s.sessions) && s.sessions.joins.Keys <= s.used
  }

  lemma MovedJoins(r: Registry, i: nat, c: nat, was: string, key: string, now: bool)
    ensures BegunIf(Moved(r, i, c, was, key), i, now).joins.Keys <= r.joins.Keys + {i}
  {
  }

  lemma MovedServed(r: Registry, i: nat, c: nat, was: string, key: string, now: bool)
    requires r.Valid() && Served(r) && i !in r.joins
    ensures var t := BegunIf(Moved(r, i, c, was, key), i, now); t.Valid() && Served(t)
  {
    if key != was {
      Dropped(r, c, was);
      DropServed(r, c, was);
      Called(Drop(r, c, was), i, c, key);
      CallServed(Drop(r, c, was), i, c, key);
    }
  }

  lemma StepSound(s: State, step: Step)
    requires Sound(s) && Enabled(s, step)
    ensures Sound(After(s, step))
  {
    match step
    case Register(c, tenant, session) =>
      Called(s.tenants, c, c, tenant);
      CallServed(s.sessions, c, c, session);
    case TenantReply(i) =>
      FinishServed(s.tenants, i);
      Finished(s.tenants, i);
    case BeginSession(i) =>
      BeginServed(s.sessions, i);
      Begun(s.sessions, i);
    case SessionReply(i) =>
      FinishServed(s.sessions, i);
      Finished(s.sessions, i);
    case Reauthorize(i, c, tenant, session) =>
      MovedServed(s.tenants, i, c, s.conns[c].tenant, tenant, true);
      MovedJoins(s.tenants, i, c, s.conns[c].tenant, tenant, true);
      MovedServed(s.sessions, i, c, s.conns[c].session, session, tenant == s.conns[c].tenant);
      MovedJoins(s.sessions, i, c, s.conns[c].session, session, tenant == s.conns[c].tenant);
    case Unregister(c) =>
      DropServed(s.tenants, c, s.conns[c].tenant);
      DropServed(s.sessions, c, s.conns[c].session);
      Dropped(s.tenants, c, s.conns[c].tenant);
      Dropped(s.sessions, c, s.conns[c].session);
  }

  lemma {:induction false} RunSound(states: seq<State>, steps: seq<Step>, n: nat)
    requires Run(states, steps) && n < |states|
    ensures Sound(states[n])
  {
    if n > 0 {
      RunSound(states, steps, n - 1);
      assert StepAt(states, steps, n - 1);
      StepSound(states[n - 1], steps[n - 1]);
    }
  }

  // In every reachable state the instance is subscribed to exactly the channels whose key
  // has a set, and each of those sets holds a connection or is awaited by one.
  lemma SubscribedWhileHeld(states: seq<State>, steps: seq<Step>, n: nat, key: string)
    requires Run(states, steps) && n < |states|
    ensures var r := states[n].tenants;
            && (key in r.subscribed <==> key in r.at)
            && (key in r.subscribed <==> r.Reached(key) != {} || Awaited(r, key))
    ensures var r := states[n].sessions;
            && (key in r.subscribed <==> key in r.at)
            && (key in r.subscribed <==> r.Reached(key) != {} || Awaited(r, key))
  {
    RunSound(states, steps, n);
  }

  // A register call that subscribes returns with its SUBSCRIBE answered. One that finds a set
  // returns at once, unanswered exactly when another call still awaits the set's SUBSCRIBE.
  lemma AnsweredExactly(states: seq<State>, steps: seq<Step>, n: nat)
    requires Run(states, steps) && n < |steps|
    ensures var r, t := states[n].tenants, states[n + 1].tenants;
            && (steps[n].Register? ==>
                  var c, tenant := steps[n].c, steps[n].tenant;
                  && (c !in t.joins <==> tenant in r.at)
                  && (c !in t.joins && Awaited(t, tenant) <==> Awaited(r, tenant)))
            && (steps[n].TenantReply? ==>
                  var i := steps[n].i;
                  i in r.joins && i !in t.joins && (Lands(r, r.joins[i]) ==> !Awaited(t, r.joins[i].key)))
  {
    RunSound(states, steps, n);
    assert StepAt(states, steps, n);
    var r, t := states[n].tenants, states[n + 1].tenants;
    if steps[n].Register? {
      var tenant := steps[n].tenant;
      forall i ensures IsAwaited(r, i, tenant) <==> tenant in r.at && IsAwaited(t, i, tenant) {
      }
    }
  }

  // ---------------------------------------------------------------- who is reached

  // Both maps reach exactly the connections that ought to be reached, or are about to.
  ghost predicate AllRight(s: State) {
    Right(s.tenants, TenantOf(s)) && Right(s.sessions, SessionOf(s))
  }

  // What the hub could check before it adds a connection to a set it has.
  predicate StepInTime(s: State, step: Step)
    requires Enabled(s, step)
  {
    match step
    case Register(_, _, _) => true
    case TenantReply(i) => InTime(s.tenants, TenantOf(s), i)
    case BeginSession(i) =>
      s.sessions.joins[i].key in s.sessions.at ==> Wanted(s.sessions.joins[i], SessionOf(s))
    case SessionReply(i) => InTime(s.sessions, SessionOf(s), i)
    case Reauthorize(_, c, tenant, session) =>
      var was := s.conns[c];
      || was.open
      || (if tenant != was.tenant then tenant !in s.tenants.at
          else session != was.session ==> session !in s.sessions.at)
    case Unregister(_) => true
  }

  lemma LeftRight(r: Registry, owner: map<nat, string>, i: nat, c: nat, was: string, key: string, open: bool)
    requires r.Valid() && Served(r) && Right(r, owner) && i !in r.joins && key != was
    requires (c in owner <==> open) && (open ==> owner[c] == was)
    ensures var t := Call(Drop(r, c, was), i, c, key);
            && t.Valid() && Right(t, if open then owner[c := key] else owner - {c}) && (key in t.at <==> key in r.at)
  {
    var left := Drop(r, c, was);
    Dropped(r, c, was);
    DropServed(r, c, was);
    DropRight(r, owner, c, was);
    CallServed(left, i, c, key);
    CallRight(left, owner - {c}, i, c, key, open);
    if open { assert owner[c := key] == (owner - {c})[c := key]; }
  }

  // A move keeps one map right exactly when the socket is open, or no set is there to put
  // the closed one into at once.
  lemma MovedRight(r: Registry, owner: map<nat, string>, i: nat, c: nat, was: string, key: string,
                   open: bool, now: bool)
    requires r.Valid() && Served(r) && Right(r, owner) && i !in r.joins
    requires (c in owner <==> open) && (open ==> owner[c] == was)
    ensures Right(BegunIf(Moved(r, i, c, was, key), i, now), if open then owner[c := key] else owner - {c}) <==>
              open || key == was || !now || key !in r.at
  {
    var after := if open then owner[c := key] else owner - {c};
    if key == was {
      assert owner == after;
    } else {
      LeftRight(r, owner, i, c, was, key, open);
      if now { BeginRight(Call(Drop(r, c, was), i, c, key), after, i); }
    }
  }

  lemma OwnersMoved(s: State, t: State, c: nat)
    requires c in t.conns && t.conns == s.conns[c := t.conns[c]]
    ensures TenantOf(t) == if t.conns[c].open then TenantOf(s)[c := t.conns[c].tenant] else TenantOf(s) - {c}
    ensures SessionOf(t) == if t.conns[c].open then SessionOf(s)[c := t.conns[c].session] else SessionOf(s) - {c}
  {
  }

  lemma RegisterRight(s: State, c: nat, tenant: string, session: string)
    requires Sound(s) && AllRight(s) && c !in s.used
    ensures AllRight(After(s, Register(c, tenant, session)))
  {
    var t := After(s, Register(c, tenant, session));
    OwnersMoved(s, t, c);
    CallRight(s.tenants, TenantOf(s), c, c, tenant, true);
    CallServed(s.tenants, c, c, tenant);
    BeginRight(Call(s.tenants, c, c, tenant), TenantOf(t), c);
    CallRight(s.sessions, SessionOf(s), c, c, session, true);
  }

  lemma ReauthorizeRight(s: State, i: nat, c: nat, tenant: string, session: string)
    requires Sound(s) && AllRight(s) && i !in s.used && Registered(s, c)
    ensures var step := Reauthorize(i, c, tenant, session);
            AllRight(After(s, step)) <==> StepInTime(s, step)
  {
    var t, was := After(s, Reauthorize(i, c, tenant, session)), s.conns[c];
    OwnersMoved(s, t, c);
    MovedRight(s.tenants, TenantOf(s), i, c, was.tenant, tenant, was.open, true);
    MovedRight(s.sessions, SessionOf(s), i, c, was.session, session, was.open, tenant == was.tenant);
  }

  lemma UnregisterRight(s: State, c: nat)
    requires Sound(s) && AllRight(s) && Registered(s, c) && s.conns[c].open
    ensures AllRight(After(s, Unregister(c)))
  {
    var t := After(s, Unregister(c));
    OwnersMoved(s, t, c);
    DropRight(s.tenants, TenantOf(s), c, s.conns[c].tenant);
    DropRight(s.sessions, SessionOf(s), c, s.conns[c].session);
  }

  // A step from a right state leads to a right one exactly when it is in time.
  lemma StepRight(s: State, step: Step)
    requires Sound(s) && AllRight(s) && Enabled(s, step)
    ensures AllRight(After(s, step)) <==> StepInTime(s, step)
  {
    match step
    case Register(c, tenant, session) => RegisterRight(s, c, tenant, session);
    case TenantReply(i) => FinishRight(s.tenants, TenantOf(s), i);
    case BeginSession(i) => BeginRight(s.sessions, SessionOf(s), i);
    case SessionReply(i) => FinishRight(s.sessions, SessionOf(s), i);
    case Reauthorize(i, c, tenant, session) => ReauthorizeRight(s, i, c, tenant, session);
    case Unregister(c) => UnregisterRight(s, c);
  }

  ghost predicate InTimeAt(states: seq<State>, steps: seq<Step>, n: nat) {
    n < |states| && n < |steps| && Enabled(states[n], steps[n]) && StepInTime(states[n], steps[n])
  }

  ghost predicate RightAt(states: seq<State>, n: nat) {
    n < |states| && AllRight(states[n])
  }

  // Over whole runs: the maps stay right up to a state exactly when every step before it
  // was in time.
  lemma {:induction false} RightExactly(states: seq<State>, steps: seq<Step>, n: nat)
    requires Run(states, steps) && n < |states|
    ensures (forall m: nat :: m <= n ==> RightAt(states, m)) <==>
              (forall m: nat :: m < n ==> InTimeAt(states, steps, m))
  {
    if n == 0 {
      assert states[0] == START;
    } else {
      RightExactly(states, steps, n - 1);
      if forall m: nat :: m <= n - 1 ==> RightAt(states, m) { RightNext(states, steps, n - 1); }
    }
  }

  lemma RightNext(states: seq<State>, steps: seq<Step>, n: nat)
    requires Run(states, steps) && n < |steps| && RightAt(states, n)
    ensures RightAt(states, n + 1) <==> InTimeAt(states, steps, n)
  {
    RunSound(states, steps, n);
    assert StepAt(states, steps, n);
    StepRight(states[n], steps[n]);
  }

  lemma RightMeans(r: Registry, owner: map<nat, string>, c: nat, key: string)
    requires Right(r, owner) && !r.Joining(c, key)
    ensures c in r.Reached(key) <==> c in owner && owner[c] == key
  {
  }

  // Then a message for a tenant, and a revocation of a session, reach a connection that no
  // unfinished call is to put there exactly when it is open and its session names them now.
  lemma ReachedExactly(states: seq<State>, steps: seq<Step>, n: nat, c: nat, key: string)
    requires Run(states, steps) && n < |states| && c in states[n].conns
    requires forall m: nat :: m < n ==> InTimeAt(states, steps, m)
    ensures var s := states[n];
            && (!s.tenants.Joining(c, key) ==>
                  (c in s.tenants.Reached(key) <==> s.conns[c].open && s.conns[c].tenant == key))
            && (!s.sessions.Joining(c, key) ==>
                  (c in s.sessions.Reached(key) <==> s.conns[c].open && s.conns[c].session == key))
  {
    RightExactly(states, steps, n);
    assert RightAt(states, n);
    var s := states[n];
    if !s.tenants.Joining(c, key) { RightMeans(s.tenants, TenantOf(s), c, key); }
    if !s.sessions.Joining(c, key) { RightMeans(s.sessions, SessionOf(s), c, key); }
  }

  // ---------------------------------------------------------------- when all is in time

  // No unfinished call is for the key.
  ghost predicate Quiet(r: Registry, key: string) {
    forall i :: i in r.joins ==> r.joins[i].key != key
  }

  // Nobody leaves a tenant or a session while a call to join it is unfinished, and no closed
  // socket is reauthorized.
  ghost predicate Calm(s: State, step: Step)
    requires Enabled(s, step)
  {
    match step
    case Reauthorize(_, c, tenant, session) =>
      var was := s.conns[c];
      && was.open
      && (tenant != was.tenant ==> Quiet(s.tenants, was.tenant))
      && (session != was.session ==> Quiet(s.sessions, was.session))
    case Unregister(c) => Quiet(s.tenants, s.conns[c].tenant) && Quiet(s.sessions, s.conns[c].session)
    case _ => true
  }

  // Every unfinished call is still wanted, and the set it awaits is the key's.
  ghost predicate Aligned(r: Registry, owner: map<nat, string>) {
    forall i :: i in r.joins ==>
      Wanted(r.joins[i], owner) && (r.joins[i].awaits.Some? ==> Lands(r, r.joins[i]))
  }

  lemma MovedAligned(r: Registry, owner: map<nat, string>, i: nat, c: nat, was: string, key: string, now: bool)
    requires r.Valid() && Aligned(r, owner) && i !in r.joins && c in owner && owner[c] == was
    requires key != was ==> Quiet(r, was)
    ensures Aligned(BegunIf(Moved(r, i, c, was, key), i, now), owner[c := key])
  {
    if key == was {
      assert owner[c := key] == owner;
    } else {
      DropAligned(r, owner, c, was);
      CallAligned(Drop(r, c, was), owner - {c}, i, c, key);
      assert (owner - {c})[c := key] == owner[c := key];
    }
  }

  lemma DropAligned(r: Registry, owner: map<nat, string>, c: nat, key: string)
    requires r.Valid() && Aligned(r, owner) && c in owner && owner[c] == key && Quiet(r, key)
    ensures Aligned(Drop(r, c, key), owner - {c}) && Drop(r, c, key).joins == r.joins
  {
    var t := Drop(r, c, key);
    forall i | i in t.joins
      ensures Wanted(t.joins[i], owner - {c}) && (t.joins[i].awaits.Some? ==> Lands(t, t.joins[i])) {
      assert Wanted(r.joins[i], owner) && r.joins[i].key != key;
    }
  }

  lemma CallAligned(r: Registry, owner: map<nat, string>, i: nat, c: nat, key: string)
    requires Aligned(r, owner) && i !in r.joins && c !in owner
    ensures Aligned(Call(r, i, c, key), owner[c := key])
    ensures Aligned(Begin(Call(r, i, c, key), i), owner[c := key])
  {
    var t := Call(r, i, c, key);
    forall n | n in t.joins
      ensures Wanted(t.joins[n], owner[c := key]) && (t.joins[n].awaits.Some? ==> Lands(t, t.joins[n])) {
      if n != i { assert Wanted(r.joins[n], owner); }
    }
    BeginAligned(t, owner[c := key], i);
  }

  lemma BeginAligned(r: Registry, owner: map<nat, string>, i: nat)
    requires Aligned(r, owner) && i in r.joins && r.joins[i].awaits.None?
    ensures Aligned(Begin(r, i), owner)
  {
    var t := Begin(r, i);
    forall n | n in t.joins ensures Wanted(t.joins[n], owner) && (t.joins[n].awaits.Some? ==> Lands(t, t.joins[n])) {
      if n != i { assert Wanted(r.joins[n], owner) && (r.joins[n].awaits.Some? ==> Lands(r, r.joins[n])); }
    }
  }

  ghost predicate AllAligned(s: State) {
    Aligned(s.tenants, TenantOf(s)) && Aligned(s.sessions, SessionOf(s))
  }

  lemma CalmStep(s: State, step: Step)
    requires Sound(s) && AllAligned(s) && Enabled(s, step) && Calm(s, step)
    ensures AllAligned(After(s, step)) && StepInTime(s, step)
  {
    var t := After(s, step);
    match step
    case Register(c, tenant, session) =>
      OwnersMoved(s, t, c);
      CallAligned(s.tenants, TenantOf(s), c, c, tenant);
      CallAligned(s.sessions, SessionOf(s), c, c, session);
    case TenantReply(i) =>
    case BeginSession(i) =>
      BeginAligned(s.sessions, SessionOf(s), i);
    case SessionReply(i) =>
    case Reauthorize(i, c, tenant, session) =>
      var was := s.conns[c];
      OwnersMoved(s, t, c);
      MovedAligned(s.tenants, TenantOf(s), i, c, was.tenant, tenant, true);
      MovedAligned(s.sessions, SessionOf(s), i, c, was.session, session, tenant == was.tenant);
    case Unregister(c) =>
      OwnersMoved(s, t, c);
      DropAligned(s.tenants, TenantOf(s), c, s.conns[c].tenant);
      DropAligned(s.sessions, SessionOf(s), c, s.conns[c].session);
  }

  ghost predicate CalmAt(states: seq<State>, steps: seq<Step>, n: nat) {
    n < |states| && n < |steps| && Enabled(states[n], steps[n]) && Calm(states[n], steps[n])
  }

  // A run without such overlaps is in time throughout.
  lemma {:induction false} CalmIsInTime(states: seq<State>, steps: seq<Step>, n: nat)
    requires Run(states, steps) && n < |states|
    requires forall m: nat :: m < n ==> CalmAt(states, steps, m)
    ensures AllAligned(states[n])
    ensures forall m: nat :: m < n ==> InTimeAt(states, steps, m)
  {
    if n > 0 {
      CalmIsInTime(states, steps, n - 1);
      RunSound(states, steps, n - 1);
      assert StepAt(states, steps, n - 1) && CalmAt(states, steps, n - 1);
      CalmStep(states[n - 1], steps[n - 1]);
    }
  }

  // ---------------------------------------------------------------- and when it is not

  const FIRST := Conn("t", "first", true)
  const SECOND := Conn("t", "second", true)

  // The tenant's set as made by the first socket's call, and that call.
  function Waiting(conns: set<nat>): Registry {
    Registry(map["t" := 0], [Members("t", conns)], {"t"}, map[0 := Join(0, "t", Some(0))])
  }

  function Due(): Join {
    Join(0, "first", None)
  }

  lemma FirstRegisters(s: State)
    requires s == State(map[0 := FIRST], Waiting({}), Call(EMPTY, 0, 0, "first"), {0})
    ensures Enabled(START, Register(0, "t", "first")) && After(START, Register(0, "t", "first")) == s
  {
    assert Call(EMPTY, 0, 0, "t").joins[0] == Join(0, "t", None);
  }

  lemma SecondRegisters(s: State, t: State)
    requires s == State(map[0 := FIRST], Waiting({}), Call(EMPTY, 0, 0, "first"), {0})
    requires t == State(map[0 := FIRST, 1 := SECOND], Waiting({1}),
                        Registry(map[], [], {}, map[0 := Due(), 1 := Join(1, "second", None)]), {0, 1})
    ensures Enabled(s, Register(1, "t", "second")) && After(s, Register(1, "t", "second")) == t
  {
    var called := Call(s.tenants, 1, 1, "t");
    assert called.joins - {1} == t.tenants.joins;
    assert called.Reached("t") + {1} == {1};
    assert called.sets[0 := Members("t", {1})] == t.tenants.sets;
    assert Begin(called, 1) == t.tenants;
    assert Call(s.sessions, 1, 1, "second") == t.sessions;
  }

  lemma SecondAcknowledged(s: State, u: State, t: State)
    requires s == State(map[0 := FIRST, 1 := SECOND], Waiting({1}),
                        Registry(map[], [], {}, map[0 := Due(), 1 := Join(1, "second", None)]), {0, 1})
    requires u == s.(sessions := Registry(map["second" := 0], [Members("second", {})], {"second"},
                                          map[0 := Due(), 1 := Join(1, "second", Some(0))]))
    requires t == s.(sessions := Registry(map["second" := 0], [Members("second", {1})], {"second"}, map[0 := Due()]))
    ensures Enabled(s, BeginSession(1)) && After(s, BeginSession(1)) == u
    ensures Enabled(u, SessionReply(1)) && After(u, SessionReply(1)) == t
  {
    assert s.sessions.at["second" := 0] == u.sessions.at;
    assert u.sessions.joins - {1} == t.sessions.joins;
    assert u.sessions.sets[0].conns + {1} == {1};
    assert u.sessions.sets[0 := Members("second", {1})] == t.sessions.sets;
  }

  lemma SecondCloses(s: State, t: State)
    requires s == State(map[0 := FIRST, 1 := SECOND], Waiting({1}),
                        Registry(map["second" := 0], [Members("second", {1})], {"second"}, map[0 := Due()]), {0, 1})
    requires t == State(map[0 := FIRST, 1 := SECOND.(open := false)],
                        Waiting({}).(at := map[], subscribed := {}),
                        Registry(map[], [Members("second", {})], {}, map[0 := Due()]), {0, 1})
    ensures Enabled(s, Unregister(1)) && After(s, Unregister(1)) == t
  {
  }

  // The first socket's call ends in a set that is the tenant's no longer.
  lemma FirstTooLate(s: State, t: State)
    requires s.conns == map[0 := FIRST, 1 := SECOND.(open := false)]
    requires s.tenants == Waiting({}).(at := map[], subscribed := {})
    requires t == s.(tenants := Registry(map[], [Members("t", {0})], {}, map[]))
    ensures Enabled(s, TenantReply(0)) && After(s, TenantReply(0)) == t && !StepInTime(s, TenantReply(0))
  {
    assert TenantOf(s)[0] == "t";
    assert s.tenants.joins - {0} == map[];
    assert s.tenants.sets[0].conns + {0} == {0};
    assert s.tenants.sets[0 := Members("t", {0})] == t.tenants.sets;
  }

  lemma FirstAcknowledged(s: State) returns (u: State, t: State)
    requires s.conns == map[0 := FIRST, 1 := SECOND.(open := false)] && s.tenants.joins == map[]
    requires s.sessions == Registry(map[], [Members("second", {})], {}, map[0 := Due()])
    ensures Enabled(s, BeginSession(0)) && After(s, BeginSession(0)) == u
    ensures Enabled(u, SessionReply(0)) && After(u, SessionReply(0)) == t
    ensures Registered(t, 0) && t.conns == s.conns && t.tenants == s.tenants
  {
    u, t := After(s, BeginSession(0)), After(After(s, BeginSession(0)), SessionReply(0));
    assert u.sessions.joins[0] == Join(0, "first", Some(1));
  }

  lemma RunGoesOn(states: seq<State>, steps: seq<Step>, step: Step, t: State)
    requires Run(states, steps) && Enabled(states[|steps|], step) && t == After(states[|steps|], step)
    ensures Run(states + [t], steps + [step])
  {
    forall n | 0 <= n < |steps| + 1 ensures StepAt(states + [t], steps + [step], n) {
      if n < |steps| { assert StepAt(states, steps, n); }
    }
  }

  // A socket registers for a tenant and awaits its SUBSCRIBE. Another finds the waiting set,
  // joins it and is acknowledged before that SUBSCRIBE is answered.
  lemma AcknowledgedUnsubscribed() returns (states: seq<State>, steps: seq<Step>)
    ensures Run(states, steps) && |steps| == 4
    ensures Registered(states[4], 1) && states[4].conns == map[0 := FIRST, 1 := SECOND]
    ensures states[4].tenants == Waiting({1}) && Awaited(states[4].tenants, "t")
    ensures states[4].used == {0, 1}
    ensures states[4].sessions == Registry(map["second" := 0], [Members("second", {1})], {"second"}, map[0 := Due()])
  {
    var s1 := State(map[0 := FIRST], Waiting({}), Call(EMPTY, 0, 0, "first"), {0});
    FirstRegisters(s1);
    RunGoesOn([START], [], Register(0, "t", "first"), s1);
    var s2 := State(map[0 := FIRST, 1 := SECOND], Waiting({1}),
                    Registry(map[], [], {}, map[0 := Due(), 1 := Join(1, "second", None)]), {0, 1});
    SecondRegisters(s1, s2);
    RunGoesOn([START, s1], [Register(0, "t", "first")], Register(1, "t", "second"), s2);
    states, steps := [START, s1, s2], [Register(0, "t", "first"), Register(1, "t", "second")];
    assert [START, s1] + [s2] == states && [Register(0, "t", "first")] + [Register(1, "t", "second")] == steps;
    var s3 := s2.(sessions := Registry(map["second" := 0], [Members("second", {})], {"second"},
                                       map[0 := Due(), 1 := Join(1, "second", Some(0))]));
    var s4 := s2.(sessions := Registry(map["second" := 0], [Members("second", {1})], {"second"}, map[0 := Due()]));
    SecondAcknowledged(s2, s3, s4);
    assert IsAwaited(s4.tenants, 0, "t");
    RunGoesOn(states, steps, BeginSession(1), s3);
    states, steps := states + [s3], steps + [BeginSession(1)];
    RunGoesOn(states, steps, SessionReply(1), s4);
    states, steps := states + [s4], steps + [SessionReply(1)];
  }

  // Then the second socket closes and the set leaves the map. The first one ends in a set
  // nobody looks at: acknowledged, open, and never reached by its tenant's messages.
  lemma SocketLeftOut() returns (states: seq<State>, steps: seq<Step>)
    ensures Run(states, steps) && |steps| == 8 && !InTimeAt(states, steps, 5)
    ensures var s := states[8];
            && Registered(s, 0) && s.conns[0] == FIRST && s.tenants.joins == map[]
            && s.tenants.Reached("t") == {} && "t" !in s.tenants.subscribed
  {
    states, steps := AcknowledgedUnsubscribed();
    var s5 := State(map[0 := FIRST, 1 := SECOND.(open := false)], Waiting({}).(at := map[], subscribed := {}),
                    Registry(map[], [Members("second", {})], {}, map[0 := Due()]), {0, 1});
    SecondCloses(states[4], s5);
    RunGoesOn(states, steps, Unregister(1), s5);
    states, steps := states + [s5], steps + [Unregister(1)];
    var s6 := s5.(tenants := Registry(map[], [Members("t", {0})], {}, map[]));
    FirstTooLate(s5, s6);
    RunGoesOn(states, steps, TenantReply(0), s6);
    states, steps := states + [s6], steps + [TenantReply(0)];
    var s7, s8 := FirstAcknowledged(s6);
    RunGoesOn(states, steps, BeginSession(0), s7);
    states, steps := states + [s7], steps + [BeginSession(0)];
    RunGoesOn(states, steps, SessionReply(0), s8);
    states, steps := states + [s8], steps + [SessionReply(0)];
  }

  // ---------------------------------------------------------------- the hub, in place

  // reauthorize's part for one map: out of the old key's set, and into the new one's now or
  // when an earlier await is over.
  method Move(m: ChannelMap, i: nat, c: nat, was: string, key: string, now: bool)
    requires m.Valid() && i !in m.joins
    modifies m
    ensures m.Valid() && m.View() == BegunIf(Moved(old(m.View()), i, c, was, key), i, now)
  {
    if key == was { return; }
    m.RemoveFrom(c, was);
    if now {
      var joined := m.AddTo(i, c, key);
    } else {
      m.Plan(i, c, key);
    }
  }

  class SocketHub {
    var conns: map<nat, Conn>
    var used: set<nat>
    const tenants: ChannelMap
    const sessions: ChannelMap

    function View(): State
      reads this, tenants, sessions
    {
      State(conns, tenants.View(), sessions.View(), used)
    }

    ghost predicate Valid()
      reads this, tenants, sessions
    {
      tenants != sessions && tenants.Valid() && sessions.Valid() && Sound(View())
    }

    constructor ()
      ensures Valid() && View() == START
    {
      conns, used := map[], {};
      tenants := new ChannelMap();
      sessions := new ChannelMap();
    }

    // register, up to its first await.
    method RegisterSocket(c: nat, tenant: string, session: string)
      requires Valid() && Enabled(View(), Register(c, tenant, session))
      modifies this, tenants, sessions
      ensures Valid() && View() == After(old(View()), Register(c, tenant, session))
    {
      StepSound(View(), Register(c, tenant, session));
      conns, used := conns[c := Conn(tenant, session, true)], used + {c};
      var joined := tenants.AddTo(c, c, tenant);
      sessions.Plan(c, c, session);
    }

    // register or reauthorize, when its tenant call has returned.
    method JoinSession(i: nat)
      requires Valid() && Enabled(View(), BeginSession(i))
      modifies sessions
      ensures Valid() && View() == After(old(View()), BeginSession(i))
    {
      StepSound(View(), BeginSession(i));
      var j := sessions.joins[i];
      assert sessions.joins[i := Join(j.conn, j.key, None)] == sessions.joins;
      var joined := sessions.AddTo(i, j.conn, j.key);
    }

    // reauthorize, up to its first await; a session already the socket's is not joined again.
    method ReauthorizeSocket(i: nat, c: nat, tenant: string, session: string)
      requires Valid() && Enabled(View(), Reauthorize(i, c, tenant, session))
      modifies this, tenants, sessions
      ensures Valid() && View() == After(old(View()), Reauthorize(i, c, tenant, session))
    {
      StepSound(View(), Reauthorize(i, c, tenant, session));
      var was := conns[c];
      conns, used := conns[c := Conn(tenant, session, was.open)], used + {i};
      Move(tenants, i, c, was.tenant, tenant, true);
      Move(sessions, i, c, was.session, session, tenant == was.tenant);
    }

    // unregister.
    method UnregisterSocket(c: nat)
      requires Valid() && Enabled(View(), Unregister(c))
      modifies this, tenants, sessions
      ensures Valid() && View() == After(old(View()), Unregister(c))
    {
      StepSound(View(), Unregister(c));
      tenants.RemoveFrom(c, conns[c].tenant);
      sessions.RemoveFrom(c, conns[c].session);
      conns := conns[c := conns[c].(open := false)];
    }
  }
}
