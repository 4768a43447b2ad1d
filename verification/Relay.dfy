// The realtime relay: consumer-group delivery from one tenant's stream to its live
// channel (apps/worker/src/realtime-relay/relay.ts). Entries are named by their
// position in the stream.
module Relay {
  import opened Prelude
  import opened StreamIds
  import opened Events

  // The {cursor, event} wrapper published for an entry.
  datatype Message = Message(cursor: StreamId, envelope: Envelope)

  // Redis's side of the consumer group: entries before `delivered` have been handed to
  // some consumer; each of those is pending (with the time it was last handed out)
  // or acknowledged.
  datatype Group = Group(delivered: nat, pending: map<nat, int>, acked: set<nat>)

  const NEW_GROUP := Group(0, map[], {})

  // Delivered entries, and no others, are pending or acknowledged, never both.
  ghost predicate Partitioned(g: Group, stream: seq<Entry>) {
    && g.delivered <= |stream|
    && g.pending.Keys !! g.acked
    && forall i: nat :: i in g.pending || i in g.acked <==> i < g.delivered
  }

  predicate Within(batch: seq<nat>, n: nat) {
    forall k :: 0 <= k < |batch| ==> batch[k] < n
  }

  // XREADGROUP '>': the next undelivered entries, at most `count` of them.
  function ReadBatch(g: Group, length: nat, count: nat): (batch: seq<nat>)
    requires g.delivered <= length
  {
    seq(Min(count, length - g.delivered), i requires 0 <= i => g.delivered + i)
  }

  function AfterRead(g: Group, batch: seq<nat>, now: int): Group {
    g.(delivered := g.delivered + |batch|, pending := g.pending + (map i | i in batch :: now))
  }

  // XAUTOCLAIM: pending entries idle for at least minIdle change hands.
  ghost predicate Claimable(g: Group, batch: seq<nat>, now: int, minIdle: int) {
    forall i: nat :: i in batch ==> i in g.pending && now - g.pending[i] >= minIdle
  }

  function AfterClaim(g: Group, batch: seq<nat>, now: int): Group {
    g.(pending := map i | i in g.pending :: if i in batch then now else g.pending[i])
  }

  // XACK
  function AfterAck(g: Group, i: nat): Group {
    if i in g.pending then g.(pending := g.pending - {i}, acked := g.acked + {i}) else g
  }

  ghost predicate WasPublished(stream: seq<Entry>, channel: seq<Message>, i: nat)
    requires i < |stream|
  {
    stream[i].payload.Event? ==> Message(stream[i].id, stream[i].payload.envelope) in channel
  }

  // ---------------------------------------------------------------- one relay call

  // The batch up to its first entry whose JSON does not parse.
  function Good(stream: seq<Entry>, batch: seq<nat>): (good: seq<nat>)
    requires Within(batch, |stream|)
    ensures good <= batch
    ensures forall k :: 0 <= k < |good| ==> !stream[good[k]].payload.BadJson?
    ensures good == batch || stream[batch[|good|]].payload.BadJson?
  {
    if batch == [] || stream[batch[0]].payload.BadJson? then []
    else [batch[0]] + Good(stream, batch[1..])
  }

  // Some entry of the batch is not JSON.
  predicate HasBad(stream: seq<Entry>, batch: seq<nat>) {
    exists k :: 0 <= k < |batch| && batch[k] < |stream| && stream[batch[k]].payload.BadJson?
  }

  // Some entry from position i up to j is not JSON.
  predicate BadBetween(stream: seq<Entry>, i: int, j: int) {
    exists k :: 0 <= k < |stream| && i <= k < j && stream[k].payload.BadJson?
  }

  ghost predicate FromBatch(stream: seq<Entry>, batch: seq<nat>, m: Message) {
    exists k :: 0 <= k < |batch| && batch[k] < |stream| && stream[batch[k]] == Entry(m.cursor, Event(m.envelope))
  }

  lemma GoodPart(stream: seq<Entry>, batch: seq<nat>)
    requires Within(batch, |stream|)
    ensures Good(stream, batch) == batch <==> !HasBad(stream, batch)
    ensures forall m :: m in Messages(stream, Good(stream, batch)) ==> FromBatch(stream, batch, m)
  {
    var good := Good(stream, batch);
    forall m | m in Messages(stream, good) ensures FromBatch(stream, batch, m) {
      var k :| 0 <= k < |good| && stream[good[k]] == Entry(m.cursor, Event(m.envelope));
      assert stream[batch[k]] == Entry(m.cursor, Event(m.envelope));
    }
  }

  function Messages(stream: seq<Entry>, batch: seq<nat>): (ms: seq<Message>)
    requires Within(batch, |stream|)
    ensures |ms| <= |batch|
    ensures forall m :: m in ms ==> FromBatch(stream, batch, m)
  {
    if batch == [] then []
    else
      var i := batch[|batch| - 1];
      Messages(stream, batch[..|batch| - 1]) +
      (if stream[i].payload.Event? then [Message(stream[i].id, stream[i].payload.envelope)] else [])
  }

  function AfterAcks(g: Group, batch: seq<nat>): Group {
    if batch == [] then g else AfterAck(AfterAcks(g, batch[..|batch| - 1]), batch[|batch| - 1])
  }

  class TenantRelay {
    const stream: seq<Entry>
    var group: Option<Group>
    var channel: seq<Message>

    constructor (stream: seq<Entry>)
      ensures this.stream == stream && group.None? && channel == []
    {
      this.stream := stream;
      group := None;
      channel := [];
    }

    // publishEntries: publish, then acknowledge, one entry after another; text that is
    // not JSON throws, leaving that entry and the rest of the batch pending.
    method PublishEntries(batch: seq<nat>) returns (n: nat, threw: bool)
      requires group.Some? && Within(batch, |stream|)
      modifies this
      ensures group == Some(AfterAcks(old(group.value), Good(stream, batch)))
      ensures channel == old(channel) + Messages(stream, Good(stream, batch))
      ensures threw <==> Good(stream, batch) != batch
      ensures n == |Messages(stream, Good(stream, batch))|
    {
      n, threw := 0, false;
      ghost var good := Good(stream, batch);
      for k := 0 to |batch|
        invariant k <= |good| && group.Some? && !threw
        invariant group == Some(AfterAcks(old(group.value), good[..k]))
        invariant channel == old(channel) + Messages(stream, good[..k])
        invariant n == |Messages(stream, good[..k])|
      {
        var i := batch[k];
        if stream[i].payload.BadJson? {
          assert k == |good|;
          assert good[..k] == good;
          return n, true;
        }
        assert k < |good| && good[k] == i;
        assert good[..k + 1][..k] == good[..k];
        if stream[i].payload.Event? {
          channel := channel + [Message(stream[i].id, stream[i].payload.envelope)];
          n := n + 1;
        }
        group := Some(AfterAck(group.value, i));
      }
      assert good[..|batch|] == good;
    }

    // The same, said of the partition: what is newly acknowledged was in the batch,
    // parses and, if an event, is published.
    method WorkOff(batch: seq<nat>) returns (n: nat, threw: bool)
      requires group.Some? && Partitioned(group.value, stream) && Within(batch, group.value.delivered)
      modifies this
      ensures group.Some? && Partitioned(group.value, stream) && group.value.delivered == old(group.value.delivered)
      ensures old(group.value.acked) <= group.value.acked
      ensures threw <==> HasBad(stream, batch)
      ensures forall k :: |old(channel)| <= k < |channel| ==> FromBatch(stream, batch, channel[k])
      ensures !threw ==> forall i: nat :: i in batch ==> i in group.value.acked
      ensures old(channel) <= channel && |channel| == |old(channel)| + n
      ensures forall i: nat :: i in group.value.acked && i !in old(group.value.acked) ==>
                i in batch && i < |stream| && !stream[i].payload.BadJson? && WasPublished(stream, channel, i)
    {
      ghost var g, good := group.value, Good(stream, batch);
      n, threw := PublishEntries(batch);
      WorkedOff(stream, g, good, channel);
      GoodPart(stream, batch);
    }

    // XAUTOCLAIM's entries.
    method WorkClaimed(claimed: seq<nat>, now: int, minIdle: int) returns (n: nat, threw: bool)
      requires group.Some? && Partitioned(group.value, stream) && Claimable(group.value, claimed, now, minIdle)
      modifies this
      ensures group.Some? && Partitioned(group.value, stream) && group.value.delivered == old(group.value.delivered)
      ensures threw <==> HasBad(stream, claimed)
      ensures !threw ==> forall i: nat :: i in claimed ==> i in group.value.acked
      ensures old(channel) <= channel && |channel| == |old(channel)| + n && old(group.value.acked) <= group.value.acked
      ensures forall i: nat :: i in group.value.acked && i !in old(group.value.acked) ==>
                i in claimed && i < |stream| && !stream[i].payload.BadJson? && WasPublished(stream, channel, i)
    {
      AfterClaimPartitioned(stream, group.value, claimed, now, minIdle);
      group := Some(AfterClaim(group.value, claimed, now));
      n, threw := WorkOff(claimed);
    }

    // XREADGROUP's entries: the next ones nobody has read.
    method WorkNew(now: int, batchSize: nat) returns (n: nat, threw: bool)
      requires group.Some? && Partitioned(group.value, stream)
      modifies this
      ensures group.Some? && Partitioned(group.value, stream)
      ensures group.value.delivered == Min(|stream|, old(group.value.delivered) + batchSize)
      ensures threw <==> BadBetween(stream, old(group.value.delivered), group.value.delivered)
      ensures !threw ==> forall i: nat :: old(group.value.delivered) <= i < group.value.delivered ==>
                i in group.value.acked
      ensures old(channel) <= channel && |channel| == |old(channel)| + n && old(group.value.acked) <= group.value.acked
      ensures forall i: nat :: i in group.value.acked && i !in old(group.value.acked) ==>
                old(group.value.delivered) <= i < |stream|
                && !stream[i].payload.BadJson? && WasPublished(stream, channel, i)
    {
      ghost var g := group.value;
      var batch := ReadBatch(group.value, |stream|, batchSize);
      AfterReadPartitioned(stream, group.value, batchSize, now);
      group := Some(AfterRead(group.value, batch, now));
      n, threw := WorkOff(batch);
      ReadIsNext(stream, g, batchSize);
    }

    // relayTenant: create the group if need be, work off the claimed entries, then
    // read and work off new ones; a throw ends the call.
    method RelayTenant(claimed: seq<nat>, now: int, minIdle: int, batchSize: nat) returns (published: nat, threw: bool)
      requires Claimable(if group.Some? then group.value else NEW_GROUP, claimed, now, minIdle)
      requires group.Some? ==> Partitioned(group.value, stream)
      modifies this
      ensures group.Some? && Partitioned(group.value, stream)
      ensures old(channel) <= channel && |channel| == |old(channel)| + published
      ensures forall i: nat :: i in group.value.acked && (old(group).None? || i !in old(group.value.acked)) ==>
                i < |stream| && !stream[i].payload.BadJson? && WasPublished(stream, channel, i)
      ensures var before := if old(group).None? then 0 else old(group.value.delivered);
              && (threw <==> HasBad(stream, claimed) || BadBetween(stream, before, Min(|stream|, before + batchSize)))
              && group.value.delivered ==
                 (if HasBad(stream, claimed) then before else Min(|stream|, before + batchSize))
              && (!threw ==> forall i: nat :: i in claimed || before <= i < group.value.delivered ==>
                    i in group.value.acked)
    {
      if group.None? { group := Some(NEW_GROUP); }
      published, threw := WorkClaimed(claimed, now, minIdle);
      if threw { return; }
      ghost var sent := channel;
      var n;
      n, threw := WorkNew(now, batchSize);
      published := published + n;
      assert forall i: nat | i < |stream| && WasPublished(stream, sent, i) :: WasPublished(stream, channel, i);
    }
  }

  lemma ReadIsNext(stream: seq<Entry>, g: Group, count: nat)
    requires g.delivered <= |stream|
    ensures var batch := ReadBatch(g, |stream|, count);
            && (forall i: nat :: i in batch <==> g.delivered <= i < g.delivered + |batch|)
            && g.delivered + |batch| == Min(|stream|, g.delivered + count)
            && (HasBad(stream, batch) <==> BadBetween(stream, g.delivered, g.delivered + |batch|))
  {
    var batch := ReadBatch(g, |stream|, count);
    forall i: nat | g.delivered <= i < g.delivered + |batch| ensures i in batch {
      assert batch[i - g.delivered] == i;
    }
    if k :| 0 <= k < |stream| && g.delivered <= k < g.delivered + |batch| && stream[k].payload.BadJson? {
      assert batch[k - g.delivered] == k;
    }
  }

  lemma AfterClaimPartitioned(stream: seq<Entry>, g: Group, batch: seq<nat>, now: int, minIdle: int)
    requires Partitioned(g, stream) && Claimable(g, batch, now, minIdle)
    ensures Partitioned(AfterClaim(g, batch, now), stream)
    ensures Within(batch, g.delivered)
  {
    forall k | 0 <= k < |batch| ensures batch[k] < g.delivered {
      assert batch[k] in batch;
    }
  }

  lemma AfterReadPartitioned(stream: seq<Entry>, g: Group, count: nat, now: int)
    requires Partitioned(g, stream)
    ensures var batch := ReadBatch(g, |stream|, count);
            && Partitioned(AfterRead(g, batch, now), stream)
            && Within(batch, AfterRead(g, batch, now).delivered)
  {
    var batch := ReadBatch(g, |stream|, count);
    var h := AfterRead(g, batch, now);
    forall i: nat ensures i in h.pending || i in h.acked <==> i < h.delivered {
      if g.delivered <= i < h.delivered { assert batch[i - g.delivered] == i; }
    }
  }

  lemma AckPartitioned(stream: seq<Entry>, g: Group, i: nat)
    requires Partitioned(g, stream)
    ensures Partitioned(AfterAck(g, i), stream)
    ensures i < g.delivered ==> i in AfterAck(g, i).acked
  {
    if i in g.pending {
      assert AfterAck(g, i).pending.Keys == g.pending.Keys - {i};
    }
  }

  // A batch worked off: acknowledged, nothing else moved, and every event of it published.
  lemma {:induction false} WorkedOff(stream: seq<Entry>, g: Group, batch: seq<nat>, channel: seq<Message>)
    requires Partitioned(g, stream)
    requires Within(batch, |stream|) && Within(batch, g.delivered)
    requires forall m :: m in Messages(stream, batch) ==> m in channel
    ensures var h := AfterAcks(g, batch);
            && Partitioned(h, stream) && h.delivered == g.delivered
            && g.acked <= h.acked && (forall i: nat :: i in batch ==> i in h.acked)
            && (forall i: nat :: i in h.acked && i !in g.acked ==> i in batch)
    ensures forall i: nat :: i in batch ==> i < |stream| && WasPublished(stream, channel, i)
  {
    if batch != [] {
      var init, last := batch[..|batch| - 1], batch[|batch| - 1];
      assert batch == init + [last];
      WorkedOff(stream, g, init, channel);
      AckPartitioned(stream, AfterAcks(g, init), last);
      if stream[last].payload.Event? {
        assert Message(stream[last].id, stream[last].payload.envelope) in Messages(stream, batch);
      }
    }
  }

  // ---------------------------------------------------------------- many relays, any crash

  // A relay process: the entries it still has in hand, and whether the first of them
  // has been published but not yet acknowledged.
  datatype Worker = Worker(batch: seq<nat>, headPublished: bool)

  datatype State = State(
    stream: seq<Entry>,
    clock: int,
    group: Option<Group>,
    channel: seq<Message>,
    workers: map<string, Worker>)

  datatype Step =
    | Append(entry: Entry)
    | Tick(clock: int)
    | EnsureGroup
    | Claim(consumer: string, batch: seq<nat>, minIdle: int)
    | Read(consumer: string, count: nat)
    | Publish(consumer: string)
    | Ack(consumer: string)
    | Stop(consumer: string)

  ghost predicate Init(s: State) {
    s.stream == [] && s.group.None? && s.channel == [] && s.workers == map[]
  }

  predicate Head(s: State, consumer: string) {
    && consumer in s.workers && s.workers[consumer].batch != []
    && s.workers[consumer].batch[0] < |s.stream|
  }

  predicate Free(s: State, consumer: string) {
    consumer !in s.workers || s.workers[consumer].batch == []
  }

  ghost predicate Next(s: State, step: Step, t: State) {
    match step
    case Append(entry) => Appends(s.stream, entry) && t == s.(stream := s.stream + [entry])
    case Tick(clock) => clock >= s.clock && t == s.(clock := clock)
    case EnsureGroup => t == if s.group.Some? then s else s.(group := Some(NEW_GROUP))
    case Claim(consumer, batch, minIdle) =>
      && s.group.Some? && Free(s, consumer) && Claimable(s.group.value, batch, s.clock, minIdle)
      && t == s.(group := Some(AfterClaim(s.group.value, batch, s.clock)),
                 workers := s.workers[consumer := Worker(batch, false)])
    case Read(consumer, count) =>
      && s.group.Some? && Free(s, consumer) && s.group.value.delivered <= |s.stream|
      && var batch := ReadBatch(s.group.value, |s.stream|, count);
      && t == s.(group := Some(AfterRead(s.group.value, batch, s.clock)),
                 workers := s.workers[consumer := Worker(batch, false)])
    case Publish(consumer) =>
      && Head(s, consumer) && !s.workers[consumer].headPublished
      && var w := s.workers[consumer];
      && var entry := s.stream[w.batch[0]];
      && !entry.payload.BadJson?
      && t == s.(workers := s.workers[consumer := w.(headPublished := true)],
                 channel :=
                    if entry.payload.Event? then s.channel + [Message(entry.id, entry.payload.envelope)] else s.channel)
    case Ack(consumer) =>
      && s.group.Some? && Head(s, consumer) && s.workers[consumer].headPublished
      && var batch := s.workers[consumer].batch;
      && t == s.(group := Some(AfterAck(s.group.value, batch[0])),
                 workers := s.workers[consumer := Worker(batch[1..], false)])
    case Stop(consumer) =>
      // a crash at any point, or the throw at an entry that does not parse
      consumer in s.workers && t == s.(workers := s.workers - {consumer})
  }

  ghost predicate Run(states: seq<State>, steps: seq<Step>) {
    && |states| == |steps| + 1 && Init(states[0])
    && forall i: nat :: i < |steps| ==> StepAt(states, steps, i)
  }

  ghost predicate StepAt(states: seq<State>, steps: seq<Step>, i: nat)
    requires i < |steps| && |states| == |steps| + 1
  {
    Next(states[i], steps[i], states[i + 1])
  }

  ghost predicate GroupSound(s: State) {
    && Increasing(s.stream)
    && (s.group.Some? ==>
          && Partitioned(s.group.value, s.stream)
          && (forall i: nat :: i in s.group.value.acked ==>
                i < |s.stream| && !s.stream[i].payload.BadJson? && WasPublished(s.stream, s.channel, i)))
  }

  ghost predicate WorkersSound(s: State) {
    forall c :: c in s.workers ==>
      && (s.workers[c].batch != [] ==> s.group.Some?)
      && Within(s.workers[c].batch, |s.stream|)
      && (s.group.Some? ==> Within(s.workers[c].batch, s.group.value.delivered))
      && (s.workers[c].headPublished ==>
            && s.workers[c].batch != [] && s.workers[c].batch[0] < |s.stream|
            && !s.stream[s.workers[c].batch[0]].payload.BadJson?
            && WasPublished(s.stream, s.channel, s.workers[c].batch[0]))
  }

  // Nothing is published that is not an entry's own id with its own envelope.
  ghost predicate ChannelSound(s: State) {
    forall m :: m in s.channel ==>
      exists i :: 0 <= i < |s.stream| && s.stream[i] == Entry(m.cursor, Event(m.envelope))
  }

  ghost predicate Inv(s: State) {
    GroupSound(s) && WorkersSound(s) && ChannelSound(s)
  }

  lemma GroupKept(s: State, step: Step, t: State)
    requires Inv(s) && Next(s, step, t)
    ensures GroupSound(t)
  {
    match step
    case Append(entry) => AppendIncreasing(s.stream, entry);
    case Claim(consumer, batch, _) => AfterClaimPartitioned(s.stream, s.group.value, batch, s.clock, step.minIdle);
    case Read(consumer, count) => AfterReadPartitioned(s.stream, s.group.value, count, s.clock);
    case Ack(consumer) => AckPartitioned(s.stream, s.group.value, s.workers[consumer].batch[0]);
    case _ =>
  }

  lemma WorkersKept(s: State, step: Step, t: State)
    requires Inv(s) && Next(s, step, t)
    ensures WorkersSound(t)
  {
    if step.Claim? {
      AfterClaimPartitioned(s.stream, s.group.value, step.batch, s.clock, step.minIdle);
    }
  }

  lemma ChannelKept(s: State, step: Step, t: State)
    requires Inv(s) && Next(s, step, t)
    ensures ChannelSound(t)
  {
    forall m | m in t.channel
      ensures exists i :: 0 <= i < |t.stream| && t.stream[i] == Entry(m.cursor, Event(m.envelope))
    {
      if m in s.channel {
        var i :| 0 <= i < |s.stream| && s.stream[i] == Entry(m.cursor, Event(m.envelope));
        assert t.stream[i] == s.stream[i];
      } else {
        var i := s.workers[step.consumer].batch[0];
        assert t.stream[i] == Entry(m.cursor, Event(m.envelope));
      }
    }
  }

  lemma {:induction false} RunInv(states: seq<State>, steps: seq<Step>, i: nat)
    requires Run(states, steps) && i < |states|
    ensures Inv(states[i])
  {
    if i > 0 {
      RunInv(states, steps, i - 1);
      assert StepAt(states, steps, i - 1);
      GroupKept(states[i - 1], steps[i - 1], states[i]);
      WorkersKept(states[i - 1], steps[i - 1], states[i]);
      ChannelKept(states[i - 1], steps[i - 1], states[i]);
    }
  }

  // Which of the three an entry is in.
  predicate Undelivered(g: Group, i: nat) { i >= g.delivered }
  predicate IsPending(g: Group, i: nat) { i in g.pending }
  predicate IsAcked(g: Group, i: nat) { i in g.acked }

  // With any number of relays crashing anywhere, every entry is in exactly one of the
  // three, and an acknowledged event has been published under its own id, unchanged.
  lemma AtLeastOnce(states: seq<State>, steps: seq<Step>, k: nat, i: nat)
    requires Run(states, steps) && k < |states| && states[k].group.Some? && i < |states[k].stream|
    ensures var s, g := states[k], states[k].group.value;
            && (Undelivered(g, i) || IsPending(g, i) || IsAcked(g, i))
            && !(Undelivered(g, i) && IsPending(g, i)) && !(Undelivered(g, i) && IsAcked(g, i))
            && !(IsPending(g, i) && IsAcked(g, i))
            && (IsAcked(g, i) ==> !s.stream[i].payload.BadJson? && WasPublished(s.stream, s.channel, i))
  {
    RunInv(states, steps, k);
  }

  // The step hands entry x to a consumer.
  predicate Hands(s: State, step: Step, x: nat) {
    match step
    case Claim(_, batch, _) => x in batch
    case Read(_, count) =>
      s.group.Some? && s.group.value.delivered <= |s.stream| && x in ReadBatch(s.group.value, |s.stream|, count)
    case _ => false
  }

  // Entry x was last handed out at this time, if it still is pending.
  ghost predicate HandedAt(s: State, x: nat, at: int) {
    s.group.Some? && (x in s.group.value.pending ==> s.group.value.pending[x] == at)
  }

  lemma HandedNow(s: State, step: Step, t: State, x: nat)
    requires Next(s, step, t) && Hands(s, step, x)
    ensures HandedAt(t, x, s.clock)
  {
  }

  lemma HandedStays(s: State, step: Step, t: State, x: nat, at: int)
    requires Next(s, step, t) && HandedAt(s, x, at) && !Hands(s, step, x)
    ensures HandedAt(t, x, at)
  {
  }

  lemma {:induction false} HandedSince(states: seq<State>, steps: seq<Step>, i: nat, j: nat, x: nat)
    requires Run(states, steps) && i < j < |states| && Hands(states[i], steps[i], x)
    requires forall k :: i < k < j ==> !Hands(states[k], steps[k], x)
    ensures HandedAt(states[j], x, states[i].clock)
  {
    assert StepAt(states, steps, j - 1);
    if j == i + 1 {
      HandedNow(states[i], steps[i], states[j], x);
    } else {
      HandedSince(states, steps, i, j - 1, x);
      HandedStays(states[j - 1], steps[j - 1], states[j], x, states[i].clock);
    }
  }

  // An entry in one consumer's hands is claimed by another no sooner than the idle time after
  // it was last handed out.
  lemma ClaimedOnlyIdle(states: seq<State>, steps: seq<Step>, i: nat, j: nat, x: nat)
    requires Run(states, steps) && i < j < |steps| && Hands(states[i], steps[i], x)
    requires forall k :: i < k < j ==> !Hands(states[k], steps[k], x)
    requires steps[j].Claim? && x in steps[j].batch
    ensures states[j].clock - states[i].clock >= steps[j].minIdle
  {
    HandedSince(states, steps, i, j, x);
    assert StepAt(states, steps, j);
  }

  // Once nothing is undelivered or pending, the channel has carried exactly the events
  // of the stream, and no entry failed to parse.
  lemma QuiescentMeansPublished(states: seq<State>, steps: seq<Step>, k: nat)
    requires Run(states, steps) && k < |states| && states[k].group.Some?
    requires states[k].group.value.delivered == |states[k].stream| && states[k].group.value.pending == map[]
    ensures var s := states[k];
            && (forall i :: 0 <= i < |s.stream| ==> !s.stream[i].payload.BadJson?)
            && (forall m :: m in s.channel <==>
                  exists i :: 0 <= i < |s.stream| && s.stream[i] == Entry(m.cursor, Event(m.envelope)))
  {
    RunInv(states, steps, k);
    var s := states[k];
    forall i | 0 <= i < |s.stream| ensures !s.stream[i].payload.BadJson? && WasPublished(s.stream, s.channel, i) {
      AtLeastOnce(states, steps, k, i);
    }
    forall m: Message | exists i :: 0 <= i < |s.stream| && s.stream[i] == Entry(m.cursor, Event(m.envelope))
      ensures m in s.channel
    {
      var i :| 0 <= i < |s.stream| && s.stream[i] == Entry(m.cursor, Event(m.envelope));
      assert WasPublished(s.stream, s.channel, i);
    }
  }
}
