# Verified model of the delivery pipeline, the idempotency store, exact arithmetic and the ledger

This project models four cores of the repository in Dafny 4.11 and proves what their comments
and tests promise, for every input, every interleaving and every run.

**Realtime delivery** (`Streams`, `Outbox`, `OutboxStore`, `Relay`, `Gateway`, `GatewayHub`,
`Membership`, `Handoff`, `Reducer`, `Pipeline`). An outbox row gets a gapless per-tenant `seq` under
an advisory lock, is appended to the tenant's stream, relayed through a consumer group to a live
channel, fanned out by the gateway, and applied once by the client. `Outbox`, `Relay` and `Handoff`
are state machines over arbitrary interleavings with crashes, rollbacks, lost replies and appends
that land after their process is gone; `Membership` is one over the gateway's sockets, which come,
move and go while SUBSCRIBEs are awaited. `OutboxStore`, `Relay`, `GatewayHub`, `Membership` and
`Reducer` hold the classes whose methods change state as the source does, against the functions the
machines step with. `Pipeline` puts the stages together: what a client ends up knowing follows from
the rows.

**Idempotency claims** (`Idempotency`, `IdempotencyStore`). One identity's row under any number of
requests, each SQL statement one step, row locks held to commit, `now()` fixed at transaction
start and `clock_timestamp()` read at the statement. The interceptor's wait loop is a method with
a bound on its calls.

**Exact arithmetic** (`Rounding`, `Allocation`, `Decimal`, `Uom`). JavaScript's truncating
bigint division is defined first; rounding, largest-remainder allocation, cap allocation, unit
conversion and the decimal codecs are proved against specifications that do not divide, loop or
format.

**Ledger** (`Fingerprint`, `Ledger`, `LedgerSound`, `LedgerCases`, `LedgerEngine`, `LedgerRuns`).
Posting, reversal and period close over one company's books, first one transaction at a time, then
as a state machine of concurrent transactions with share and exclusive locks, waits on unique keys,
uncommitted writes and rollback.

`Prelude` and `Text` hold shared definitions.

## Where the code and its promises part

* Publish order. A `seq` can be announced before a lower one that never failed. `availableAt <=
  now()` compares against the start of the publishing transaction, so a row created after that
  start is invisible to it although it is stamped and lower. `Outbox.OrderBreaksWithoutFailure`
  is such a run. `Outbox.SelectionInOrderExactly` says at each selection exactly when order is
  respected, `Outbox.AppendOvertakesExactly` carries it to every append, a late one included, and
  `Outbox.PublishOrderExactly` states it of whole runs, with a failure counting only if it was on
  record when the append was made.
* Posting fingerprint. `posting-fingerprint.ts` says line order never affects the hash. The sort
  key is (account, direction) only, so two lines that share it keep their given order
  (`Fingerprints.OrderCanMatter`). `Fingerprints.FingerprintEqual` is the exact condition.
* Retrying a posting. The engine's comment calls a posting that matches an existing one an
  idempotent no-op. The period is looked up first, so once the period of the posting's day is
  closed a faithful retry is refused as closed (`LedgerCases.ClosedRetryRefused`).
  `LedgerSound.RepostExactly` is the exact condition.
* Retrying a reversal. The fingerprint leaves out which entry is reversed. So reversing a second
  entry with equal lines under a source that has reversed a first one is answered with the first
  one's reversal, and the second stays unreversed (`LedgerCases.ReversalMistaken`).
  `LedgerSound.RereverseExactly` says exactly when a repeated reversal source is answered so.
* Two copies of `divRound`. `packages/uom` calls its own a local copy of the other, but on a mode
  that is none of the five one refuses and the other cuts toward zero
  (`Rounding.PackagesDisagree`). `Rounding.PackagesAgreeExactly` says exactly when they agree.
* Resume on an emptied stream. When everything was trimmed there is no floor, and any cursor up to
  the tail is told it resumed (`Retention.EmptiedStreamMisleads`). `Retention.ResumeAdmission`
  says exactly when a granted replay misses nothing.
* Sockets of one tenant. `hub.ts` says a register returns only once its SUBSCRIBE is answered. A
  register that finds a set made by a call still waiting joins it and returns at once
  (`Hub.AcknowledgedUnsubscribed`; `Hub.AnsweredExactly` is the exact condition). And if the set
  leaves the map before the waiting call goes on, that call adds its socket to a set nobody looks
  at: the socket is acknowledged and never reached (`Hub.SocketLeftOut`). `Hub.RightExactly` says
  over whole runs exactly when everybody is reached who should be, `Hub.CalmIsInTime` which
  overlaps have to be avoided for it.
* Resources whose type holds a colon. The reducer's key joins tenant, type and id with colons, so two
  such resources can share one version mark (`Reducer.KeysCollide`). `Reducer.SharedExactly` is the
  exact condition; without a colon in tenants and types it never holds (`Reducer.KeysTellApart`).

## Assumptions

PostgreSQL's row locks, advisory locks, unique and exclusion constraints and CHECKs, and Redis's
strictly increasing stream ids, are taken as they are documented; a lock or a unique key another
open transaction holds makes the step wait. SHA-256 is injective, so a fingerprint is its
content. uuids and claim tokens are fresh. Text is compared by a strict total order
(`TextOrder`). Clock readings, the posting date of the company's time zone, and the answers of
Redis and PostgreSQL are parameters.

## Model

| member | source | states |
|---|---|---|
| Rounding.DivRoundCorrect | packages/money/src/rounding.ts:8-54 | in both packages divRound returns q exactly when q is the multiple the mode names: the direction for DOWN and UP, nearest with the named tie for the HALF modes; any other denominator is refused, and of a mode that is none of the five money refuses and uom cuts toward zero |
| Rounding.RoundsUnique | packages/money/src/rounding.ts:8-54 | at most one integer meets a mode's promise |
| Rounding.PackagesAgreeExactly | packages/uom/src/rounding.ts:40-75 | the two packages' divRound give the same answer exactly when the mode is one of the five, the denominator is refused anyway, or the division is exact; elsewhere money refuses and uom cuts toward zero |
| Rounding.PackagesDisagree | packages/uom/src/rounding.ts:40-75 | on 1 / 2 in a mode that is none of the five, one package refuses and the other answers 0 |
| Rounding.WithinOneUnit | packages/money/src/rounding.ts:18-53 | the result is less than one unit off, at most half a unit in the HALF modes |
| Rounding.DivRoundOdd | packages/money/src/rounding.ts:15-18 | rounding is symmetric about zero in every mode |
| Rounding.DivRoundMonotone | packages/money/src/rounding.ts:8-54 | a larger numerator never rounds lower |
| Rounding.DivRoundScaled | packages/uom/src/uom.ts:275-278 | rounding depends on the ratio only, not on whether it was reduced |
| Rounding.DivRoundExact | packages/uom/src/rounding.ts:30-34 | succeeds exactly when the numerator is a multiple of a positive denominator, and returns that factor |
| Allocation.MulRatioMeans | packages/money/src/money.ts:213-224 | returns exactly the amount that rounds amount × num / den as the mode promises, and fails only on a bad denominator or an amount that cannot be stored |
| Allocation.PercentageWithin | packages/money/src/money.ts:227-229 | a share of at most the whole keeps the sign, never exceeds the amount, and all of it is the amount, in every mode |
| Allocation.DivModExact | packages/money/src/money.ts:201-208 | quotient and remainder always fit in storage, rebuild the amount, and carry its sign |
| Allocation.Allocate | packages/money/src/money.ts:245-283 | refuses exactly the empty, negative and all-zero weight lists; otherwise returns the largest-remainder split, every part storable |
| Allocation.HandOut | packages/money/src/money.ts:269-276 | the residual loop gives one unit each to the first places of the order and never wraps around |
| Allocation.ResidualFits | packages/money/src/money.ts:259-262 | the residual is non-negative and no larger than the number of non-zero remainders |
| Allocation.LargestRemainderUnique | packages/money/src/money.ts:231-244 | sum, floor-or-one-more and largest-remainders-first leave only one possible split |
| Allocation.PartsStorable | packages/money/src/money.ts:236-244 | no part has the other sign or a larger magnitude than the amount, and a zero weight gets zero |
| Allocation.PartsFollowWeights | packages/money/src/money.ts:264-276 | a larger weight never gets a smaller part of a positive amount, nor a smaller debt of a negative one |
| Allocation.CapAllocate | packages/money/src/money.ts:301-314 | refused on a negative amount or at the first bad cap; otherwise the FIFO fill and what is left of the amount |
| Allocation.CapErrorExactly | packages/money/src/money.ts:301-314 | the first bad cap decides the refusal, and of what is wrong with it the currency comes first |
| Allocation.FilledClosedForm | packages/money/src/money.ts:306-313 | cap i gets what the earlier caps leave, held between 0 and the cap; the remainder is what exceeds all caps |
| Allocation.FilledInOrder | packages/money/src/money.ts:285-300 | nothing is lost, no cap is exceeded, and a cap is touched only when all earlier ones are full |
| Allocation.FilledInTwoSteps | packages/money/src/money.ts:301-314 | paying a and then b over the reduced caps does exactly what paying a + b does |
| Decimal.Match | packages/uom/src/quantity.ts:66-70 | a match's groups are digits and spell the input |
| Decimal.MatchText | packages/uom/src/quantity.ts:68-70 | every text of the decimal pattern matches, with its own groups |
| Decimal.ParseText | packages/money/src/money.ts:84-98 | a text of the pattern, in any surrounding space, is read as its digits scaled up, or refused for too many places or an amount out of range |
| Decimal.ParseRejects | packages/uom/src/quantity.ts:66-79 | the refusal as not decimal is given exactly to texts that are no such text in any space |
| Decimal.FormatRoundTrip | packages/uom/src/quantity.ts:160-179 | a quantity's fixed and short text both parse back to it |
| Decimal.FormatShape | packages/uom/src/quantity.ts:160-175 | sign, leading zeros and places of both texts; the short one drops exactly the zeros at the end |
| Decimal.FormatInjective | packages/uom/src/quantity.ts:160-175 | two quantities with the same text are the same |
| Decimal.LeadingZerosIrrelevant | packages/money/src/money.ts:95-97 | dropping leading zeros before BigInt changes no amount |
| Decimal.MoneyTextRoundTrip | packages/money/src/money.ts:140-147 | the text is a number that parses back to the amount, a space and the currency code |
| Quantities.UsedDecimals | packages/uom/src/quantity.ts:97-107 | the digit-stripping loop returns the least number of places that represents the value |
| Uom.AssertPermitted | packages/uom/src/uom.ts:219-224 | accepts exactly when the scaled value is divisible by ten to the unused places; unknown unit first |
| Uom.Create | packages/uom/src/uom.ts:189-216 | succeeds exactly when every unit and conversion is valid against the units so far, a later code winning; otherwise names the first invalid unit, or the first invalid conversion once the units are valid |
| Uom.LastUnitWins | packages/uom/src/uom.ts:189-195 | a code means the last given unit with that code, or else the built-in one |
| Uom.ConvertAppliesRatio | packages/uom/src/uom.ts:248-357 | convert is the rounded and convertExact the exact-or-rejected application of effectiveRatio, with the same failures |
| Uom.ConvertMeans | packages/uom/src/uom.ts:248-316 | where the ratio resolves, convert is exactly the amount the mode promises and convertExact exactly the worth, or the one refusal that applies |
| Uom.RatioMeans | packages/uom/src/uom.ts:339-357 | the first rule joining the two codes wins, either way round; otherwise the units must share a family with sizes and the ratio preserves worth in the base unit, and a pair that does not resolve fails with the first applicable error |
| Uom.BuiltinRatios | packages/uom/src/uom.ts:45-76 | the built-in registry is valid, and three conversions computed through it |
| Uom.BuiltinSizes | packages/uom/src/uom.ts:53-69 | all ten built-in units: their sizes, their families, and which allow fractions |
| Uom.RatioSwap | packages/uom/src/uom.ts:339-357 | the ratio back is the ratio turned over, and resolves exactly when it does |
| Uom.ExactRoundTrip | packages/uom/src/uom.ts:290-316 | an exact conversion there can always be undone exactly |
| Uom.RatiosCompose | packages/uom/src/uom.ts:349-356 | without explicit rules, ratios through a middle unit equal the direct ratio |
| Uom.DownNeverOverstates | packages/uom/src/uom.ts:237-247 | mode DOWN yields the largest amount not above what a non-negative quantity is worth |
| StreamIds.ParseId | apps/realtime/src/gateway/cursor.ts:12-27 | accepts exactly digits, a dash, digits |
| StreamIds.PrintIdRoundTrip | apps/realtime/src/gateway/cursor.ts:12-23 | an id's text parses back to it |
| StreamIds.CompareIsOrder | apps/realtime/src/gateway/cursor.ts:32-43 | refuses exactly the pairs with a text that is no id, and on all others is the order of (milliseconds, sequence) |
| Retention.RetentionFloorId | apps/worker/src/stream-retention/retention.ts:52-55 | the floor id's text denotes the clamped start of the window |
| Retention.RetentionFloorMonotone | apps/worker/src/stream-retention/retention.ts:52-55 | as time passes the floor never moves back |
| Retention.TruncMeans | apps/worker/src/stream-retention/retention.ts:52-55 | Math.trunc is the whole number next to its argument on the way to zero |
| Retention.Redis.TrimTenantStream | apps/worker/src/stream-retention/retention.ts:61-72 | removes oldest entries first, only below the floor and without `~` all of those, reports how many, and leaves other tenants and missing streams alone |
| Retention.Redis.RetentionTick | apps/worker/src/stream-retention/retention.ts:86-104 | one floor for every discovered tenant, each stream trimmed on its own, a tenant without a stream counting nothing, counts added up |
| Retention.TrimKeepsFloor | apps/worker/src/stream-retention/retention.ts:61-72 | a trim keeps every entry at or above the floor, and an exact one keeps no other |
| Retention.TrimByAge | apps/worker/src/stream-retention/retention.ts:52-72 | no trim removes an entry inside the window by its own timestamp, and an exact trim keeps nothing else |
| Retention.RemovedBelowFloor | apps/worker/src/stream-retention/retention.ts:52-104 | over every run under a clock that does not run back, everything ever removed lies below the floor of the present clock |
| Retention.WindowIntact | apps/worker/src/stream-retention/retention.ts:46-72 | in every state of such a run an entry inside the present window by its own timestamp is still there |
| Retention.ResumeAdmission | apps/realtime/src/gateway/hub.ts:281-298 | over all runs of appends and trims a non-empty stream grants a replay exactly from inside the retained range; a granted replay misses nothing exactly when something is retained or the cursor is the tail; and a client told to start over can resume from what it was given, missing nothing |
| Retention.AdmitExactly | apps/realtime/src/gateway/hub.ts:269-299 | which of the three answers a resume gets, exactly, and that a client told to start over is given the tail |
| Retention.EmptiedStreamMisleads | apps/realtime/src/gateway/hub.ts:362-381 | a run in which an emptied stream grants a replay that misses a trimmed event |
| OutboxRows.StampAllEffect | apps/worker/src/outbox/seq-allocator.ts:55-82 | a batch is stamped with consecutive values in its order and nothing else changes |
| OutboxRows.StampOnce | apps/worker/src/outbox/seq-allocator.ts:64-72 | a row that has a seq keeps it |
| OutboxStore.OutboxDb.AllocateTenantSeq | apps/worker/src/outbox/seq-allocator.ts:33-85 | without the lock nothing happens; with it the batch is stamped from the tenant's counter, which moves by the batch's length |
| OutboxStore.OutboxDb.StampBatch | apps/worker/src/outbox/seq-allocator.ts:55-82 | the loop of counter bumps and guarded updates refines the stamping of the whole batch, and counts every row |
| OutboxStore.OutboxDb.PublishNextForTenant | apps/worker/src/outbox/publisher.ts:65-117 | each outcome with what it leaves: a published row is never eligible again, a failed one has one more attempt and waits out its backoff, nothing else of the table changes, and the entry appended tells of the row column by column |
| OutboxStore.PublishIsTheStep | apps/worker/src/outbox/publisher.ts:99-113 | the two row changes are exactly those the concurrent dispatcher's steps make |
| OutboxRows.EnvelopeTells | apps/worker/src/outbox/envelope.ts:48-70 | a row without seq, then one without tenant, is refused; any other's envelope says what each column says |
| OutboxStore.BackoffGrows | apps/worker/src/outbox/backoff.ts:19-25 | the first delay is the base, and it doubles with every failure until it reaches the cap |
| OutboxStore.StampsUnique | apps/worker/src/outbox/seq-allocator.ts:55-82 | the stamping contract determines the table |
| OutboxStore.AllocationIsTenantLocal | apps/worker/src/outbox/seq-allocator.ts:39-53 | one tenant's allocation leaves other tenants alone and is the stamping its own machine commits |
| Outbox.RunInv | apps/worker/src/outbox/publisher.ts:65-117 | the whole-run invariant of allocation and publishing holds in every reachable state |
| Outbox.SeqsGaplessAndStable | apps/worker/src/outbox/seq-allocator.ts:38-84 | committed seqs are exactly 1 to nextSeq - 1, unshared, and never change |
| Outbox.BatchStampedInOrder | apps/worker/src/outbox/seq-allocator.ts:45-53 | inside a batch, a lower seq means created earlier, or at the same time with the lower id |
| Outbox.LaterBatchesAbove | apps/worker/src/outbox/seq-allocator.ts:58-63 | what is stamped later is stamped higher |
| Outbox.PublishedDurably | apps/worker/src/outbox/publisher.ts:92-103 | a dispatched row is stamped and in the stream, and all entries of a row are the same envelope, through every crash |
| Outbox.DispatchedForGood | apps/worker/src/outbox/publisher.ts:52-56 | over all runs a row whose dispatch mark was committed is never selected again |
| Outbox.FailureHoldsBack | apps/worker/src/outbox/publisher.ts:104-113 | over all runs a row whose publish failed is next selected no sooner than its backoff says |
| Outbox.SelectionInOrderExactly | apps/worker/src/outbox/publisher.ts:78-90 | at every selection, all lower seqs are announced or have failed exactly when each waiting, never-failed lower seq whose row is younger than the transaction is announced |
| Outbox.AppendOvertakesExactly | apps/worker/src/outbox/publisher.ts:82-94 | every append, one landing after its transaction is gone included, announces the seq of a recorded selection, and overtakes a seq not announced and not failed by then exactly when that row was younger than the selecting transaction and is unannounced (and, for a late append, has not failed) still |
| Outbox.PublishOrder | apps/worker/src/outbox/publisher.ts:71-116 | wherever a seq stands before a lower one, the lower one was announced or had failed in the state the entry was appended to, or else its row was younger than the transaction of the very selection the entry came from |
| Outbox.PublishOrderExactly | apps/worker/src/outbox/publisher.ts:71-116 | over whole runs with crashes, failures and late appends, no append overtakes a lower seq that is neither announced nor already failed, exactly when each row younger than the transaction behind an append is announced or has failed by that append |
| Outbox.EntryAppended | apps/worker/src/outbox/publisher.ts:92-103 | every entry of a reachable stream was added by one append step, with the selection on record for it |
| Outbox.PicksAreSelections | apps/worker/src/outbox/publisher.ts:78-94 | every append, late ones included, goes back to a selecting step of the run and the table it saw |
| Outbox.FirstAnnouncementsIncrease | apps/worker/src/outbox/publisher.ts:78-103 | with no failure, first announcements are strictly increasing exactly when no entry's selection left behind a younger lower seq that is announced only after it |
| Outbox.OrderBreaksWithoutFailure | apps/worker/src/outbox/publisher.ts:83-85 | a run in which seq 2 is announced before seq 1 and nothing failed, so the promise of order is broken |
| Relay.TenantRelay.PublishEntries | apps/worker/src/realtime-relay/relay.ts:61-86 | publishes then acknowledges entry by entry, up to the first text that is not JSON |
| Relay.TenantRelay.WorkOff | apps/worker/src/realtime-relay/relay.ts:61-86 | it throws exactly on a batch with a text that is not JSON; what it publishes are the batch's own events, and what it newly acknowledges was in the batch and, if an event, is published |
| Relay.TenantRelay.RelayTenant | apps/worker/src/realtime-relay/relay.ts:98-139 | claimed entries first, then the next unread ones, up to the first text that is not JSON, which is exactly when the call throws; everything newly acknowledged was published, and the group stays partitioned |
| Relay.WorkedOff | apps/worker/src/realtime-relay/relay.ts:61-86 | a batch worked off is acknowledged and published, and nothing else moved |
| Relay.AtLeastOnce | apps/worker/src/realtime-relay/relay.ts:61-139 | with any number of relays crashing anywhere, each entry is undelivered, pending or acknowledged, and acknowledged means published under its own id unchanged |
| Relay.ClaimedOnlyIdle | apps/worker/src/realtime-relay/relay.ts:98-125 | over all runs an entry is claimed from a consumer no sooner than the idle time after it was last handed out |
| Relay.QuiescentMeansPublished | apps/worker/src/realtime-relay/relay.ts:88-97 | once nothing is undelivered or pending, the channel carried exactly the stream's events |
| Dedup.RecentEventIds.Offer | apps/realtime/src/gateway/dedup.ts:21-30 | true exactly for an id not among the last remembered ones; array and set stay in step |
| Dedup.RemembersTheLast | apps/realtime/src/gateway/dedup.ts:11-30 | after any offers a new cache remembers the last `capacity` of the ids that were new, in order |
| Gateway.DeliverAllExact | apps/realtime/src/gateway/hub.ts:450-466 | one pass with a set of delivered ids sends exactly the authorised candidates whose event was not sent before |
| Gateway.AuthorizedExactly | apps/realtime/src/auth/topics.ts:51-67 | authorised exactly when the tenant is the session's and each company and branch the event names is one the session is not kept from |
| Gateway.BetweenResumes | apps/realtime/src/gateway/hub.ts:316-333 | reading on from a batch's last id yields exactly the rest of the range |
| Gateway.BetweenStable | apps/realtime/src/gateway/hub.ts:317-323 | appends above the boundary do not change the range under replay |
| Gateway.InterruptedWhileReplaying | apps/realtime/src/gateway/hub.ts:118-147 | while a connection replays, live messages are only buffered and sessions only swapped |
| Gateway.ScannedInOrder | apps/realtime/src/gateway/hub.ts:316-338 | each entry of the range is scanned once, in id order, under the session its chunk finds; a throw stops at a chunk edge |
| Gateway.ReplayDelivers | apps/realtime/src/gateway/hub.ts:314-338 | the chunk loop delivers its candidates one by one with one set of delivered ids |
| Gateway.ReplayBuffers | apps/realtime/src/gateway/hub.ts:118-137 | the buffer to drain is every accepted live message since the start, in order |
| Gateway.ResumeExact | apps/realtime/src/gateway/hub.ts:301-356 | under every interleaving the frames sent are the scanned entries and then the buffered events, each once and only if authorised by the session of its moment; the buffer ends empty and replaying false |
| GatewayHub.TenantHub.Register | apps/realtime/src/gateway/hub.ts:175-183 | refuses a session without a tenant; otherwise a live connection with nothing sent joins and no other changes |
| GatewayHub.Connection.Deliver | apps/realtime/src/gateway/hub.ts:138-152 | during a replay the message waits in the buffer; otherwise exactly one frame goes out, the event if the session may see it and else a heartbeat with its cursor |
| GatewayHub.TenantHub.DeliverLive | apps/realtime/src/gateway/hub.ts:118-153 | a malformed message and one whose event is remembered change nothing; any other is taken by every connection as its session and replay demand, and is remembered |
| GatewayHub.TenantHub.Reauthorize | apps/realtime/src/gateway/hub.ts:204-224 | refuses a session without a tenant; within the tenant swaps one connection's session and nothing else |
| GatewayHub.TenantHub.Await | apps/realtime/src/gateway/hub.ts:316-338 | what runs while a resume waits acts on every connection as the interruptions say |
| GatewayHub.TenantHub.ScanBatch | apps/realtime/src/gateway/hub.ts:326-332 | a chunk is scanned in order under the current session |
| GatewayHub.TenantHub.DrainBuffer | apps/realtime/src/gateway/hub.ts:340-353 | the drain sends the buffered events under the current session, empties the buffer and clears replaying, also after a throw |
| GatewayHub.TenantHub.FetchChunk | apps/realtime/src/gateway/hub.ts:316-337 | one turn of the loop is one turn of the reference, and shortens the range or ends it |
| GatewayHub.TenantHub.ReplayThenHandoff | apps/realtime/src/gateway/hub.ts:301-356 | the loop terminates and leaves exactly the reference's result for the range fixed at the snapshot |
| GatewayHub.TenantHub.Resume | apps/realtime/src/gateway/hub.ts:270-299 | a text that is no cursor is refused, a cursor outside what is retained is told to start over from the tail, and exactly the covered ones get the exact replay up to the tail |
| Membership.ChannelMap.AddTo | apps/realtime/src/gateway/hub.ts:392-411 | finishes at once exactly when the key has a set, and then reaches that connection and otherwise nobody new |
| Membership.ChannelMap.RemoveFrom | apps/realtime/src/gateway/hub.ts:413-434 | takes nobody but the connection from the key; a set left empty goes from the map with its subscription, even if a call still awaits it |
| Membership.ChannelMap.Subscribed | apps/realtime/src/gateway/hub.ts:392-411 | after the await the connection is reached exactly when the set made before it is still the key's |
| Hub.SocketHub.ReauthorizeSocket | apps/realtime/src/gateway/hub.ts:204-222 | the part before the first await takes the hub one step of the machine, for open and closed sockets, and keeps it sound |
| Hub.SubscribedWhileHeld | apps/realtime/src/gateway/hub.ts:53-60 | in every reachable state a channel is subscribed exactly while its key has a connection or a call awaiting its SUBSCRIBE |
| Hub.AnsweredExactly | apps/realtime/src/gateway/hub.ts:166-183 | a register call that subscribes returns with the SUBSCRIBE answered; one that finds a set returns unanswered exactly when another call still awaits it |
| Hub.AcknowledgedUnsubscribed | apps/realtime/src/gateway/hub.ts:166-183 | a run in which a socket is acknowledged while its tenant's SUBSCRIBE is unanswered |
| Hub.StepRight | apps/realtime/src/gateway/hub.ts:175-222 | from a state in which everybody is rightly reached or about to be, a step leads to another exactly when it is in time |
| Hub.RightExactly | apps/realtime/src/gateway/hub.ts:175-222 | over whole runs, everybody is rightly reached or about to be in every state exactly when every step was in time |
| Hub.ReachedExactly | apps/realtime/src/gateway/hub.ts:118-163 | in such a run a tenant's message or a session's revocation reaches a connection with no unfinished call exactly when it is open and its session names them now |
| Hub.CalmIsInTime | apps/realtime/src/gateway/hub.ts:185-222 | a run in which nobody leaves a key while a call to join it is unfinished, and no closed socket is reauthorized, is in time throughout |
| Hub.SocketLeftOut | apps/realtime/src/gateway/hub.ts:392-425 | a run that ends with an open, acknowledged socket its tenant's messages do not reach |
| Handoff.RunKeeps | apps/realtime/src/gateway/hub.ts:118-153 | in every reachable state a heard event above the boundary is sent or buffered, and a scanned one is sent |
| Handoff.NoGap | apps/realtime/src/gateway/hub.ts:236-269 | once resumed, every event first appended above the cursor that lies at or below the boundary or was heard live has been sent |
| Handoff.VisibleByStream | apps/realtime/src/gateway/hub.ts:118-153 | what is buffered came from the stream, so an event is visible whenever the session may see every entry that names it |
| Handoff.FrameAnswers | apps/realtime/src/gateway/hub.ts:118-153 | over the whole run every event sent was one the session could see at the step that sent it, and every heartbeat stands for a live message it could not |
| Handoff.LiveAnswered | apps/realtime/src/gateway/hub.ts:118-153 | a live message whose event is remembered does nothing; any other waits during a replay and else is answered by exactly one frame |
| Handoff.RunSent | apps/realtime/src/gateway/hub.ts:118-153 | every event sent is a stream entry under that entry's own cursor |
| Reducer.EventReducer.Offer | packages/realtime-client/src/reducer.ts:62-78 | duplicate exactly for an id seen, stale exactly for a version not above the one held, applied otherwise, one without a version always; and what both stores then hold |
| Reducer.EventReducer.Reset | packages/realtime-client/src/reducer.ts:80-84 | forgets everything |
| Reducer.AppliedOnce | packages/realtime-client/src/reducer.ts:62-66 | an event id is applied at most once between resets |
| Reducer.KeysTellApart | packages/realtime-client/src/reducer.ts:58-60 | with no colon in tenants and types, two events share a mark exactly when they are of one resource |
| Reducer.SharedExactly | packages/realtime-client/src/reducer.ts:58-60 | some resources of two tenants and types share a mark exactly when one's tenant and type, as the key spells them, begin the other's |
| Reducer.KeysCollide | packages/realtime-client/src/reducer.ts:58-60 | with a colon in a type, an event of one resource is dropped as stale for another's version |
| Reducer.AppliedVersionsIncrease | packages/realtime-client/src/reducer.ts:67-77 | the versions applied to a resource strictly increase |
| Reducer.ReducerConverges | packages/realtime-client/src/reducer.ts:54-78 | the reducer ends with exactly the offered ids and each resource at its highest offered version |
| Reducer.OrderAndDuplicatesIrrelevant | packages/realtime-client/src/reducer.ts:54-78 | any reordering and duplication of the same events ends in the same state |
| Pipeline.EnvelopeSpeaksForRow | apps/worker/src/outbox/envelope.ts:48-70 | a row's envelope is authorised exactly by the row's tenant, company and branch, and the client reads it back as the row's event |
| Pipeline.EntriesAreRows | apps/realtime/src/auth/topics.ts:51-67 | in every reachable state each stream entry is a row of the tenant, visible exactly to sessions of the tenant whose scopes admit the row |
| Pipeline.ClientsConverge | packages/realtime-client/src/transport.ts:53-65 | two clients handed the same entries in any order with any repeats end in the same state |
| Pipeline.RowsReachTheClient | apps/realtime/src/gateway/hub.ts:270-356 | over one stream, once every entry above the resume boundary is relayed and heard, a resumed connection has been sent, and its client has seen, every dispatched row its session could see throughout and that first appeared above its cursor, whatever was relayed before it connected |
| Pipeline.ClientHoldsRows | packages/realtime-client/src/reducer.ts:54-78 | then the client holds that row's resource at the row's version or a later one, and everything it holds is what some row it has seen gave |
| Pipeline.ClientReflectsRows | packages/realtime-client/src/reducer.ts:54-78 | a client handed every entry, in any order and with any repeats, knows every dispatched row's event and holds each resource at the highest version any row in the stream gave it |
| IdempotencyStore.AcquireMeans | apps/api/src/common/idempotency/idempotency.repository.ts:46-132 | each outcome of an undisturbed acquire, exactly by expiry, hash, status and age of the row it met |
| IdempotencyStore.IdempotencyRepository.Acquire | apps/api/src/common/idempotency/idempotency.repository.ts:46-132 | the statements in their order leave the row and the outcome that the case table describes |
| IdempotencyStore.IdempotencyRepository.MarkDone | apps/api/src/common/idempotency/idempotency.repository.ts:136-158 | for the owner every acquire before the expiry is then answered with this result or a mismatch and no token can act on the row again; for anyone else nothing changes |
| IdempotencyStore.IdempotencyRepository.Release | apps/api/src/common/idempotency/idempotency.repository.ts:163-176 | for the owner the next acquire gets a claim, whatever its hash; for anyone else nothing changes |
| IdempotencyStore.IdempotencyRepository.SweepExpired | apps/api/src/common/idempotency/idempotency.repository.ts:181-188 | removes exactly the expired rows and counts them |
| IdempotencyStore.IdempotencyRepository.OnSuccess | apps/api/src/common/idempotency/idempotency.interceptor.ts:248-277 | for the owner a non-2xx result frees the identity, otherwise the row is completed exactly if any of three attempts took effect; for anyone else nothing changes |
| IdempotencyStore.CompletedIsTheStep | apps/api/src/common/idempotency/idempotency.repository.ts:143-157 | the completed row is exactly what the concurrent protocol's completing step leaves |
| IdempotencyStore.Resolve | apps/api/src/common/idempotency/idempotency.interceptor.ts:182-246 | each ending by the last answer: a claim's token, the stored result, a reused key, or still in progress; every earlier answer meant waiting, it gives up only after the wait, and makes at most ceil(wait / 50) + 1 acquire calls |
| IdempotencyStore.CompletedEndsTheWait | apps/api/src/common/idempotency/idempotency.interceptor.ts:182-246 | while a completed row lasts, the first call ends the wait: with the stored status and body on the same hash, with a reused key on another, never with a claim |
| Idempotency.RunInv | apps/api/src/common/idempotency/idempotency.repository.ts:46-188 | the protocol invariant holds in every reachable state of statement-level interleaving |
| Idempotency.ClaimSafety | apps/api/src/common/idempotency/idempotency.repository.ts:104-131 | of two claims the earlier was finished, had expired, or had outlived the stale limit when the later began |
| Idempotency.OneTakeoverPerToken | apps/api/src/common/idempotency/idempotency.repository.ts:106-131 | an observed token is taken over at most once, by the very next claim |
| Idempotency.OnlyCurrentOwnerActs | apps/api/src/common/idempotency/idempotency.repository.ts:136-176 | complete and release act only through the last unfinished claim's token; for a superseded owner they change nothing |
| Idempotency.HoldersDistinct | apps/api/src/common/idempotency/idempotency.repository.ts:64-78 | no two requests ever hold the same token |
| Idempotency.ClaimsOnlyGrow | apps/api/src/common/idempotency/idempotency.repository.ts:52-131 | committed claims are never taken back |
| Idempotency.DoneIsStable | apps/api/src/common/idempotency/idempotency.repository.ts:143-157 | a completed row keeps its hash, status and snapshot, and no claim is made, until it expires |
| Idempotency.NextRunAfterExpiry | apps/api/src/common/idempotency/idempotency.interceptor.ts:107-131 | no further handler run starts before the completed row has expired |
| Idempotency.RunHash | apps/api/src/common/idempotency/idempotency.repository.ts:108-127 | in every reachable state a request holding the row's token has the hash the row carries, through every takeover |
| Idempotency.CompletedRequestReplays | apps/api/src/common/idempotency/idempotency.repository.ts:93-103 | once an owner has completed its request, every request that reads the row until it expires gets exactly that status and snapshot if it has the owner's hash, a mismatch if not, or retry if it began at or after the expiry |
| Fingerprints.FingerprintEqual | apps/api/src/modules/accounting/posting-fingerprint.ts:50-77 | two postings share a fingerprint exactly when all else agrees and each account and side lists the same amounts in the same order |
| Fingerprints.CanonicalOrder | apps/api/src/modules/accounting/posting-fingerprint.ts:50-77 | canonical lines run by account, credits before debits, none added or lost |
| Fingerprints.OrderIrrelevantIfDistinct | apps/api/src/modules/accounting/posting-fingerprint.ts:50-77 | line order does not matter when no account and side occurs twice |
| Fingerprints.OrderCanMatter | apps/api/src/modules/accounting/posting-fingerprint.ts:50-77 | two orders of the same lines with different canonical content |
| Ledger.AssertConstructedBalance | apps/api/src/modules/accounting/posting-engine.service.ts:268-285 | accepts exactly two or more lines whose sides are equal and positive |
| Ledger.ReversalCancels | apps/api/src/modules/accounting/posting-engine.service.ts:183-187 | with one-sided lines an entry and its reversal cancel on every account |
| LedgerEngine.PostingEngine.PostJournal | apps/api/src/modules/accounting/posting-engine.service.ts:100-152 | the decision of the posting rules in their order; a new entry is the request's own, in the company's currency and dated the day the request names or else today; the entry added exactly when it is new, and the books still sound |
| LedgerEngine.PostingEngine.ReverseJournal | apps/api/src/modules/accounting/posting-engine.service.ts:163-246 | the decision of the reversal rules in their order; a new entry is dated today and is its original with debits and credits exchanged; the entry added exactly when it is new, and the books still sound |
| LedgerEngine.PostingEngine.InsertDraft | apps/api/src/modules/accounting/posting-engine.service.ts:287-370 | the entry of a source already posted exactly when the content is the same, else a conflict; a new entry under a fresh id exactly when no constraint is in the way; otherwise unchanged books |
| LedgerEngine.PostingEngine.InsertOrFind | apps/api/src/modules/accounting/posting-engine.service.ts:305-352 | the statements, with their lookups and line-by-line CHECKs, refine the insert rules |
| LedgerEngine.PostingEngine.ClosePeriod | apps/api/src/modules/accounting/accounting-period.repository.ts:178-228 | closes exactly an open period at the expected version, keeping its dates and every other period; a close already applied is a replay, and nothing else changes anything |
| LedgerEngine.PostingEngine.CreatePeriod | apps/api/src/modules/accounting/accounting-period.repository.ts:101-128 | adds an open period of exactly those days unless the dates are reversed or some day of theirs is already in a period |
| Ledger.PeriodFor | apps/api/src/modules/accounting/accounting-period.repository.ts:131-159 | finds a period covering the date exactly when there is one |
| LedgerSound.PostKeepsBooks | apps/api/src/modules/accounting/posting-engine.service.ts:100-152 | a new posting keeps the books sound and lands in an open period |
| LedgerSound.ReverseKeepsBooks | apps/api/src/modules/accounting/posting-engine.service.ts:163-246 | a new reversal keeps the books sound and lands in an open period |
| LedgerSound.InsertSucceedsExactly | apps/api/src/modules/accounting/posting-engine.service.ts:287-352 | a new entry is made exactly when the source is unused, the original unreversed, every amount positive and a terminal comes with its branch |
| LedgerSound.PostSucceedsExactly | apps/api/src/modules/accounting/posting-engine.service.ts:100-152 | a posting makes an entry in a period exactly when its lines balance on known accounts, the company is configured, that period is open and covers the date, and the source is unused |
| LedgerSound.ReverseSucceedsExactly | apps/api/src/modules/accounting/posting-engine.service.ts:163-246 | every posted entry can be reversed once: exactly when it exists, has no reversal, today is open and the source is unused |
| LedgerSound.PostBears | apps/api/src/modules/accounting/posting-engine.service.ts:100-152 | what a prepared posting becomes, wherever it is inserted, bears the request's day, source, lines, branch, terminal and explicit date in the company's currency |
| LedgerSound.ReverseBears | apps/api/src/modules/accounting/posting-engine.service.ts:163-246 | what a prepared reversal becomes is dated today, names its original and exchanges its debits and credits line by line |
| LedgerSound.PostRefusedExactly | apps/api/src/modules/accounting/posting-engine.service.ts:100-130 | each refusal before the insert, exactly by the first check of the order that fails; of unknown keys the first one |
| LedgerSound.ReverseRefusedExactly | apps/api/src/modules/accounting/posting-engine.service.ts:163-246 | each refusal of a reversal, exactly by the books; its lines always balance and pass the CHECKs |
| LedgerSound.ReversedNetsToZero | apps/api/src/modules/accounting/posting-engine.service.ts:154-187 | an entry and the entry that reverses it cancel on every account |
| LedgerSound.InsertKeepsBooks | apps/api/src/modules/accounting/posting-engine.service.ts:287-370 | inserting a draft that fits keeps every entry balanced, dated in its period, unique in source and reversal, and a mirror if it reverses |
| LedgerSound.RepostExactly | apps/api/src/modules/accounting/posting-engine.service.ts:100-152 | posting a source again never makes an entry; it returns the entry exactly when the request is well formed on known accounts, a period is open for its day and it repeats the entry, a conflict when only the last fails, and the period's own refusal once that period is closed |
| LedgerSound.RetryAnswered | apps/api/src/modules/accounting/posting-engine.service.ts:77-83 | the very request that made an entry, posted again later, returns it exactly when its day is then open and currency, time zone and accounts still allow it |
| LedgerSound.RereverseExactly | apps/api/src/modules/accounting/posting-engine.service.ts:163-246 | reversing under a source already in the books never makes an entry; it returns the source's entry exactly when the company is configured, today is open and the entry repeats the reversal's content, whatever that entry reversed; a conflict when only the content differs, and the period's refusal once today is closed |
| LedgerCases.ClosedRetryRefused | apps/api/src/modules/accounting/posting-engine.service.ts:100-120 | a sale is posted, its period closed, and the same request refused as closed |
| LedgerCases.ReversalMistaken | apps/api/src/modules/accounting/posting-engine.service.ts:163-246 | of two equal sales the first is reversed; reversing the second under the same source is answered with the first one's reversal |
| LedgerSound.RepostAnswers | apps/api/src/modules/accounting/posting-engine.service.ts:323-337 | at the insert, a source already in the books gives its entry back exactly when the content is the same, else a conflict |
| LedgerSound.ReorderedRepost | apps/api/src/modules/accounting/posting-fingerprint.ts:50-77 | a retry with reordered lines is still the same posting if no account and side occurs twice |
| LedgerSound.TrialBalanceIsZero | apps/api/src/modules/accounting/posting-engine.service.ts:268-285 | balanced entries sum to zero over any complete list of accounts |
| LedgerSound.PeriodIsUnique | apps/api/src/modules/accounting/accounting-period.repository.ts:101-128 | with non-overlapping periods a date falls in at most one |
| LedgerRuns.RunInv | apps/api/src/modules/accounting/posting-engine.service.ts:100-370 | books, open transactions, locks and unique keys stay consistent under every interleaving |
| LedgerRuns.RunGrows | apps/api/src/modules/accounting/accounting-period.repository.ts:178-228 | entries are never changed or removed and a closed period never changes again |
| LedgerRuns.LedgerAlwaysBalances | apps/api/src/modules/accounting/posting-engine.service.ts:268-370 | in every reachable state each committed entry is balanced and the trial balance is zero |
| LedgerRuns.ReversedOnceAndExactly | apps/api/src/modules/accounting/posting-engine.service.ts:154-246 | one entry per source, at most one reversal per entry, and the two cancel on every account |
| LedgerRuns.RepostLooksUp | apps/api/src/modules/accounting/posting-engine.service.ts:100-120 | over all runs, posting a committed source again passes the lookups exactly when it is well formed on known accounts and its day is open, is refused as closed exactly when its period is closed, and a refusal changes nothing |
| LedgerRuns.RepostAnswered | apps/api/src/modules/accounting/posting-engine.service.ts:100-152 | whatever commits between its lookup and its insert, it is then answered as posting at the lookup would have been: the entry for a faithful retry, else a conflict, and nothing changed |
| LedgerRuns.RepostChangesNothing | apps/api/src/modules/accounting/posting-engine.service.ts:305-337 | any insert of a committed source, a reversal's included, is answered or refused and changes nothing |
| LedgerRuns.EntryInOwnPeriod | apps/api/src/modules/accounting/accounting-period.repository.ts:131-159 | an entry is dated inside its own period and no other |
| LedgerRuns.OpenWhenCommitted | apps/api/src/modules/accounting/accounting-period.repository.ts:131-159 | a period is open in the state before the commit that adds an entry to it |
| LedgerRuns.EntryFromLookUp | apps/api/src/modules/accounting/posting-engine.service.ts:100-246 | over all runs every committed entry goes back to one lookup of a posting or reversal and bears that lookup's day, source, lines and currency |
| LedgerRuns.ClosedIsFrozen | apps/api/src/modules/accounting/accounting-period.repository.ts:178-228 | once a close has committed the period row stays as it is and gains no entry |
| LedgerRuns.RetriedClose | apps/api/src/modules/accounting/accounting-period.repository.ts:170-213 | a committed close retried with its version is answered as done, with any other version as a conflict, and changes nothing |

## Left out

- Allocation.Allocate: the library sort inside allocate is a function that inserts by the given comparator, not an in-place algorithm; weights are integers, so the coercion of a `number` weight and its refusal of fractions are not modelled.
- Fingerprints.FingerprintEqual: the hash is taken to be injective; JSON text and SHA-256 are not modelled, and the library sort is a stable insertion.
- Uom.Create: unit codes are not canonicalised, and the message that comes with an error is not modelled.
- Decimal.ParseText: the currency table is a parameter (the exponent), and MoneyDTO's own text is covered as the case of zero places.
- Retention.ResumeAdmission: runs of one stream; a trim while a resume is reading is not modelled.
- Outbox.PublishOrder: one tenant's rows; the discovery queries and the tick over tenants are left out.
- Relay.AtLeastOnce: one tenant's stream, with no entry trimmed before it is acknowledged.
- GatewayHub.TenantHub.Resume: one resume at a time on a connection, a positive chunk size, ids that increase and sockets whose send does not throw.
- GatewayHub.TenantHub.Reauthorize: within the tenant, for the replay; moving a connection to another tenant or session is Hub.SocketHub.ReauthorizeSocket.
- Hub.RightExactly: a SUBSCRIBE does not fail, and the replies come in any order; frames and dedup caches are not part of this machine (a tenant's cache comes and goes with its set).
- Pipeline.ClientReflectsRows: `Number` is exact on the version text, as it is below 2^53; the rest of the transport is left out; that every entry is delivered is a premise here; Pipeline.ClientHoldsRows has no such premise, for what a resume delivers.
- Pipeline.RowsReachTheClient: the three machines share the stream they end with; their steps are not put into one order.
- Handoff.NoGap: the channel is subscribed before the snapshot (Hub.AnsweredExactly says when a register has seen to that), Pub/Sub delivers what it hears, and the session may see the event throughout.
- Idempotency.ClaimSafety: one identity; rows without a claim token from before the column existed are left out.
- IdempotencyStore.IdempotencyRepository.OnSuccess: building and scrubbing the snapshot, and a failing release, are left out.
- LedgerEngine.PostingEngine.ReverseJournal: the original's lines are read in stored order, which the query does not fix.
- LedgerRuns.RunInv: one company; creating a period is a transaction of its own, as its public entry point makes it, and account and configuration changes are atomic.
- Audit rows, access control, row-level security, metrics and logging.
- The deferred seal and balance triggers, which the invariant makes redundant.
- `reconnectDelayMs`, transports, timers and the start and stop loops of the workers.
- `MoneyDTO`/`QuantityDTO` validation, `mulInt`, comparisons and the other one-line arithmetic of Money and Quantity.
- Liveness: nothing is claimed about schedulers, fairness or recovery.
