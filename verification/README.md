# Chinwag: models and proofs of its protocols

Chinwag is a chat system of several services. This project models the parts of it whose correctness
depends on more than one function, and proves what they promise over every run:

- **Refresh tokens** (`RefreshStore`, `RefreshLineage`, `RefreshTheorems`, `RefreshFrames`; section 4.14 of RFC 9700). Redis
  holds token hashes, lineage hashes, member sets and two sorted-set indexes, each key with its own
  expiry. Issue and rotate are atomic scripts; `RevokeLineage` is a row of separate commands that may
  interleave with any number of scripts and other revokers.
- **Command side, outbox, stream, projection** (`ChatTables`, `Pipeline`, `PublisherWaits`, `Backoff`). A transaction writes a
  message row and an outbox row together; one publisher polls, publishes, marks and backs off; the stream
  delivers and redelivers; handlers fold the events into the projection.
- **Gateway limits** (`RateLimit`, `CircuitBreaker`). The token bucket shared by replicas, with exact reals
  for tokens, and the trip/cooldown/probe breaker around it.
- **WebSocket hub** (`Hub`). One loop over register, unregister and broadcast, bounded queues, eviction.
- **Keyset pagination** (`Pagination`). Both list queries, followed from page to page while rows are
  inserted and soft-deleted.
- **DPoP nonces** (`Dpop`, `DpopClient`, `DpopGate`; sections 8 and 11.1 of RFC 9449). Any number of
  validations over one store, the client that retries on a challenge, and the gate its fetches pass.
- **Signing keys** (`Jwks`, `JwksTheorems`, `JwksLoads`, `JwksFleet`). Rotation, expiry, and the
  version-checked cache of the published set: with the single statements of any number of loads
  interleaving, and with whole loads that do not overlap as steps.
- **Alert notifier** (`Notifier`). The shared character budget of a Discord message.

Each operation that changes state in the source is a class method proved equal to a function on values.
The theorems are about those functions and about state machines whose steps are those functions. Where a
module has both a method for a sequence of store calls and a machine that cuts it into steps, a lemma
shows that the method is a run of the machine (`RefreshTheorems.RevokeLineageIsRun`,
`Pipeline.BatchIsRun`, `Dpop.ValidateIsRun`, `JwksLoads.LoadIsRun`).

Some properties a reader may expect do not hold, and the project says exactly when they do:

- A refresh JWT's record outlives the JWT in every run exactly if the configured lifetime is whole seconds
  (`RefreshTheorems.WholeSecondsExactly`). The deployed 14 days are.
- `RevokeLineage` removes the per-user index entry exactly if the record of the first listed member is
  still there to name the user (`RefreshTheorems.UserIndexEntryGoes`, and `UserEntryGoesInAnyRun` for
  interleaved runs). It can be gone while the member is still listed (`UserIndexEntryCanStay`).
- A drained chat pipeline has both tables agree in every run exactly if no publish, no mark and no
  projection write fails and nothing is delivered again; each of the four alone breaks it, and restarts of
  the publisher never do (`Pipeline.DrainedAgreesExactly`). One delivery ends in the command side's table
  exactly if, of each message, it keeps the create, the last content that counts and the deletion
  (`Pipeline.ConvergesExactly`).
- Key expiry never shows in the limiter's answers exactly if burst <= TTL x rate
  (`RateLimit.ExpiryInvisibleExactly`).
- The process panics exactly when a read pump puts a pong on the channel of its client that the hub has
  evicted for a full queue (`Hub.PanicsExactlyOnLatePong`), and that does happen
  (`Hub.EvictedClientPings`). The hub's loop itself never panics.
- A replica that skips its reload serves exactly the published keys if and only if none was withdrawn since
  it read them (`JwksTheorems.SkippingServesEveryKey`). It is so in every run, however statements interleave,
  exactly if no rotation has a clock reading that is not later than the table's, and either there is one
  replica with one load at a time or no version is read between a withdrawal and the next rotation
  (`JwksTheorems.ServesExactExactly`). With two replicas the expired key is served in between although
  nothing fails (`JwksTheorems.WindowBreaksIt`). If loads do not overlap, what matters is whether a load that
  expires the access key can fail to rotate it (`JwksFleet.GetsExactExactly`). A late clock hides the new key
  from a loaded cache exactly if the cache has a key to serve (`JwksTheorems.LateClockHidesExactly`).

Assumptions: one monotone clock for the refresh tokens, their callers and Redis expiry; one clock for the
callers of a rate-limit bucket and the expiry of its key, where expiry is spoken of; new ids, nonces and jtis
differ from all earlier ones; outbox order is commit order and there is one publisher; SQL transactions and
Lua scripts are atomic. The refresh-token lifetime is at least one second. In `DpopClient` other parties
present only nonces that were issued to them, requests reach the validator, and the fetches of one client
come one at a time, which `DpopGate` shows of its gate. In the modules on signing keys, runs called timely are
those whose rotations carry a later `updated_at` than the table has; nothing else assumes it.

`dafny verify dfyconfig.toml` checks the whole project.

## Model

| member | source | states |
|---|---|---|
| RefreshStore.Redis.Rotate | backend/services/auth/service/refreshTokenService.go:41-120 | The script's reply and new keys for every state of the presented token and its lineage: unknown, status-only, revoked, consumed (whole lineage revoked, both index entries removed), revoked lineage, and success, where the old token is consumed with a fresh TTL and the lineage keeps its first creation time |
| RefreshStore.Redis.Issue | backend/services/auth/service/refreshTokenService.go:130-144 | A login writes token, lineage, member set and both index scores together, all with the same deadline |
| RefreshStore.Redis.RevokeLineage | backend/services/auth/service/refreshTokenService.go:316-347 | Run undisturbed it marks the lineage and every listed token revoked, drops the session entry, and drops the user's entry if the first member's record can be read |
| RefreshStore.Redis.HSetTokenRevoked | backend/services/auth/shared/cache/cache.go:60-68 | HSET with no TTL keeps the fields and deadline of an existing hash and leaves a bare status, with no deadline, where there was none |
| RefreshStore.Redis.RevokeTokens | backend/services/auth/service/refreshTokenService.go:66-76 | The loop over the members, in any order, revokes exactly those tokens |
| RefreshLineage.StepKeepsInv | backend/services/auth/service/refreshTokenService.go:41-144 | Every login, rotation, revoker command and expiry keeps the multi-key invariant: records repeat their JWT's claims, only a chain's last token is active, lineage hash and member set outlive and cover every usable record, scores are issue times, and what a revoker has left to do covers every usable record |
| RefreshTheorems.RevocationIsFinal | backend/services/auth/service/refreshTokenService.go:316-347 | After the first HSET of a revocation, however its commands interleave with rotations, the lineage's chain and member set never grow and no token of it ever rotates |
| RefreshTheorems.NilReturnMeansRevoked | backend/services/auth/service/refreshTokenService.go:316-347 | When `RevokeLineage` returns nil, every live record of the lineage is revoked, then and after any further run |
| RefreshTheorems.ReuseRevokesLineage | backend/services/auth/service/refreshTokenService.go:58-82 | Presenting a consumed token revokes its whole lineage in that step, removes both index entries, and in any later run no token of the lineage rotates and no entry comes back |
| RefreshTheorems.MarkersOutliveRecords | backend/services/auth/service/refreshTokenService.go:84-119 | The lineage hash and the member set exist and expire no earlier than any usable record of the lineage |
| RefreshTheorems.OneActiveToken | backend/services/auth/service/refreshTokenService.go:84-119 | A lineage has at most one active token in every reachable state, and it is the last of its chain |
| RefreshTheorems.TokensFormChain | backend/services/auth/service/refreshTokenService.go:84-119 | Each token's parent is the token before it in one chain held by one user and key, and no token is the parent of two |
| RefreshTheorems.ScoresAreIssueTimes | backend/services/auth/service/refreshTokenService.go:102-119 | Through any run, a lineage's scores are the creation time of its login, and both indexes hold it until a revocation begins |
| RefreshTheorems.ReplayIsSeen | backend/services/auth/internal/jwt/refresh.go:41-79 | With a whole-second lifetime, an unexpired JWT that was already exchanged is answered as reused or revoked, never as unknown, in every run |
| RefreshTheorems.WholeSecondsExactly | backend/services/auth/service/refreshTokenService.go:243-285 | In every run every unexpired JWT has its record, if and only if the lifetime is a whole number of seconds |
| RefreshTheorems.UserIndexEntryGoes | backend/services/auth/service/refreshTokenService.go:331-346 | An undisturbed revocation removes the per-user entry if and only if the first member's record still exists in full |
| RefreshTheorems.UserEntryInAnyRun | backend/services/auth/service/refreshTokenService.go:331-346 | However a revocation interleaves with everything else, its ZREM takes the lineage's own per-user entry away if and only if the command succeeds and a user had been read |
| RefreshTheorems.UserEntryGoesInAnyRun | backend/services/auth/service/refreshTokenService.go:331-346 | From the read of the first member's record to the ZREM, through any interleaved steps: the ZREM takes the entry away if and only if both commands succeed and, at the read, a first member was listed whose record existed in full |
| RefreshTheorems.UserIndexEntryCanStay | backend/services/auth/service/refreshTokenService.go:331-346 | There is a reachable state, and a first member of it, for which the revocation leaves the per-user entry |
| RefreshTheorems.SessionEntryGoes | backend/services/auth/service/refreshTokenService.go:331-346 | The last ZREM of a revocation takes the lineage out of the sessions index exactly if it succeeds, changes nothing else, and no later step of any run puts the entry back |
| RefreshTheorems.RevokeLineageIsRun | backend/services/auth/service/refreshTokenService.go:316-347 | `RevokeLineage` run undisturbed is a run of its separate commands, from the first HSET to returning nil, with the same keys |
| RefreshFrames.RotatesExactly | backend/services/auth/service/refreshTokenService.go:49-82 | For any reachable state and any released token, exactly when each of the five answers comes: in particular a rotation succeeds if and only if the record is active and no revocation of its lineage has begun |
| RefreshFrames.RotationWrites | backend/services/auth/service/refreshTokenService.go:84-119 | A rotation that succeeds names the lineage and user of the presented JWT, consumes its record and writes the successor, hash and member set for one full lifetime from now, under the creation time of the lineage's login |
| RefreshFrames.StepSparesOthers | backend/services/auth/service/refreshTokenService.go:41-144 | No login, rotation, reuse or revoker command changes a token record, lineage hash, member set or index entry of any lineage but the one it acts on |
| RefreshFrames.OtherLineagesOnlyAge | backend/services/auth/service/refreshTokenService.go:41-144 | After any run, a lineage no step acted on has exactly the keys it would have had if only time had passed |
| ChatTables.CommandStore.Commit | backend/services/chat/command/service/chat.go:98-110 | A create, update or delete commits row and event together, or neither: it commits exactly if the row change is possible and the outbox insert does not fail |
| ChatTables.CommandStore.UpdateContent | backend/services/chat/command/repo/chatRepo.go:135-153 | Only a live row is updated; otherwise an error and no change |
| ChatTables.CommandStore.MarkDeleted | backend/services/chat/command/repo/chatRepo.go:155-173 | Only a live row is deleted; otherwise an error and no change |
| ChatTables.CommandStore.PollPending | backend/services/chat/command/repo/outboxRepo.go:47-59 | The oldest unpublished rows with fewer than 20 failures, up to the batch size |
| ChatTables.Projection.Upsert | backend/services/chat/query/repo/projectionRepo.go:90-101 | A repeated create changes only the content and never revives a tombstone |
| ChatTables.Projection.Handle | backend/services/chat/query/service/consumer.go:53-145 | The handler of each event is the fold step `Project`; an update or delete of a missing row does nothing, and a repository call that fails leaves the table as it was and drops the event |
| ChatTables.HandlerMirrorsWrite | backend/services/chat/query/service/consumer.go:77-145 | On every change the command side accepts, the handler does to an equal table exactly what the transaction did |
| ChatTables.RowDependsOnOwnEvents | backend/services/chat/query/service/consumer.go:65-145 | A message's row after a delivery depends only on that message's own events in order |
| ChatTables.RepeatsDoNotMatter | backend/services/chat/query/repo/projectionRepo.go:90-101 | Immediate repeats of events change nothing |
| ChatTables.DeliveriesConfluent | backend/services/chat/query/service/consumer.go:65-145 | Two deliveries that agree on each message's own events, up to immediate repeats, leave the same projection |
| ChatTables.DeliveryLeaves | backend/services/chat/query/service/consumer.go:65-145 | Of each message, any delivery at all leaves the room, author and type of the first create, the content of the last create or of the last update between the first create and the deletion after it, and a tombstone if it was deleted after a create |
| ChatTables.DeliveriesAgreeExactly | backend/services/chat/query/service/consumer.go:65-145 | Two deliveries leave the same projection if and only if they leave the same of each message in that sense |
| Pipeline.FailuresNeverInvent | backend/services/chat/command/service/outbox.go:93-132 | With any publish, mark, increment and projection failures, publishes stored without an acknowledgement, restarts, repeats and reordering: a row marked published is on the stream, and every projected row has a committed message's room, author and type and a content it once had |
| Pipeline.CommitsExactly | backend/services/chat/command/repo/chatRepo.go:135-173 | After any run, an update or deletion commits if and only if the committed events create its message and none deletes it, and a create if and only if none creates its id |
| Pipeline.TombstonesStay | backend/services/chat/query/repo/projectionRepo.go:90-101 | A tombstoned projection row never becomes visible again, in any run |
| Pipeline.ProjectionIsPastState | backend/services/chat/command/service/outbox.go:93-132 | Without failures the stream is a duplicate-free prefix of the outbox across all batches, after n events the projection is `chat_messages` as it stood after n commits, and a drained pipeline agrees exactly |
| Pipeline.PastStateDespiteRestarts | backend/services/chat/command/service/outbox.go:64-132 | With restarts of the publisher at any point, and no other failure, the stream goes through the outbox row by row and repeats at most the row it is at, and the projection is a past state of `chat_messages` |
| Pipeline.PerMessageOrderConverges | backend/services/chat/query/service/consumer.go:53-145 | Any delivery that keeps each message's own order, up to immediate repeats, ends in the command side's table |
| Pipeline.ConvergesExactly | backend/services/chat/query/service/consumer.go:53-145 | A delivery ends in the command side's table if and only if it leaves of each message what its committed events leave |
| Pipeline.DrainedAgreesExactly | backend/services/chat/command/service/outbox.go:93-132 | Once everything is published and delivered the two tables agree in every run, if and only if the runs have no failing publish, no failing mark, no failing projection write and no redelivery; restarts make no difference |
| Pipeline.LostMarkReverts | backend/services/chat/command/service/outbox.go:122-130 | One failed mark, and nothing else, leads from the start to a drained state in which the create came again after the update and the old content is back |
| Pipeline.LostPublishReverts | backend/services/chat/command/service/outbox.go:105-117 | One failed publish, and nothing else, leads to a drained state in which the create followed the update and the old content stays |
| Pipeline.LostWriteStaysLost | backend/services/chat/query/service/consumer.go:104-107 | One failed projection write, and nothing else, leads to a drained state that lacks the message |
| Pipeline.RedeliveryReverts | backend/services/chat/query/repo/projectionRepo.go:90-101 | One create delivered again brings the old content back |
| Pipeline.OutboxPublisher.ProcessBatch | backend/services/chat/command/service/outbox.go:93-132 | The batch loop over 50 polled rows does to outbox, stream and timers what the state machine's steps do, whatever each call's outcome |
| Pipeline.BatchIsRun | backend/services/chat/command/service/outbox.go:93-132 | A batch is a run of the state machine |
| PublisherWaits.PollTakesOldest | backend/services/chat/command/repo/outboxRepo.go:47-59 | A poll takes, in order, unpublished rows with fewer than 20 failures, at most 50, and leaves such a row out only if it took 50 that are older |
| PublisherWaits.HeldBackExactly | backend/services/chat/command/service/outbox.go:105-151 | In every run without a restart, a row whose publish fails with k failures counted is tried again only from then plus WaitAfter(k) on: 200 ms for k = 0, double for each more, at most 30 s. As long as it does not fail again it is passed over exactly until that moment |
| PublisherWaits.TurnDecides | backend/services/chat/command/service/outbox.go:99-131 | Whatever becomes of a row in a batch, the loop goes on with the next, and only that row's flag, count and timer and the end of the stream change, as its own outcome says |
| PublisherWaits.GivesUpAfterTwenty | backend/services/chat/command/repo/outboxRepo.go:47-77 | In every run no row is counted more than 20 failures, and one that is counted 20 is unpublished and never tried again, whatever follows, restarts included |
| Backoff.BackoffDuration | backend/services/chat/command/service/outbox.go:46-62 | The loop returns min(interval x 2^retries, 30 s) for every retry count, and no intermediate value leaves int64 |
| Backoff.WaitsDouble | backend/services/chat/command/service/outbox.go:46-62 | The wait for no retries is the interval, but at most 30 s; each further retry doubles the wait up to 30 s |
| Backoff.RetryTimers.CleanupBackoff | backend/services/chat/command/service/outbox.go:82-91 | Exactly the timers that have run out are removed |
| Backoff.CleanupIsInvisible | backend/services/chat/command/service/outbox.go:82-91 | Cleaning up at any times never changes a later `inBackoff` answer |
| Backoff.WaitsExactly | backend/services/chat/command/service/outbox.go:134-151 | A failed event is held back exactly until its deadline, whatever clean-ups and other events happen meanwhile |
| RateLimit.Bucket.Allow | backend/gateway/middleware/redis_limiter.go:22-41 | The script's answer and the two fields and deadline it writes |
| RateLimit.LevelIsLeastRoom | backend/gateway/middleware/redis_limiter.go:29-38 | The stored recurrence is the minimum over all window starts of burst + rate x elapsed - allowed, for any timestamps |
| RateLimit.AllowedIffWithinEveryWindow | backend/gateway/middleware/redis_limiter.go:22-41 | For any timestamps, also decreasing ones, a call is allowed if and only if, for every earlier call, those allowed since then with this one stay within burst + rate x elapsed |
| RateLimit.TokensInRange | backend/gateway/middleware/redis_limiter.go:29-40 | With monotone time the stored tokens stay between 0 and burst |
| RateLimit.ExpiryIsInvisible | backend/gateway/middleware/redis_limiter.go:38-40 | With monotone time and TTL x rate >= burst, a bucket whose key expires answers as one whose key never does |
| RateLimit.ExpiryInvisibleExactly | backend/gateway/middleware/redis_limiter.go:89-98 | Key expiry never shows in an answer if and only if burst <= TTL x rate |
| CircuitBreaker.Cell.Allow | backend/gateway/middleware/circuit_breaker.go:36-51 | A breaker that is not open admits, and an open one exactly from one cooldown after it opened on, becoming half-open |
| CircuitBreaker.Cell.Failure | backend/gateway/middleware/circuit_breaker.go:65-79 | A failed probe reopens at once, a closed breaker opens at the threshold |
| CircuitBreaker.CounterIsRecentFailures | backend/gateway/middleware/circuit_breaker.go:36-79 | After any calls in any order the counter is the failures since the last success, and closed means fewer than the threshold |
| CircuitBreaker.OpensAtThreshold | backend/gateway/middleware/circuit_breaker.go:65-79 | A closed breaker opens exactly at the threshold-th failure in a row and then admits nothing for a cooldown |
| CircuitBreaker.AdmitsAgainExactly | backend/gateway/middleware/circuit_breaker.go:36-51 | After any run that trips the breaker at a time, and with any results coming in since, a request is admitted if and only if a cooldown has passed since that time |
| CircuitBreaker.ProbeDecides | backend/gateway/middleware/circuit_breaker.go:36-79 | That first request is a probe that lets others through too until it ends: its success closes the breaker with the counter at 0, so that it takes the full threshold of failures to open it again, and its failure opens it at once |
| CircuitBreaker.AttemptsBounded | backend/gateway/middleware/circuit_breaker.go:36-79 | In an outage found closed, sequential callers try Redis at most threshold + T / cooldown times in its first T time units |
| CircuitBreaker.RateLimiter.Handle | backend/gateway/middleware/ratelimit.go:117-171 | A request is stopped only by the local limiter or by Redis refusing; an unreachable Redis or an open breaker lets it pass, and each outcome reaches the breaker |
| Hub.HubLoop.Register | backend/services/chat/command/ws/hub.go:48-55 | A new client joins its room with an empty open queue |
| Hub.HubLoop.Unregister | backend/services/chat/command/ws/hub.go:57-69 | A registered client leaves and its channel is closed; an emptied room goes; an unregistered client changes nothing |
| Hub.HubLoop.Broadcast | backend/services/chat/command/ws/hub.go:71-84 | Every client of the room, in any order, gets the message or is evicted and closed if its queue is full |
| Hub.OpenWhileRegistered | backend/services/chat/command/ws/hub.go:45-87 | In every reachable state a client's channel has been closed never or once, and never exactly while it is in its room |
| Hub.QueuedIsSegment | backend/services/chat/command/ws/hub.go:71-105 | The broadcasts ever queued to a client are a contiguous in-order piece of its own room's broadcasts that starts where it registered, and reaches the newest while it is registered |
| Hub.ClosedExactlyWhen | backend/services/chat/command/ws/hub.go:57-84 | A registered client is closed by a step if and only if it leaves, or a broadcast of its room finds its queue full |
| Hub.PanicsExactlyOnLatePong | backend/services/chat/command/ws/hub.go:107-141 | A step from a reachable state panics if and only if it is a pong for a client that was evicted and whose read pump goes on |
| Hub.EvictedClientPings | backend/services/chat/command/ws/hub.go:71-141 | Such a state is reachable: a client whose queue fills up and that pings after the next broadcast |
| Hub.ClosedForGood | backend/services/chat/command/ws/hub.go:57-84 | Once closed, a channel stays closed and nothing is queued to it in any later run |
| Hub.HandledInOrder | backend/services/chat/command/ws/hub.go:89-91 | Broadcasts are handled in the order in which they were sent, none lost or repeated |
| Pagination.SelectIsTheOnly | backend/services/chat/query/repo/projectionRepo.go:126-148 | The rows of ORDER BY ... LIMIT are the only list in order, of that length, with every other row after it |
| Pagination.PageIsNearest | backend/services/chat/query/repo/projectionRepo.go:115-170 | A page is the nearest rows beyond the cursor for every limit, and a next cursor comes exactly if more rows are left |
| Pagination.ListByRoomIdGives | backend/services/chat/query/repo/projectionRepo.go:115-174 | Newest first: only a malformed cursor is refused; limits from 1 to 200 are taken as they are and any other as 50; a page has that many of the room's undeleted messages beyond the cursor, or all there are, and a next cursor, its last row, exactly if there are more |
| Pagination.ListAfterByRoomIdGives | backend/services/chat/query/repo/projectionRepo.go:176-202 | Oldest first: the same with any other limit taken as 200, and no page without a cursor |
| Pagination.TablesEvolve | backend/services/chat/query/repo/projectionRepo.go:90-101 | Whatever the handlers write between requests, no row moves room or creation time or is undeleted |
| Pagination.WriteShows | backend/services/chat/query/repo/projectionRepo.go:90-243 | An upsert adds to its room's live messages exactly if its id is new, a soft delete takes away exactly its own message, and nothing else in any room changes by either |
| Pagination.RowsComeInOrder | backend/services/chat/query/repo/projectionRepo.go:115-202 | Following the cursors over changing tables gives rows in strictly descending (forward: ascending) order beyond the starting cursor |
| Pagination.NothingIsSkipped | backend/services/chat/query/repo/projectionRepo.go:115-202 | A walk that ends has every row that was live at each of its requests |
| Pagination.EveryRowOnce | backend/services/chat/query/repo/projectionRepo.go:115-202 | No message comes twice, and one live throughout comes exactly once, in both directions |
| Pagination.EveryRowOnceWhileWriting | backend/services/chat/query/repo/projectionRepo.go:90-202 | The same for the tables that any handler writes between the requests make of a given one |
| Pagination.WalkOfFixedTable | backend/services/chat/query/repo/projectionRepo.go:115-202 | On a fixed table the walk is the whole room in order, in max(1, ceil(n / size)) pages backward and floor(n / size) + 1 forward |
| Dpop.Validator.Validate | backend/shared/auth/dpop/validator.go:84-143 | The order of checks, store calls and issued nonces for every proof and every failing call |
| Dpop.RepliesExactly | backend/shared/auth/dpop/validator.go:84-143 | Exactly which validations are accepted, refused with a demand for a nonce (no proof, or a good one without a live nonce), refused as faulty, and refused as replayed, for any failing calls |
| Dpop.ValidationLeaves | backend/shared/auth/dpop/validator.go:84-143 | A validation takes no nonce but its own, and that whenever it can, also when it refuses in the end; it reserves its jti exactly then, unless the reservation fails; and a reply's nonce is new, live and issued to the caller |
| Dpop.NonceStore.ConsumeNonce | backend/services/auth/shared/cache/cache.go:135-155 | A nonce is taken exactly if it was live, and is then gone |
| Dpop.NonceStore.ReserveJti | backend/services/auth/shared/cache/cache.go:158-160 | A jti is acquired exactly if it was not reserved |
| Dpop.NonceAcceptedOnce | backend/shared/auth/dpop/validator.go:84-143 | However validations interleave and break off, two accepted ones have different nonces, each issued and no longer live, and share a jti only if its reservation expired |
| Dpop.ValidateIsRun | backend/shared/auth/dpop/validator.go:84-143 | A validation on its own is a run of the interleaving machine with the same store and reply |
| DpopClient.ApiClient.DoFetch | frontend/src/lib/api-client.ts:71-89 | The loop sends at most three fetches, keeps the nonce of every response, and goes on only on a challenge that carries one |
| DpopClient.FetchesExactly | frontend/src/lib/api-client.ts:71-89 | One fetch, or two, or three: once more exactly after each of the first two replies that is a challenge naming a nonce, with that nonce, and the last reply is the call's |
| DpopClient.FetchSettles | backend/shared/auth/dpop/validator.go:84-143 | With a healthy store, a fetch among any honest others is accepted or challenged, the client holds the live nonce that came back, and a live stored nonce is accepted |
| DpopClient.CallSettles | frontend/src/lib/api-client.ts:56-89 | With a healthy store and no nonce of the client expiring meanwhile, a call is accepted within two fetches whatever was stored, in one if that was live, and leaves a live unspent nonce |
| DpopClient.OnlyTheFirstIsChallenged | frontend/src/lib/api-client.ts:56-89 | In a row of calls only the first can need a second fetch |
| DpopGate.PromiseChain.WithDPoPGate | frontend/src/lib/api-client.ts:56-63 | A new call is chained to the gate and becomes the gate |
| DpopGate.OneAtATimeInOrder | frontend/src/lib/api-client.ts:56-63 | Whoever calls when and however calls end, they run one at a time and in the order in which they came |
| DpopGate.NeverStuck | frontend/src/lib/api-client.ts:56-63 | While a call has not ended, one up to it is running or may start, so no rejection closes the gate |
| Jwks.JwksRepo.Rotate | backend/services/auth/repo/jwkRepository.go:64-123 | The active keys of the type become inactive and the new one is added, or nothing changes |
| Jwks.ToJWKSet | backend/services/auth/internal/jwt/jwks.go:11-42 | The set built key by key is the kids of the ACTIVE and INACTIVE access keys; an error comes exactly if one of these does not decode |
| Jwks.JwksService.LoadJWKS | backend/services/auth/service/jwksService.go:54-112 | Cache, table and result of a load for every failing call and for a key that does not decode, with the version read before the rotations |
| Jwks.JwksService.RotateIfNeeded | backend/services/auth/service/jwksService.go:135-160 | A missing active key is made, an overdue one expired and replaced, each failure leaving what was done before it |
| Jwks.PublishedOfLoadable | backend/services/auth/repo/jwkRepository.go:32-62 | Loading only ACTIVE and INACTIVE rows loses no published key, nor one that does not decode |
| JwksTheorems.AtMostOneActiveKey | backend/services/auth/repo/jwkRepository.go:64-145 | At most one ACTIVE key of each type in every interleaving of statements, whatever the clock readings |
| JwksTheorems.StatementPublishes | backend/services/auth/repo/jwkRepository.go:64-145 | A rotation takes no published key away and publishes the new one exactly if it is an access key; an expiry takes away exactly the active key of its type |
| JwksTheorems.SkippingServesEveryKey | backend/services/auth/service/jwksService.go:76-78 | In every interleaving of statements with timely rotations and any failures, a replica whose version is current serves every published key, and otherwise only expired access keys; exactly the published keys if and only if none was withdrawn since it read them |
| JwksTheorems.ServesExactExactly | backend/services/auth/service/jwksService.go:54-112 | Every skipped reload, in every interleaving of statements with any failures, serves exactly the published keys, if and only if no rotation has a late clock and either there is one replica with one load at a time or no version is read between a withdrawal of a published key and the next rotation |
| JwksTheorems.WindowBreaksIt | backend/services/auth/service/jwksService.go:152-157 | With no failure and every clock in time, a reachable state between one replica's expiry and its rotation in which another replica skips its reload and serves the expired key, while the rotation can still succeed |
| JwksLoads.LoadIsRun | backend/services/auth/service/jwksService.go:54-112 | A load, failing anywhere, is a run of the interleaved statements, timely if its rotations are |
| JwksLoads.LoadIsSound | backend/services/auth/service/jwksService.go:54-112 | Of a timely load: the table's version never falls, an exact cache stays exact, a set returned from one is the published set, and the published keys change only with the version unless the access key is half rotated |
| JwksLoads.LoadRenews | backend/services/auth/service/jwksService.go:54-160 | After a load that returns ok and did not skip there is an ACTIVE key of each type; the rows there were are as before but for the overdue ACTIVE ones, of either type, which are EXPIRED; and what is new is ACTIVE and good for a day |
| JwksLoads.HealthyLoadSucceedsExactly | backend/services/auth/service/jwksService.go:76-112 | With no call failing, a load of a table with rows succeeds if and only if it is skipped or every published key that it does not expire decodes, and then holds what the table publishes, with the version read first |
| JwksFleet.GetsExactExactly | backend/services/auth/service/jwksService.go:162-169 | Where loads do not overlap: every set returned, in every run from no replica and no key, is exactly the ACTIVE and INACTIVE access keys of the table, if and only if no rotation has a late clock and there is one replica or no load half rotates the access key; any other failures may happen |
| JwksFleet.HalfExpiryBreaksIt | backend/services/auth/service/jwksService.go:152-157 | With several replicas, a run in which one expires the overdue access key and fails to rotate it makes another return the expired key |
| JwksTheorems.LateClockBreaksIt | backend/services/auth/service/jwksService.go:171-203 | With one replica, a run with a late clock makes it return a set without the new key |
| JwksTheorems.LateClockHidesExactly | backend/services/auth/repo/jwkRepository.go:192-210 | For every table and new active access key, a cache just loaded misses the key after its rotation if and only if there was a key to serve and the new `updated_at` is no later than the table's |
| Notifier.TruncatedFits | infra/k3s/observability/notifier/message.go:319-328 | A cut text fits whenever there is room for a character, and is the text itself exactly if that fits |
| Notifier.AlertShows | infra/k3s/observability/notifier/message.go:144-172 | Mark, title, colour, text and rows of an embed from the alert's own status (or the payload's if it has none), labels and annotations, with the stock texts for missing ones and empty rows dropped |
| Notifier.CategoryIs | infra/k3s/observability/notifier/message.go:110-124 | A resolved alert is in "recoveries", another in its category label, or in "default" without one |
| Notifier.BuildMessage | infra/k3s/observability/notifier/message.go:75-104 | The loop with the shared budget gives the message `Message` |
| Notifier.MessageWithinLimits | infra/k3s/observability/notifier/message.go:75-104 | Every message has at most 10 non-empty embeds and 6000 characters, and every text meets its own limit |
| Notifier.MessageSpends | infra/k3s/observability/notifier/message.go:144-212 | Characters emitted and budget remaining always add up to the budget, which is never overdrawn |
| Notifier.TextIsLostOnlyWhenFull | infra/k3s/observability/notifier/message.go:91-104 | The message is the whole rendering exactly if that fits 6000 characters, and otherwise at least 5991 of them are used |
| Notifier.EarlierAlertsComeFirst | infra/k3s/observability/notifier/message.go:91-104 | The message of the first k alerts is a prefix of the message of all |
| Notifier.GroupByCategory | infra/k3s/observability/notifier/message.go:126-140 | A group for every category with alerts, holding exactly those alerts in order |
| Notifier.GroupsPartition | infra/k3s/observability/notifier/message.go:110-140 | No alert is lost, repeated or put in another category's group |

## Left out

- Cryptography, JWS and JWK parsing, HTTP, SQL drivers, NATS and Redis networking: records of what was signed, atomic table and store steps and explicit failures stand for them.
- Scores and creation times of refresh tokens are whole seconds as in the scripts; the reals of the limiter are exact, so the rounding of Lua's doubles is not modelled.
- A status-only token makes the rotation script reply with a nil id, which ends a Lua array early; the service answers such a short reply with an invalid-grant error, which is not modelled beyond the reply.
- `ValidateRefreshToken`'s own checks before a rotation: any released token may be presented at any time.
- `ListSessionsByUser`, `ListAllSessions` and `RevokeUserSessions`: they read creation time and liveness from an arbitrary member token and order ties differently, so no clean claim holds over all sessions.
- The command side's checks of author, room membership and type before a transaction, and unit-of-work isolation: each transaction is one step.
- Timestamps of messages: the tables take them from different clocks by design, so they are not compared.
- Several publishers, ties in the outbox's creation times, and whatever an operator does about rows given up after 20 failures.
- `GapSyncScheduler` and the query service's message cache: the first is not started, the second promises no agreement with the table.
- The gateway's in-memory limiter: its answer is an input. Path matching and the skipper are an input too.
- Hub pumps: deadlines, pings and write errors; a pump that stops takes no further frames, and pongs appear as a step. Logging and the mutex are left out, as one goroutine changes the rooms.
- Pagination.PageIsNearest: database errors are not modelled; a malformed cursor gives the error reply. The base64 and JSON of cursors are taken to round-trip.
- `AdminListMessages` and the command side's own message list page in the same way and are not repeated.
- DPoP proofs are judged by one flag for parsing, claims and signature; the age limits and their defaults, and nonces outliving a call, are not modelled. A request turned away before validation returns no nonce and is not part of `DpopClient`.
- DpopClient.CallSettles: one browser tab; each tab has its own stored nonce and gate.
- A replica's fields `jwkSet` and `version` are read and written without a lock; each read of the version with the skip that follows it, and each store, is one step, so torn reads are not modelled.
- Signing-key lifetime against token lifetime, retired keys, and `GetPublicKey` lookups. Key material is its kid.
- The notifier's times, durations and checked URL come in as text; characters are Unicode scalar values as in the source, not UTF-16 units.
- Room and user management, admin guards, the user interface, swagger and configuration.
