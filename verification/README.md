# uniqush-push in Dafny

A model of the parts of uniqush-push whose correctness is an argument about many steps, many
processes or many interleavings, and proofs of what those parts promise. `dafny verify
dfyconfig.toml` checks everything.

| file | part of uniqush-push |
|---|---|
| `TokenSchedule.dfy`, `Probes.dfy`, `ProviderToken.dfy` | the APNs provider token: buckets, the signed-token cache, the refusal memo, probes |
| `TokenRuns.dfy` | whole fleets of processes pushing with that token, against APNs's mint floor and expiry |
| `Batches.dfy`, `Stories.dfy` | one push of many devices: goroutines, WaitGroup, channels, message ids, what is remembered about a token; what each device was asked and answered, and that what it is told says so |
| `ClientPool.dfy` | the pooled HTTP clients, their reference counts and shutdown |
| `Store.dfy`, `IndexRuns.dfy`, `RebuildExact.dfy`, `RebuildLoss.dfy` | subscriptions in redis, the subscriber index, every interleaving of its rebuild with the scripts, and exactly which scripts a rebuild can lose |
| `PushRedisDb.dfy`, `Stats.dfy` | the scripts and the rebuild as the loops they are; `/stats`; removing a device a push service says is gone |
| `Wildcards.dfy` | wildcard pushes: redis globs, the index path and the keyspace-scan fallback |
| `Consistency.dfy`, `Checks.dfy`, `ProviderAudit.dfy` | what `/checkdb` reports about subscriptions and providers, how often, and what a clean report means |
| `Providers.dfy` | one provider per push service type: policy, WATCH/MULTI/EXEC, resolution |
| `RemovalLog.dfy` | the removal stream and pollers of `/removed` |
| `RetryChain.dfy` | the backoff of a notification that keeps failing |
| `Ecdsa.dfy`, `Nonces.dfy`, `Es256.dfy` | deterministic ES256 signing |

How the model is built:

- An object whose methods update fields under a lock is a `class`; each method is one critical
  section, proved equal to a function on the object's value. Loops of the source are loops.
- Concurrency is a state machine: a total `Apply(world, step)`, `Reached(steps)` for the world
  after a sequence of steps, an invariant every step keeps, and theorems about every reachable
  world. A step that is not enabled changes nothing, so every sequence of steps is a run.
- A redis command or script is one atomic step. A SCAN owes every key that is there from its
  start to its end, may return any other key, may repeat, and ends when it owes nothing. Where
  nobody else writes, what a walk returned is a sequence with the right elements and any repeats.
- Hashes that make names (delivery points, providers) are taken as injective, so a name is the
  data it was made from. Times are nanoseconds as unbounded integers; 32-bit and 64-bit bounds
  are written out where the code depends on them.

## Findings

Each is a lemma with a concrete run or input, beside the exact condition under which the
property does hold.

- A refused push does not always recover. `noteAccepted` leaves the refusal memo standing, so a
  bucket that was refused and later minted still counts as refused just after the next boundary:
  the current token is refused and there is no fallback (`TokenRuns.OneProcessCanStrand`).
- `previousToken` checks the hour with no margin, so a token chosen a second before its hour is
  up can be sent after it, when the current bucket's token would have been admitted
  (`TokenRuns.OneProcessCanBeOverdue`).
- A batch that stays open over a bucket boundary can be refused with nothing to fall back on once
  another process has minted the new bucket's token (`TokenRuns.TwoProcessesCanOvertake`), and a
  token such a batch mints late can fail another batch that crosses nothing
  (`TokenRuns.StrayMintFailsAnother`).
- `TokenRuns.EveryPushAuthenticates` makes these four the only ways to fail, as an
  if-and-only-if over every run; `ExceptionsAreNarrow` says when each can happen.
- The comment above `RebuildSubscriberIndex` says the rebuild can only lose a subscription made
  between the visit of its subscriber and the rename. A new subscriber the walk never visits can
  be lost too (`RebuildLoss.RebuildCanLoseTheUnvisited`). `RebuildExact.WindowIsExact` gives the
  exact condition for every run and every script: a change of a subscriber's devices is safe if
  and only if it comes inside `IndexRuns.Window`. The comment is right about a subscriber the scan
  still has to come to. `RebuildLoss` has a losing run for each part of the rebuild outside the
  window.
- The service name pattern admits `[` and `\`, which mean something in a glob. For such a service
  the keyspace-scan fallback of a wildcard push does not meet the service's own keys
  (`Wildcards.ScanMeetsItsOwn`); index and fallback agree on every database exactly for the names
  without them (`Wildcards.FallbackIsExact`).
- A type set entry whose record is blank and whose subscriber is gone is reported by no check of
  `/checkdb` (`Consistency.BlankRecordHidesStaleEntry`); `CleanMeansAgreement` is an
  if-and-only-if with what the checks take on trust.
- Message ids find their device for every counter value exactly when the batch has fewer than
  2^32 devices (`Batches.IdsFindTheirDevice`).

## Model

| member | source | states |
|---|---|---|
| `TokenSchedule.BucketHoldsInstant` | srv/apns/http_api/token.go:351-354 | the bucket of an instant from the epoch on is an aligned 35-minute interval that contains it |
| `TokenSchedule.BucketMonotone` | srv/apns/http_api/token.go:351-354 | a later instant never has an earlier bucket, before the epoch included, where Go's division truncates |
| `TokenSchedule.SigningKeepsNeighbours` | srv/apns/http_api/token.go:437-503 | signing a bucket keeps its token and, of the others, exactly those within one interval of it; tokens kept are unchanged |
| `TokenSchedule.SignsOncePerBucket` | srv/apns/http_api/token.go:368-503 | over every sequence of token and previousToken calls with a clock that does not go back: no bucket signed twice, at most two tokens held, each what signing afresh gives, and the one asked for is held |
| `Probes.WinsAreSeparated` | srv/apns/http_api/token.go:206-245 | in every history, two successful claims of one bucket have a finish between them at least 20 minutes before the second |
| `Probes.UnfinishedIsNeverPruned` | srv/apns/http_api/token.go:206-245 | a won probe keeps its record and channel until its own finish, however late |
| `Probes.ChannelsCloseOnce` | srv/apns/http_api/token.go:206-245 | a waiters' channel is closed at most once, is closed exactly when its recorded probe is finished, and one no record holds is closed |
| `Probes.LoserWaitsForTheProber` | srv/apns/http_api/token.go:206-227 | in every history, a caller whose claim fails is handed the channel of the latest caller whose claim succeeded |
| `Probes.ClaimWinsExactly` | srv/apns/http_api/token.go:206-245 | with a clock that does not go back, a claim succeeds if and only if every earlier success for the bucket was finished at least 20 minutes before |
| `Probes.RecordIsLatestWin` | srv/apns/http_api/token.go:206-245 | a record is that of the latest success, finished exactly if an event has finished it since, at that event's time |
| `Probes.EndCloses` | srv/apns/http_api/token.go:234-245 | finishing a probe closes the channel its waiters were handed |
| `ProviderTokens.ProviderToken.constructor` | srv/apns/http_api/token.go:608-641 | a token starts with nothing cached, refused, confirmed or probed |
| `ProviderTokens.ProviderToken.Token` | srv/apns/http_api/token.go:368-386 | hands out the current bucket's token, or the previous one's while the current is known refused and the previous is usable and signs; the cache ends as the schedule says |
| `ProviderTokens.ProviderToken.PreviousToken` | srv/apns/http_api/token.go:420-435 | offers the previous bucket's token exactly when it is under an hour old and not known refused |
| `ProviderTokens.ProviderToken.TokenForBucket` | srv/apns/http_api/token.go:437-485 | returns what signing the bucket gives, from the cache or afresh, and leaves a failed signature uncached |
| `ProviderTokens.ProviderToken.PruneExpired` | srv/apns/http_api/token.go:496-503 | the loop forgets exactly the buckets more than an hour before the newest |
| `ProviderTokens.ProviderToken.ClaimProbe` | srv/apns/http_api/token.go:206-227 | drops lapsed records, then makes the caller the prober exactly when no record is left for the bucket, and hands back that record's channel |
| `ProviderTokens.ProviderToken.FinishProbe` | srv/apns/http_api/token.go:234-245 | ends an open probe and closes its channel; does nothing to one already ended or unknown |
| `TokenRuns.RefusalMeansLateMint` | srv/apns/apnstest/auth.go:195-243 | until some device is sent over a bucket boundary, APNs refuses a current bucket only because the bucket before it was minted late, which APNs has therefore seen |
| `TokenRuns.SendOutcome` | srv/apns/http_api/processor.go:791-872 | in any reachable state, one device's requests: authenticated exactly when it fails in none of the four ways; a retry happens exactly on a refusal with a fallback, mints nothing, and leaves the refused bucket and the time as the memo; otherwise the memo is untouched |
| `TokenRuns.RefusedTokenIsPutAside` | srv/apns/http_api/token.go:368-404 | in every run, once a device of a process was refused a bucket and retried, then until a restart or a refusal of another bucket, that process chooses the previous bucket's token if and only if the refusal is under 20 minutes old and that token under an hour |
| `TokenRuns.CalmOutcome` | srv/apns/http_api/token.go:368-435 | until some device is sent over a boundary, a refused batch without a live refusal of the previous bucket has a fallback APNs admits |
| `TokenRuns.EveryPushAuthenticates` | srv/apns/http_api/processor.go:594-636 | in every run of any number of processes, boundaries crossed or not, a push is authenticated within two requests if and only if it is not overdue, stranded, overtaken or strayed; falling back never mints and is admitted only with a token APNs admitted before |
| `TokenRuns.ExceptionsAreNarrow` | srv/apns/http_api/token.go:351-435 | an overdue batch crossed a boundary or chose before minute 25 and sent after it; a batch strays only once some device was sent over a boundary; until then a stranded batch chose its token in the first five minutes of a bucket |
| `TokenRuns.MintsFollowTheBuckets` | srv/apns/apnstest/auth.go:195-243 | every mint in every run is at least 20 minutes after the one before and of the bucket it happens in, or of the one before that once some device was sent over a boundary |
| `TokenRuns.OneProcessCanStrand` | srv/apns/http_api/token.go:248-252 | a run of one process in which a push is refused with nothing to fall back on although APNs knows the previous token |
| `TokenRuns.OneProcessCanBeOverdue` | srv/apns/http_api/token.go:420-435 | a run of one process in which the fallback chosen has expired two seconds later, when the current token would have been admitted |
| `TokenRuns.TwoProcessesCanOvertake` | srv/apns/http_api/processor.go:594-636 | a run in which a token chosen a second before a boundary is refused a second after it, with no fallback |
| `TokenRuns.StrayMintFailsAnother` | srv/apns/http_api/processor.go:827-872 | a run in which both tokens of a batch that crosses nothing are refused, because of a late mint by one that did |
| `Batches.IdsFindTheirDevice` | srv/apns/common/push_request.go:82-88 | for every 32-bit counter value, wraparound included, each message id is matched back to its device, if and only if the batch has fewer than 2^32 devices |
| `Batches.EachDeviceIsToldOnce` | srv/apns/http_api/processor.go:502-900 | in every interleaving of any number of batches, early failures, probes and retries included: the WaitGroup is never negative and is zero when a batch that waits on it goes on, no device is told twice, each exactly once by the time the channels close, and a result carries its device's id |
| `Batches.EveryBatchEnds` | srv/apns/http_api/processor.go:664-789 | whatever APNs answers and however batches interleave, a batch of n devices changes at most 9n + 14 times, and one that nothing can change has closed its channels: no wait on the WaitGroup or the probe is for ever |
| `Batches.EveryBatchCanClose` | srv/apns/http_api/processor.go:502-900 | every batch of every run can be brought to its close by its own steps, with each device told exactly once |
| `Batches.EveryStepLowers` | srv/apns/http_api/processor.go:502-900 | every step that changes a batch leaves fewer ahead of it, for the batch and for no device more |
| `Batches.WaitsForSomeone` | srv/apns/http_api/processor.go:676-682 | a batch waiting for its probe or its WaitGroup waits for a device that can move, or can go on |
| `Batches.ClosedSendsNothing` | srv/apns/http_api/processor.go:502-900 | no step of a batch that has closed its channels sends on them |
| `Batches.ResultsReachTheirDevice` | srv/apns/push_service.go:643-697 | every result of a batch is matched back to the delivery point it was sent for |
| `Batches.ResultsFitTheirChannel` | srv/apns/push_service.go:643-697 | a batch never sends more messages than it has devices, so a buffer of that size is never over-full |
| `Batches.BookkeepingIsHonest` | srv/apns/http_api/processor.go:812-897 | however batches interleave, the refusal memo names only a bucket whose own token drew a mint-floor refusal, and the confirmed bucket only one whose own token drew another answer |
| `Stories.MessagesMeanWhatWasAnswered` | srv/apns/http_api/processor.go:1076-1145 | in every interleaving, the message a device is told is about the last answer APNs gave it, the retry's if there was one: a success if and only if that was a 200 with no body, an unsubscription if and only if it was a 410 with no body or a body, not of a redirect, naming one of the four dead-token reasons |
| `Stories.LedgerIsKept` | srv/apns/http_api/processor.go:827-897 | in every interleaving, the refusal remembered is the latest noted, of the bucket the retried device went out with, and the bucket confirmed is the latest whose token drew any other answer |
| `Stories.EveryoneIsSent` | srv/apns/http_api/processor.go:502-789 | when a batch has closed its channels, every device was sent and answered to the end, but for one whose request could not be built or a batch that failed before sending |
| `Stories.EarlyMeansGaveUp` | srv/apns/http_api/processor.go:502-646 | a batch is answered for without sending if and only if one of its own checks failed: the request itself, a token it cannot sign, or a client it cannot get |
| `Stories.TokensAreFresh` | srv/apns/http_api/processor.go:594-636 | a batch goes out only with tokens read after whatever probe it waited for |
| `Stories.ProbeGoesAlone` | srv/apns/http_api/processor.go:664-789 | while a probe is out no other device of its batch has been sent |
| `Stories.TokensAreThePlans` | srv/apns/http_api/processor.go:594-636 | what a batch reads as its token and its fallback at one moment is the plan the theorems about fleets reason about |
| `ClientPool.PoolIsSound` | srv/apns/http_api/processor.go:188-336 | in every interleaving of GetClient, release and Finalize: inFlight is the number of outstanding borrows, cached clients are exactly the unretired ones, cached keys are exactly the current keys, one client per provider, and a client holds connections if and only if it is cached or borrowed |
| `ClientPool.ClientIsUsedAgain` | srv/apns/http_api/processor.go:188-279 | in every interleaving, the client a build obtains is the one the next caller for the same key borrows, with nothing built, until another key of the provider is cached or the processor shuts down |
| `ClientPool.BuildsOnlyWhatIsMissing` | srv/apns/http_api/processor.go:188-279 | a caller starts a build if and only if no client of its key is cached, and borrows the cached one otherwise |
| `ClientPool.ShutdownLeaksNothing` | srv/apns/http_api/processor.go:455-471 | after Finalize, whatever builds it overtook still do, no connection is left when the last borrow is back |
| `ClientPool.ClientCache.constructor` | srv/apns/http_api/processor.go:121-130 | a processor starts with no client |
| `ClientPool.ClientCache.TryBorrow` | srv/apns/http_api/processor.go:264-279 | borrows exactly a cached, unretired client and reports the generation |
| `ClientPool.ClientCache.FinishBuild` | srv/apns/http_api/processor.go:188-245 | takes the client someone else cached meanwhile, or one retired at birth if the processor shut down, or caches a new one and supersedes the provider's old one |
| `ClientPool.ClientCache.RetireSupersededClient` | srv/apns/http_api/processor.go:309-336 | retires and uncaches the provider's previous client, closing its idle connections, and only that client |
| `ClientPool.ClientCache.Return` | srv/apns/http_api/processor.go:283-291 | gives a borrow back, and closes a retired client with the last one |
| `ClientPool.ClientCache.Shutdown` | srv/apns/http_api/processor.go:455-471 | the loop retires every cached client, empties both maps and starts a new generation |
| `Store.SubscribeSpares` | db/pushredisdb.go:364-368 | a subscribe keeps the store well formed and looks like nothing to every other subscriber |
| `Store.SubscribeKeepsRight` | db/pushredisdb.go:364-368 | a subscriber indexed right before a subscribe is indexed right after it |
| `Store.UnsubscribeSpares` | db/pushredisdb.go:382-390 | an unsubscribe, of anything, looks like nothing to every other subscriber |
| `Store.UnsubscribeKeepsRight` | db/pushredisdb.go:382-390 | a subscriber indexed right before an unsubscribe is indexed right after it |
| `Store.UnsubscribeUndoes` | db/pushredisdb.go:364-390 | unsubscribing a device just subscribed gives back the very database, index and all |
| `Store.RemoveUnchangedIsUnsubscribe` | db/pushredisdb.go:400-411 | the conditional removal spares everyone else and keeps a right index right |
| `IndexRuns.RebuildSettlesUntouched` | db/subscriber_index.go:163-320 | in every interleaving of a rebuild with the scripts, from any index and staging contents, marked or not, a subscriber whose devices no script changed outside the window ends up indexed exactly right in both index types |
| `IndexRuns.MarkedMeansRight` | db/subscriber_index.go:51-116 | in every run, once the marker is one the run set, every subscriber is indexed right unless a script changed its devices outside the window of the current or the last rebuild |
| `IndexRuns.HarmlessIsExact` | db/subscriber_index.go:163-320 | a script on a subscriber the rebuild has in hand leaves it so if and only if it changes none of its devices or comes inside the window |
| `RebuildExact.ShelterIsExact` | db/subscriber_index.go:163-320 | at every moment of every run, a subscriber is sure to be indexed right by the rebuild, whatever the scan returns and whatever other subscribers do, if and only if it is sheltered |
| `RebuildExact.WindowIsExact` | db/subscriber_index.go:150-193 | for every run and script on a subscriber that was sure to come out right: it still is, if and only if the script changes none of its devices or comes inside the window |
| `RebuildExact.UnshelteredCanLose` | db/subscriber_index.go:150-320 | otherwise some way of finishing the rebuild, with no further script, leaves it wrong |
| `IndexRuns.MarkedMeansExact` | db/subscriber_index.go:51-193 | with rebuilds that overlap no script, an index the run marked is exactly what the subscriber sets say |
| `IndexRuns.OnlyOldMarkersAreSuspect` | db/subscriber_index.go:72-116 | in a run from an unmarked database every marker is one the run set |
| `IndexRuns.MarkerIsEarned` | db/subscriber_index.go:91-193 | in every run, the index is marked if and only if it was from the start, a rebuild published everything it staged, or the database was found empty and then marked |
| `RebuildLoss.RebuildCanLoseTheUnvisited` | db/subscriber_index.go:150-193 | a run in which a subscription is lost although the rebuild visits nobody |
| `RebuildLoss.LostAfterTheVisit` | db/subscriber_index.go:219-250 | a losing run whose subscription comes after its subscriber was read |
| `RebuildLoss.LostWhileDropping` | db/subscriber_index.go:295-320 | a losing run for each of the two passes that drop live keys |
| `RebuildLoss.LostBeforeTheRename` | db/subscriber_index.go:295-320 | a losing run whose subscription comes between the walk and the rename of its type set |
| `PushRedisDb.PushRedisDB.SubscribeScript` | db/pushredisdb.go:364-368 | the script's three writes, and that it reports whether the device was new |
| `PushRedisDb.PushRedisDB.UnsubscribeScript` | db/pushredisdb.go:382-390 | the script's writes: the type set only if the device was there, the subscriber only with its last device |
| `PushRedisDb.PushRedisDB.RemoveUnchangedScript` | db/pushredisdb.go:400-411 | removes everything if the record still holds the bytes read, and nothing otherwise |
| `PushRedisDb.PushRedisDB.ClearStagedServices` | db/subscriber_index.go:201-212 | the loop over a walk of the staging area is a run of the rebuild machine and leaves no staged subscriber index owed |
| `PushRedisDb.PushRedisDB.ClearStagedTypes` | db/subscriber_index.go:201-212 | the same for staged type sets |
| `PushRedisDb.PushRedisDB.ClearStaging` | db/subscriber_index.go:201-212 | what an interrupted rebuild staged is gone when the walk starts, and nothing else is |
| `PushRedisDb.PushRedisDB.StageOne` | db/subscriber_index.go:219-250 | one visited subscriber: read, staged by type, then listed, as machine steps |
| `PushRedisDb.PushRedisDB.Walk` | db/subscriber_index.go:163-193 | the walk over any listing of the device sets, repeats allowed, leaves none owed |
| `PushRedisDb.PushRedisDB.DropServices` | db/subscriber_index.go:295-320 | deletes exactly the live subscriber indexes with nothing staged |
| `PushRedisDb.PushRedisDB.DropTypes` | db/subscriber_index.go:295-320 | deletes exactly the live type sets with nothing staged |
| `PushRedisDb.PushRedisDB.PublishServices` | db/subscriber_index.go:295-320 | renames every staged subscriber index over the live one |
| `PushRedisDb.PushRedisDB.PublishTypes` | db/subscriber_index.go:295-320 | renames every staged type set over the live one |
| `PushRedisDb.PushRedisDB.DropUnstaged` | db/subscriber_index.go:295-320 | both passes over live keys: only live keys change |
| `PushRedisDb.PushRedisDB.PublishStaged` | db/subscriber_index.go:295-320 | every staged key is renamed and the staging area is empty |
| `PushRedisDb.PushRedisDB.RebuildSubscriberIndex` | db/subscriber_index.go:163-320 | with nobody else writing, from any index and staging contents, whatever order and repeats the scans give: the index ends up exactly what the subscriber sets say, marked built, staging empty, nothing else changed |
| `Stats.SubscriberStats` | db/subscriber_index.go:349-376 | refused exactly while the index is unmarked; covers every service asked for, or every known one, but the empty name, with the types that have a provider; over an index in agreement every count is exact, those since a time included |
| `Stats.StatsOfService` | db/subscriber_index.go:379-411 | one service's counts: subscribers with devices, those since the time, devices of each type |
| `Stats.PushServiceTypes` | db/subscriber_index.go:415-441 | each type of a provider the service lists with a record behind it, once |
| `Stats.StatsAreExact` | db/subscriber_index.go:379-411 | in every run whose rebuilds overlap no script, an index the run marked gives exact counts |
| `Stats.AgreementDeterminesIndex` | db/subscriber_index.go:163-320 | an index in agreement is determined by the subscriber sets, so a second rebuild leaves the same members |
| `Stats.ReadIsExact` | db/pushredisdb.go:420-443 | the removal script is run, with the bytes read, exactly where the record decodes to what the push read |
| `Stats.OnlyWhatWasReadIsRemoved` | db/pushredisdb.go:400-443 | whatever is written between the read and the script: a record that then says something else is left alone with everything about its device, a removal removes record, binding and set entry and no other, and right indexing survives either way |
| `Wildcards.GlobMeaning` | db/subscriber_index.go:129-148 | a glob accepts a text if and only if the text can be cut into as many pieces as the glob has parts, each accepted by its part: any text, any character, a class, its negation, a given character |
| `Wildcards.LiteralServiceMatches` | db/pushredisdb.go:460-463 | the scan pattern of a literal service matches exactly that service's keys, subscriber by subscriber |
| `Wildcards.ScanMeetsItsOwn` | restapi.go:132-133 | the scan for all subscribers of a valid service meets their keys if and only if the name has no glob character |
| `Wildcards.FallbackIsExact` | db/pushredisdb.go:848-897 | the fallback and the index find the same subscribers on every database in agreement and every pattern, if and only if the valid service name has no glob character |
| `Wildcards.IndexIsRight` | db/subscriber_index.go:129-148 | an index in agreement lists under a glob exactly the matching subscribers with devices |
| `Wildcards.ScanIsRight` | db/pushredisdb.go:886-897 | the scan of a literal service finds exactly the same subscribers |
| `Wildcards.WithoutRepeats` | db/pushredisdb.go:540-557 | a walk without its repeats: every element once |
| `Wildcards.ScanMatchingSubscribers` | db/pushredisdb.go:886-897 | exactly the names read off the keys the scan meets; for a literal service these are the matching subscribers, each once, whatever SCAN repeats |
| `Wildcards.DeliveryPointsOfSubscribers` | db/pushredisdb.go:904-921 | exactly the devices of the named subscribers, each once when the subscribers are distinct |
| `Wildcards.GetDeliveryPoints` | db/pushredisdb.go:822-838 | refuses exactly a wildcard service; otherwise the named subscriber's devices, or those of exactly the subscribers the index or the scan finds, which are the matching ones, each device once, by either path |
| `Consistency.ConsistencyReport.constructor` | db/consistency_redis.go:39-40 | a report starts empty |
| `Consistency.ConsistencyReport.Add` | db/consistency.go:152-160 | counts stay complete and each kind keeps its first 50 findings, or all if fewer |
| `Consistency.ConsistencyReport.Healthy` | db/consistency.go:163 | true exactly when nothing was found |
| `Consistency.ConsistencyReport.TotalProblems` | db/consistency.go:166-172 | the sum over kinds is the number of findings, examples kept or not |
| `Checks.CheckSet` | db/consistency_redis.go:273-310 | one device set adds its missing entry and, device by device in order, what is orphaned and what is missing |
| `Checks.CheckSubscriberSets` | db/consistency_redis.go:260-317 | the same for every set a walk returns, repeats found again |
| `Checks.CheckRecord` | db/consistency_redis.go:336-375 | one record: skipped if gone or blank, unreferenced if unreadable, incomplete or not listed |
| `Checks.CheckDeliveryPointRecords` | db/consistency_redis.go:333-381 | the same for every record a walk returns |
| `Checks.CheckEntries` | db/consistency_redis.go:438-452 | one service's index: a finding for each visit of an entry with no devices |
| `Checks.CheckIndexedSubscribers` | db/consistency_redis.go:431-461 | the same for every service a walk returns |
| `Checks.CheckTypeEntries` | db/consistency_redis.go:480-492 | one type set: a finding for each visit of a name with no record |
| `Checks.CheckIndexedDeliveryPoints` | db/consistency_redis.go:469-502 | the same for every type set a walk returns |
| `Checks.CheckSubscriberIndex` | db/consistency_redis.go:412-428 | the marker's finding exactly while the index is unmarked, then both index types |
| `Checks.CheckConsistency` | db/consistency_redis.go:39-64 | the report's findings on subscriptions and their index are exactly those of the visits, in order and as often as a walk makes them |
| `Checks.FindsWhatIsThere` | db/consistency_redis.go:260-502 | on a database nobody writes to, whatever the walks repeat, a problem is found if and only if there is one |
| `Checks.CountedOnceIff` | db/consistency_redis.go:516-533 | every problem is counted once if and only if no walk returns a member twice that finds something |
| `Checks.TotalIsExact` | db/consistency.go:166-172 | the total is never below the number of problems there are, and equals it if and only if no walk returns a member twice that finds something |
| `ProviderAudit.CheckService` | db/consistency_redis.go:130-162 | one provider set: the names with no record, and each type with two or more providers, with how many |
| `ProviderAudit.CheckServiceProviders` | db/consistency_redis.go:126-186 | the same for every service, and exactly the records no set names |
| `ProviderAudit.DerivableExactlyWithoutDuplicates` | db/consistency.go:25-41 | a service has no duplicate finding if and only if which provider serves a device never depends on what the device is bound to |
| `Consistency.CleanMeansAgreement` | db/consistency_redis.go:260-502 | with no missing, stale, orphaned or unreferenced finding, the index is in full agreement if and only if each type set holds names of its own service and type and blank records belong to listed devices |
| `Consistency.AgreementMeansClean` | db/consistency_redis.go:260-502 | full agreement with a record behind every listed device gives no missing, stale or orphaned finding |
| `Consistency.BlankRecordHidesStaleEntry` | db/consistency_redis.go:333-381 | a database with nothing reported at all whose index is wrong |
| `Providers.SupersededProviders` | db/pushdb.go:281-320 | refuses exactly when not replacing and another provider of the type is there; otherwise lists what goes |
| `Providers.SupersededMeaning` | db/pushdb.go:281-320 | the names that go are exactly those with no record and those of other providers of the type |
| `Providers.DecisionIsExact` | db/pushdb.go:281-320 | applied to what was read, the policy names exactly what makes way, and without replace only names with no record |
| `Providers.UpdateLeavesOne` | db/pushredisdb.go:1067-1132 | in every interleaving of WATCH/read/EXEC updates and removals, right after a successful update the service lists exactly one name of the type, legacy duplicates or not, with the installed record |
| `Providers.UpdateSparesTheRest` | db/pushredisdb.go:1101-1116 | in every interleaving, after a successful update the service lists the installed provider and exactly those of other types that had a record when read; what leaves loses its record; no other record, and no other service, changes |
| `Providers.UpdateWithoutReplaceTakesNothing` | db/pushdb.go:281-320 | in every interleaving, an update that does not replace takes no name off a service that had a record when read |
| `Providers.UndisturbedUpdate` | db/pushredisdb.go:1067-1132 | an update nobody disturbs, from any state: refused with nothing changed if and only if it does not replace and another provider of the type has a record; otherwise the exact new set |
| `Providers.GivesUpAtTheFifth` | db/pushredisdb.go:1043-1132 | an update whose EXEC fails changes nothing and starts over, unless that is the fifth time |
| `Providers.NeverASecondProvider` | db/pushredisdb.go:1009-1132 | no step of any run leaves a type with a name it lacked unless that is its only one |
| `Providers.AtMostOneForever` | db/pushredisdb.go:1009-1132 | a service that starts with at most one provider of a type has at most one in every reachable state |
| `Providers.CandidateProviders` | db/pushdb.go:637-645 | the loop keeps the providers of the type, in order |
| `Providers.CandidatesMeaning` | db/pushdb.go:637-645 | a provider is a candidate exactly when it is listed and of the type |
| `Providers.FindBound` | db/pushdb.go:725-733 | a candidate carrying the bound name, or none exactly when there is none |
| `Providers.LoadProviders` | db/pushdb.go:546-587 | the records behind the listed names, each once, names with no record skipped |
| `Providers.ResolveProvider` | db/pushdb.go:612-634 | answers exactly the provider that serves the device, a fact about the set of providers, so independent of listing order; none means the device is skipped |
| `Providers.ResolveProviderForSubscribe` | db/pushdb.go:659-710 | the same provider, and an error exactly where none serves |
| `Providers.SubscribeThenPush` | db/pushdb.go:322-349 | a push listing the providers in any order sends through the provider the subscribe chose and bound, and skips the device if the subscribe was refused |
| `Providers.ReplacementServesEveryone` | db/pushredisdb.go:1101-1116 | in every run, right after a successful update every device of the type resolves to the installed provider whatever it was bound to |
| `RemovalLog.CursorRoundTrip` | db/removed.go:193-204 | a printed stream ID parses back to itself, and a bare millisecond to its start |
| `RemovalLog.ParseMeaning` | db/removed.go:193-204 | a cursor parses to an ID if and only if it is the 64-bit numeral of its milliseconds, or two such numerals with a dash between |
| `RemovalLog.RemovedStream.RecordRemovedScript` | db/removed.go:97-105 | appends, trims to the limit and remembers the newest ID trimmed |
| `RemovalLog.PagesAreTheHistory` | db/removed.go:123-183 | in every interleaving of removals, trims and three-command polls, while no poll of a poller failed or reported truncation its pages are exactly the recorded history up to its cursor, in order, no gap, no repeat |
| `RemovalLog.TruncationIsExact` | db/removed.go:123-183 | truncation is reported exactly when some removal after the cursor has been trimmed, and the stream is exactly the untrimmed end of the history |
| `RemovalLog.PollTells` | db/removed.go:123-183 | in every run, a poll nothing interrupts: an error past the newest removal; otherwise exactly the first removals after the cursor still kept, as many as asked for, and the cursor moves to the last of them, strictly onward if there is one |
| `RemovalLog.LogKeepsTheLast` | db/removed.go:97-105 | in every run the stream is the newest removals recorded, as many as the limit allows |
| `RemovalLog.GivenCursorIsAccepted` | restapi.go:836-847 | a cursor handed out is never rejected later as being past the newest removal |
| `RetryChain.FixRetryError` | pushbackend.go:184-277 | ignores an error that cannot be resent; otherwise the step of the chain below |
| `RetryChain.ChainIsBounded` | pushbackend.go:180-277 | for every sequence of requested delays, negative and huge included: at most 11 retries, under an hour of waiting in all, each wait at least double the one before, never shorter than the capped request and never over 30 minutes |
| `RetryChain.ChainIsExact` | pushbackend.go:180-277 | for every sequence of requested delays: the first wait, each later one as the larger of twice the last and the capped request, and that a notification is dropped while it still fails exactly when that is over both a minute and the capped request |
| `RetryChain.DefaultSchedule` | pushbackend.go:180-277 | with no delay requested the waits are 5, 10, 20 and 40 seconds, then nothing |
| `RetryChain.ElevenRetriesHappen` | pushbackend.go:180-277 | requests that make the chain 11 long, so the bound is met |
| `Ecdsa.BlindedInverse` | srv/apns/es256/es256.go:263-278 | the inverse of k modulo a prime, the same for every blinding factor |
| `Ecdsa.InverseUnique` | srv/apns/es256/es256.go:263-278 | there is only one inverse in range |
| `Ecdsa.SigningEquation` | srv/apns/es256/es256.go:189-229 | s·k = e + r·d modulo n |
| `Ecdsa.RecoversNonce` | srv/apns/es256/es256.go:189-229 | what a verifier computes from such a signature is the nonce's multiple of G |
| `Ecdsa.SignatureIsGood` | srv/apns/es256/es256.go:189-229 | every signature a nonce gives has r and s in 1..n-1, satisfies the equation and verifies under the matching key |
| `Ecdsa.SignsUnlessZero` | srv/apns/es256/es256.go:189-229 | a nonce gives no signature if and only if r or e + r·d is zero modulo n |
| `Ecdsa.FirstSignatureIsFirst` | srv/apns/es256/es256.go:189-229 | the signature is that of the first nonce to give one, and there is none only if none gives one |
| `Ecdsa.VerifiesInAnyGroup` | srv/apns/es256/es256.go:189-229 | the signature verifies in any cyclic group of prime order n with Q = d·G, by repeated addition |
| `Es256.Attempt` | srv/apns/es256/es256.go:192-213 | one nonce through the blinded arithmetic gives the signature of that nonce, or none where r or s is zero |
| `Es256.Sign` | srv/apns/es256/es256.go:125-232 | with nonces drawn from the key and the digest: the first signature they give if it verifies under the public key, in range; never an error for a matching key while a nonce gives one; a scalar out of range is refused |
| `Es256.NoncesDetermine` | srv/apns/es256/rfc6979.go:61-110 | the key and the digest alone determine the signature |
| `Es256.SeedsDiffer` | srv/apns/es256/rfc6979.go:61-84 | generators of two keys, or of two digests that differ modulo n, start apart unless the mac collides on what the two seedings ask of it; otherwise they start alike |
| `Es256.SignTwice` | srv/apns/es256/es256.go:118-125 | two signings with any two blindings give the same answer |
| `Nonces.DrawsUnique` | srv/apns/es256/rfc6979.go:86-110 | a generator's state determines the nonces it will hand out, all in 1..n-1 |
| `Nonces.SeedDetermines` | srv/apns/es256/rfc6979.go:61-84 | equal seeds come from equal keys and digests, unless the mac collides on the two named queries |
| `Nonces.StepsDetermine` | srv/apns/es256/rfc6979.go:86-110 | no step of the generator forgets the state before it, unless the mac collides on it |
| `Nonces.Bits2IntIsLeftmost` | srv/apns/es256/rfc6979.go:128-134 | the leftmost 256 bits of any byte string, as section 2.3.2 of RFC 6979 asks |
| `Nonces.Bits2Octets` | srv/apns/es256/rfc6979.go:145-148 | 32 bytes that read back as the digest reduced modulo n |
| `Nonces.OctetsRoundTrip` | srv/apns/es256/rfc6979.go:128-148 | rendering and reading a scalar undo each other both ways |
| `Nonces.NonceGenerator.Fill` | srv/apns/es256/rfc6979.go:95-101 | one block of output, which is the whole 256 bits |
| `Nonces.NonceGenerator.Next` | srv/apns/es256/rfc6979.go:86-110 | the first candidate of the sequence in 1..n-1, a used generator being advanced first, and the state it leaves |

## Left out

- Nonces.NonceGenerator.Next: does not model whether the search for a nonce ends; the number of rejections is a ghost parameter, as the loop has no bound in the source.
- TokenRuns.EveryPushAuthenticates: does not model a request and its answer at different instants, clocks that differ between processes, or clocks before 1970.
- IndexRuns.RebuildSettlesUntouched: does not model two rebuilds at once, which share one staging area.
- Stats.SubscriberStats: takes the index scores as given; how the scripts and the rebuild set them is not modelled.
- Batches.EachDeviceIsToldOnce: does not model probe claims beyond their outcome (they are Probes), request building, or that the deferred finishProbe may name a bucket re-resolved since the claim.
- ClientPool.ClientCache.Shutdown: does not model Finalize waiting for batches in progress; a cached client is a position in a list rather than a reference, and the generation does not wrap at 2^64.
- Es256.Sign: does not model a failing random source, a nil key or another curve, or hashing the signing input; the public point is given by its exponent, and the search for each nonce tried is taken to end.
- Wildcards.GetDeliveryPoints: models MATCH by the glob rules redis documents, which are not part of the repository; a pattern matching an empty subscriber name is not distinguished, as no subscriber has one.
- Checks.CheckConsistency: does not model the checks on bindings and leaked counters, unreadable provider records, or the final sort of examples; the provider checks are ProviderAudit, with findings of their own.
- Providers.UpdateLeavesOne: does not model the set of service names or the record of which services exist.
- SHA-1, SHA-256, HMAC and curve arithmetic are functions with the properties used and no more.
- HTTP, TLS, JSON, redis connections and replica routing.
- The three writes of a subscribe racing with another process; only the scripts are atomic.
- REST handlers, metrics, logging, configuration, endpoint policy, and the FCM, ADM and Web Push services.
- Resolving a subscriber's whole list of devices and cleaning up orphans in `db/pushdb.go`, beyond the script it runs: it would add easy members.
