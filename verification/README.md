# VoiceOS reliability kernel: a verified model

The libraries under `src/libs` carry VoiceOS's promise that no effect is lost
or run twice. This project models that kernel in Dafny and proves what it
keeps over whole runs. It has one file per component:

| file | component |
|---|---|
| `FencedLock.dfy` | Redis lock whose `acquire` is three separate commands, and the ledger of fencing tokens |
| `CircuitBreaker.dfy` | circuit breaker: sequential calls refine a full-history specification, overlapping calls the log of what was let through and reported |
| `EventBus.dfy` | one consumer: routing, dedup, retry loop, dead letters, polling |
| `ConsumerGroups.dfy` | any number of consumers and groups on one stream, with crashes between any two steps |
| `DeadLetters.dfy`, `PendingEntries.dfy`, `UndisturbedConsumer.dfy` | of that system: dead letters, entries read and not yet acknowledged, one consumer left to itself |
| `AuditChain.dfy` | hash-chained audit log and its verifier |
| `RateLimiter.dfy` | sliding-window rate limiter against its unpruned history |
| `IdempotencyGuard.dfy` | claim / execute / complete / poll protocol with any number of callers |
| `WorkerPool.dfy` | priority worker pool as a step system, and the class that refines it |
| `Pii.dfy` | layered span detection and back-to-front redaction |
| `EnvelopeCodec.dfy` | byte layout of an encrypted payload |
| `KeyLifecycle.dfy` | data-key store, crypto-shredding, erasure job |
| `Negotiation.dfy` | negotiation envelope and move function |
| `TimeWindow.dfy`, `Common.dfy` | ascending time stamps and sliding windows; Option, Result, Max, Min |

Redis, Postgres and asyncio appear as explicit state and atomic steps; clocks
are integers. Where the source keeps mutable state there is a class whose
methods say what the new state is as a function of the old. The theorems are
about sequences of calls of those same functions, or about transition systems
that interleave their steps freely. `ConsumerGroups` cuts one entry's processing
into steps of its own; left to itself a consumer there does what
`EventBus.Deliver` does (`RefinesDeliver`). A run is a list of states with the list of steps
between them, so a statement about `states[n]` holds in every reachable state.

SHA-256 (section 6.2 of FIPS 180-4), AES-GCM (sections 7.1 and 7.2 of NIST SP
800-38D), JSON and the key service are parameters. Of SHA-256 the model uses
the digest length and, in `HeadCommitsToHistory`, that no two texts actually
hashed in the two chains collide and none hashes to the genesis value.

## Where the code falls short of its documentation

Each point names the exact condition, and most an input or a run that shows it.

- Mutual exclusion survives a run exactly when each release is its hold's first
  and within its TTL, or finds a lock it does not own (`ExclusionIff`). Release compares
  owner ids, so an id per hold makes every release safe; the one caller,
  `src/services/saas_ops/migration.py:95`, uses the same id for every run of a
  migration: `ReusedOwnerBreaksExclusion`.
- While the fencing counter is alive, tokens follow acquisition order exactly
  when every hold draws before any later one does (`TokenOrderIff`). INCR before
  the caller's own TTL lapses is enough for that and not needed: a late INCR is
  harmless until a later hold has drawn, and never harmless after
  (`OutOfTurnAdmitsStaleWrite`, `StallBeforeIncrInvertsTokens`).
- Tokens are not monotonic across re-acquisitions once a resource has been left
  alone for one counter TTL: numbering starts again at 1 while the tracker
  remembers, and the only and timely holder is refused
  (`IdleResourceRefusesItsHolder`, `LastHoldRefusedIff`). Where every hold draws
  before any later one, order holds exactly if no draw but the first ones finds
  the counter lapsed (`LapseIff`).
- A completed live hold can outlast the fencing counter, when EXPIRE comes after
  the counter has lapsed and does nothing: `StallBeforeExpireLosesCounter`. None
  ever does exactly if each EXPIRE for an active hold finds the counter (`OutlastIff`).
- A cancelled HALF_OPEN probe leaves the breaker refusing every call for good
  unless another call is still in flight: `RecoversIffSomeOutstanding`,
  `CancelledProbeWedges`.
- Delivery is not at-least-once. The dedup mark is written before the handlers
  run and pending entries are never read again: an entry read is still
  acknowledged exactly if its consumer lives (`AcknowledgedIff`), and a delivery
  still completes exactly if it has, or its consumer lives and is still at it
  (`CompletesIff`, `CrashLosesTheEvent`, `CrashBeforeHandlers`).
- Groups do not each get an event. A group is put off with "already seen" exactly
  if any group was delivered the event less than a key lifetime ago: `FanOutIff`,
  `GroupsShareOneDelivery`, `SecondGroupGetsNothing`.
- The acknowledgement is made where handler errors are caught: if it raises,
  finished handlers run again, and a dead-lettered event had been handled exactly
  if that happened: `DeadLetteredThoughHandledIff`, `HandledYetDeadLettered`.
- An empty back-off tuple makes the first retry raise out of the consumer: `BrokenIff`,
  `EmptyBackoffBreaks`.
- An un-hashed row after hashed ones restarts the audit chain: `AppendKeepsChainIff`,
  `UnhashedRowHidesHead`. An append that inserts after another it did not see
  forks it: `InsertKeepsChainIff`, `RacingAppendsIff`. A verification bounded in time
  fails unless it begins at a row linked to the genesis value: `BoundedVerifiesIff`.
- `retry_after_ms` is truncated and may be up to a millisecond short: `RetryHintIsExactIff`,
  `HintFallsShort`.
- A key is dead to every caller exactly when its row is there, no claimant has yet
  to finish, and the row cannot be read, having no result, a None result, or an
  expired one: `DeadIffPoisoned`, `RaisingPoisons`. Only the clean-up of expired
  rows revives it (`CleanUpRevives`), and that clean-up lets the effect run again
  beside a claimant slower than its TTL: `RunsAgainIff`, `CleanUpUnderSlowClaimant`.
- The guard promises one execution per tenant and key, but the key alone is
  claimed: while one tenant has the row, new callers of another neither run their
  effect nor return. `NewCallerIff` says exactly what a tenant's new callers can do.
- A pooled task that ends in cancellation costs a worker; a pool that has lost
  them all never dispatches again: `DispatchesAgainIff`, `CancellationKillsThePool`.
- `from_bytes` accepts blobs that are too short: `RoundTripIff`, `ReverseIff`,
  `ShortBlobIsAccepted`.

## Model

| member | source | states |
|---|---|---|
| FencedLock.CounterTtlDwarfsLockTtl | src/libs/redis_client/lock.py:114 | the fencing counter's TTL is at least fifty lock TTLs |
| FencedLock.DistributedLock.Acquire | src/libs/redis_client/lock.py:94-118 | fails exactly on a live lock, changing nothing; otherwise both keys are those of SET, INCR, EXPIRE and the token is the counter's value; other resources untouched |
| FencedLock.DistributedLock.Release | src/libs/redis_client/lock.py:120-136 | deletes exactly when the live lock belongs to the token's owner |
| FencedLock.FencingTokenTracker.Validate | src/libs/idempotency/fencing.py:34-51 | accepts exactly tokens not below the last seen, which becomes their maximum; other resources untouched |
| FencedLock.ExclusionStepIff | src/libs/redis_client/lock.py:94-136 | with nothing assumed, every step keeps exclusion except an unsafe release, which always ends it |
| FencedLock.ExclusionIff | src/libs/redis_client/lock.py:29-35 | with nothing assumed, exclusion lasts through a run exactly when each release is its hold's first and within its TTL, or finds a lock it does not own |
| FencedLock.SecondHoldIff | src/libs/redis_client/lock.py:120-136 | while exclusion lasts at most one hold is active, and right after a release a second becomes possible exactly if that release was unsafe |
| FencedLock.MutualExclusion | src/libs/redis_client/lock.py:29-35 | with unique owners at most one hold is unexpired and unreleased in every reachable state |
| FencedLock.TokenStepIff | src/libs/redis_client/lock.py:94-136 | while the counter is alive when drawn from, every step keeps the token order except a draw after a later hold's, which always ends it |
| FencedLock.TokenOrderIff | src/libs/redis_client/lock.py:105-110 | while the counter is alive when drawn from, tokens follow SET order through a run exactly when every hold draws before any later one; accepted writes then never go back |
| FencedLock.OutOfTurnAdmitsStaleWrite | src/libs/idempotency/fencing.py:34-51 | from any state in which a later hold has drawn first, some continuation gets an earlier hold's write accepted after a later one's |
| FencedLock.LapseIff | src/libs/redis_client/lock.py:110-114 | with nothing assumed, where every hold draws before any later one: tokens follow SET order through a run exactly when no draw after the first finds the counter lapsed |
| FencedLock.LastHoldRefusedIff | src/libs/idempotency/fencing.py:34-51 | the last hold is never refused while tokens are in order; having drawn from a lapsed counter it is refused exactly if a write with a token above 1 was accepted |
| FencedLock.IdleResourceRefusesItsHolder | src/libs/redis_client/lock.py:110-114 | a run in which the sole, timely holder of a resource left idle is refused |
| FencedLock.FencingOrder | src/libs/idempotency/fencing.py:34-51 | with unique owners, INCR in time and a counter alive when drawn from: tokens increase in SET order and accepted writes never go back to an earlier hold, in every interleaving |
| FencedLock.DrawKeepsOrderIff | src/libs/redis_client/lock.py:105-110 | from tokens in order and not above the counter, exact condition under which one INCR keeps them in order, the counter being alive or not |
| FencedLock.OutlastStepIff | src/libs/redis_client/lock.py:105-136 | with nothing assumed, every step keeps live holds from outlasting the counter, except an EXPIRE for an active hold that finds it lapsed, which never does |
| FencedLock.OutlastIff | src/libs/redis_client/lock.py:105-136 | with nothing assumed, no completed live hold outlasts the counter through a run exactly when each EXPIRE for an active hold finds the counter alive |
| FencedLock.CounterOutlivesHolds | src/libs/redis_client/lock.py:105-114 | if EXPIRE always finds its counter, the counter of every completed hold is alive for fifty lock TTLs after its SET |
| FencedLock.StallBeforeExpireLosesCounter | src/libs/redis_client/lock.py:110-114 | a run, all other assumptions kept, in which a completed live hold outlasts the counter |
| FencedLock.StallBeforeIncrInvertsTokens | src/libs/redis_client/lock.py:105-110 | a run, all other assumptions kept, whose stalled INCR inverts tokens and gets a stale write accepted last |
| FencedLock.ReusedOwnerBreaksExclusion | src/libs/redis_client/lock.py:29-35 | a run in which an owner id used twice leads to two live holds |
| FencedLock.UninterruptedAcquire | src/libs/redis_client/lock.py:94-118 | the method's effect is the interleaving SET, INCR, EXPIRE with nothing between |
| CircuitBreaker.CircuitBreaker.BeforeCall | src/libs/circuit_breaker/breaker.py:162-178 | admission verdict and new state, including the end of a cooldown |
| CircuitBreaker.CircuitBreaker.RecordFailure | src/libs/circuit_breaker/breaker.py:180-193 | new state after a recorded failure |
| CircuitBreaker.CircuitBreaker.RecordSuccess | src/libs/circuit_breaker/breaker.py:195-199 | new state after a recorded success |
| CircuitBreaker.CircuitBreaker.CallSync | src/libs/circuit_breaker/breaker.py:144-160 | one whole call is admission followed, if admitted, by the matching record |
| CircuitBreaker.FailureMatches | src/libs/circuit_breaker/breaker.py:188-193 | the pruned list trips exactly when the last threshold outcomes since closing are failures within one window |
| CircuitBreaker.RefinesFullHistory | src/libs/circuit_breaker/breaker.py:162-199 | for every sequence of calls the breaker matches the full-history specification, its list stays below the threshold while CLOSED, and both admit the same next call |
| CircuitBreaker.AdmissionSafety | src/libs/circuit_breaker/breaker.py:162-199 | with overlapping calls no admission falls within a cooldown after any earlier trip recorded by the breaker, and each HALF_OPEN episode admits at most one call |
| CircuitBreaker.OverlapsRefineHistory | src/libs/circuit_breaker/breaker.py:162-199 | however calls overlap, the state is what the unpruned log of admissions and reports says; a call is admitted exactly when the log admits it, and a failure trips, in OPEN as in any state, exactly when a probe is out or it completes threshold failures within one window since the last success or trip |
| CircuitBreaker.NoAdmissionInCooldown | src/libs/circuit_breaker/breaker.py:188-193 | after a failure that, by that log, completes a burst or fails a probe, in whatever state, no call is admitted for a cooldown |
| CircuitBreaker.OverlapFailure | src/libs/circuit_breaker/breaker.py:180-193 | one failure in any state trips exactly as the unpruned log says, and otherwise the list keeps what still counts |
| CircuitBreaker.HalfOpenAwaitsItsProbe | src/libs/circuit_breaker/breaker.py:170-183 | if every admitted call reports, HALF_OPEN means the call admitted in that episode is outstanding |
| CircuitBreaker.RecoversIffSomeOutstanding | src/libs/circuit_breaker/breaker.py:132-142 | a HALF_OPEN breaker can ever admit again exactly when some call is outstanding |
| CircuitBreaker.CancelledProbeWedges | src/libs/circuit_breaker/breaker.py:132-142 | a run that reaches HALF_OPEN with its probe cancelled and no call outstanding |
| TimeWindow.ForgettingIsHarmless | src/libs/circuit_breaker/breaker.py:189 | pruning a list that already lost stale entries equals pruning the full list |
| EventBus.DeadLetterDecodes | src/libs/event_bus/dlq.py:64-70 | a dead-letter entry decodes to the envelope that was published and carries exactly the four fields of the failure context |
| EventBus.EventRouter.Register | src/libs/event_bus/router.py:30-36 | handlers stay in registration order, per event type |
| EventBus.ReachMeans | src/libs/event_bus/consumer.py:141-142 | an attempt calls a prefix of the handlers, up to and including the first that raises |
| EventBus.Deliver | src/libs/event_bus/consumer.py:139-152 | the full account of a delivery: handlers reached per attempt, sleeps, verdict |
| EventBus.DeliveryIsDetermined | src/libs/event_bus/consumer.py:139-152 | that account leaves one possible delivery |
| EventBus.BrokenIff | src/libs/event_bus/consumer.py:144-150 | a delivery raises out of the loop exactly when the back-off tuple is empty, a retry is due and the first attempt fails |
| EventBus.EmptyBackoffBreaks | src/libs/event_bus/consumer.py:144-150 | such a delivery |
| EventBus.RetryBounds | src/libs/event_bus/consumer.py:136-153 | no handler runs more than max_retries times, later ones never more often than earlier, success ends with a full pass, each delay is its entry of the tuple or the last, waiting is their sum |
| EventBus.Consumer.IsDuplicate | src/libs/event_bus/dedup.py:48-60 | a live key is a duplicate and changes nothing; otherwise the key is set with its expiry |
| EventBus.Consumer.ProcessEntry | src/libs/event_bus/consumer.py:129-153 | one entry's fate and the resulting state, for the handlers registered for its type |
| EventBus.Consumer.PollOnce | src/libs/event_bus/consumer.py:80-98 | reads the next entries and takes each in turn through exactly its fate, stopping only at one that raises |
| EventBus.DuplicateIff | src/libs/event_bus/dedup.py:48-60 | in any pass an entry is a duplicate exactly when one with its event id was delivered less than a key lifetime before, or a key from before the pass still lives |
| EventBus.DeliveriesApart | src/libs/event_bus/dedup.py:48-60 | two deliveries of one event are at least a key lifetime apart |
| EventBus.EntryTakes | src/libs/event_bus/consumer.py:139-152 | how long an entry holds up the next: nothing for a duplicate, the delays before its first clean attempt when handled, the whole back-off when dead-lettered |
| EventBus.PollAccounts | src/libs/event_bus/consumer.py:80-98 | a pass acknowledges each entry once and in order, leaves none pending up to one that raises, and dead-letters decode to the originals in order |
| EventBus.RaisesIff | src/libs/event_bus/consumer.py:129-153 | exact condition under which an entry raises out of the consumer |
| EventBus.CrashFreePoll | src/libs/event_bus/consumer.py:80-98 | if all entries decode and retries have a delay, all n are acknowledged in order, none stays pending, and handled, duplicate and dead-lettered add up to n |
| ConsumerGroups.DedupStep | src/libs/event_bus/dedup.py:48-63 | every step keeps deliveries of one event a key lifetime apart |
| ConsumerGroups.DeliveryStep | src/libs/event_bus/consumer.py:129-156 | every step of any consumer keeps the call counts and the justification of every acknowledgement |
| ConsumerGroups.DeliverySafety | src/libs/event_bus/consumer.py:129-156 | in every run with crashes: one delivery per event while its key lives, at most max_retries calls per handler, every acknowledged entry handled, dead-lettered or already seen |
| UndisturbedConsumer.RefinesDeliver | src/libs/event_bus/consumer.py:129-153 | from any reachable state an undisturbed consumer calls each handler as often as Deliver does, and acknowledges as handled, dead-letters or breaks as Deliver does |
| ConsumerGroups.CompletesIff | src/libs/event_bus/consumer.py:129-153 | some continuation completes a delivery exactly when it is complete or a live consumer is still calling its handlers |
| ConsumerGroups.CrashLosesTheEvent | src/libs/event_bus/consumer.py:132-143 | once its consumer has crashed a delivery stays finished or unfinished as it was, and no group is delivered the event while its key lives |
| ConsumerGroups.CrashBeforeHandlers | src/libs/event_bus/consumer.py:132-143 | a run that marks an event and then crashes before any handler is called |
| DeadLetters.DeadLetteredThoughHandledIff | src/libs/event_bus/consumer.py:139-153 | in every run a dead-lettered event had been handled in full exactly if an acknowledgement of its delivery had raised |
| ConsumerGroups.HandledYetDeadLettered | src/libs/event_bus/consumer.py:139-153 | a run in which all handlers return, the acknowledgement raises, and the event is dead-lettered |
| DeadLetters.DeadLetterSpentAttempts | src/libs/event_bus/consumer.py:139-153 | in every run a dead-lettered delivery has failed each of its max_retries attempts, by a handler or by an acknowledgement that raised |
| PendingEntries.AcknowledgedIff | src/libs/event_bus/consumer.py:80-98 | some continuation acknowledges a pending entry exactly when the consumer holding it has not crashed |
| ConsumerGroups.FanOutIff | src/libs/event_bus/dedup.py:48-63 | a group finds an entry already seen exactly when the event was delivered to any group less than a key lifetime ago; otherwise it is the one delivered to |
| ConsumerGroups.SecondGroupGetsNothing | src/libs/event_bus/dedup.py:62-63 | a run in which a second group reads an entry and finds it seen |
| PendingEntries.GroupsShareOneDelivery | src/libs/event_bus/dedup.py:62-63 | any two acknowledgements of one event that are not merely "seen", in whatever groups, rest on deliveries a key lifetime apart |
| PendingEntries.ReadEntriesConserved | src/libs/event_bus/consumer.py:80-98 | in every run with crashes an entry a group has read is acknowledged exactly once or pending, never both, and what is pending is held by exactly one consumer, in stream order |
| PendingEntries.PendingIsNeverReread | src/libs/event_bus/consumer.py:86-91 | what a consumer holds when it crashes stays pending for ever, unacknowledged and never handed to another |
| AuditChain.WalkChain | src/libs/audit/verifier.py:31-69 | accepts exactly valid chains; else stops after the longest valid prefix and names that row |
| AuditChain.PrefixOk | src/libs/audit/verifier.py:37-67 | any prefix of a valid chain is valid |
| AuditChain.HeadCommitsToHistory | src/libs/repositories/audit.py:57-81 | two verifying chains with the same head hash are equal row for row in every hashed field |
| AuditChain.TamperingIsCaughtAtTheRow | src/libs/audit/verifier.py:54-64 | changed fields under an unchanged hash break the chain at that row and not before |
| AuditChain.AuditRepository.SelectLatestHash | src/libs/repositories/audit.py:108-113 | the hash of the tenant's latest row of any kind, or genesis |
| AuditChain.AuditRepository.Append | src/libs/repositories/audit.py:87-140 | appends one row linked to the tenant's latest and returns its hash |
| AuditChain.AppendKeepsChainIff | src/libs/repositories/audit.py:108-117 | an append keeps the tenant's chain valid exactly when the latest row carries the chain's head; other tenants unaffected |
| AuditChain.InsertKeepsChainIff | src/libs/repositories/audit.py:101-138 | whatever hash an append has read, its row keeps the chain valid exactly when that hash is the head at the insert |
| AuditChain.RacingAppendsIff | src/libs/repositories/audit.py:103-106 | of two appends that read before either inserts, the second breaks the chain unless the first row's hash is the one both read |
| AuditChain.UnhashedRowHidesHead | src/libs/repositories/audit.py:108-113 | a table whose head is hidden by a row without a hash |
| AuditChain.SerializedAppendsVerify | src/libs/repositories/audit.py:87-171 | after any un-hashed prefix, any mix of appends gives every tenant a valid chain of exactly its appended rows |
| AuditChain.BoundedVerifiesIff | src/libs/audit/verifier.py:31-35 | bounded in time, the verification of a chain that verifies as a whole and was recorded in order succeeds exactly when no row falls in the period or the first that does links to genesis |
| AuditChain.AuditVerifier.VerifyChain | src/libs/audit/verifier.py:31-69 | the answer about exactly the tenant's hashed rows recorded in the period: all of them counted when valid, else the longest valid prefix and the row that breaks it |
| AuditChain.OneVerdict | src/libs/repositories/audit.py:142-171 | for each table and period there is one answer, and when valid it counts exactly the tenant's hashed rows with start <= recorded_at <= end |
| AuditChain.OutsideIsIgnored | src/libs/repositories/audit.py:156-161 | rows recorded before start or after end, changed, added at the end or missing there, never change the answer |
| RateLimiter.RateLimiter.Check | src/libs/redis_client/rate_limiter.py:84-126 | verdict, remaining budget, retry hint and the new sorted set; other keys untouched |
| RateLimiter.CheckMatches | src/libs/redis_client/rate_limiter.py:21-36 | one check decides as the full history and keeps the set its un-forgotten end, expiring only when nothing counts |
| RateLimiter.InsertSorts | src/libs/redis_client/rate_limiter.py:30 | the set stays sorted and gains just the new request, in whatever order requests reach it |
| RateLimiter.AgreesWithHistory | src/libs/redis_client/rate_limiter.py:21-36 | for every run the pruned and expiring set decides as the unpruned history |
| RateLimiter.VerdictMeans | src/libs/redis_client/rate_limiter.py:99-109 | in every run a verdict allows exactly when the full history grows, and remaining is what the limit leaves over the requests in the window; what is allowed need not wait |
| RateLimiter.WindowBound | src/libs/redis_client/rate_limiter.py:84-118 | every half-open interval of one window length holds at most limit admitted requests |
| RateLimiter.RetrySucceedsIff | src/libs/redis_client/rate_limiter.py:120-126 | after a refusal a retry succeeds exactly when the oldest counted request has left the window |
| RateLimiter.RetryHintIsExactIff | src/libs/redis_client/rate_limiter.py:120-126 | waiting the hinted time succeeds exactly when nothing was truncated; one more millisecond always does |
| RateLimiter.HintFallsShort | src/libs/redis_client/rate_limiter.py:120-126 | times at which a caller waits the hinted time and is refused again |
| IdempotencyGuard.IdempotencyRepository.Claim | src/libs/repositories/idempotency.py:48-87 | succeeds exactly when the key has no row, even an expired one |
| IdempotencyGuard.IdempotencyRepository.Complete | src/libs/repositories/idempotency.py:89-101 | stores the result in the tenant's own row only |
| IdempotencyGuard.IdempotencyGuard.Poll | src/libs/idempotency/guard.py:93-99 | returns the first result seen before the deadline, or times out |
| IdempotencyGuard.PollIsDetermined | src/libs/idempotency/guard.py:93-99 | given what the checks and the clock show, the loop has one possible outcome |
| IdempotencyGuard.IdempotencyGuard.ExecuteOnce | src/libs/idempotency/guard.py:53-99 | runs the effect exactly when the key was free; what is stored, and what the winner, a late caller and a polling loser return |
| IdempotencyGuard.UninterruptedCall | src/libs/idempotency/guard.py:76-92 | the steps of one call with nothing between come to what the method does: return a readable result, run the effect on a free key and store it, or poll until the timeout |
| IdempotencyGuard.PollerEnds | src/libs/idempotency/guard.py:93-99 | in every run a polling caller waits while it is on time and finds nothing, and its first other poll ends it, with the result if on time, else timed out |
| IdempotencyGuard.TimeoutIsLate | src/libs/idempotency/guard.py:93-99 | no caller times out before the poll timeout has passed since it lost its claim |
| IdempotencyGuard.ClaimsStep | src/libs/idempotency/guard.py:80-87 | every step keeps each claim to one caller and one execution |
| IdempotencyGuard.ResultsStep | src/libs/idempotency/guard.py:80-99 | every step keeps each stored or returned result that of an execution its reader may see |
| IdempotencyGuard.EffectOncePerClaim | src/libs/idempotency/guard.py:80-99 | any number of callers and clean-ups: one execution per claim, at most one more than rows cleaned up, and every returned value is an execution's, the caller's own or a non-None one of its tenant |
| IdempotencyGuard.EffectAtMostOnce | src/libs/idempotency/guard.py:80-99 | until a row is cleaned up, expired or not: at most one execution, every returned value is its result, none if it raised |
| IdempotencyGuard.DeadIffPoisoned | src/libs/idempotency/guard.py:76-99 | until its row is cleaned up no caller ever newly returns exactly when the row is there, nobody is going to store a result, and it cannot be read, expiry included |
| IdempotencyGuard.NewCallerIff | src/libs/idempotency/guard.py:3-10 | until the row is cleaned up a tenant's new callers can run the effect exactly when there is no row, and return exactly then or when the row is their tenant's, valid, and readable now or to come |
| IdempotencyGuard.RaisingPoisons | src/libs/idempotency/guard.py:84-87 | a run that reaches such a state |
| IdempotencyGuard.CleanUpRevives | scripts/db/migrations/005_idempotency_keys.sql:4-17 | the clean-up revives any key, not before its row has expired |
| IdempotencyGuard.RunsAgainIff | scripts/db/migrations/005_idempotency_keys.sql:4-17 | an effect can be run, or run again, exactly when the key has no row or a claimant has not run its own |
| IdempotencyGuard.CleanUpUnderSlowClaimant | scripts/db/migrations/005_idempotency_keys.sql:17 | a run in which a clean-up leads to two executions and the first claimant's result replaces the second's |
| WorkerPool.CapacityStep | src/libs/concurrency/worker_pool.py:101-130 | every step keeps the active count equal to the running tasks and within live workers |
| WorkerPool.PoolSafety | src/libs/concurrency/worker_pool.py:81-119 | active count is the running tasks and at most max_workers, each task leaves the queue once, a resolved future holds its own task's outcome |
| WorkerPool.FutureIff | src/libs/concurrency/worker_pool.py:109-116 | told by the actions alone, in every run: a task has finished with an outcome exactly if it was so settled, its future holds that outcome exactly if moreover its caller had not given up, and is cancelled exactly if the caller had |
| WorkerPool.FuturesSettleOnce | src/libs/concurrency/worker_pool.py:109-116 | a settled future never changes |
| WorkerPool.PriorityThenFifo | src/libs/concurrency/worker_pool.py:31-38 | of two tasks once pending together the one submitted with higher priority, or the earlier of equals, is dispatched first |
| WorkerPool.DispatchPossibleIff | src/libs/concurrency/worker_pool.py:97-108 | a dispatch is possible exactly when a task is pending and of the max_workers started, less one for each cancelled task, one is idle |
| WorkerPool.DispatchesAgainIff | src/libs/concurrency/worker_pool.py:97-119 | without a shutdown some continuation dispatches again exactly when the pool has not started or cancelled tasks have left it a worker |
| WorkerPool.CancellationKillsThePool | src/libs/concurrency/worker_pool.py:105-119 | a run that ends with a task pending and every worker dead |
| WorkerPool.Front | src/libs/concurrency/worker_pool.py:107 | the queue gives up its least sort key |
| WorkerPool.WorkerPool.Submit | src/libs/concurrency/worker_pool.py:81-98 | refines the submit step |
| WorkerPool.WorkerPool.Take | src/libs/concurrency/worker_pool.py:105-108 | refines the dispatch step |
| WorkerPool.WorkerPool.Settle | src/libs/concurrency/worker_pool.py:109-119 | refines the finish step |
| WorkerPool.Create | src/libs/concurrency/worker_pool.py:58-64 | a pool exists exactly for a positive number of workers |
| Pii.ChosenByPriority | src/libs/pii/detector.py:50-55 | a candidate is claimed exactly when it shares no text position with a claim made before it |
| Pii.OverlapIffShare | src/libs/pii/detector.py:53 | the detector's test holds of two matches exactly when some text position lies in both |
| Pii.PriorityDecides | src/libs/pii/detector.py:50-55 | only one set of claims has that property |
| Pii.Detect | src/libs/pii/detector.py:40-67 | returns exactly the claimed spans, in text order and disjoint; every candidate left out shares a text position with one of higher priority that is returned |
| Pii.OneLayout | src/libs/pii/detector.py:66-67 | the same spans have one layout, so detection has one possible result |
| Pii.Redact | src/libs/pii/redactor.py:30-34 | back-to-front splicing equals the left-to-right text of gaps and placeholders |
| Pii.RedactText | src/libs/pii/redactor.py:24-34 | gives the text with the spans claimed by priority replaced by placeholders |
| Pii.OneRedaction | src/libs/pii/redactor.py:24-34 | there is exactly one such text |
| Pii.PlaceholdersTell | src/libs/pii/redactor.py:33 | placeholders are bracketed and tell the entity types apart |
| EnvelopeCodec.RoundTripIff | src/libs/encryption/envelope.py:40-62 | from_bytes undoes to_bytes exactly for payloads with full iv and tag, or cut off inside them |
| EnvelopeCodec.ToBytesInjective | src/libs/encryption/envelope.py:40-48 | serialization is one-to-one on well-formed payloads |
| EnvelopeCodec.ReverseIff | src/libs/encryption/envelope.py:50-62 | to_bytes undoes from_bytes exactly when the blob holds its whole id |
| EnvelopeCodec.ShortBlobIsAccepted | src/libs/encryption/envelope.py:50-62 | a truncated blob that is accepted and not written back as it was |
| KeyLifecycle.EnvelopeEncryption.Encrypt | src/libs/encryption/envelope.py:73-82 | the sealed payload, and the wrapped key stored under the tenant's KEK |
| KeyLifecycle.EnvelopeEncryption.Decrypt | src/libs/encryption/envelope.py:84-97 | key lookup, unwrap and open, or the error |
| KeyLifecycle.InMemoryDEKStore.Delete | src/libs/encryption/dek_store.py:43-44 | removes that key only; a no-op if absent |
| KeyLifecycle.CryptoShredder.Shred | src/libs/encryption/crypto_shred.py:28-45 | removes the key and, where there is an audit repository, appends one record |
| KeyLifecycle.DataErasureJob.Execute | src/libs/privacy/erasure.py:109-168 | without revoked consent nothing changes; with it exactly the listed keys and objects go and are audited and certified |
| KeyLifecycle.DecryptsIffUnshredded | src/libs/encryption/envelope.py:84-97 | in every run a record decrypts to its plaintext exactly under its own tenant and while unshredded |
| KeyLifecycle.ShreddedForever | src/libs/encryption/crypto_shred.py:28-45 | a record is shredded exactly if an operation since named its key with due consent, and then for ever |
| KeyLifecycle.KekPerTenant | src/libs/encryption/envelope.py:99-109 | in every run two stored keys are wrapped under one KEK exactly when they belong to one tenant |
| KeyLifecycle.ScopeNamesKeys | src/libs/privacy/erasure.py:139 | a certificate's scope names exactly the listed keys, beside the two stores that are always cleared |
| Negotiation.EnvelopeExistsIff | src/engines/negotiation/envelope.py:47-98 | an envelope exists exactly for a debt of at least 1, a fraction in [0, 1] and a non-negative extension; its floor is the least unit amount covering the fraction |
| Negotiation.MoveStaysInside | src/engines/negotiation/engine.py:158-251 | no path raises, every proposal lies in the envelope; hardship is met at the floor, every counter is the floor, the opening is the ceiling, an offer is accepted as far as it is owed |
| Negotiation.BuiltEnvelopeBoundsMoves | src/engines/negotiation/engine.py:76-139 | an envelope is built exactly for a debt not negative, a fraction in [0, 1] and a non-negative extension, and no move over it asks for more than is owed |
| Negotiation.TwoCountersThenDecline | src/engines/negotiation/engine.py:210-241 | below-floor offers in rising rounds are countered at the floor in rounds 0 and 1 only, so every one from the third on is declined |

## Left out

- FencedLock.DistributedLock.Acquire: runs the three commands without interference; interleavings are the subject of the step system.
- FencedLock.Run: one resource at a time, since no command touches another resource's keys.
- CircuitBreaker.RefinesFullHistory: sequential calls only; for overlapping ones there is `OverlapsRefineHistory`.
- CircuitBreaker: the state-change callback and the registry of breakers.
- EventBus.Consumer.PollOnce: a COUNT of zero is not modelled; `start`, `stop` and idle sleeping only repeat the pass.
- EventBus.Consumer.ProcessEntry: an acknowledgement always succeeds; one that raises is a step of `ConsumerGroups`, where an acknowledgement that takes effect and still raises is not covered.
- EventBus.Json: the JSON text of an envelope is a round-tripping pair; byte and text forms of field names are not told apart.
- ConsumerGroups.Run: an exception out of the consumer is the same step as a crash; back-off delays are time steps.
- AuditChain.AuditRepository.Append: the row lock is taken as held from SELECT to commit; what an append that reads too early does is `RacingAppendsIff`.
- AuditChain.HeadCommitsToHistory: the payload is its JSON text as hashed; changes a JSONB round trip may make to it are not modelled.
- RateLimiter.RateLimiter.Check: the script and the later ZRANGE run without another client between them, and client and Redis clocks agree.
- IdempotencyGuard.Next: `Purge` is the clean-up the schema describes in a comment; when and by whom it is run is not in the repository.
- IdempotencyGuard.IdempotencyGuard.ExecuteOnce: no other caller acts before the poll loop; free interleaving is the subject of the step system.
- WorkerPool.WorkerPool: cancellation of callers, workers and the pool are steps of the system, not methods; shutdown is one step.
- Pii.Detect: the regular expressions themselves; confidences and the matched text; `mask`.
- EnvelopeCodec.FromBytes: pydantic's own field checks, which accept any bytes.
- KeyLifecycle.EnvelopeEncryption.Encrypt: randomness is supplied by the caller; destroying a whole KEK is not modelled.
- KeyLifecycle.DataErasureJob.Execute: the completion event, the certificate's id and time, and failures inside collaborators.
- Negotiation.EnvelopeExistsIff: the settlement fraction is an exact rational, so floating-point rounding of the floor is not modelled.
- Scripts, deployment, dashboards, metrics, logging and CRUD repositories: plumbing without behaviour worth proving.
- Strategy, goal planner, dialogue policy, prosody, health probes, load shedding, retention: finite tables that would only add easy members.
