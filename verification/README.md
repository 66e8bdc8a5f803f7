# paycloudhelper, verified

A Dafny model of the protocols and accounting algorithms inside the paycloudhelper library, with
proofs of what they guarantee over all inputs and all runs.  `dafny verify dfyconfig.toml` checks
everything.

What is sequential in the library is a class or a method here, with the fields and loops of the
original, proved against a function that the lemmas then speak about.  What is concurrent is a
step system: one step is one action on shared data (an atomic operation, a channel operation, a
Redis command, a write of a field), and a theorem about "every run" is about every sequence of
steps that are possible one after the other.  For the lock and the audit publisher the library's
functions stand beside the step system as programs: they take their own steps, any steps of
others may come in between, and their contracts say exactly which steps they have taken and tie
each answer to the states in which these were taken.  The network, the broker, clocks and
schedulers are parameters of these programs.

| file | what it is about |
|---|---|
| `RedisLock`, `RedisLockSafety`, `RedisLockExact`, `RedisLockCases`, `RedisLockDelayed`, `RedisLockDelayedCases`, `RedisLockApi` | the distributed lock with its two APIs, on Redis entries with lifetimes and clocks whose rates differ by up to one per cent |
| `AuditPublisher`, `...Safety`, `...Order`, `...Breaker`, `...Runs`, `...Tallies`, `...Cases`, `...Cooling`, `...Api` | the audit publisher: bounded queue, workers, circuit breaker, draining stop |
| `AmqpSupervisor` | the reconnect and re-init supervisor of the AMQP client |
| `AmqpPush`, `AmqpPushOnce` | `Push` by any number of callers with time, and by one caller with an honest broker |
| `Idempotency`, `IdempotencyAnswers`, `IdempotencyRuns`, `StoreTtl`, `Decimal` | the idempotency middleware, Redis lifetimes with their 64-bit wrap, `strconv.Atoi` |
| `RmqAutoConnect` | the auto-reconnecting RabbitMQ connection and what it closes |
| `RateLimit`, `Sampler`, `Logger`, `KeyedState`, `Verdicts` | the two log limiters and the lines they leave |
| `OtlpHeaders` | the parser of OTEL_EXPORTER_OTLP_HEADERS |
| `LogPrefix` | the two builders of log prefixes |
| `Runs`, `Counting`, `Arith`, `Wrappers` | runs of step systems, counting, division, Option and Result |

## What turned out differently than one might expect

- Key API of the lock.  Timely calls of `ReleaseLock` (while the caller's own lock has not expired) are enough for mutual exclusion and for "no caller removes another's entry" (`RedisLockSafety.MutualExclusionForAll`, `RedisLockSafety.RemovalIsOwn`).  They are not enough for "the handle found is the caller's own or absent": that holds exactly when the map has nothing for the key or a handle whose lock has not expired (`RedisLockExact.FindsOwnIff`), and a spent handle gets there when its caller is slow between getting its lock and `StoreMutex` (`RedisLockExact.ForeignStoreIsLate`, `RedisLockCases.SlowStoreHidesAHandle`).  Absent does happen (`RedisLockCases.NothingToFind`).
- Without timely releases a holder can lose its entry to another caller's step exactly when another `ReleaseLock` has found its handle, and from there steps lead to two holders (`RedisLockExact.TakenAwayIffFound`, `RedisLockExact.FoundLeadsToTwoHolders`, `RedisLockCases.LateReleaseBreaksExclusion`); the documented `defer ReleaseLock(key)` (docs/redis-integration.md:110) is late when the work takes longer than the lock.
- Handle API of the lock.  One token serves all tries of a call, so a clean-up of a failed try that reaches Redis only after a later try has succeeded takes the lock away again.  In every run, whatever commands are late, an event that is not its own can take a caller's entry away exactly when a compare-and-delete of that caller is on its way (`RedisLockDelayedCases.TakenAwayIffPending`), and from there events lead to two holders (`RedisLockDelayedCases.PendingLeadsToTwoHolders`, `RedisLockDelayedCases.UnsureRetryLeadsToTwoHolders`, `RedisLockDelayedCases.DelayedCleanUpBreaksExclusion`).  Exclusion holds if no caller begins another try after it has gone on without the answer to a clean-up (`RedisLockDelayed.CarefulMutualExclusion`), so with `maxRetries` of at most 1 (`RedisLockDelayed.OneTryMutualExclusion`), and whenever the network lets no SET NX of a caller overtake an earlier compare-and-delete of its own (`RedisLockDelayed.DelayedMutualExclusion`).  A late SET NX does no harm in any of them.
- `ReleaseLockWithRetry` returns nil only if the first of its commands that is carried out is also answered: when that reply is lost the lock is gone and all further attempts end in an error (`RedisLockApi.World.ReleaseLockWithRetry`).
- Circuit breaker.  A cooldown lies between any two openings (`AuditPublisherCooling.CooldownBetweenOpenings`), but not always a threshold of failures: a worker can be overtaken between its add and its compare-and-swap (`AuditPublisherCases.OpeningsCanTouch`).  Two openings are too close only when the second opener's own increment came before every reset in between (`AuditPublisherCooling.CloseOpeningsAreStale`), and an open breaker can be opened again without a further failure exactly when some worker has counted up to the threshold and not yet tried (`AuditPublisherCooling.CanReopenIffCounted`).
- `Submit` panics when `Stop` overtakes it between its two actions (`AuditPublisherCases.OvertakenSubmitPanics`), so that callers must not only not begin a `Submit` after `Stop`, but also let those under way finish (`AuditPublisherCases.GuardedNeverPanics`); once `Stop` has begun, a panic without a new `Submit` is possible exactly when one is under way (`AuditPublisherCases.CanPanicIffUnderWay`).
- `Push`.  A call that is cut short while waiting leaves a confirmation behind (`AmqpPushOnce.TimedOutPushLeavesOne`), which is never caught up with on that channel (`AmqpPushOnce.LeftoverNeverShrinks`): from then on a nil return is about an earlier publish, as far back as there are confirmations left over, of this call or of another (`AmqpPushOnce.NilLagsBehind`).  A nil return is sure to be true exactly when nothing was left over (`AmqpPushOnce.NilIsTrueIffClean`).
- Idempotency.  A session of 9223372037 seconds is stored for ever and one of 18446744074 seconds for 0.29 seconds (`StoreTtl.WrappedTtl`).  A write to Redis whose reply is lost makes whatever arrives under that key within the lifetime be answered 202, although nothing was let through (`IdempotencyRuns.LostReplySilencesTheKey`).  In every run, whatever fails, a 202 goes back to an earlier request with the same body that was let through or was told of a failure, and it was let through exactly when some request with the key has been and its lifetime has not passed (`IdempotencyRuns.AcceptedHasAnOrigin`).
- `rMqAutoConnect`.  A list that a user gives to `DeclareQueues` between the unlocked read at rmq-autoconnect.go:269 and the lock is lost (`RmqAutoConnect.RMqAutoConnect.Redeclare`).
- A prefix chain equals the prefix of the concatenated fields exactly when its last list is not a lone key added to other fields (`LogPrefix.ChainIsConcatenation`); a dangling key further in front is dropped by one builder and paired with the next key by the other (`LogPrefix.DanglingKeyInTheMiddle`).
- Documentation against code: README.md:161 says that all log functions are sampled, but `LogE` and `LogF` never are; phlogger/sampler.go:20 says that sampling is off for `develop`, but phlogger/sampler.go:35-36 samples 20/20.  The model follows the code.

## Model

| member | source | states |
|---|---|---|
| RedisLockSafety.MutualExclusion | redis.go:634-666 | in every run, with any processes, late or early users of the other API, lost commands and lost replies, no two handles returned for one key are both before acquire start + ttl - drift |
| RedisLockSafety.MutualExclusionForAll | redis.go:536-623 | in runs whose `ReleaseLock` calls are timely the same holds for holders of either API, up to the moment they unlock |
| RedisLockSafety.DriftCoversTheRate | redis.go:552 | the truncated one per cent taken off the ttl covers a server clock that gains one part in a hundred, to the nanosecond |
| RedisLockSafety.DeadlineIsExact | redis.go:552 | and no more: a caller is before its deadline if and only if no server clock within that rate can have counted the lock to its end |
| RedisLockSafety.OnlyItsTokenRemoves | redis.go:671-696 | from any state at all, no step removes or rewrites a live key except a compare-and-delete that carries the token it was set with |
| RedisLockSafety.ReleaseLockFinds | redis.go:584-593 | a timely lookup finds the caller's own handle, nothing, or a spent handle of the same key; the last never when stores are timely too |
| RedisLockExact.FindsOwnIff | redis.go:584-593 | a timely lookup finds the caller's own handle or nothing if and only if the map has nothing for the key or a handle whose lock has not expired |
| RedisLockExact.ForeignStoreIsLate | redis.go:577-578 | whoever puts a handle over that of a holder does so after its own lock has expired, and then the holder's timely lookup finds that handle |
| RedisLockExact.TakenAwayIffFound | redis.go:584-599 | in any run at all, another caller's step can take a holder's entry away if and only if another `ReleaseLock` has found its handle |
| RedisLockExact.FoundLeadsToTwoHolders | redis.go:584-599 | and from every such state steps lead to two holders before their deadlines, unless the entry has already given way to another's |
| RedisLockSafety.RemovalIsOwn | redis.go:584-623 | with timely releases a live key is removed only by the caller that set it |
| RedisLockSafety.WritesDoNotOverlap | redis.go:451-480 | two writes of `StoreRedisWithLock` to one id that end before their deadlines are never under way at once |
| RedisLockSafety.StepKeeps | redis.go:536-696 | every step of every caller, of the server and of the clocks keeps the invariant behind these theorems |
| RedisLockSafety.InvOfRun | redis.go:536-696 | so every state of every run has it |
| RedisLockCases.LateReleaseBreaksExclusion | redis.go:584-599 | a late `ReleaseLock` unlocks the present holder's lock: two holders before their deadlines |
| RedisLockCases.SlowStoreHidesAHandle | mutex.go:15-19 | with timely releases but a late `StoreMutex` a timely lookup finds another caller's handle |
| RedisLockCases.NothingToFind | redis.go:619 | with everything timely a lookup may find nothing while the lock is in force, because unlocking and removing from the map are two steps |
| RedisLockDelayed.DelayedMutualExclusion | redis.go:634-696 | exclusion of the handle API when SET NX and compare-and-delete commands may reach Redis after their call has gone on, provided that no SET NX of a caller that still waits for it takes effect while a compare-and-delete of the same token is on its way; the exact condition in a given state is TakenAwayIffPending |
| RedisLockDelayed.CarefulIsOrdered | redis.go:640-654 | if no caller begins a try after it has gone on without the answer to a clean-up, every run keeps to that order, however late commands are |
| RedisLockDelayed.CarefulMutualExclusion | redis.go:634-696 | so with that care, which is the caller's own, exclusion holds whatever the network does |
| RedisLockDelayed.OneTryMutualExclusion | redis.go:640-654 | and so it does with `maxRetries` of at most 1 |
| RedisLockDelayed.AdvanceKeeps | redis.go:634-696 | every step and every late arrival in that order keeps the invariant behind exclusion |
| RedisLockDelayed.SaneOfRun | redis.go:634-696 | in every run, in any order, tokens differ, every compare-and-delete on its way is some caller's own, and what `ReleaseLock` has found is of the key API |
| RedisLockDelayedCases.TakenAwayIffPending | redis.go:640-654 | in every run, whatever is late, an event that is not its caller's own can take an entry of the handle API away if and only if a compare-and-delete of that caller is on its way |
| RedisLockDelayedCases.PendingLeadsToTwoHolders | redis.go:640-654 | and from every such state before the deadline events lead to two holders, unless the entry has already given way to another's |
| RedisLockDelayedCases.UnsureRetryLeadsToTwoHolders | redis.go:640-654 | from every state in which a try has failed and the key is free: if its clean-up is late and the caller tries again, events lead to two holders |
| RedisLockDelayedCases.DelayedCleanUpBreaksExclusion | redis.go:640-654 | so a run from the beginning reaches two holders |
| RedisLockApi.World.LockContext | redis.go:560 | exactly its tries one after the other, with one token; it fails only after all of them, and succeeds if and only if its last try does; undisturbed, on a free key, it holds the lock if the first command that gets through is answered, and on a key taken by another it fails |
| RedisLockApi.World.Try | redis.go:654 | a try gets the lock if and only if its command was carried out and answered, found the key free, and was concluded before the deadline; otherwise a clean-up that is carried out leaves no lock of its own |
| RedisLockApi.World.AcquireLockWithRetry | redis.go:634-666 | the same of its `maxRetries` tries: held, or failed after all of them |
| RedisLockApi.World.ReleaseLockWithRetry | redis.go:671-696 | whatever others do and the network loses: it sends only the compare-and-delete of its own token, at most `maxRetries` times; nil if and only if its last one was carried out and answered and found the token, which then was the first carried out; an error only after all attempts; the lock is gone once one was carried out |
| RedisLockApi.World.SendUnlock | redis.go:680 | the answer says whether the token was there, and afterwards it is not |
| RedisLockApi.GoneStays | redis.go:680-689 | once a caller that is done trying has no lock in Redis, nobody can bring it back |
| RedisLockApi.World.AcquireLock | redis.go:536-582 | the same of its tries; on success its last action was to put its own handle into the map of its process |
| RedisLockApi.World.ReleaseLock | redis.go:584-623 | its actions are exactly lookup, unlock of what was found, removal, as far as its result says; no mutex if and only if the map had nothing in the state of the lookup, unlocked if and only if the unlock was carried out and answered and the found handle's token was there, and then the map is without it |
| RedisLockApi.World.UnlockMutex | redis.go:595-622 | the part after the lookup, with its result told by the state in which the unlock was carried out |
| RedisLockApi.World.StoreRedisWithLock | redis.go:451-480 | data is written between acquire and release, which always follows, if a try gets the lock; not at all if none of its tries does |
| AuditPublisherRuns.NothingIsLost | audittrail_publisher.go:125-191 | in every interleaving submitted = about to send + dropped open + dropped full + queued + in flight + not ready + marshal failed + push failed + pushed; the queue never exceeds its size |
| AuditPublisherTallies.TalliesAreExact | audittrail_publisher.go:135-191 | in every run each count is that of the steps it stands for: dropped open is the loads that found the breaker open, dropped full and accepted are the sends by the room in the queue, and so on |
| AuditPublisherTallies.OpenMeansDropped | audittrail_publisher.go:137-143 | a call that has found the breaker open never sends, unless it is begun anew |
| AuditPublisherTallies.SendsWereLoaded | audittrail_publisher.go:137-143 | every send is of a call whose last action before was to find the breaker closed, with its payload |
| AuditPublisherTallies.OpeningsAreExact | audittrail_publisher.go:195-201 | the breaker opens once for every time a worker that has counted up to the threshold finds it closed, and never else; every failure is counted |
| AuditPublisherRuns.PushedAtMostOnce | audittrail_publisher.go:162-191 | every message handed to `PushWithTTL` was accepted, has the payload it was submitted with, and is handed over once |
| AuditPublisherRuns.OneWorkerPushesInOrder | audittrail_publisher.go:162-167 | with one worker pushes follow the order of acceptance |
| AuditPublisherRuns.StopDrains | audittrail_publisher.go:151-158 | when `Stop` returns after `Start` nothing is queued or in flight and every accepted message is accounted for |
| AuditPublisherRuns.OneCloserAtMost | audittrail_publisher.go:195-213 | open breaker = winners before `go` + cooldowns under way + cooldowns that left through `done`; so at most one cooldown, and before `Stop` an open breaker has exactly one goroutine to close it |
| AuditPublisherCases.OpenBreakerCanClose | audittrail_publisher.go:204-213 | from every reachable state with an open breaker before `Stop`, steps of its closer alone lead to a closed one |
| AuditPublisherRuns.OpeningsAreEarned | audittrail_publisher.go:189-201 | the counter is the failures since the last success or cooldown in the order of the atomic operations, and every opening belongs to an own increment that returned at least the threshold |
| AuditPublisherCooling.CooldownBetweenOpenings | audittrail_publisher.go:195-213 | in every interleaving of the atomic operations a cooldown has zeroed the counter between any two openings |
| AuditPublisherCooling.FreshOpeningsLieApart | audittrail_publisher.go:195-201 | if the second opener's own increment comes after a reset that lies between two openings, then at least threshold failures lie between them |
| AuditPublisherCooling.CloseOpeningsAreStale | audittrail_publisher.go:195-213 | so openings are closer only if the second opener's own increment came before the cooldown, and every other reset, between them |
| AuditPublisherCooling.CanReopenIffCounted | audittrail_publisher.go:195-201 | before `Stop` an open breaker can be opened again without a further failure if and only if some worker has counted up to the threshold and not yet tried |
| AuditPublisherCooling.CoolingStep | audittrail_publisher.go:195-213 | every single step keeps cooldowns between openings |
| AuditPublisherCases.OpeningsCanTouch | audittrail_publisher.go:195-201 | a reachable state with two openings and no failure between them, because a worker was overtaken between its add and its compare-and-swap |
| AuditPublisherCases.GuardedNeverPanics | audittrail_publisher.go:135-158 | if no `Submit` is begun or under way once `Stop` begins, nothing is sent on the closed channel |
| AuditPublisherCases.CanPanicIffUnderWay | audittrail_publisher.go:142-154 | from any state in which `Stop` has begun, a panic without a new `Submit` can be reached if and only if a `Submit` is under way |
| AuditPublisherCases.OvertakenSubmitPanics | audittrail_publisher.go:142-154 | without that guard a reachable state has panicked |
| AuditPublisherSafety.ConservedStep | audittrail_publisher.go:125-191 | every single step keeps the message account and the bound of the queue |
| AuditPublisherSafety.TokenStep | audittrail_publisher.go:195-213 | every single step keeps the account of the breaker |
| AuditPublisherSafety.ExitsStep | audittrail_publisher.go:151-167 | workers leave only when the channel is closed and empty |
| AuditPublisherOrder.MessagesStep | audittrail_publisher.go:142-167 | every single step keeps each message in one place with its payload |
| AuditPublisherOrder.OrderStep | audittrail_publisher.go:162-167 | every single step keeps the order of a lone worker's pushes |
| AuditPublisherBreaker.HistoryStep | audittrail_publisher.go:189-211 | every single step keeps counter and openings true to the history |
| AuditPublisherApi.Publisher.Submit | audittrail_publisher.go:135-147 | dropped as open if and only if the breaker was open in the state of its load; else panic, accepted or dropped as full by the channel in the state of its send; with its one or two actions and the state that goes with each fate |
| AuditPublisherApi.Publisher.RecordFailure | audittrail_publisher.go:195-201 | add, test and compare-and-swap, `go` only if it opened; it opens the breaker if and only if its own count has reached the threshold and the breaker was closed in the state of its compare-and-swap |
| AuditPublisherApi.Publisher.ProcessMessage | audittrail_publisher.go:170-191 | the actions of each of its exits, which the client and the encoder choose; the message is handed over exactly on the exits after marshalling |
| AuditPublisherApi.Publisher.AfterPush | audittrail_publisher.go:182-190 | a failed push is recorded, a successful one zeroes the counter |
| AuditPublisherApi.Publisher.Work | audittrail_publisher.go:162-167 | in each round it receives and processes as its client and encoder have it, or has seen the channel open and empty, or leaves at a closed and empty one |
| AuditPublisherApi.Publisher.CooldownReset | audittrail_publisher.go:204-213 | timer, counter to zero, breaker closed, in this order; it leaves instead if and only if `done` was closed and its select took that |
| AuditPublisherApi.Publisher.Start | audittrail_publisher.go:125-131 | as many workers more as configured, all at their receive |
| AuditPublisherApi.Publisher.Stop | audittrail_publisher.go:151-158 | done and channel are closed once, in this order; it returns at the first look at which all workers have left, and then after `Start` everything is drained |
| AmqpSupervisor.AmqpClient.constructor | amqp.go:196-204 | a new client is not ready |
| AmqpSupervisor.AmqpClient.ChangeConnection | amqp.go:403-407 | connection and its close listener, with every moment in between good |
| AmqpSupervisor.AmqpClient.ChangeChannel | amqp.go:411-417 | channel and its two listeners, with every moment in between good; then the client is usable |
| AmqpSupervisor.AmqpClient.Init | amqp.go:349-399 | succeeds exactly when the broker lets it; then readiness has begun once, with the channel opened last, otherwise no field has changed |
| AmqpSupervisor.AmqpClient.DeclareOnFreshChannel | amqp.go:364-390 | after a failed passive declare the queue is declared on a channel that has not seen one |
| AmqpSupervisor.AmqpClient.Connect | amqp.go:253-263 | a new connection with its listener, still not ready |
| AmqpSupervisor.AmqpClient.HandleReInit | amqp.go:268-319 | readiness begins exactly as often as a round gone through succeeds; left for shutdown or for a new dial exactly by the first such event, out of the state that the last init has led to |
| AmqpSupervisor.AmqpClient.HandleReconnect | amqp.go:211-250 | readiness begins exactly as often as a round gone through on any connection succeeds; and at every moment: ready exactly while watching, and then the channel was opened on the current connection, confirms, saw no failed passive declare, and all listeners belong to these objects |
| AmqpSupervisor.ReadyIffARoundSucceeds | amqp.go:211-319 | so the client is ever ready if and only if some round that is gone through succeeds |
| AmqpSupervisor.ReadyIsLasting | amqp.go:392-417 | throughout a stretch of readiness nothing that users read changes and all of it is usable |
| AmqpSupervisor.ReplacedOnlyWhenUnready | amqp.go:220-222 | when any field other than the flag changes, the client says that it is not ready |
| AmqpPush.NilsAreAcknowledged | amqp.go:443-447 | over any number of concurrent calls and replaced or closed confirmation channels, nil returns never exceed positive confirmations delivered |
| AmqpPush.AcksStep | amqp.go:443-447 | every acknowledgement is one nil return or lies in a buffer |
| AmqpPush.PushIsBounded | amqp.go:430-454 | at most `PushMaxRetries` publishes, and over within `PushTimeout` + `PushMaxRetries` times the longest own publish |
| AmqpPush.ResultsAreDue | amqp.go:430-454 | every result is due: exhausted after all attempts only, timed out at or after the deadline only, shut down only when the client is, not connected before any publish |
| AmqpPush.NotConnectedIsExact | amqp.go:423-427 | exactly the calls begun while the client is not ready are told that there is no connection |
| AmqpPush.ResendsAreDelayed | amqp.go:433-441 | after a failed publish the next attempt comes no sooner than the delay, and only if attempts are left |
| AmqpPush.SomeCallCanGoOn | amqp.go:434-452 | time is never stuck: if it may not pass, a waiting call can act |
| AmqpPushOnce.AmqpClient.Push | amqp.go:422-455 | the loop does what the function `Outcome` says, of which the next rows speak |
| AmqpPushOnce.CleanPushIsExact | amqp.go:422-455 | with no confirmation left over: nil means accepted exactly once, exhausted means never, and nothing is left over unless cut short |
| AmqpPushOnce.FirstDecides | amqp.go:431-453 | the call ends at its first attempt that waits in vain or receives a positive confirmation, with the result of that attempt and one publish for each attempt that sends |
| AmqpPushOnce.ExhaustedIffNoneDecides | amqp.go:431-454 | it gives up if and only if none of its attempts does, having gone through all of them |
| AmqpPushOnce.NilIsTrueIffClean | amqp.go:443-447 | a nil return stands for this message in all circumstances if and only if nothing was left over before |
| AmqpPushOnce.LeftoverNeverShrinks | amqp.go:443-453 | a call leaves what was left over, and one more if and only if it is cut short in an attempt that has sent; it adds its own message only, at most once per attempt |
| AmqpPushOnce.NilLagsBehind | amqp.go:443-447 | a nil return is about the publish that lies as many places before the call's last one as there were confirmations left over |
| AmqpPushOnce.TimedOutPushLeavesOne | amqp.go:443-453 | on any link, also a new one, a call that times out waiting for its first confirmation leaves one more, and then a nil return of a later call is no longer sure to be true |
| AmqpPushOnce.NothingLeftBetweenCalls | amqp.go:422-455 | as long as no call was cut short nothing is left over between calls |
| AmqpPushOnce.AnswersAreTrue | amqp.go:422-455 | so in such a run of calls every answer is the truth about its own message |
| StoreTtl.StoredTtlIsExact | redis.go:394-404 | the stored lifetime is min(seconds, maximum) if and only if the nanoseconds fit into 64 bits or wrap to beyond the maximum |
| StoreTtl.StoredTtlIsEnough | redis.go:394-404 | for sessions of 4 to 9223372036 seconds it is that minimum and at least 4 seconds |
| StoreTtl.WrappedTtl | idempotency-key.go:122 | the first session that wraps never expires, a longer one expires within a third of a second |
| StoreTtl.MaxTtlIsExact | redis.go:381-390 | the limit is the configured minutes if and only if these are at most 153722867 |
| StoreTtl.WrappedLimitNeverExpires | redis.go:400-402 | a limit that wraps below zero makes every key permanent |
| StoreTtl.WrapIsExact | redis.go:389 | a duration is what was computed exactly when it fits |
| Decimal.AtoiOfDigits | idempotency-key.go:56 | digits with any leading zeros are read as the number they write, exactly when it fits into 64 bits |
| Idempotency.SessionOfDigits | idempotency-key.go:51-66 | a Session header in digits stands for its number of seconds, for 9 below 4, and is refused beyond 64 bits |
| Idempotency.SessionIsLongEnough | idempotency-key.go:51-66 | every accepted session is of at least four seconds |
| Idempotency.Middleware.VerifIdemKey | idempotency-key.go:22-144 | the handler's branches amount to the one function `Handle`, of which the next rows and those of the runs speak |
| IdempotencyAnswers.AnswerIsExact | idempotency-key.go:39-142 | each of the six answers is given if and only if it is due by headers, body, hash, what Redis holds and how the accesses fare, for every content type and payload |
| IdempotencyAnswers.CheckIsExact | idempotency-key.go:39-87 | a key mismatch if and only if the headers fit and the body is read, decoded and minified and its hash is not the key; a server error if and only if one of these fails; and what passes is that body |
| IdempotencyAnswers.MatchingBodyIsForwarded | idempotency-key.go:107-142 | a body that matches its free key is let through by a confirmed write of its payload, or of the header for JSON `null`, for its session |
| Idempotency.Middleware.GetRedis | redis.go:483-509 | data, absence and failure as the handler tells them apart |
| Idempotency.Middleware.StoreRedis | redis.go:409-428 | the clamped lifetime is stored, unless the write is refused |
| IdempotencyRuns.ForwardedAtMostOnce | idempotency-key.go:89-142 | in every run, whatever reads and writes fail, no two requests with one key are let through within the lifetime stored for the first |
| IdempotencyRuns.LifetimeIsAsAsked | idempotency-key.go:114-122 | that lifetime is min(session, maximum) and at least four seconds, for sessions that fit |
| IdempotencyRuns.AcceptedHasAnOrigin | idempotency-key.go:93-128 | in every run, whatever reads and writes fail, and with a collision-free hash: a 202 goes back to an earlier request with the same key and body, whose lifetime has not passed and whose stored data it carries; that one was let through or was answered with a server error, and it was let through if and only if some request with this key was whose lifetime has not passed |
| IdempotencyRuns.AcceptedAsADuplicate | idempotency-key.go:93-105 | so when the writes for this key were confirmed, whatever happens to other keys, it was let through |
| IdempotencyRuns.ForwardedExactlyWhenFree | idempotency-key.go:89-142 | if the writes for its key were confirmed, a request that passes its checks and reaches Redis is let through if and only if all lifetimes of its predecessors have passed |
| IdempotencyRuns.LostReplySilencesTheKey | idempotency-key.go:122-128 | from any state in which the key is free: if a write is executed and its reply lost, the request is answered with a server error, and whatever arrives under its key within the lifetime and passes its checks is answered 202 |
| IdempotencyRuns.NullBodyStoresTheHeader | idempotency-key.go:112-120 | JSON `null` is let through only with its own hash as its key, stores the header, and its repetition is answered with the header |
| IdempotencyRuns.TwoAtOnceAreBothForwarded | idempotency-key.go:90-122 | two requests that both look before either stores are both let through |
| RmqAutoConnect.RMqAutoConnect.ResetLocked | rmq-autoconnect.go:63-72 | what is held is closed once and let go; then all is closed |
| RmqAutoConnect.RMqAutoConnect.Connect | rmq-autoconnect.go:74-139 | after any number of failed dials, with users coming in: success holds one open connection and channel, failure holds and leaves open nothing; the waiting is the closed form of its delays |
| RmqAutoConnect.RMqAutoConnect.Establish | rmq-autoconnect.go:115-137 | the part after the successful dial |
| RmqAutoConnect.RMqAutoConnect.DeclareQueues | rmq-autoconnect.go:141-171 | the list is remembered and declared in order on the held channel up to the first refusal; success exactly when there is a channel and no refusal |
| RmqAutoConnect.AttemptsStopAtTheFirstRefusal | rmq-autoconnect.go:151-167 | no attempt before the last is refused, and short of all the last one is |
| RmqAutoConnect.RMqAutoConnect.Redeclare | rmq-autoconnect.go:269-271 | the list survives the reconnect unchanged; it is what the users want last if and only if nobody gave another list in between |
| RmqAutoConnect.RMqAutoConnect.Recover | rmq-autoconnect.go:257-272 | one reconnect: one more dial, nothing closed twice, and without users the queues are redeclared in order up to the first refusal |
| RmqAutoConnect.RMqAutoConnect.ReconnectLoop | rmq-autoconnect.go:235-279 | ends only when cancelled; it dials once for every close of a connection it holds before that, and holds one afterwards if and only if the last of them succeeded |
| RmqAutoConnect.DialsPerClose | rmq-autoconnect.go:251-266 | so as often as the connection closes, if every channel opens |
| RmqAutoConnect.RMqAutoConnect.Stop | rmq-autoconnect.go:173-187 | everything is closed, once |
| RmqAutoConnect.RMqAutoConnect.Session | rmq-autoconnect.go:208-221 | from `startConnection` through as many reconnects as there are closes to the end of `stop`: at every moment nothing was closed twice and all that is open is held; at the end everything dialed and opened was closed once |
| RateLimit.RateLimiter.Check | phlogger/ratelimit.go:34-54 | the map of entries and the answer are those of one step on the entry of this key alone |
| RateLimit.OneKeyConservation | phlogger/ratelimit.go:34-54 | calls = lines + counts reported with them + the pending counter |
| RateLimit.OneKeyReportIsExact | phlogger/ratelimit.go:44-53 | a reported count is exactly the calls dropped since the line before |
| RateLimit.Conservation | phlogger/ratelimit.go:34-54 | both for every key of a run over any keys, windows and clock readings |
| RateLimit.WithoutWindowAllPass | phlogger/ratelimit.go:35-37 | in every run a call without a window is let through, reports nothing and leaves no trace |
| RateLimit.LimiterIsGreedy | phlogger/ratelimit.go:44-53 | with a single window the limiter lets through exactly the greedy choice |
| RateLimit.GreedyIsSpaced | phlogger/ratelimit.go:44-53 | which lies a window apart |
| RateLimit.GreedyStaysAhead | phlogger/ratelimit.go:44-53 | and is never overtaken by any other spaced choice |
| RateLimit.GreedyIsOptimal | phlogger/ratelimit.go:34-54 | so the lines of a key are a window apart and no selection of the same calls with that spacing is larger |
| KeyedState.KeysAreIndependent | phlogger/sampler.go:86-88 | what a key is answered amid all others is what a limiter fed with this key's calls alone would answer |
| Sampler.Sampler.Check | phlogger/sampler.go:81-114 | the map of entries and the answer are those of one step on the entry of this key alone |
| Sampler.InitializeSampler | phlogger/sampler.go:68-73 | a fresh sampler; one that samples has a positive period, and nothing else of its configuration is touched |
| Sampler.DisabledLetsAllThrough | phlogger/sampler.go:82-84 | switched off, it lets every call of every run through, reports nothing and keeps nothing |
| Sampler.PeriodClosedForm | phlogger/sampler.go:90-113 | in any period of any run, the n calls from a reset on give min(n, I) + (n - I)/T lines and report (T - 1) for each of the latter |
| Sampler.PeriodSplits | phlogger/sampler.go:105-112 | n = lines + reported + rest with 0 <= rest < T |
| Sampler.PeriodWithoutThereafter | phlogger/sampler.go:100-107 | without Thereafter the lines of any period of any run are exactly its first Initial calls |
| Sampler.FirstAfterAPeriod | phlogger/sampler.go:90-96 | in any run a call that comes a period or more after all earlier ones of its key is let through and begins a period |
| Sampler.WholeRunAccounting | phlogger/sampler.go:90-113 | over a whole run n = lines + reported + rest + lost at resets, and at most T - 1 are lost per later reset |
| Sampler.LostAtResets | phlogger/sampler.go:92-96 | the bound on what the resets lose |
| Sampler.Accounting | phlogger/sampler.go:81-114 | the same for every key of a run over any keys |
| Sampler.RateBound | phlogger/sampler.go:81-114 | without Thereafter any stretch of length L sees at most I * (L/P + 2) lines of a key, whatever other keys do |
| Logger.Logger.Write | phlogger/phlogger.go:207-217 | the line of an allowed statement, with the count appended when there is one, or no line |
| Logger.Logger.LogSampled | phlogger/phlogger.go:207-217 | sampled under the caller's key |
| Logger.Logger.Log | phlogger/phlogger.go:66-102 | sampled under the format string |
| Logger.ErrorsAreNeverDropped | phlogger/phlogger.go:104-118 | in every run of log calls of all kinds the lines of `LogE` and `LogF` are all there, as their callers wrote them and in their order |
| Logger.ErrorLinesAreTheErrors | phlogger/phlogger.go:104-118 | and when no other function logs at these levels, they are exactly the lines at these levels |
| Logger.ErrorsLeaveTheLimiters | phlogger/phlogger.go:104-118 | they do not touch the limiters: all other calls find them as if there had been no errors |
| Logger.LinesAreTheCallers | phlogger/phlogger.go:66-230 | in every run of log calls of all kinds each line is one of the statements, in their order, with its level, format and arguments as its caller wrote them, or that with the suffix and a positive count behind |
| Logger.UnlimitedRunIsComplete | phlogger/phlogger.go:66-230 | with the sampler switched off and no windows every statement leaves exactly its own line |
| Logger.Logger.LogWindowed | phlogger/phlogger.go:220-230 | limited by the window |
| Logger.LinesShowTheAnswers | phlogger/phlogger.go:207-230 | the lines are as many as were allowed, and show the counts that were reported |
| Logger.WindowedRunAccount | phlogger/phlogger.go:220-230 | in every run of log calls of all kinds: every windowed statement under a key left a line of the run, is in a count that such a line shows, or is pending |
| Logger.SampledRunAccount | phlogger/phlogger.go:207-217 | the same for sampled statements, up to what the sampler's resets lose, which is at most T - 1 at each |
| OtlpHeaders.ReadEntry | phtrace/config.go:289-306 | the checks of one entry in their order, as `ParseEntry` says |
| OtlpHeaders.ParseOTLPHeaders | phtrace/config.go:282-313 | the loop returns what `Parse` says |
| OtlpHeaders.ParseIsExact | phtrace/config.go:282-313 | an ASCII text is accepted if and only if blank, or every entry is good and no key repeats; then exactly the entries; otherwise the error of the first entry at which this fails |
| OtlpHeaders.FaultIsExact | phtrace/config.go:290-306 | an ASCII entry with an equals sign has each fault if and only if its two sides have it, in the order of the checks; the error tells position, fault and key and has no place for the value; otherwise it is the trimmed lower-case key with the decoded value |
| OtlpHeaders.NoEqualsIsExact | phtrace/config.go:290-295 | and one without is told that it has none |
| OtlpHeaders.DecodesIffEscaped | phtrace/config.go:300-303 | a text decodes if and only if every percent sign is followed by two hexadecimal digits |
| OtlpHeaders.AcceptedIsValid | phtrace/config.go:317-327 | what the parser accepts of ASCII texts passes the checks for headers set in code |
| OtlpHeaders.ParsedMapsAreTheValidOnes | phtrace/config.go:278-327 | a map passes those checks if and only if some ASCII text parses to it |
| OtlpHeaders.EncodeRoundTrip | phtrace/config.go:300-303 | percent-encoding of all but the unreserved bytes is undone |
| OtlpHeaders.EntryRoundTrip | phtrace/config.go:289-306 | an entry written in ASCII, in any letter case, encoding and padding, parses to its header |
| OtlpHeaders.StandardWrites | phtrace/config.go:289-306 | the standard encoding is one of these ways |
| OtlpHeaders.RoundTrip | phtrace/config.go:282-313 | for every valid map, any order of entries and any such way of writing them, the parser returns exactly that map |
| LogPrefix.NewLogContext | phlogger/context.go:27-46 | the loop builds the prefix of its fields |
| LogPrefix.With | phlogger/context.go:56-67 | merges by cutting two characters and one |
| LogPrefix.OpenPrefix | phtrace/log.go:46-68 | the bracket and the trace fields of the span |
| LogPrefix.BuildPrefix | phtrace/log.go:45-80 | the prefix of the trace fields followed by the fields |
| LogPrefix.WithIsConcatenation | phlogger/context.go:56-67 | merging gives the prefix of all fields if and only if one list is empty or the second is not a lone key |
| LogPrefix.EvenChain | phlogger/context.go:56-67 | a chain of even lists has the prefix of their concatenation |
| LogPrefix.ChainIsConcatenation | phlogger/context.go:27-67 | with any last list, if and only if that is not a lone key added to other fields |
| LogPrefix.DanglingKeyInTheMiddle | phlogger/context.go:56-67 | a dangling key before the last list makes the two differ |
| LogPrefix.BuildersAgree | phtrace/log.go:45-80 | the two builders give the same text without a span, and with one the text with trace_id and span_id first |
| LogPrefix.ChainsAgree | phtrace/log.go:132-153 | the same for chains of `WithFields` and `With`, if and only if the last list is not a lone key added to other fields |

## Left out

- redsync, go-redis, amqp091: only set-if-absent with expiry, compare-and-delete, set, get, and what the text above says of connections, channels and listeners. Redis lifetimes are exact in nanoseconds here; the client rounds them to milliseconds.
- RedisLockDelayed.DelayedMutualExclusion: late commands of both APIs are there, but the guarantee is that of the handle API; what the key API promises is stated without late commands, in RedisLockSafety and RedisLockExact.
- The lazy start of the pool and of redsync, and with it any claim that a lock call returns.
- RedisLockApi.World.AcquireLock: contention and faults are one failure here; the error values are not modelled. The value that `StoreRedisWithLock` writes and its error are not either.
- RedisLockApi.World.LockContext: how the library spaces its tries and cuts them by its context; the number of tries is a parameter, delays are time that others' steps take.
- IdempotencyRuns.ForwardedAtMostOnce: each request is one step, as TwoAtOnceAreBothForwarded shows it must be; other writers of the same Redis keys are not modelled.
- IdempotencyRuns.AcceptedHasAnOrigin: what the 202 carries is the decoded stored text; that the JSON library decodes into the map of the current request is not modelled. MD5, JSON and the form binding are arbitrary functions.
- IdempotencyRuns.BodylessRequestTakesTheKey: concerns only a caller that sets `Body` to nil itself (idempotency-key.go:71-87), which a net/http server never does; the theorems on 202 exclude such requests with the same key.
- The validator library: the rules for the two headers are written out for ASCII text; X-Request-ID is not modelled.
- OtlpHeaders.ParseIsExact and OtlpHeaders.RoundTrip: texts as written are ASCII, because Go trims and lower-cases by Unicode; values may be any bytes once they are percent-encoded. Characters stand for bytes.
- RateLimit.RateLimiter.Check and Sampler.Sampler.Check: one call at a time, since `lastEmit` is not synchronised; int64 counters do not overflow, and a time difference does not saturate.
- AuditPublisherApi: panics elsewhere in the process are left aside, since they end it; two callers inside `stopOnce` at once are not modelled. `maxRetries` and `pushTimeout` are never used by the library.
- AuditPublisherRuns.OpeningsLieApart: a threshold of failures between any two openings, were `recordFailure` (audittrail_publisher.go:195-201) one step, which it is not in the code; what holds of the code is in AuditPublisherCooling.
- AmqpSupervisor.AmqpClient.HandleReconnect: nothing is claimed after `Close`, which may race with the close notification; the reuse of the delay timer is not modelled.
- AmqpPush.PushIsBounded: waits end as soon as they can; scheduling delays are not modelled, and `PushMaxRetries` and `PushTimeout` do not change during a run.
- RmqAutoConnect.RMqAutoConnect.Session: one `startConnection`, and `stop` after it has returned; a broker that never answers keeps `connect` for ever and has no end to state anything about. After a channel that fails to open the loop only polls (rmq-autoconnect.go:242-249), so no liveness is claimed.
- Consuming, health checks, configuration and environment loading, JWT and CSRF middleware, response helpers, Sentry, phdb, pcauth, transaction traces, the keyed limiter: single decisions or wrappers.
- The sdk tree, generated code, scripts and build files.
