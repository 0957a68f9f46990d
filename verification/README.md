# A verified model of the message queue's decision logic

The system is a message queue on top of Redis. Its Go code decides which queues a message is
routed to, who holds the worker lock, which configuration version wins, when a message is next
due, how often a failing message is retried, and under which Redis key everything lives. This
project models those decisions in Dafny and proves what they guarantee: over every interleaving
of clients, every timed run, every sequence of calls, and every input.

| file | component |
|---|---|
| `Text.dfy` | joining, cutting, decimal printing and parsing of text |
| `Keys.dfy` | name validation, the key builder, all key families |
| `Topic.dfy` | topic patterns: the matcher and its meaning, pattern validation |
| `ExchangeIndex.dfy` | bind, unbind, create and delete on the binding index, one at a time |
| `ExchangeCommit.dfy` | what a commit does apart from the checks before it, and replaying commits |
| `ExchangeRace.dfy` | the operations as WATCH/EXEC transactions of any number of clients, and their invariant |
| `ExchangeRuns.dfy` | what every interleaving guarantees |
| `ExchangeAnomaly.dfy` | runs, from the empty database, in which a stronger promise is broken |
| `ConfigReplica.dfy` | managers replicating one versioned configuration record |
| `LeaseLock.dfy` | the worker lock as a timed lease protocol |
| `Schedule.dfy` | delay, cron and repeat scheduling; the message state |
| `StateCodec.dfy` | the two encoders of message state and their common decoder |
| `EnvelopeCodec.dfy` | storing and loading an envelope between scheduling calls |
| `QueueState.dfy` | the operational state of a queue under concurrent clients |
| `GroupCache.dfy` | the producer's cache of consumer groups |
| `GroupWalk.dfy` | a publisher walking the cache's own slice of groups while it changes |
| `Fanout.dfy` | matching queues and exactly-once dispatch |
| `BatchAck.dfy` | the batch acknowledger |
| `Retry.dfy` | the unacknowledgement cascade and the number of deliveries |

`dafny verify dfyconfig.toml` checks the whole project.

## How the model is built

Redis is a map from structured keys to sets; `Keys.RenderInjective` is what justifies using
structured keys instead of their text. A WATCH transaction is a sequence of separate reads, a
note kept by the server that a watched key was touched, and an EXEC that commits or aborts. An
SADD of a present member touches nothing; an HSET always counts as a touch. Lost requests, lost
replies and failed reads are steps of their own.

Objects whose methods update fields are classes, and loops are loops. Each such method is tied to
a specification function or to the steps of a machine, and the theorems are about those functions
and about runs of those machines. Bodies use `hide` statements to keep the solver on the facts it needs.

Assumptions about code outside the model: the save, lock and state scripts do what their callers'
comments and reply handling say; JSON parameters round-trip; the cron library and the clock are
arbitrary readings, constrained only where a theorem says so; queue names in the store were
validated when they were written.

## Properties that do not hold, and exactly when they do

- A call that returned an error has committed nothing, if and only if its connection was not lost
  between EXEC and the reply (`CallsCommitOnce`). `LostReplyCommits` is such a run.
- The stored type of an existing exchange changes, other than by deletion, exactly when a bind of
  another type commits whose read of the properties failed: `Load` reports every error as "not
  found" (`TypeChangesIff`). `FailedLoadOverwritesType` is such a run. The routing-key registry is
  exact in these runs too; the catalogues of exchanges are exact if and only if no type has been
  overwritten (`TypesExactUntilOverwrite`).
- The per-queue list of exchanges is exact in every serial run. Under interleaving an unbind scans
  slots it does not watch, and the lists are exact up to a point of a run if and only if every
  unbind before it committed on a scan result that was still true (`BackIndexRunIff`). That is so
  when no other call on the same queue and exchange commits between an unbind's WATCH and its EXEC
  (`UndisturbedRunsExact`). `RacingUnbindsStrandListing` and `RacingBindLosesListing` are two
  failing runs.
- A reloaded envelope has a new creation time, the default TTL in place of a zero one, no routing
  key, and its delay armed again. `ReloadIdentityIff` says when nothing changes, `ReloadExpiryIff`
  when the moment of expiry does not, `ReloadNeutralIff` when the schedule does not:
  if and only if there is no scheduled delay or all of it is still pending. With a delay, a message
  reloaded before each call never gets past it (`DelayRearmsForever`).
- Decoding an encoded state is the identity if and only if every timestamp present is positive
  (`StateRoundTrip`); at the process's own precision, if and only if every one is a positive whole
  number of milliseconds (`InstantsRoundTripIff`).
- An always-failing message gets exactly max(1, threshold) deliveries in every run if and only if
  both its own and the default retry threshold are positive (`DeliveriesExactIff`): a refused
  checkout is judged on a stand-in message built from the defaults, and a message orphaned before
  its checkout is judged with no attempt added.
- A publisher walks the very cells the group cache works on: a removal moves later groups down in
  place, and an addition after it writes behind them. Whatever else happens, it is sure to read the
  groups it resolved, and sure to serve none twice, if and only if no group of the queue is removed
  before its last read (`SnapshotReadIff`, `NoneTwiceIff`); additions, reloads and events of other
  queues never matter (`CalmWalk`). One removal and nothing else is harmless if and only if it hits
  the last group or at most one read is left (`OneRemovalIff`); with an addition behind them even two
  removals of the last group are not (`TwoRemovalsServeTwice`).
- A failed publish has sent a prefix of its messages, and possibly all of them: the last dispatch
  may have run without a reply (`ProduceToExchange`).
- A batch holds between 1 and max(1, BatchSize) ids: a batch size below one works like one.
- Two structures share a key if and only if they are the same, or a message and a history whose ids
  differ by the history tag at the end (`RenderEqualIff`); so keys are injective as long as no
  message id ends in `:uh`. Every history key is also a message key (`HistoryTailCollides`).
- A lock's `acquired` flag outlives its lease (`LapsedHolderOverlaps`). Within ttl of the last
  confirmed SET or extend, two locks are acquired at once only if a release of one of them ran
  without its reply coming back (`OverlapNeedsLostReply`, `MaybeReleasedIff`); `LostReleaseOverlaps`
  is such a run. Otherwise mutual exclusion holds, also after a release that never reached the server.
- A manager that has received every event of the record's epoch holds what the record holds once the
  last save was announced under that epoch (`Converges`); a save whose reply is lost is never
  announced and leaves the others behind (`LostReplyLeavesBehind`).

## Model

| member | source | states |
|---|---|---|
| `Keys.ValidateKey` | pkg/redis/validate_key.go:24-44 | accepts exactly the names whose lowercase form is a letter followed by name characters, and returns that form |
| `Keys.AcceptedIff` | pkg/redis/validate_key.go:24-56 | the accepted keys as given, character by character: a letter of either case first, then such letters, digits, dashes, underscores and dots |
| `Keys.ValidNameStable` | pkg/redis/validate_key.go:46-56 | a validated name validates to itself and contains neither the key separator nor `@` |
| `Keys.Key` | internal/redis/keys/redis_keys.go:24-38 | the builder loop produces prefix and parts joined by the separator |
| `Keys.SplitRender` | internal/redis/keys/redis_keys.go:24-38 | cutting a rendered key at the separators recovers its tokens, free text included |
| `Keys.IdentifyTokens` | internal/redis/keys/exchange.go:20-52 | the tokens of every key of every family determine the structure it belongs to, up to a message whose id ends in the history tag |
| `Keys.RenderEqualIff` | internal/redis/keys/queue.go:20-117 | over all families at once, for validated names and arbitrary routing keys and ids: two structures have the same key if and only if they are the same or a message and a history with matching ids |
| `Keys.RenderInjective` | internal/redis/keys/system.go:17-69 | so no two structures share a key as long as no message id ends in the history tail |
| `Keys.HistoryTailCollides` | internal/redis/keys/message.go:14-21 | the condition is needed: every history key is the key of a message with a longer id |
| `Topic.MatchTopicTokens` | internal/exchange/topic.go:461-496 | returns true exactly when the routing key can be cut into consecutive segments, one per pattern token, as section 3.1.3.3 of AMQP 0-9-1 demands |
| `Topic.MatchTopicPattern` | internal/exchange/topic.go:455-459 | the same on dotted text |
| `Topic.LiteralPatternMatchesItself` | internal/exchange/topic.go:455-496 | a pattern without wildcards matches its own text and nothing else |
| `Topic.LiteralTailShape` | internal/exchange/topic.go:430 | the literal token expression, as a condition on single characters |
| `Topic.ValidTokenShape` | internal/exchange/topic.go:430-450 | a valid token is a wildcard, or a letter followed by letters, digits, and dashes or underscores each with a letter or digit right behind it |
| `Topic.ValidateTopicPattern` | internal/exchange/topic.go:432-450 | accepts exactly the patterns all of whose tokens are wildcards or literal tokens |
| `ExchangeIndex.BindMeaning` | internal/exchange/direct.go:79-119 | a bind that succeeds adds exactly one (exchange, key, queue) triple, keeps registry, back-index and types exact, and changes no policy and no queue properties |
| `ExchangeIndex.BindSucceedsIff` | internal/exchange/validate.go:52-108 | for a queue of a given type, a bind succeeds if and only if the namespaces agree, a topic pattern is valid, the binding is new, and the exchange is absent or stored with the same type and a priority policy exactly for priority queues |
| `ExchangeIndex.BindRefusals` | internal/exchange/direct.go:50-119 | which error a refused bind returns, and what each of them means |
| `ExchangeIndex.CreatedBindIff` | internal/exchange/validate.go:88-108 | after creating the queue and the exchange, the bind succeeds if the policy is priority exactly when the queue is, and is a policy violation otherwise |
| `ExchangeIndex.UnbindMeaning` | internal/exchange/direct.go:151-211 | unbinding succeeds exactly on an existing binding within one namespace and under a valid pattern, removes exactly one triple and keeps registry, back-index and types exact, because the scan over registered keys is complete |
| `ExchangeIndex.DeleteMeaning` | internal/exchange/direct.go:286-344 | deleting succeeds exactly with the type stored and no binding left, leaves no trace and touches no other binding |
| `ExchangeIndex.CreateMeaning` | internal/exchange/store.go:36-83 | creating succeeds exactly on a name without a stored type, stores type and policy, changes no binding |
| `ExchangeIndex.ApplyMeaning` | internal/exchange/topic.go:59-231 | every operation keeps the index exact, and a refused one changes nothing |
| `ExchangeIndex.SerialRunsExact` | internal/exchange/direct.go:50-344 | after any serial run on any mix of direct and topic exchanges: a key is registered exactly when a queue is bound under it, an exchange is listed for a queue exactly when some binding exists, and the catalogues list exactly the exchanges with a stored type |
| `ExchangeIndex.ExchangeStore.UnbindQueue` | internal/exchange/topic.go:137-231 | the scan loop and conditional removals refine the specification |
| `ExchangeIndex.ExchangeStore.DeleteExchange` | internal/exchange/topic.go:333-391 | the counting loop and the deletions refine the specification |
| `ExchangeRace.WithTransaction` | internal/redis/tx.go:45-61 | only conflicts are retried, the first other attempt decides, exhaustion is reported only after a conflict in every allowed attempt |
| `ExchangeCommit.RegularIsSerial` | internal/exchange/validate.go:52-86 | with exact types, a commit that validation would still let through is the whole serial operation, and it succeeds |
| `ExchangeCommit.EffectCatalogueIff` | internal/exchange/direct.go:104-117 | the catalogues stay exact under a commit if and only if it overwrites no type |
| `ExchangeCommit.RegularReplayIsSerial` | internal/exchange/direct.go:50-212 | replaying such commits is the serial run of the same operations |
| `ExchangeRace.CommitIsEffect` | internal/exchange/direct.go:79-119 | what a clean transaction commits is the effect of its operation on the database of that moment, up to the queues' exchange lists; unless its properties read failed, validation would still pass |
| `ExchangeRace.NextKeepsInv` | internal/exchange/direct.go:151-211 | every read, failed read, EXEC, lost reply, abort, failure and environment step keeps the system invariant |
| `ExchangeRuns.RoutingIndexExact` | internal/exchange/direct.go:79-119 | at every point of every interleaving, with failed reads and lost replies, a key is registered exactly when its queue set is inhabited |
| `ExchangeRuns.InterleavingIsSerial` | internal/exchange/direct.go:50-212 | every interleaving agrees with the replay of its commits, in commit order, on everything but the exchange lists; without binds on failed reads that replay is a serial run whose operations all succeed |
| `ExchangeRuns.CallsCommitOnce` | internal/redis/tx.go:45-61 | no call commits twice; nil means one commit; an error means none if and only if no EXEC reply of the call was lost, and then the error is the lost connection |
| `ExchangeRuns.DecidesSerially` | internal/exchange/direct.go:79-211 | a call whose reads all show the database as it is refuses with the error of the serial operation, and goes to EXEC only where that succeeds |
| `ExchangeRuns.ReadsComeToAnEnd` | internal/exchange/direct.go:151-207 | before its EXEC a bind or create reads at most three keys, and every further read of an unbind shortens its scan or ends it |
| `ExchangeAnomaly.LostReplyCommits` | internal/redis/tx.go:50-58 | a run in which a bind commits and its call returns an error |
| `ExchangeRuns.TypeChangesIff` | internal/exchange/store.go:85-94 | at any step of any run an existing exchange changes its type exactly when it is deleted or a bind of another type commits after a failed properties read |
| `ExchangeRuns.StoredTypeStable` | internal/exchange/validate.go:52-86 | so between deletions and such commits the stored type never changes, however first binds and creates of all types race |
| `ExchangeRuns.TypesExactUntilOverwrite` | internal/exchange/direct.go:104-117 | until then bindings exist only under the stored type; the catalogues are exact up to a point of a run if and only if no type was overwritten before it |
| `ExchangeAnomaly.FailedLoadOverwritesType` | internal/exchange/store.go:85-94 | a run in which a failed properties read lets a bind overwrite the type, leaving bindings under both |
| `ExchangeRuns.BackIndexRunIff` | internal/exchange/direct.go:171-207 | up to a point of any run the exchange lists are exact if and only if no unbind before it committed on an outdated scan |
| `ExchangeRuns.UndisturbedNotMisled` | internal/exchange/direct.go:151-207 | a scan is never outdated when no other call on the same queue and exchange commits between the WATCH and the EXEC |
| `ExchangeRuns.UndisturbedRunsExact` | internal/exchange/direct.go:151-207 | runs in which every committing unbind is like that keep the lists exact throughout, whatever binds and creates do |
| `ExchangeAnomaly.RacingUnbindsStrandListing` | internal/exchange/direct.go:171-207 | a run in which two unbinds see each other's binding, both commit, and the exchange stays listed for a queue bound nowhere |
| `ExchangeAnomaly.RacingBindLosesListing` | internal/exchange/direct.go:151-207 | a run in which a bind after the scan goes unnoticed and its queue loses the listing |
| `ConfigReplica.SaveScript` | internal/config/manager.go:184-208 | stores under the next version on the expected version, changes nothing otherwise |
| `ConfigReplica.Manager.PersistLocked` | internal/config/manager.go:168-181 | the epoch is drawn once; a save that goes through may still fail by a lost reply or an unwritten epoch |
| `ConfigReplica.Manager.Save` | internal/config/manager.go:150-158 | a save is a path of the machine; it succeeds exactly on the stored version and without a fault, announces what it stored, and otherwise the manager's copy stays; a version mismatch leaves the record alone |
| `ConfigReplica.Manager.LoadOrCreateLocked` | internal/config/manager.go:212-245 | a load is a path of the machine; when it succeeds manager and record agree on version, content and epoch, and an existing record is never replaced |
| `ConfigReplica.Manager.OnUpdated` | internal/config/manager.go:249-264 | the instance becomes the event's value exactly when initialised, under the same epoch and with a higher version; another epoch leaves it alone and asks for a reload |
| `ConfigReplica.DeliveryTakenIff` | internal/config/manager.go:249-264 | the same for every delivery of every run; epoch and record never change by one |
| `ConfigReplica.VersionsAgree` | internal/config/manager.go:150-270 | wherever and whenever two places of a run show the same version, they show the same configuration |
| `ConfigReplica.NeverAhead` | internal/config/manager.go:150-270 | no manager's version exceeds the record's |
| `ConfigReplica.NeverBackwards` | internal/config/manager.go:150-270 | between Init and Close a manager's version never decreases, whatever is late, repeated, reordered or lost |
| `ConfigReplica.SaveReplacesWhatItSaw` | internal/config/manager.go:184-208 | no lost update: a save that goes through replaces exactly the configuration its manager held |
| `ConfigReplica.Converges` | internal/config/manager.go:249-264 | once the last save is announced under the record's epoch, a manager that received all events of that epoch holds the record's version and content |
| `ConfigReplica.LostReplyLeavesBehind` | internal/config/manager.go:150-181 | a run in which a lost save reply leaves another manager behind with no event left to receive |
| `LeaseLock.WorkerLock.TryAcquire` | internal/util/lock/lock.go:132-218 | one attempt is one step of the machine, succeeds exactly when it is answered and nobody's lease is live, and sets the key exactly when it arrives and none is |
| `LeaseLock.WorkerLock.Refresh` | internal/util/lock/lock.go:222-250 | one tick of the loop is one extend step of the machine; the key gets a whole new ttl exactly when the request arrives while the lock owns it live |
| `LeaseLock.WorkerLock.Release` | internal/util/lock/lock.go:179-201 | one release step of the machine; the key is deleted exactly when the request arrives while the lock owns it live, and the flag is cleared only on an answer |
| `LeaseLock.AcquiresIff` | internal/util/lock/lock.go:132-218 | at any step of any run, an answered attempt acquires if and only if no lease is live, and the lock then holds |
| `LeaseLock.ExtendRenews` | internal/util/lock/lock.go:222-250 | an extend that arrives while the lock owns the live key renews it for a whole ttl, and the lock goes on holding; one that never arrives changes nothing |
| `LeaseLock.ReleaseFrees` | internal/util/lock/lock.go:179-201 | an answered release of a lock that holds leaves no live key, and the next answered attempt of any lock succeeds |
| `LeaseLock.MutualExclusion` | internal/util/lock/lock.go:132-250 | at no instant of any timed run, with lost requests and replies, do two locks hold: acquired, within ttl, and without a release that ran unanswered |
| `LeaseLock.OverlapNeedsLostReply` | internal/util/lock/lock.go:179-201 | two acquired locks within ttl mean that a release of one of them ran without a reply |
| `LeaseLock.MaybeReleasedIff` | internal/util/lock/lock.go:179-201 | a lock counts as such exactly when, since it was acquired, a release of it ran without a reply |
| `LeaseLock.LostReleaseOverlaps` | internal/util/lock/lock.go:192-197 | a run in which that happens and both locks are acquired within ttl |
| `LeaseLock.HolderUndisturbed` | internal/util/lock/lock.go:67-69 | while a lock holds, no acquire, extend or release of another, stale or not, changes the key |
| `LeaseLock.TimelyHolderKeepsKey` | internal/util/lock/lock.go:222-250 | a holder refreshed in time owns the live key, can extend it, and no other lock can acquire |
| `LeaseLock.IntervalBelowTtl` | internal/consumer/message_handler.go:131-137 | refreshing at an interval below the ttl keeps the holder refreshed in time |
| `LeaseLock.LapsedHolderOverlaps` | internal/util/lock/lock.go:222-250 | a run in which two locks report themselves acquired, the first after its lease has lapsed |
| `Schedule.Envelope.NextScheduledTimestamp` | internal/message/envelope.go:149-233 | timestamp and new state follow the schedule: delay first and once, then the earlier of tick and repetition, the tick winning ties |
| `Schedule.DelayFirst` | internal/message/envelope.go:149-233 | a call yields the delay exactly when one is pending, counted from now, and clears it |
| `Schedule.AnyCall` | internal/message/envelope.go:149-233 | every other call, for any clock and any cron library: when it is a repetition and when, when the tick, when the end, and the state after it |
| `Schedule.CronCallIff` | internal/message/envelope.go:149-233 | after the delay, a call of a cron run is a repetition if and only if cron has fired, the count is below the limit and a period from now ends before the next tick; it is then due at that moment and counted, and otherwise the tick is due, the count is zero and cron has fired |
| `Schedule.RepeatOnlyRun` | internal/message/envelope.go:149-233 | closed form of every call of a run without cron: delay, first repetition at now, later ones a period ahead, then 0 for ever |
| `Schedule.RepeatOnlyTotal` | internal/message/envelope.go:149-233 | such a run yields exactly pending delay + repetitions left positive timestamps |
| `Schedule.CronRun` | internal/message/envelope.go:149-233 | with cron no call returns 0, a delay comes only first, a repetition only after a tick and strictly before the next, and the count stays within the limit |
| `Schedule.RepetitionsBounded` | internal/message/envelope.go:149-233 | at most `repeat` repetitions between consecutive ticks |
| `StateCodec.WriteRow` | internal/message/codec.go:52-90 | writing fields under their printed numbers loses none: each is read back under its own key |
| `StateCodec.EncodeState` | internal/message/codec.go:52-90 | the hash holds, field by field, what is stored of a state |
| `StateCodec.StoredRoundTrip` | internal/message/codec.go:93-153 | decoding recovers all that is storable of a state |
| `StateCodec.StoredTexts` | internal/message/codec.go:52-90 | flags are stored as 1 or 0, attempt and requeue counts in decimal, the publication time only if positive and parent ids only if not empty |
| `StateCodec.StateRoundTrip` | internal/message/codec.go:52-153 | in milliseconds, decode after encode is the identity if and only if every present timestamp is positive |
| `StateCodec.InstantsRoundTripIff` | pkg/message/state.go:161-362 | in nanoseconds, the instants survive if and only if each is a positive whole number of milliseconds |
| `PublishArgs.BuildPublishArgs` | internal/producer/publish_args.go:26-87 | 67 arguments, keys and values aligned at fixed offsets, and the fixed property names, statuses, queue type, group, priority and schedule each at their own |
| `PublishArgs.PublishedRow` | internal/producer/publish_args.go:109-138 | zipping keys to values puts each field's own value under its key, the keys being distinct |
| `PublishArgs.EncodersAgree` | internal/producer/publish_args.go:49-138 | publish arguments and stored hash decode to the same state, for every state |
| `EnvelopeCodec.RebuildMessage` | internal/message/codec.go:226-262 | the setter calls come to one message, with its own creation time, the default TTL unless a positive one is stored, and no routing key |
| `EnvelopeCodec.RebuiltForeign` | internal/message/codec.go:226-262 | whatever params were stored: what every field of the rebuilt message is, negative numbers and an unknown exchange kind included |
| `EnvelopeCodec.TrimMeaning` | internal/message/codec.go:226-262 | a cron expression loses the white space at both ends and nothing else |
| `EnvelopeCodec.DecodeFailsIff` | internal/message/codec.go:184-223 | decoding fails if and only if the hash has nothing but message and status, or its params do not parse |
| `EnvelopeCodec.RebuildSettles` | internal/message/codec.go:226-262 | whatever the params, the rebuilt message is well set, and rebuilding it again changes it no more |
| `EnvelopeCodec.EncodeEnvelope` | internal/message/codec.go:156-181 | the stored hash keeps every state field and adds params and status, none overwriting another |
| `EnvelopeCodec.EnvelopeRoundTrip` | internal/message/codec.go:156-223 | decoding an encoded envelope gives it back with creation time, zero TTL, routing key, delay and non-positive timestamps replaced, and nothing else |
| `EnvelopeCodec.ReloadIdentityIff` | internal/message/codec.go:184-262 | a reload changes nothing if and only if creation time, TTL, routing key, delay and timestamps are all of the kind that survives |
| `EnvelopeCodec.ReloadExpiryIff` | internal/message/envelope.go:92-118 | a reload leaves the moment of expiry alone if and only if the message was created at the reload, or never expires before and after it |
| `EnvelopeCodec.ReloadChangesOne` | internal/message/codec.go:232-234 | one message made to live for ever that expires after a reload |
| `EnvelopeCodec.ReloadNeutralIff` | internal/message/codec.go:184-223 | a reload leaves the next timestamp and scheduling state alone if and only if no scheduled delay exists or all of it is pending |
| `EnvelopeCodec.ReloadsInvisible` | internal/message/codec.go:156-262 | without a scheduled delay, reloads at any points of any run change no timestamp |
| `EnvelopeCodec.DelayRearmsForever` | internal/message/codec.go:210-212 | with one, every reloaded call yields the delay again |
| `QueueState.StateStore.Handle` | internal/queue/state.go:142-283 | an undisturbed request goes through exactly when legal, and its entry, with the owner and lock id it carries, becomes the newest |
| `QueueState.SubmittedIff` | internal/queue/state.go:142-283 | for each kind of request, when it is submitted and with which entry; a release or a recovery ends in Active |
| `QueueState.GraphShape` | pkg/queue/state.go:63-79 | the transition graph: every move to or from Active, to Stopped, and from Paused to Locked, and no other |
| `QueueState.SeesNewest` | internal/queue/state.go:39-77 | a client sees the newest entry, or just the state when the history is empty or its read fails |
| `QueueState.SubmissionOutcome` | internal/queue/state.go:233-283 | a submission is accepted exactly when the script does not refuse it and the state is still the one it was made for; it is then the newest entry whether or not the reply arrives, and changes nothing otherwise |
| `QueueState.SoloRequest` | internal/queue/state.go:142-283 | a client on its own gets its request through exactly when it is legal for the newest entry, from every state a run can be in |
| `QueueState.HistoryIsChain` | internal/queue/state.go:39-77 | under any interleaving, failed reads of the newest entry included, the history holds the newest hundred accepted transitions, newest first, as a chain of allowed moves ending in the stored state |
| `QueueState.RaceLoserRefused` | internal/queue/state.go:233-283 | of two clients that saw the same state the second is refused and changes nothing |
| `GroupCache.QueueTextsInjective` | internal/exchange/topic.go:235-278 | the texts used to deduplicate queues and to key the cache identify the queue |
| `Fanout.MatchTopicQueues` | internal/exchange/topic.go:235-278 | returns exactly once each queue bound, when its slot was read, under a matching pattern that was registered when the patterns were, and no other |
| `Fanout.RoutedStill` | internal/exchange/topic.go:235-278 | on a database that stands still that is every queue bound under some matching pattern |
| `GroupCache.CacheExact` | internal/producer/pubsub_resolver.go:43-222 | after any load and events the cached lists are duplicate-free and hold exactly the existing groups |
| `GroupCache.Resolver.Load` | internal/producer/pubsub_resolver.go:79-141 | the scan, with everything it skips, is the fold of the entries of its readable pub/sub queues |
| `GroupCache.LoadCachesIff` | internal/producer/pubsub_resolver.go:79-141 | after a load a queue is cached if and only if some scanned entry for it is readable, is of a pub/sub queue and has its groups read |
| `GroupCache.LoadedGroups` | internal/producer/pubsub_resolver.go:79-141 | and with the groups of the last such entry |
| `GroupCache.Resolver.Add` | internal/producer/pubsub_resolver.go:199-209 | the search-and-append loop adds a group once |
| `GroupCache.Resolver.Remove` | internal/producer/pubsub_resolver.go:211-222 | the search-and-cut loop removes a group |
| `Fanout.Producer.ProduceToQueue` | internal/producer/producer.go:160-214 | success sends one message per cell as it reads when its turn comes, or one without groups; failure stops at the first dispatch without an acceptance, which may have run |
| `Fanout.Producer.ProduceToExchange` | internal/producer/producer.go:217-260 | the same over all matched queues, each with the groups given out at its turn; failure has sent a prefix, possibly all |
| `Fanout.ServesDue` | internal/producer/producer.go:217-260 | the messages of a publish are exactly the (queue, group) pairs read |
| `Fanout.ServesOnce` | internal/producer/producer.go:217-260 | none is sent twice but to a queue whose groups were read with repeats |
| `Fanout.Producer.PublishTopic` | internal/producer/producer.go:217-287 | from end to end, with cache events at any time: a missing key, a missing exchange, another type and the absence of a routed queue are refused exactly then and send nothing; dispatching fails exactly when some dispatch is not accepted; for every queue none of whose groups is removed before its last read, on success exactly the groups that existed at its turn are served, once each; on failure only those, and none twice; unmatched queues get nothing |
| `GroupWalk.GroupList.Add` | internal/producer/pubsub_resolver.go:199-209 | appending in memory, in place or in new cells, as a publisher on the old cells sees it |
| `GroupWalk.GroupList.Remove` | internal/producer/pubsub_resolver.go:211-222 | cutting in memory by moving later groups down, as a publisher on the same cells sees it |
| `GroupWalk.ActShows` | internal/producer/pubsub_resolver.go:193-222 | as long as the cache uses them, the shared cells are the cached list |
| `GroupWalk.CalmWalk` | internal/producer/producer.go:166-176 | without a removal before its last read, a publisher reads the groups it resolved, whatever else happens |
| `GroupWalk.SnapshotReadIff` | internal/producer/pubsub_resolver.go:193-222 | it is sure to do so if and only if no removal comes before its last read |
| `GroupWalk.NoneTwiceIff` | internal/producer/pubsub_resolver.go:193-222 | and sure to serve none of several groups twice if and only if the same holds |
| `GroupWalk.OneRemovalIff` | internal/producer/pubsub_resolver.go:211-222 | one removal and nothing else is harmless if and only if it hits the last group or at most one read is left |
| `GroupWalk.TwoRemovalsServeTwice` | internal/producer/pubsub_resolver.go:208 | two removals of the last group and an addition make a publisher serve one group twice and another never |
| `BatchAck.BatchAcker.Ack` | internal/consumer/batch_acker.go:72-95 | buffering, arming and flushing follow the step function |
| `BatchAck.BatchAcker.FlushLocked` | internal/consumer/batch_acker.go:125-145 | the buffer leaves as one batch, or nothing happens when it is empty |
| `BatchAck.BatchAcker.Shutdown` | internal/consumer/batch_acker.go:106-123 | the rest is flushed and every batch awaited |
| `BatchAck.BatchLeavesIff` | internal/consumer/batch_acker.go:72-145 | in every run an acknowledgement sends a batch exactly when it brings the buffer to the batch size, and timer and shutdown send what is buffered |
| `BatchAck.UnbatchedAtOnce` | internal/consumer/batch_acker.go:72-76 | with batching off every id goes out alone and is awaited |
| `BatchAck.BatchesConserve` | internal/consumer/batch_acker.go:72-145 | in every run batches followed by the buffer are the acknowledged ids in order, batches have 1 to max(1, BatchSize) ids, the timer is armed exactly while something is buffered |
| `BatchAck.ShutdownComplete` | internal/consumer/batch_acker.go:106-123 | after Shutdown nothing is buffered or in flight and every id has gone out |
| `Retry.RunExact` | internal/consumer/unacknowledge.go:41-83 | dead-lettered exactly at max(1, threshold) deliveries, under any mix of deliveries and of the refusals and orphanings whose threshold is positive |
| `Retry.ResolveMeaning` | internal/consumer/unacknowledge.go:41-83 | a failed message is dead-lettered if and only if it is expired, periodic or at its threshold, with the first of these as the cause; otherwise it is delayed exactly with a positive retry delay, and requeued without |
| `Retry.DeliveriesExactIff` | internal/consumer/dequeue_message.go:136-158 | that holds of every run if and only if both thresholds are positive |
| `Retry.OneStep` | internal/consumer/dequeue_message.go:136-158 | the shortest runs in which a message dies without a delivery |
| `Retry.DeliveriesOnly` | internal/message/envelope.go:121-123 | with deliveries alone the count needs no condition |

## Left out

- The Lua scripts themselves: they appear only as the reply contracts their Go callers rely on, so nothing is claimed about pending, processing or dead-letter lists.
- Interleaved exchange deletion: it reads the routing keys before its WATCH, so it is one atomic step of the environment here.
- Exchange stores for fanout, direct queue matching, namespaces, rate limits and browsing: the same shapes with easier claims; fanout exchanges are created but neither bound nor deleted in the runs.
- `BindQueue` called with parameters of another exchange type than the store's: callers do not do this and the code does not check it.
- Queue deletion: the queue's properties only ever appear, once, in these runs.
- Live configuration pointers handed out by `Get`, and store flushes: configurations are values, and the record is never dropped.
- The retry loop and backoff of `Acquire`: it appears as repeated attempts at arbitrary times.
- The unlocked timer callback of the batchers, and the batch unacknowledger: timer expiry is one atomic flush, and the unacknowledger has the same shape.
- Purge jobs, the race between acknowledgement and forced timeout, and the handler runner's bookkeeping: decided by scripts or without a stated law.
- Overflow of `now + delay`, and durations finer than a millisecond, which are stored truncated.
- Trimming of white space beyond ASCII in cron expressions.
- StateCodec.EncodeState: the straight-line field writes are a loop over a row of 24 fields, one value per field number.
- Fanout.MatchTopicQueues: the order of the result is the order of the Redis replies and is left open.
- Events, logging, heartbeats, lifecycle code and public wrappers.
