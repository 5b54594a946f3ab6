# Verification of the user profile service

A Dafny model of the service's two-tier idempotency protocol and of the optimistic concurrency underneath it, with
proofs about every run. `dafny verify dfyconfig.toml` checks all of it.

The commands of the service may be retried. A dispatch claims a lease in Redis, executes the command's handler in one
PostgreSQL transaction together with a record of its result, publishes the result to Redis and answers; a duplicate is
answered from either store. Two stores, leases, expiry times, crashes, lost replies and concurrent writers all interact.

How the parts fit together:

- `DurableProtocol` is the database side as a step relation over any number of attempts; an event that is not possible
  changes nothing, so every sequence of events is a run. Its clock readings are arbitrary. `DurableSafety` proves what
  every run keeps, `DurableOutcomes` what the end of an attempt says about its commit, `DurableProgress` that
  undisturbed attempts succeed, duplicates replay them and resending resolves lost replies, and `DurableRaces`, for
  runs on one clock (`DurableClock`), why attempts fail.
- `UnitOfWork` has the transaction contexts and the translation of driver errors. `DurableExecution` has the objects
  that run the protocol: record store and `execute_once`, with arbitrary steps of other attempts and arbitrary faults
  and cancellations at every await; `DurableCalls` says what such a call may answer and commit. Each statement is a
  step of the protocol, so that all run theorems hold for the objects.
- `HotStore` has the Lua scripts as functions of one key and the store object proved against them. `LeaseSpec` proves
  that they implement a key with three states; `LeaseRuns` covers whole histories of leases and the heartbeat.
- `DispatchProtocol` puts the coordinator, the hot store and the durable protocol together on one nondecreasing clock.
  `DispatchSafety` proves that it refines the durable protocol, that the cache agrees with the records and that answers
  agree; `DispatchOutcomes` what an answer says about the effect; `DispatchDuplicates` what duplicates are answered over
  whole runs; `DispatchRefusals` that refusals are true; `DispatchEffects` what the steps of a dispatch do to its key and
  to later claims; `DispatchProgress` that undisturbed dispatches succeed. `Coordination` has the coordinator object.
- `ResultCodec`, `ResultModes` and `CommandExecution` cover snapshots, completion markers and who owns the transaction.
- `CircuitBreaker` has the breaker object, its critical sections and the runs of any number of calls in flight.
- `Digits`, `DecimalText`, `Json`, `Ordering` and `Fingerprint` cover the canonical form of requests;
  `RequestEquality` says exactly which requests share it, and `Recanonical` when it is its own canonical form.
- `Entities`, `TextRules`, `Profiles`, `Settings`, `Repositories` and `Handlers` cover the versioned aggregates, their
  validators, the conditional writes and the handlers; `RowHistory` ties the handlers to the runs of the protocol.
- `VersionTag` and `BatchQuery` cover the version ETag and the batch query. `Models` and `Results` hold shared values.

Two places where a reader might expect more than holds. A lease alone is no guarantee of a single execution
(`LeaseRuns.EvictionAdmitsASecondOwner`): handlers may run concurrently, and only their commits exclude one another.
And `updated_at` is compared with `created_at` only, so that it need not grow from change to change
(`Entities.UpdateTimeCanGoBack`, and exactly when it does in `Entities.UpdateTimeMovesForwardExactly`).

## Model

| member | source | states |
|---|---|---|
| `DurableSafety.Reachable` | src/app/application/idempotency/transactional_execution.py:88-130 | every run of any number of attempts, with crashes, commits of unknown outcome and waits on locks, keeps the invariant: the log explains all committed rows and records, and what each attempt has read, written or found is justified by it |
| `DurableSafety.OneEffectPerWindow` | src/app/infrastructure/idempotency/postgres/durable_store.py:56-97 | in every run each committed effect has exactly one record with its request's fingerprint and a non-empty window, and the windows of one key never overlap, whatever the clocks read |
| `DurableSafety.WindowIsUnique` | src/app/infrastructure/idempotency/postgres/durable_store.py:82-97 | at any time at most one committed record of a key is in force |
| `DurableSafety.NoLostUpdates` | src/app/infrastructure/database/repositories/base.py:68-89 | in every run the committed versions of a row are 1, 2, 3, ..., and each commit computed its row from the state the previous writer committed |
| `DurableSafety.EachVersionHasOneWriter` | src/app/infrastructure/database/repositories/base.py:73-84 | two commits wrote the same version of a row exactly when they are the same commit |
| `DurableSafety.VersionedCommandChangesOnce` | src/app/application/commands/profiles/update/handler.py:25-39 | however often and under whatever keys a versioned command is sent, at most one commit of it changes the row |
| `DurableSafety.LookUpFindsTheWinner` | src/app/infrastructure/idempotency/postgres/durable_store.py:26-51 | on one shared clock a lookup finds the committed record of its key as long as that has not expired |
| `DurableSafety.LookUpIsExact` | src/app/infrastructure/idempotency/postgres/durable_store.py:29-37 | and what it finds is exactly the committed record whose window contains its clock reading |
| `DurableSafety.DuplicatesConverge` | src/app/application/idempotency/transactional_execution.py:110-123 | an attempt that has rolled back returns the replay of a duplicate's committed record as long as that is in force, whatever others do between the lookup and its judgement |
| `DurableSafety.JudgementIsExact` | src/app/application/idempotency/transactional_execution.py:150-157 | on one clock the judgement of a lookup is a conflict exactly if a record of another request is in force throughout, and a replay exactly if one of this request is |
| `DurableSafety.LookUpDecides` | src/app/application/idempotency/transactional_execution.py:110-123 | with any steps of others and two clock readings, an attempt that looks for a record reports a conflict, replays or goes on exactly as the record in force throughout says |
| `DurableSafety.LostUpsertHasAWinner` | src/app/application/idempotency/transactional_execution.py:108-109 | an upsert is lost only to a committed record of the same key that outlives the new record's creation time |
| `DurableSafety.ReturnsAreCommitted` | src/app/application/idempotency/transactional_execution.py:130 | every normal return is a committed record of the request's key with the request's fingerprint |
| `DurableOutcomes.OutcomeTellsTheCommit` | src/app/application/idempotency/transactional_execution.py:77-86 | no attempt commits twice; a reported execution means one commit of this request with the reported record; an unavailable database, a crash or a cancellation leaves the one commit open; every other end means none |
| `DurableRaces.FailuresAreExplained` | src/app/application/idempotency/transactional_execution.py:110-128 | in every run on one clock, an attempt that has raised an error did so in one step that accounts for it: it judged the lookup after a lost race when every record of its key committed before that lookup had expired, a statement or the handler failed (a serialization failure then only in a lookup), the commit stayed in doubt, the result had expired by the clock reading of its record, or the row was not there |
| `DurableRaces.MismatchMeansNoWinner` | src/app/application/idempotency/transactional_execution.py:116-125 | in every run on one clock, an attempt that raises a version mismatch had seen the row at another version, then looked for a winner, and raised it in judging that lookup, when every record of its key committed before the lookup had expired |
| `DurableRaces.OwnWinnerHadExpired` | src/app/application/idempotency/transactional_execution.py:116-125 | if a commit under the attempt's own key had taken the version it expected, that commit's record had expired when the mismatch was raised |
| `DurableProgress.UndisturbedAttemptCommits` | src/app/application/idempotency/transactional_execution.py:100-130 | from any state in which the row has the expected version, nothing is locked and no record is in force, an undisturbed attempt commits the next version together with its record |
| `DurableProgress.ResendingReplays` | src/app/application/idempotency/transactional_execution.py:96-98 | executing and resending is executing once: until expiry the duplicate replays the record and nothing changes, afterwards the version check refuses it |
| `DurableProgress.ResendingResolvesALostReply` | src/app/application/idempotency/transactional_execution.py:84-86 | a commit whose reply is lost, or whose process crashes, took effect or did not, and sending the request again tells which: the second attempt replays the record or runs the handler |
| `UnitOfWork.SqlAlchemyUnitOfWork.Enter` | src/app/infrastructure/database/unit_of_work.py:41-50 | a transaction is entered exactly if none is open and it can be begun; nesting is refused, and a failing begin leaves none open and raises the translated error |
| `UnitOfWork.SqlAlchemyUnitOfWork.Exit` | src/app/infrastructure/database/unit_of_work.py:52-70 | however a context ends the session is free again; an error of the commit, or else an SQL error of the body, is raised as conflict, unavailability or itself, and leaving without a transaction is noticed |
| `UnitOfWork.Translate` | src/app/infrastructure/database/unit_of_work.py:17-35 | a conflict is exactly SQLSTATE 40001 or 40P01; unavailable is exactly a disconnection, a pool timeout, or another driver error of an invalidated connection or of class 08; everything else stays what it is |
| `DurableExecution.PostgresDurableIdempotencyStore.GetCompleted` | src/app/infrastructure/idempotency/postgres/durable_store.py:26-51 | the record of the key that has not expired at the clock reading |
| `DurableExecution.PostgresDurableIdempotencyStore.TryAddCompleted` | src/app/infrastructure/idempotency/postgres/durable_store.py:53-97 | with the clock read before the wait: true only if no record outliving that reading was committed meanwhile, false only if one was, and an expired result is refused; the record stays pending |
| `DurableExecution.TransactionalIdempotencyExecution.RunUpdate` | src/app/application/commands/profiles/update/handler.py:19-39 | a versioned handler under interference: it ends with exactly its write of the next version pending, with no write for a no-op, or stopped by the error that the row or the database caused or by cancellation |
| `DurableExecution.TransactionalIdempotencyExecution.RunProvision` | src/app/application/commands/profiles/create_default/handler.py:21-29 | whatever the others commit meanwhile, the pending rows are first versions of listed rows with their default contents, and every listed row is pending or committed |
| `DurableExecution.TransactionalIdempotencyExecution.Find` | src/app/application/idempotency/transactional_execution.py:145-157 | the answer of a lookup is the fault of one of its three awaits or the judgement, at a second clock reading, of one committed state that existed during the call; the transaction is closed on every path |
| `DurableExecution.TransactionalIdempotencyExecution.Transact` | src/app/application/idempotency/transactional_execution.py:100-118 | handler, record and commit: it commits the operation's own writes and result and reports the record, or ends for a reason that lies in the call: a fault, a lock that is not released, an outdated row, an expired result, a live record, or the operation itself; the transaction is closed on every path |
| `DurableExecution.TransactionalIdempotencyExecution.ExecuteOnce` | src/app/application/idempotency/transactional_execution.py:68-130 | concurrent use and a non-positive retention are refused without any effect; otherwise, for every interleaving, fault and cancellation, the answer is what the first lookup found, or how the transaction ended, or after a lost race what the second lookup found; it tells what was committed, and whatever was committed is exactly the write and the result that the operation asked for |
| `DurableExecution.TransactionalIdempotencyExecution.FindExisting` | src/app/application/idempotency/transactional_execution.py:132-143 | the public lookup is refused while the session is in use, leaves every attempt alone and answers from one committed state of the call |
| `DispatchSafety.Refines` | src/app/application/idempotency/coordinator.py:217-231 | on the database, every run of dispatches, with the hot store in whatever state, is a run of the durable protocol |
| `DispatchSafety.Reachable` | src/app/application/idempotency/coordinator.py:79-215 | every run of dispatches keeps the invariant that whatever is cached, sent, found or answered was committed |
| `DispatchSafety.OneEffectPerWindow` | src/app/application/idempotency/coordinator.py:103-113 | with outages, lost leases, late scripts, evictions and crashes, windows of commits of one key still never overlap |
| `DispatchSafety.CacheAgreesWithStore` | src/app/infrastructure/idempotency/redis/hot_store.py:86-111 | a readable cached result is the durable record of its key with its original deadline while it may be replayed, and its time to live never passes that deadline in milliseconds |
| `DispatchSafety.AnswerIsTheRecordInForce` | src/app/application/idempotency/coordinator.py:274-289 | every normal answer is the committed record of its key, with the request's fingerprint, whose window contains the time of the answer |
| `DispatchSafety.AnswersAgree` | src/app/application/idempotency/coordinator.py:115-160 | all normal answers for a key within one window are the one record of that window |
| `DispatchDuplicates.DuplicateAnswersWithTheWinner` | src/app/application/idempotency/coordinator.py:115-160 | over whole runs, a duplicate that arrives after a commit of its key and is answered while that record lives is answered with that record and has no effect; the only exceptions are a failing lookup and, as unavailability, a committed result of the key that had expired, by less than a millisecond, at some moment between its arrival and its answer |
| `DispatchDuplicates.ErrorsAreExplained` | src/app/application/idempotency/coordinator.py:189-192 | every error a dispatch answers from its own execution has the step that raised it and that step's reason: a lost race surfaces only if every record of its key committed before the lookup after it had expired when that lookup was judged; or its commit is in doubt, and the error is unavailability |
| `DispatchDuplicates.MismatchAnswersHaveNoWinner` | src/app/application/idempotency/coordinator.py:189-215 | a dispatch answers a version mismatch only after a lookup, later than the mismatch it saw, at whose judgement every record of its key committed before the lookup had expired |
| `DispatchRefusals.KeyReusedIsTrue` | src/app/application/idempotency/coordinator.py:115-160 | "key reused" is answered only if a request with another fingerprint was dispatched under the key |
| `DispatchRefusals.InProgressIsTrue` | src/app/application/idempotency/coordinator.py:115-160 | "in progress" is answered only if at the claim the key was leased for the same request, by another dispatch or by this one, whose claim had run before unheard |
| `DispatchRefusals.RepeatedClaimMeetsItsOwnLease` | src/app/infrastructure/idempotency/redis/hot_store.py:31-71 | and the latter happens: a claim that ran without its reply getting through and is sent again meets its own lease |
| `DispatchEffects.ActionsAreOperations` | src/app/application/idempotency/coordinator.py:103-135 | in every run each action of a dispatch does to its key what its operation on a free, leased or cached key does, with the policy's lease and cache times, and touches no other key |
| `DispatchEffects.ClaimsAreToldTheKey` | src/app/application/idempotency/coordinator.py:115-138 | in every run a claim acquires exactly a free key, and is otherwise told about the lease or the result that is there |
| `DispatchEffects.ClaimLeasesTheKey` | src/app/infrastructure/idempotency/redis/hot_store.py:31-50 | a free key that is claimed is leased for the lease time: no later claim gets it before, and any does after |
| `DispatchEffects.RenewalTellsTheLease` | src/app/application/idempotency/coordinator.py:302-316 | a renewal counts the lease as lost exactly if the key is no longer leased to the dispatch or the hot store fails |
| `DispatchEffects.RenewalLeasesTheKey` | src/app/infrastructure/idempotency/redis/hot_store.py:73-84 | and otherwise leases the key anew from that moment on |
| `DispatchEffects.ReleaseFreesTheKey` | src/app/application/idempotency/coordinator.py:198-214 | a lease that is released, also by a cancelled dispatch, is gone: whoever claims the key next, with whatever request, gets it |
| `DispatchEffects.PublishedResultIsRead` | src/app/application/idempotency/coordinator.py:233-260 | a published result is what later claims of the same request are given and what refuses those of another, until the end of the cache time or of its own life, whichever is first; afterwards a claim acquires the key |
| `DispatchProgress.UndisturbedDispatchSucceeds` | src/app/application/idempotency/coordinator.py:162-215 | from any state in which its key is free and its command meets no obstacle, a dispatch commits once, publishes its record for the cache time and answers with it, and everything else stays as it was |
| `DispatchProgress.UndisturbedWithoutHotStore` | src/app/application/idempotency/coordinator.py:103-113 | and so does one that cannot reach the hot store, which then stays as it was |
| `DispatchProgress.ResendingIsAnswered` | src/app/application/idempotency/coordinator.py:115-160 | dispatching and sending again is executing once: as long as the record lives the duplicate is answered with it, from the hot store during the cache time and from the database afterwards, and commits nothing |
| `DispatchSafety.ClaimsMeetWellFormedEntries` | src/app/infrastructure/idempotency/redis/hot_store.py:163-190 | whatever the workers and the server do, no claim is answered as corrupted |
| `DispatchOutcomes.AtMostOneEffect` | src/app/application/idempotency/coordinator.py:195-215 | whatever becomes of it, cancelled or crashed, a dispatch has at most one effect |
| `DispatchOutcomes.AnswersTellTheEffect` | src/app/application/idempotency/coordinator.py:195-215 | "key reused", "in progress" and errors other than unavailability mean no effect; a normal answer comes with an own effect exactly if its own execution produced the record |
| `Coordination.IdempotencyCoordinator.FindExisting` | src/app/application/idempotency/coordinator.py:151-154 | exactly if one of its two awaits fails the lookup of a busy dispatch fails, with that error; otherwise it judges, at a second clock reading, one committed state that existed during the call |
| `Coordination.IdempotencyCoordinator.ResolveBusy` | src/app/application/idempotency/coordinator.py:140-160 | what that lookup found is answered, be it a result or a conflict; only if it found nothing, the claim's own refusal is |
| `Coordination.IdempotencyCoordinator.ExecuteClaimed` | src/app/application/idempotency/coordinator.py:162-215 | at the moment the durable execution has ended the lease is held or lost: a holder publishes or releases exactly once, also when it is cancelled, a loser never, and both answer what the durable execution said; no answer is given only if the execution was cut off before its end |
| `Coordination.IdempotencyCoordinator.Publish` | src/app/application/idempotency/coordinator.py:233-272 | one publication or release; if the hot store answers, the key is left as that leaves it: free after the release of a held lease, and with exactly the result, for as long as it may be read, after its publication |
| `Coordination.IdempotencyCoordinator.ReleaseAbandoned` | src/app/application/idempotency/coordinator.py:199-202 | the same for the lease of a cancelled dispatch: one release, and if the hot store answers the key is free |
| `Coordination.IdempotencyCoordinator.Evaluate` | src/app/application/idempotency/coordinator.py:274-289 | the response is the reply to the verdict at a moment of the call: a live result with that time, unavailable for an expired one, and the refusals as they are |
| `Coordination.IdempotencyCoordinator.Execute` | src/app/application/idempotency/coordinator.py:79-138 | for every interleaving a normal answer is the committed record that was in force at a moment during the call; the claim is sent once and runs unless the hot store does not answer; refusals have no effect, no dispatch, not even a cancelled one, has more than one, and only one whose durable execution is cut off before its end goes without an answer |
| `ResultCodec.StoreThenDeliver` | src/app/application/idempotency/codec.py:35-63 | for every pair of storing and asking mode: what is stored is valid, a snapshot is delivered as the handler's value, and a marker is refused to those who want a value |
| `ResultCodec.NotStoredMeansMarker` | src/app/application/idempotency/codec.py:48-59 | "not stored" is reported exactly for completion markers, and a delivered value has the registered schema version |
| `ResultCodec.SchemaChangeIsNoticed` | src/app/application/idempotency/codec.py:48-63 | a snapshot written under one schema and read under another is delivered exactly if the versions agree and the reading schema accepts it; everything else is an unavailable replay |
| `ResultModes.DeliveriesAgree` | src/app/application/dispatching/execution.py:41-78 | over whole runs with mixed modes and with commands of any other result types beside, all answers of one window deliver what the one committing dispatch stored: none to completion-only dispatches, and to the others either all the same value or all "not stored" |
| `CommandExecution.CommandExecution.Execute` | src/app/application/dispatching/execution.py:51-78 | without a policy, a handler that raises and a refused result never commit; a returned result has been committed and is the handler's own, or nothing in completion mode; and only unavailability and cancellation leave the commit open |
| `HotStore.RedisHotStore.Claim` | src/app/infrastructure/idempotency/redis/hot_store.py:31-71 | one atomic script on one key: the whole new keyspace and the decoded reply |
| `HotStore.RedisHotStore.Renew` | src/app/infrastructure/idempotency/redis/hot_store.py:73-84 | the owner's lease gets a new deadline, anything else stays |
| `HotStore.RedisHotStore.Complete` | src/app/infrastructure/idempotency/redis/hot_store.py:86-111 | the owner's lease becomes a result that lives as long as it may be replayed; an expired result deletes the key |
| `HotStore.RedisHotStore.Release` | src/app/infrastructure/idempotency/redis/hot_store.py:113-121 | the owner's lease is deleted, anything else stays |
| `LeaseSpec.ScriptsMeanOperations` | src/app/infrastructure/idempotency/redis/hot_store.py:31-121 | on well-formed hashes each script does and answers what a three-state key (free, leased, cached) does and answers |
| `LeaseSpec.HistoriesMeanOperations` | src/app/infrastructure/idempotency/redis/hot_store.py:31-121 | over every history of one key the stored hash stands for the three-state key those operations leave |
| `LeaseSpec.ClaimsAnswerFromHistory` | src/app/infrastructure/idempotency/redis/hot_store.py:163-190 | after every history a claim is answered acquired, in progress, replay or conflict exactly as the three-state key says |
| `LeaseRuns.EntriesStayWellFormed` | src/app/infrastructure/idempotency/redis/hot_store.py:31-111 | in every history an entry is either a lease or a result, with matching fingerprints and no overlong deadline |
| `LeaseRuns.ClaimsAreNeverCorrupted` | src/app/infrastructure/idempotency/redis/hot_store.py:52-70 | no history leads to the corruption reply, and a replay always carries the claimed fingerprint |
| `LeaseRuns.AcquisitionsAreSeparated` | src/app/infrastructure/idempotency/redis/hot_store.py:31-121 | between two acquisitions of a key the first owner's entry was released, deleted with an expired result, expired or evicted |
| `LeaseRuns.EvictionAdmitsASecondOwner` | src/app/infrastructure/idempotency/redis/hot_store.py:33-47 | a lease alone does not exclude a second owner: after an eviction the next claim acquires |
| `LeaseRuns.CacheOutlivesItsResult` | src/app/infrastructure/idempotency/redis/hot_store.py:86-111 | a history in which a cached result is visible after it has expired, within the same millisecond |
| `LeaseRuns.OthersCannotTouchALease` | src/app/infrastructure/idempotency/redis/hot_store.py:73-121 | no number of claims, renewals, completions and releases by others changes a leased entry |
| `LeaseRuns.RenewTellsOwnership` | src/app/infrastructure/idempotency/redis/hot_store.py:73-84 | a renewal succeeds exactly for the worker whose lease is still in force |
| `LeaseRuns.Heartbeat` | src/app/application/idempotency/coordinator.py:291-316 | the renewal loop loses the lease exactly in the first cycle, all earlier ones having renewed, that is not stopped in its sleep and whose renewal fails or is refused by the key as everything so far has left it; it stops exactly when told to in a cycle it reaches, in the sleep or in a renewal that is granted; its renewals are all it does to the key |
| `LeaseRuns.TimelyHeartbeatKeepsTheLease` | src/app/application/idempotency/coordinator.py:302-316 | if every cycle's delay beyond the sleep stays below two thirds of the lease, the lease is in force after any number of cycles and when the heartbeat is stopped, whatever others send |
| `LeaseRuns.LateRenewalFails` | src/app/application/idempotency/coordinator.py:302-316 | a cycle that exceeds the lease by a millisecond loses it |
| `CircuitBreaker.CircuitBreaker.Enter` | src/app/infrastructure/resilience/circuit_breaker.py:159-177 | the admission of a call: the whole new state and the ticket or rejection, by the admission rule that `AdmittedExactly` is about |
| `CircuitBreaker.CircuitBreaker.Leave` | src/app/infrastructure/resilience/circuit_breaker.py:179-213 | the end of a call: the whole new state for success, counted failure, ignored error and interruption |
| `CircuitBreaker.CircuitBreaker.OnSuccess` | src/app/infrastructure/resilience/circuit_breaker.py:83-110 | the current probe closes the breaker, a current call resets the counter, anything else changes nothing |
| `CircuitBreaker.CircuitBreaker.OnFailure` | src/app/infrastructure/resilience/circuit_breaker.py:112-151 | the current probe trips, a current call counts and trips at the threshold, anything else changes nothing |
| `CircuitBreaker.CircuitBreaker.OnInterrupt` | src/app/infrastructure/resilience/circuit_breaker.py:215-224 | an interrupted current probe frees its slot and nothing else |
| `CircuitBreaker.Reachable` | src/app/infrastructure/resilience/circuit_breaker.py:55-224 | every interleaving of starts and ends of calls keeps the invariant of probe slot, generations, counter and cooldown |
| `CircuitBreaker.ProbeSafety` | src/app/infrastructure/resilience/circuit_breaker.py:169-176 | at most one probe is in flight, only a half-open breaker has one, and the flag, the token and the call in flight go together |
| `CircuitBreaker.OnlyTheProbeLeavesHalfOpen` | src/app/infrastructure/resilience/circuit_breaker.py:89-151 | a half-open breaker is left exactly by the end of its probe: closed by success, reopened by failure |
| `CircuitBreaker.ProbeEndFreesTheSlot` | src/app/infrastructure/resilience/circuit_breaker.py:181-206 | whichever way the probe ends its slot is free, and after an interruption the next call becomes the probe |
| `CircuitBreaker.NoStartDuringCooldown` | src/app/infrastructure/resilience/circuit_breaker.py:55-67 | no call starts within the recovery timeout after a trip |
| `CircuitBreaker.AdmittedExactly` | src/app/infrastructure/resilience/circuit_breaker.py:56-67 | in every run a call is let in exactly if the breaker is closed, half-open with no probe in flight, or open for at least the recovery timeout, and is the probe exactly if the breaker was not closed |
| `CircuitBreaker.SuccessfulProbeRecovers` | src/app/infrastructure/resilience/circuit_breaker.py:82-110 | from every state a run reaches, a probe that succeeds closes the breaker, resets the counter, and the next call is let in |
| `CircuitBreaker.CounterIsTheFailureRun` | src/app/infrastructure/resilience/circuit_breaker.py:105-142 | while closed, the counter is the current run of counted failures of this generation, and below the threshold |
| `CircuitBreaker.TripsExactlyAtTheThreshold` | src/app/infrastructure/resilience/circuit_breaker.py:140-142 | a closed breaker opens exactly at the failure that completes a run of the threshold's length |
| `CircuitBreaker.StaleCallsChangeNothing` | src/app/infrastructure/resilience/circuit_breaker.py:119-130 | a call admitted in an earlier generation ends without effect |
| `DecimalText.TextReadsBack` | src/app/application/idempotency/fingerprint.py:112-126 | reading the canonical text of a finite decimal gives the same number, for unbounded digits and exponents |
| `DecimalText.CanonicalTextIsExact` | src/app/application/idempotency/fingerprint.py:112-126 | two finite decimals get the same text exactly when they are the same number |
| `Json.Unique` | src/app/application/idempotency/fingerprint.py:43-48 | the compact encoding is prefix-free: equal texts with continuations have equal values and continuations |
| `Json.DumpsReadsBack` | src/app/application/idempotency/fingerprint.py:43-48 | the text of every canonical tree is JSON, and reading it gives the tree back |
| `Json.DumpsInjective` | src/app/application/idempotency/fingerprint.py:43-48 | different canonical trees never share their text |
| `Ordering.SortIgnoresOrder` | src/app/application/idempotency/fingerprint.py:88-96 | sorting by a key that determines its element gives the same list for every order of the input |
| `Fingerprint.OrderDoesNotMatter` | src/app/application/idempotency/fingerprint.py:52-149 | rearranging dictionary entries, set elements and items at unordered paths, at any depth, keeps the canonical tree or the failure |
| `Fingerprint.FingerprintIgnoresOrder` | src/app/application/idempotency/fingerprint.py:25-49 | and keeps the text that is hashed |
| `Fingerprint.FingerprintSeparates` | src/app/application/idempotency/fingerprint.py:42-49 | two acceptable requests have the same hashed text exactly when their canonical trees are equal |
| `Fingerprint.DecimalsCompareByNumber` | src/app/application/idempotency/fingerprint.py:112-126 | decimals in a request compare as numbers |
| `Fingerprint.SetsCompareAsMultisets` | src/app/application/idempotency/fingerprint.py:98-111 | sets compare as the multisets of their canonical items: order is dropped and nothing else |
| `RequestEquality.SameExactly` | src/app/application/idempotency/fingerprint.py:52-149 | the exact relation: acceptable values have equal canonical trees exactly if they have the same entries and items, in the same order unless it carries no meaning, down to scalars of the same text, with enumerations standing for their values |
| `RequestEquality.FingerprintsExactly` | src/app/application/idempotency/fingerprint.py:25-49 | two acceptable requests have the same hashed text exactly if they are the same request in that sense |
| `RequestEquality.RefusedExactly` | src/app/application/idempotency/fingerprint.py:52-149 | a value is refused exactly if something in it is unsupported, a key that is no text, a decimal that is not finite or a time without a zone, and with an error about such a thing |
| `RequestEquality.SameDecimals` | src/app/application/idempotency/fingerprint.py:112-126 | in which decimals are the same exactly if they are the same number |
| `Recanonical.IdempotentExactly` | src/app/application/idempotency/fingerprint.py:79-111 | canonicalizing a canonical tree changes nothing, for every request, exactly if with each unordered path every path that has a set where that one has a list is unordered too |
| `Recanonical.SetOfListIsUnsettled` | src/app/application/idempotency/fingerprint.py:79-111 | a request for which it does: a set that holds a list, where the lists inside a list are unordered |
| `Fingerprint.CanonicalKeysInOrder` | src/app/application/idempotency/fingerprint.py:70-77 | every object of a canonical tree is already in key order, so that the key sorting of the encoder changes nothing |
| `Entities.VersionedEntity.Touch` | src/app/domain/base.py:115-123 | version and time move together on a validated copy, or nothing changes |
| `Entities.VersionedEntity.Apply` | src/app/domain/base.py:98-113 | the whole new state and result of a change: replaced at once, unchanged on error or no-op |
| `Entities.ChangeIsAllOrNothing` | src/app/domain/base.py:98-123 | a change is reported exactly if the normalized fields differ and the time is later than creation; it then sets fields, time and version, and otherwise changes nothing |
| `Entities.LifeKeepsInvariants` | src/app/domain/base.py:56-123 | over any sequence of calls, failing ones included, the version counts the effective changes, identity and creation time stay, and the state passes its own validators unchanged |
| `Entities.ResubmittingIsANoOp` | src/app/domain/base.py:107-108 | after any life, values that normalize to the stored ones change nothing |
| `Entities.ChangingTwice` | src/app/domain/base.py:98-113 | asking twice for the same fields is asking once |
| `Entities.UpdateTimeMovesForwardExactly` | src/app/domain/base.py:56-60 | an effective change moves the update time forward exactly if the clock is past the previous one |
| `Entities.UpdateTimeCanGoBack` | src/app/domain/base.py:56-60 | a valid state whose next change is accepted and sets the update time back |
| `Profiles.UpdateProfile` | src/app/domain/aggregates/profiles.py:99-113 | on a valid profile it is refused exactly if a given text is not acceptable; otherwise given texts replace their fields in normal form, an empty biography removes it, all else stays, it takes effect exactly if a field differs and the clock is past creation, and the profile stays valid |
| `Profiles.UpdateAvatar` | src/app/domain/aggregates/profiles.py:115-117 | on a valid profile it sets the avatar key, version and time together, is a no-op for the same key, and can fail for its time only |
| `Profiles.SetStatus` | src/app/domain/aggregates/profiles.py:71-81 | deactivation, blocking and activation: the same for the status |
| `Profiles.SetVerified` | src/app/domain/aggregates/profiles.py:119-125 | granting and withdrawing verification: the same for the flag |
| `Profiles.PlainChangesSucceed` | src/app/domain/base.py:98-113 | on a valid profile a change that keeps the texts fails for its time or not at all, and takes effect exactly if a field differs |
| `Profiles.ProfilesAreStable` | src/app/domain/aggregates/profiles.py:25-54 | every accepted profile is a fixed point of its own validators |
| `Profiles.CaseAndPaddingDoNotCount` | src/app/domain/value_objects/username.py:46-59 | resubmitting the stored username in other case or padding, and the stored name with padding, is a no-op |
| `Profiles.NewProfilesAreSettled` | src/app/domain/aggregates/profiles.py:83-97 | the default profile, with the default display name, is a valid start of a life |
| `Settings.UpdateSettings` | src/app/domain/aggregates/settings.py:63-79 | on valid settings it is refused exactly if the given zone does not exist; otherwise what is given replaces what was, the rest stays, it takes effect exactly if something differs and the clock is past creation, and the settings stay valid |
| `Settings.ResetToDefaults` | src/app/domain/aggregates/settings.py:81-89 | a reset gives every setting its default, as an effective change exactly if one differed, and is refused only if the default zone does not exist |
| `Settings.SettingsAreStable` | src/app/domain/value_objects/timezone.py:11-22 | accepted settings are a fixed point of their validators |
| `Settings.ResettingTwice` | src/app/domain/aggregates/settings.py:81-89 | changing to valid target settings takes a version exactly if something differed, and repeating it changes nothing |
| `TextRules.UsernameIsStable` | src/app/domain/value_objects/username.py:46-59 | a normalized username is its own normal form |
| `TextRules.RecasedUsernameIsTheUsername` | src/app/domain/value_objects/username.py:46-59 | a username in any capitals and any white space around it is that username |
| `TextRules.ReservedNamesAreRefused` | src/app/domain/value_objects/username.py:12-29 | every reserved name is refused as reserved, in every spelling |
| `TextRules.DefaultNameIsItself` | src/app/domain/value_objects/display_name.py:8 | the default display name is accepted as it is |
| `TextRules.DisplayNameIsStable` | src/app/domain/value_objects/display_name.py:26-38 | exactly the trimmed texts of 1 to 64 characters without pictograms are accepted, and stay as they are |
| `TextRules.PaddedNameIsTheName` | src/app/domain/value_objects/display_name.py:26-38 | a display name in any white space around it is that display name |
| `TextRules.EmojiShortcutIsExact` | src/app/domain/value_objects/display_name.py:13-23 | the shortcut over the largest character never misses a pictogram |
| `Repositories.Repository.Update` | src/app/infrastructure/database/repositories/base.py:68-89 | the conditional update: the whole new table, and missing row, version conflict or taken username |
| `Repositories.Repository.CreateDefaultIfAbsent` | src/app/infrastructure/database/repositories/profiles.py:56-82 | insert if absent: the whole new table and the row that is there afterwards |
| `Repositories.IdentityStays` | src/app/infrastructure/database/repositories/base.py:68-89 | no write changes the identity or the creation time of a row, removes a row or touches another one |
| `Repositories.ProvisioningIsIdempotent` | src/app/infrastructure/database/repositories/settings.py:29-55 | provisioning twice is provisioning once, and never overwrites |
| `Repositories.CreateDefaults` | src/app/application/commands/profiles/create_default/handler.py:21-29 | with arbitrary commits before each insert, both rows exist after the handler, and what was there is untouched |
| `Repositories.Load` | src/app/application/commands/profiles/update/handler.py:20-26 | the row is loaded exactly if it is there in the expected version |
| `Repositories.Save` | src/app/application/commands/profiles/update/handler.py:35-41 | an effective change is written conditionally, every other result leaves the table as it is |
| `Handlers.UpdatingLosesNothing` | src/app/application/commands/profiles/update/handler.py:19-41 | whatever is committed between read and write, an update that succeeds replaced the very row it read, one that fails wrote nothing; it fails exactly if the row is missing or not in the expected version, or an effective change meets a clock before creation, a changed row or a taken username, and its error says which |
| `RowHistory.RunsEvolve` | src/app/infrastructure/database/repositories/base.py:68-89 | what that needs of the others holds between any two states of any run of the durable protocol: rows stay, versions never go back, and a row of the same version is the same row |
| `RowHistory.UpdatingAmidARun` | src/app/application/commands/profiles/update/handler.py:19-41 | so an update that reads in one state of a run and writes in a later one replaced the very row it read, or wrote nothing |
| `Repositories.ConditionalWriteLosesNothing` | src/app/infrastructure/database/repositories/base.py:72-84 | a conditional write that succeeds replaces exactly the row its change was computed from |
| `Repositories.UniqueKeysStay` | src/app/infrastructure/database/repositories/profiles.py:46-54 | updates and default rows keep usernames unique |
| `Handlers.UpdateProfile` | src/app/application/commands/profiles/update/handler.py:19-41 | for acceptable texts the handler does what the specification of an update says for the normalized fields, with the error for each failure, and on success every given text has its normal form, an empty biography is none and all else stays; unacceptable texts are refused, and an error writes nothing |
| `Handlers.UpdateSettings` | src/app/application/commands/settings/update/handler.py:23-63 | the same for settings; every privacy scope is the one given under its name, or the one it was |
| `VersionTag.PrintedTagIsAccepted` | src/app/entrypoints/http/responses.py:4-6 | every version a bigint holds is read back from its printed tag |
| `VersionTag.AcceptsExactlyPrintedTags` | src/app/entrypoints/http/dependencies.py:62-71 | exactly the printed forms of the versions from 1 to 2^63 - 1 are accepted, each as its own version |
| `VersionTag.TagsAreVersions` | src/app/entrypoints/http/dependencies.py:62-71 | two accepted tags are the same text exactly when they are the same version |
| `VersionTag.Response.SetPrivateVersion` | src/app/entrypoints/http/responses.py:4-6 | both header entries are set and the others stay, and the tag is accepted back exactly for valid versions |
| `BatchQuery.DedupIsDistinct` | src/app/application/queries/profiles/get_batch/query.py:26-34 | deduplication keeps every id once |
| `BatchQuery.DedupKeepsFirstOrder` | src/app/application/queries/profiles/get_batch/query.py:26-34 | in the order of first occurrence |
| `BatchQuery.ShortcutIsTheFilter` | src/app/application/queries/profiles/get_batch/handler.py:20-26 | with or without the length shortcut the found ids are the requested ids that exist, in request order |
| `BatchQuery.BatchIsTheOrderedFilter` | src/app/application/queries/profiles/get_batch/handler.py:15-42 | for every request and storage order the answer is the existing requested profiles in first-occurrence order with their settings, or missing settings exactly if some found profile has none |

## Left out

- SHA-256 and UUIDs: digests are numbers, equal exactly when what is hashed is equal, and tokens are never issued twice; the checks for 32-byte digests are therefore absent.
- Policies in HOT_ONLY mode: no runs are modelled; leases without the durable store promise only what `LeaseRuns` states.
- Deleting rows and `create` of the base repository: no registered command calls them.
- The requirement of an open transaction in repository calls: their callers open one.
- PostgreSQL internals: statements see committed state, a written row or record is locked until its transaction ends, and a wait that does not end successfully is a serialization failure; other isolation levels are not modelled.
- Redis internals: scripts are atomic, a key is readable up to and including the millisecond of its deadline, and a reply may be lost; entries are stored and decoded as values, not as JSON text. The deadline sent with a result is the exact floor of its expiry in milliseconds, without the rounding of a floating-point product.
- asyncio: tasks switch only at awaits; the breaker's lock is never held across one, so its critical sections are single steps.
- Metrics, logging, dependency wiring, HTTP routing, authentication and the privacy policy of the batch answer.
- Schema machinery: a validator is a function from fields to normalized fields or an error; serialization and parsing of results are assumed to be inverse on accepted values.
- Floats in requests and the formatting of dates, UUIDs and zones: library text; floats are not part of the canonical values, bytes are unsupported values as in the source.
- Hashability: sets of values that Python cannot put into a set are not excluded.
- Unicode tables: lower-casing and white space are parameters of which only laws for ASCII and the Russian letters are used; zone names are an arbitrary predicate.
- LeaseRuns.Heartbeat: works on the state of one key rather than on an object, the sleep of a third of the lease is rounded down to a microsecond, and cancelling the task in the middle of a renewal is the same as stopping it with the script running late.
- Coordination.IdempotencyCoordinator.Execute: the durable execution and the heartbeat run as environment steps of the same dispatch, and cancellation strikes while the durable execution runs, not at the awaits of the hot store or of the busy lookup.
- DurableExecution.TransactionalIdempotencyExecution.ExecuteOnce: a commit whose reply is lost takes effect, if at all, by the time the call ends; that it may land after the answer is part of the dispatch runs.
- DurableRaces.FailuresAreExplained: a serialization failure of a lookup itself surfaces whether or not a winner exists, as in the source.
- DispatchSafety.CacheAgreesWithStore: a cached result may stay readable for less than a millisecond past its expiry; it is then refused by the final check (`LeaseRuns.CacheOutlivesItsResult` is such a history).
