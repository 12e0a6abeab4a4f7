# Verified model of the go-base task queue and its neighbours

go-base is a Go toolkit for services on PostgreSQL. Its hardest part is a task
queue kept in one table: workers take rows under a lease, keep the lease with
heartbeats, and lose it when they are silent for too long. This project models
that queue, the workers and schedulers around it, the database preparation, the
public-key cache, the case conversion and the token window, and proves what they
keep over every run, every interleaving or every input.

| module | what it is |
|---|---|
| `Runs`, `Selections` | how the runs of all state machines grow; what filter loops leave |
| `Tasks` | the `tasks` table, the WHERE clauses and the row each statement writes |
| `TaskStore` | queuer, dequeuer and retention as methods that change the table |
| `QueueRuns` | runs of committed transactions: row invariant, single flight, completeness, no lost work |
| `TaskHistory` | every column of a row from the steps of the run |
| `LeaseRuns` | workers with their ttl timers on top of the queue: who may be inside `handleTask` |
| `DequeueRaces` | any interleaving of split `attemptDequeue` and `updateProgress` calls with row locks |
| `TaskWorker` | the calls one worker makes for every order of channel events |
| `KeyCache` | incremental sync of the key cache against a full reload |
| `Migrations` | one preparation run, and a fleet of replicas with a crash at any step |
| `ScheduleAssertion` | check-then-insert under a SHARE lock, any number of transactions |
| `ScheduleWorker` | SKIP LOCKED claims, a separate enqueue, commit or rollback; the drain loop |
| `Casing` | PascalCase and underscore_case, normal forms and both round trips |
| `Tokens` | the acceptance window of a token whose times were cut to whole seconds |

Times are integers in nanoseconds. Table locks and statement visibility are
those of "Table-Level Locks" (13.3.1) and "Read Committed" (13.2.1) of the
PostgreSQL documentation. Clocks, random draws, UUIDs, context cancellation,
JSON, cron parsing, file loading and the rune tables are parameters.

## Where the code does less than its documentation

Each of these is kept as the code has it, and the condition under which the
promise does hold is proved.

- One task per queue (pkg/queue/postgres/dequeuer.go:42): queue names are
  compared without case by SQL and with case in Go, so an in-flight queue can
  be chosen under another spelling. `QueueRuns.DequeueKeepsSingleFlightIff`
  gives the exact condition and `QueueRuns.MixedSpellingRun` a run that breaks
  it; `DequeueRaces.TwoAttemptsShareAQueue` breaks it by interleaving alone.
- The heartbeat period: a worker keeps its row for itself exactly when the
  period is at most twice the ttl, and its queue exactly when it is less
  (`LeaseRuns.TaskExclusionIff`, `LeaseRuns.QueueExclusionIff`).
- A failing task whose last progress is the JSON value `null` makes the worker
  panic instead of calling Fail: decoding `null` leaves a nil map
  (`TaskWorker.SetError`, `TaskWorker.HandleTask`, `TaskWorker.FailureAfterNull`).
- Empty answers of Dequeue: with "A" and "a" in flight an attempt can return
  nothing although another queue is free (`QueueRuns.FreeQueueIsMissedRun`);
  `QueueRuns.EmptyIsExplainedIff` says exactly when an empty answer means that
  all queues are busy.
- Heartbeats that go back: updateProgress reads its clock before it waits for
  the row (pkg/queue/postgres/dequeuer.go:276-286), so a late heartbeat can
  overwrite that of a redelivery, and the next redelivery comes too early
  (`DequeueRaces.HeartbeatNeverDecreasesIff`,
  `DequeueRaces.RedeliveriesAreSpacedIff`; both bounds are given by the lag).
- An empty app version: the version is scanned into an empty string, so the run
  succeeds without migrating or recording anything (`Migrations.Database.Prepare`,
  `Migrations.KnownVersionExecutesNothing`).
- A statement listed twice is executed twice by one run
  (`Migrations.ExecutionsBoundedIff`).
- A key file rewritten with its old modification time and size is not seen
  (`KeyCache.RewriteInPlaceIsMissed`, `KeyCache.SyncIsFreshIff`).
- Case conversion: the tables of package unicode have capitals without a lower
  case and capitals that share one, so neither idempotence nor the round trips
  hold for all letters. The exact conditions are on the runes of the string
  (`Casing.UnderscoreIsIdempotentIff`, `Casing.PascalRoundTripIff`,
  `Casing.UnderscoreRoundTripIff`).
- AssertSchedule inserts a new row on every call whose spec is nil
  (`ScheduleAssertion.AtMostOneIff`).
- The default lifetime of a token creator applies below 5 nanoseconds, not 5
  seconds; a token is usable at once exactly when it lives a second or more
  (`Tokens.UsableAtOnceIff`).
- Dequeue is documented to return the oldest row; the query orders by
  created_at descending, and so does the model (`Tasks` predicate `Newest`).
- The comment on ErrHeartbeatTimeout says the row is not marked as failed; the
  code calls Fail, and so does the model.

## Model

| member | source | states |
|---|---|---|
| `TaskStore.ProcessableQueues` | pkg/queue/postgres/dequeuer.go:438-452 | the set-and-filter loops leave exactly the potential names not spelled as an in-flight one, in order |
| `Tasks.ProcessableMembers` | pkg/queue/postgres/dequeuer.go:438-452 | a name is processable if and only if it is potential and not in flight |
| `TaskStore.Store.Enqueue` | pkg/queue/postgres/queuer.go:34-90 | the two refusals, the initial row column by column, and nothing else changed |
| `TaskStore.Store.GenerateQueueList` | pkg/queue/postgres/dequeuer.go:401-435 | one spelling of every queue with a matching row, no other name, no queue twice |
| `TaskStore.Store.SelectForUpdate` | pkg/queue/postgres/dequeuer.go:156-175 | no row exactly when none is eligible, else an eligible one created last |
| `TaskStore.Store.AttemptDequeue` | pkg/queue/postgres/dequeuer.go:100-197 | a serial attempt is a `Dequeued` step; the row in the table gets the two times and the status and keeps all else, the returned value only the times; no task means no change |
| `TaskStore.Store.UpdateProgress` | pkg/queue/postgres/dequeuer.go:239-324 | each reply by the status of the row; an accepted call sets heartbeat, progress, status and, if final, finished_at, and a refused one nothing |
| `TaskStore.Store.RunRetention` | pkg/queue/postgres/retention.go:133-161 | a row stays exactly unless it has that status, finished by the cutoff and is of the queue and type given; those that stay are unchanged |
| `TaskHistory.RowIsItsHistory` | pkg/queue/postgres/dequeuer.go:156-321 | in every run a row has queue, type, spec and created_at of its Enqueue step; started_at, last_heartbeat_at, finished_at, progress and status are those of the last delivery, update or ending in the run |
| `TaskHistory.DeliveredColumns` | pkg/queue/postgres/dequeuer.go:182-192 | a delivery sets the two times to the clock and the status, and keeps the other six columns and all other rows |
| `TaskHistory.DeliveredChoice` | pkg/queue/postgres/dequeuer.go:145-175 | the row delivered is of a requested or unfinished queue not listed in flight, unstarted or silent for more than twice the ttl, and created last of these |
| `TaskHistory.UpdatedColumns` | pkg/queue/postgres/dequeuer.go:294-321 | what an update changes, column by column, if the row is running or failed, and that it changes nothing otherwise |
| `TaskHistory.RemovedIff` | pkg/queue/postgres/retention.go:133-161 | a row leaves the table if and only if a retention job for its status, queue and type finds it old enough |
| `QueueRuns.InvRun` | pkg/queue/postgres/dequeuer.go:156-192 | in every run: started_at nil, last_heartbeat_at nil and status waiting coincide; finished or failed rows have finished_at; heartbeats are not in the future |
| `QueueRuns.FinishedTaskIsOver` | pkg/queue/postgres/dequeuer.go:294-321 | once finished_at is set it stays set, the row is never handed out again, and a row with status finished never changes |
| `QueueRuns.NoTaskIsLost` | pkg/queue/postgres/retention.go:133-161 | over any run with retention jobs a row is in the table or had finished_at set before it left |
| `QueueRuns.EnqueuedTaskIsKept` | pkg/queue/postgres/queuer.go:60-84 | the same for every accepted enqueue, from its own step on |
| `QueueRuns.SingleFlightRun` | pkg/queue/postgres/dequeuer.go:106-192 | with serial attempts, one spelling per queue and timely heartbeats every state has at most one in-flight row per queue |
| `QueueRuns.HeartbeatKeepsSingleFlightIff` | pkg/queue/postgres/dequeuer.go:310-319 | a heartbeat keeps single flight exactly unless it revives an expired row beside an in-flight one |
| `QueueRuns.DequeueKeepsSingleFlightIff` | pkg/queue/postgres/dequeuer.go:126-175 | every outcome of an attempt keeps single flight if and only if no in-flight queue can be named by another spelling |
| `QueueRuns.ClashBreaksSingleFlight` | pkg/queue/postgres/dequeuer.go:386-452 | in such a clash some answer of the list queries puts a second row of the queue in flight |
| `QueueRuns.MixedSpellingRun` | pkg/queue/postgres/setup.go:68-71 | a concrete run from the empty table, with the names "A" and "a" |
| `QueueRuns.DequeueEmptyIff` | pkg/queue/postgres/dequeuer.go:126-175 | in every reachable state, for any list of queues: an attempt comes back empty if and only if no name is left after the in-flight ones, or the drawn queue's unfinished rows are all in flight or exactly twice the ttl old |
| `QueueRuns.EmptyIsExplainedIff` | pkg/queue/postgres/dequeuer.go:372-452 | an empty answer over all queues means that all are busy or the drawn one is on the boundary, whatever is drawn, if and only if no queue in flight under two spellings misleads |
| `QueueRuns.EmptyIsExplained` | pkg/queue/postgres/dequeuer.go:126-175 | in particular in every table that spells each queue in one way |
| `QueueRuns.FreeQueueIsMissedRun` | pkg/queue/postgres/dequeuer.go:438-452 | a run from the empty table: "A" and "a" are in flight, "b" is free, and the attempt returns nothing |
| `LeaseRuns.RefinesQueue` | pkg/queue/workers/task_worker.go:179-308 | every step of the workers is the queue step its call makes (Heartbeat, the final call, Fail on a timeout), or leaves the queue alone |
| `LeaseRuns.InvRun` | pkg/queue/workers/task_worker.go:257-308 | with a period of at most twice the ttl every lease is held: running row, heartbeat at the last timer reset, not overdue, one worker per row |
| `LeaseRuns.CallsAreAccepted` | pkg/queue/postgres/dequeuer.go:294-302 | then no Heartbeat, Finish or Fail of a worker inside handleTask is rejected |
| `LeaseRuns.SingleFlightRun` | pkg/queue/workers/task_worker.go:301-305 | with a shorter period and consistent spelling the composed system has queue-level single flight |
| `LeaseRuns.QueueExclusion` | pkg/queue/postgres/dequeuer.go:40-43 | then at most one worker is inside handleTask per queue |
| `LeaseRuns.TaskExclusionIff` | pkg/queue/workers/task_worker.go:35-40 | no two workers share a row in any run, if and only if the period is at most twice the ttl |
| `LeaseRuns.QueueExclusionIff` | pkg/queue/workers/task_worker.go:35-40 | no two workers share a queue in any run, if and only if the period is less than twice the ttl |
| `LeaseRuns.SlowWorkerLosesTask` | pkg/queue/postgres/dequeuer.go:159-165 | the run that shows the first bound is needed |
| `LeaseRuns.SlowWorkerLosesQueue` | pkg/queue/postgres/dequeuer.go:392-395 | the run that shows the second bound is needed |
| `DequeueRaces.SafeRun` | pkg/queue/postgres/dequeuer.go:106-192 | in any interleaving a lock holder's row is still unstarted or expired when it commits, and the delivery log fits the row |
| `DequeueRaces.HeartbeatGoesBackByLag` | pkg/queue/postgres/dequeuer.go:276-321 | in any interleaving of any number of workers last_heartbeat_at goes back by no more than an update may lag behind its clock reading |
| `DequeueRaces.HeartbeatNeverDecreasesIff` | pkg/queue/postgres/dequeuer.go:276-286 | it never goes back, in any interleaving, if and only if updates do not lag |
| `DequeueRaces.HeartbeatGoesBack` | pkg/queue/postgres/dequeuer.go:276-286 | for any lag a run in which a late heartbeat overwrites that of a redelivery |
| `DequeueRaces.RedeliveriesAreSpaced` | pkg/queue/postgres/dequeuer.go:106-107 | a redelivery's clock reading exceeds the previous one's by more than twice the ttl less the lag |
| `DequeueRaces.RedeliveriesAreSpacedIff` | pkg/queue/postgres/dequeuer.go:106-192 | by more than twice the ttl, in any interleaving, if and only if updates do not lag |
| `DequeueRaces.CommitColumns` | pkg/queue/postgres/dequeuer.go:182-196 | in any interleaving a delivery is stamped with the clock reading of its attempt, however late it commits, and keeps the other columns |
| `DequeueRaces.FinishedIsNotDelivered` | pkg/queue/postgres/dequeuer.go:156-192 | in any interleaving no commit stamps a row with finished_at set, and its delivery log no longer grows |
| `DequeueRaces.TwoAttemptsShareAQueue` | pkg/queue/postgres/dequeuer.go:401-412 | two interleaved attempts put two rows of one queue in flight |
| `TaskWorker.ProcessHeartbeats` | pkg/queue/workers/task_worker.go:257-308 | received beats are forwarded once each, in order, none after an error; progress is the last beat or "{}"; the ending is that of the first event that is not an accepted beat |
| `TaskWorker.SetError` | pkg/queue/workers/task_worker.go:310-328 | only the key "error" is set when the progress is an object, nothing when it is not, a panic exactly on null |
| `TaskWorker.HandleTask` | pkg/queue/workers/task_worker.go:179-253 | by the first event that is not an accepted beat and the result of the handler: one Fail on a timeout or handler error, one Finish with the last beat, or no further call; a due Fail is missing only on null |
| `TaskWorker.FailureAfterNull` | pkg/queue/workers/task_worker.go:310-320 | an accepted beat that decodes to null and then a handler error end in a panic, with no Fail |
| `TaskWorker.TraceLandsInRow` | pkg/queue/postgres/dequeuer.go:294-321 | replayed on a running row every call of a trace is accepted and the row ends as its last call says, no other row changed |
| `KeyCache.PublicKeyMap.Init` | pkg/tokens/public_keys.go:123-158 | the cache holds an entry of every regular loadable file under its hash and no other; an unreadable directory changes nothing |
| `KeyCache.Scan` | pkg/tokens/public_keys.go:252-305 | every visited file has its entry in place or its name marked, all other names are untouched; no counter means no change |
| `KeyCache.PublicKeyMap.Sync` | pkg/tokens/public_keys.go:166-338 | errors exactly at a cancelled poll (two, and one per file) and then changes nothing; otherwise the cache is rebuilt from kept and loaded entries |
| `KeyCache.RebuiltIsFresh` | pkg/tokens/public_keys.go:265-287 | if unchanged stat data means unchanged content, the lookup after a sync is that of a reload |
| `KeyCache.SyncIsFreshIff` | pkg/tokens/public_keys.go:252-338 | without that assumption: the lookup is that of a reload if and only if, for each file that looks unchanged, its cached hash is still offered and its present hash is kept |
| `KeyCache.MaintainCache` | pkg/tokens/public_keys.go:78-92 | over any history of directories the lookup after each tick equals a reload of that snapshot, empty if unreadable |
| `KeyCache.ServeKeys` | pkg/tokens/public_keys.go:57-92 | the same for a new cache from its init on, with nothing assumed of the cache |
| `KeyCache.FreshIsUnique` | pkg/tokens/public_keys.go:123-158 | a directory has one lookup table, so sync and init agree on all hashes |
| `KeyCache.InitIsFresh` | pkg/tokens/public_keys.go:129-151 | init serves exactly the pairs the files offer |
| `KeyCache.KeyFunction` | pkg/tokens/public_keys.go:94-121 | with a fresh cache a key is found for a hash exactly when some file offers it; the two header errors exactly |
| `KeyCache.RewriteInPlaceIsMissed` | pkg/tokens/public_keys.go:282-286 | init, then a sync after any rewrite with the old modification time and size: the old hash is still served and the table is not that of a reload |
| `Migrations.PendingInOrder` | pkg/db/migrations/migrations.go:60-107 | the pending statements are those at the unrecorded positions of the list, all of them and in order |
| `Migrations.Database.Migrate` | pkg/db/migrations/migrations.go:21-110 | one transaction executes exactly the unrecorded statements in order, or nothing; it fails exactly at a failing unrecorded statement or commit |
| `Migrations.Database.Prepare` | pkg/db/migrations/prepare.go:53-170 | a known or empty version changes nothing; other successes record app, init and list and execute what was pending; exactly which faults are reported, and what each leaves executed |
| `Migrations.MigrationSafety` | pkg/db/migrations/prepare.go:77-169 | for any fleet and crashes: one replica past the lock, a recorded app version has all its rows, a recorded statement was executed |
| `Migrations.RecordedIsFinal` | pkg/db/migrations/migrations.go:78-96 | a recorded statement is never executed again |
| `Migrations.ExecutionsAreCounted` | pkg/db/migrations/prepare.go:139-169 | committed executions are those of failed, settled and live runs, at most 1 plus the runs that failed after migrate committed |
| `Migrations.CountersCountSteps` | pkg/db/migrations/migrations.go:33-58 | these numbers are those of the commits of migrate and of the late crashes in the run |
| `Migrations.KnownVersionExecutesNothing` | pkg/db/migrations/prepare.go:102-116 | a run whose version is recorded or empty leaves with every table as it was |
| `Migrations.RepeatedNameRunsTwice` | pkg/db/migrations/migrations.go:60-107 | a behaviour from the empty database in which one run, with no failure, executes a repeated name twice |
| `Migrations.ExecutionsBoundedIff` | pkg/db/migrations/migrations.go:60-107 | the bound of 1 plus the late failures holds in all behaviours of a fleet if and only if no list of a replica that migrates repeats a name |
| `Migrations.UndisturbedRun` | pkg/db/migrations/prepare.go:53-170 | a replica with an unknown, non-empty version that is not disturbed reaches the tables the sequential code leaves |
| `ScheduleAssertion.Store.EnsureSchedule` | pkg/queue/postgres/scheduler.go:105-150 | the two refusals; found exactly when a row matches queue, type, spec and all given reference columns |
| `ScheduleAssertion.Store.AssertSchedule` | pkg/queue/postgres/scheduler.go:152-198 | alone in the database: a match is left alone, otherwise exactly one row is added, with each column of the request; each refusal by its cause, adding none |
| `ScheduleAssertion.AssertedColumns` | pkg/queue/postgres/scheduler.go:74-97 | in any interleaving a row inserted for a request has its queue, type, cron, references and defaulted spec |
| `ScheduleAssertion.InvRun` | pkg/queue/postgres/scheduler.go:178-198 | in any interleaving a transaction that saw no match, or has inserted, still has no committed match; of two asserted rows not each matches the other's request |
| `ScheduleAssertion.CoveredRequestsShareARow` | pkg/queue/postgres/scheduler.go:126-136 | requests that match each other's rows, though they differ in cron or spelling, have one live row between them |
| `ScheduleAssertion.AtMostOneIff` | pkg/queue/postgres/scheduler.go:36-198 | at most one live row is ever created for a request, in any interleaving, if and only if its spec is not nil |
| `ScheduleAssertion.NilSpecInsertsTwice` | pkg/queue/postgres/scheduler.go:125-131 | two calls with a nil spec leave two rows |
| `ScheduleWorker.ScheduleConservation` | pkg/queue/workers/schedule_worker.go:137-261 | a row has one claim at most; enqueued tasks are advances plus rolled-back attempts plus the open one; a one-time schedule in the table advances once |
| `ScheduleWorker.CountersCountSteps` | pkg/queue/workers/schedule_worker.go:137-261 | these numbers are those of the enqueues, commits and rollbacks in the run |
| `ScheduleWorker.OneTimeAdvancesOnce` | pkg/queue/workers/schedule_worker.go:222-258 | a schedule created without cron and not given one later has at most one committed advance, also after its deletion |
| `ScheduleWorker.Worker.ScheduleTask` | pkg/queue/workers/schedule_worker.go:123-274 | the earliest due schedule is enqueued and its next time set to that of its cron expression, or to none without one; a cron error keeps the row but not the enqueue undone |
| `ScheduleWorker.Worker.ScheduleTaskBySteps` | pkg/queue/workers/schedule_worker.go:123-274 | the same call is the steps claim, enqueue, advance and commit, or claim, enqueue and rollback, of the many-worker machine |
| `ScheduleWorker.Worker.Iteration` | pkg/queue/workers/schedule_worker.go:89-121 | if nothing comes due meanwhile it ends drained after as many rounds as were due, each enqueued once in order of time, none due afterwards; recurring ones have a later next time, one-time ones none, all others are unchanged |
| `Casing.ToPascalCase` | pkg/strings/casing.go:9-34 | the flag-driven loop computes `Pascal` |
| `Casing.ToUnderscoreCase` | pkg/strings/casing.go:37-69 | the flag-driven loop and the trim compute `Underscore` |
| `Casing.PascalByPosition` | pkg/strings/casing.go:9-34 | for any string: its letters and digits in order, in upper case exactly the first of the string and those after another rune |
| `Casing.UnderscoreIsJoined` | pkg/strings/casing.go:37-69 | for any string: its letters and digits in lower case and in order, an underscore exactly between those with another rune between them or where a capital begins |
| `Casing.UnderscoreNormalForm` | pkg/strings/casing.go:37-69 | no leading, trailing or doubled underscore for any input; no capital if and only if every capital of the input has a lower case |
| `Casing.UnderscoreIsIdempotentIff` | pkg/strings/casing.go:37-69 | a second conversion changes nothing if and only if each capital that stays a capital is stable and does not directly follow one that is lowered |
| `Casing.UnderscoreIsIdempotent` | pkg/strings/casing.go:37-69 | in particular if every capital of the string has a lower case |
| `Casing.SecondConversionDiffers` | pkg/strings/casing.go:52-57 | "B" followed by U+1D538 changes again, U+1D538 alone does not |
| `Casing.PascalIsIdempotent` | pkg/strings/casing.go:9-34 | a second conversion changes nothing |
| `Casing.PascalRoundTripIff` | pkg/strings/casing.go:9-69 | a string survives underscores and back if and only if it is letters and digits and each of its capitals, and its first rune, comes back from its own case maps |
| `Casing.PairedPascalRoundTripIff` | pkg/strings/casing.go:9-69 | if the capitals of the string are paired with lower-case letters: if and only if it starts with its own upper case and has no adjacent capitals |
| `Casing.DottedCapitalIsLost` | pkg/strings/casing.go:28-57 | U+0130 is a letter and its own upper case and does not come back |
| `Casing.UnderscoreRoundTripIff` | pkg/strings/casing.go:9-69 | a string survives Pascal case and back if and only if its underscores are single and inner and each rune of it can be recovered |
| `Casing.SnakeRoundTripIff` | pkg/strings/casing.go:9-69 | if the capitals of its Pascal form have a lower case: if and only if it is in normal form, its first rune fits and every underscore can be told from a capital |
| `Casing.UnderscoreRoundTrip` | pkg/strings/casing.go:9-69 | in particular, with any such tables, if it is in normal form, its words start with a lower-case letter and all but the last have two runes or more |
| `Casing.AsciiIsPaired` | pkg/strings/casing.go:3-6 | the ASCII rune maps meet every assumption made on the maps |
| `Casing.ExtendedIsBasic` | pkg/strings/casing.go:3-6 | ASCII with U+0130 and U+1D538 meets what the exact results assume, but not all its capitals are paired |
| `Tokens.NewCreator` | pkg/tokens/creator.go:52-61 | a lifetime of 5 nanoseconds or more is kept, a shorter one becomes 5 seconds |
| `Tokens.Create` | pkg/tokens/creator.go:69-116 | no token exactly without a key; the times, the party and the defaulted ids otherwise |
| `Tokens.ValidIff` | pkg/http/middlewares/authorization/claims.go:75-113 | claims are valid if and only if they have a subject, their three times are present and fit, and a party, if named, is the issuer; the errors by their cause |
| `Tokens.TokenWindowIff` | pkg/http/middlewares/authorization/claims.go:75-113 | after printing and reading back the token validates at exactly floor(now) <= t < floor(now + lifetime), unless a time is the zero time |
| `Tokens.ModernClaimsArePresent` | pkg/http/middlewares/authorization/claims.go:164-189 | no time of a token made after the epoch is the zero time |
| `Tokens.TokenLifetime` | pkg/http/middlewares/authorization/timestamp.go:32-63 | for a lifetime of a second or more all t in [now, now + lifetime - 1s] are accepted and none from now + lifetime on |
| `Tokens.UsableAtOnceIff` | pkg/tokens/creator.go:52-56 | usable at its creation, whenever that is, if and only if it lives a second or more |

## Left out

- FIFO order of Dequeue: the query orders by created_at descending.
- User cancellation: nothing in the repository writes the status cancelled.
- Failed as a terminal status: a late Heartbeat or Finish is accepted on a failed row; only finished_at and the absence of redelivery are claimed.
- Handler panics, and a handler that never returns after a rejected heartbeat (it appears as a blocked outcome).
- LeaseRuns.InvRun: calls take no time, a fired timer is served at once and a handler closes its heartbeats when it returns; latency is not modelled.
- DequeueRaces.HeartbeatGoesBackByLag: the row lock, the status gate and the write of updateProgress are one step, which the row lock makes them; the lag is counted up to that step.
- DequeueRaces.SafeRun: the interleaved select may take any eligible row, not only the newest; the order is stated for serial attempts.
- QueueRuns.HeartbeatKeepsSingleFlightIff: stated for a positive ttl; with ttl zero nothing is ever in flight.
- QueueRuns.NoTaskIsLost: deletion by foreign key (ON DELETE CASCADE) and hand-written retention SQL are not steps of the model.
- Negative heartbeat ttl or period: both are natural numbers here.
- Names beyond ASCII: citext folding is modelled for the letters A to Z.
- KeyCache.MaintainCache: assumes that name, modification time and size determine the load result and that hashes do not collide; the lock discipline of clear and the keysKept log counter are not modelled.
- KeyCache.SyncIsFreshIff: assumes that a hash, cached or in a file, is that of one key.
- Migrations.MigrationSafety: assumes that an app version names one list and is no statement's row; a crash ends both connections of a run at once; views are one opaque step and the idle-commit workaround is not modelled.
- Migrations.UndisturbedRun: the statements, the hashing and the table setup are opaque.
- ScheduleAssertion.InvRun: other writers insert, delete or update columns that are not compared; the retention upsert, which rewrites task_spec, is not among them.
- ScheduleWorker.Worker.Iteration: draining is stated for one worker without failures and while nothing comes due; cancellation and cron errors end the loop earlier.
- Tokens.TokenWindowIff: the text of the number, signing and the checks of the JWT library are not modelled.
- Casing.ToPascalCase: strings are sequences of runes; invalid UTF-8 is not modelled. Of the rune tables it is assumed throughout that capitals are letters, that the case maps stay within letters and digits and that upper case is idempotent.
- SQL text, squirrel, JSON, cron parsing, hashing, PEM and RSA, encryption: parameters or opaque values.
- HTTP clients, handlers, middlewares, tracing, metrics, configuration, file copy, pagination, null types, union file system and syncTable: plumbing or easy members.
- Nothing was executed: all statements are about the model.
