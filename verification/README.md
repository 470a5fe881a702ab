# Drover, verified

Drover is a PostgreSQL-backed job queue. Workers claim jobs under a lease, every write is fenced
by the attempt number the claim handed out, a heartbeat keeps leases alive, a sweep collects jobs
whose worker died, and a scheduler enqueues periodic jobs. This project models that core in Dafny
and proves what it keeps over whole runs, for every number of jobs, queues, workers and steps.

## How it is laid out

| module | what it holds |
|---|---|
| `Jobs`, `Ordering`, `Division` | rows and states; the (time, id) order every fetch uses; rounding-down division |
| `JobStore`, `MemDriver` | the store's operations as functions of store and clock; the same operations in place |
| `Journal`, `Fence`, `Ledger`, `Ceiling` | what every run keeps about claims, attempts, recorded errors and retries |
| `UniqueSlots`, `QueueStats` | unique keys and atomic batches; depths and ages of queues |
| `SqlDriver`, `SqlRuns` | the guarded SQL statements as whole-table steps, compared with the store's one by one and over runs |
| `Queues`, `QueueOrder`, `ClaimRound` | weighted order of queues, and what one claim round takes |
| `Inflight`, `Heartbeat`, `ClientConfig` | tracked leases, the beat, and why a held job is never handed out twice |
| `Pool`, `Dispatch`, `Shutdown` | slots and hand-off under every interleaving, the order of hand-offs, and the end of a pool |
| `Handover`, `Coverage` | the pool over its store: what its claims become there, and that what it owes is tracked |
| `Disposal`, `Rescue` | one attempt and what is tracked meanwhile, the lease sweep |
| `CronField`, `Calendar`, `Cron`, `TickKey`, `Periodic` | cron fields, dates, the next fire, tick keys, and ticks without gaps |
| `Gauges` | the published view of the queues |

A store operation changes each row by at most one *event* (claimed, renewed, ended, withdrawn,
redriven). `Journal` writes down every claim of a job since its insert or last redrive and how it
ended; the theorems about runs are about that record. Times are integers (nanoseconds), the clock
is a parameter of every call and may stand still or go back unless a theorem says otherwise.
Handlers, retry policies, random draws, store failures and the rest of the fleet are arbitrary
inputs.

Some promises hold only under a condition. The condition is proved exact, with an input that fails:

- Redriving a dead job can put two live jobs in one unique slot. It does so exactly when a live
  job holds the slot (`RedriveKeepsSlotsIff`; `RedriveBreaksSlots` is a run of five calls).
- `ParseIn` says `@every` schedules are aligned to the Unix epoch. The code counts from Go's zero
  time instead, so that is true exactly when the interval divides 62135596800 seconds
  (`UnixAlignedIff`; `SevenSecondsDrift` is an interval that never aligns). The model follows the code.
- A cron step that carries the range's first value past the largest int wraps negative and panics;
  every other well-formed item is accepted (`CronField.Field.AddPart`; `HugeStepPanics`).
- `Next` says it returns the earliest matching instant. Past its five-year scan it returns none,
  which happens to a schedule for February 29 alone before a century without one
  (`NoneExactly`; `CenturyWithoutLeapDay` is the year 2096).
- A database call differs from the in-memory store exactly when a fetch asks for a limit outside
  int32, a claim would raise an attempt past int32, the clamp in `attemptArg` meets a row at the
  largest int32, a failure carries no detail, or a redrive finds its slot taken (`StepAgreesIff`;
  `LimitTooLarge`, `ClaimOverflow`, `ClampCollision`, `NullWrite`, `RedriveBreaksSlots`).
- A held claim is safe as long as the pool claims no lease it has still to untrack or that another
  client may act on. That is exact: after a claim that does, the next step can break a held claim
  (`UntangledIsExact`, `TangledClaimIsUnsafe`). Without snooze and redrive it is always so
  (`CalmRunsAreUntangled`); a snooze can break it (`SnoozeCanTangle`).

## Model

| member | source | states |
|---|---|---|
| JobStore.ApplyIsRowwise | internal/memdriver/memdriver.go:37-413 | every operation changes each stored row by one event its state allows, adds only fresh rows under ids never issued, and loses none |
| JobStore.RowsAreStored | internal/memdriver/memdriver.go:157-203 | the rows a fetch hands out are exactly the stored rows of the ids it took |
| JobStore.InsertEachExtends | internal/memdriver/memdriver.go:37-83 | inserting one after another only adds fresh rows and leaves the others as they were |
| Ordering.SortIds | internal/memdriver/memdriver.go:451-465 | collecting rows in any map order and sorting them gives the one listing by (time, id) |
| Ordering.OneListing | internal/memdriver/memdriver.go:451-465 | only one sequence lists a set of rows in order, so a fetch depends on the store alone |
| Ordering.RankIsPosition | internal/memdriver/memdriver.go:451-465 | a row's position counts the rows ahead of it by (time, id) |
| MemDriver.Driver.constructor | internal/memdriver/memdriver.go:28-30 | a new driver holds the empty store |
| MemDriver.Driver.UniqueConflict | internal/memdriver/memdriver.go:119-146 | true exactly when a row of that queue, kind and key is not completed, cancelled or dead, or an earlier row of the batch has them; never for the empty key |
| JobStore.ConflictIsOccupied | internal/memdriver/memdriver.go:119-146 | a key is taken exactly while some job under it is neither completed, cancelled nor dead |
| MemDriver.Driver.Insert | internal/memdriver/memdriver.go:37-48 | refused as duplicate exactly while the key is taken, with nothing changed; otherwise one new row under the next id, every field as given, scheduled if due later and available if not |
| MemDriver.Driver.InsertMany | internal/memdriver/memdriver.go:59-83 | the whole batch or nothing, exactly as the batch step |
| MemDriver.Driver.Stage | internal/memdriver/memdriver.go:68-74 | the first pass accepts exactly the batches free of clashes with the store and within themselves, and builds their rows |
| MemDriver.Driver.Write | internal/memdriver/memdriver.go:75-78 | the second pass adds exactly those rows |
| MemDriver.Driver.FetchAvailable | internal/memdriver/memdriver.go:157-178 | the claim step, with the rows in due order |
| MemDriver.Driver.FetchExpired | internal/memdriver/memdriver.go:184-203 | the re-claim step: oldest lease first, attempt untouched |
| MemDriver.Driver.TouchFirst | internal/memdriver/memdriver.go:162-177 | changing rows in place until the limit equals changing the first limit rows at once |
| MemDriver.Driver.ExtendLeases | internal/memdriver/memdriver.go:209-223 | renews each running row whose exact attempt is listed and skips the rest |
| MemDriver.Driver.Transition | internal/memdriver/memdriver.go:481-565 | every Mark method: not found for a missing row, else invalid transition for one not running, else lease lost for another attempt, store unchanged; otherwise the outcome's event |
| MemDriver.Driver.OperatorCancel | internal/memdriver/memdriver.go:354-380 | cancels a waiting or dead row; not found for a missing one, invalid transition for one running, completed or cancelled |
| MemDriver.Driver.RedriveDead | internal/memdriver/memdriver.go:384-413 | makes a dead row available at attempt zero; not found for a missing one, invalid transition for any other |
| MemDriver.Driver.Stats | internal/memdriver/memdriver.go:243-292 | the depths are the exact counts of every counted state, the ages those of the earliest due job of each queue |
| Journal.EventKeeps | internal/memdriver/memdriver.go:157-582 | one event keeps a row in agreement with the record of its claims |
| Journal.RunKeeps | internal/memdriver/memdriver.go:37-582 | every run keeps every row in agreement with its record: claims numbered in order, leased iff running, finalized iff terminal |
| Fence.AttemptCountsSpent | internal/memdriver/memdriver.go:157-178 | a claim's attempt is one more than the earlier claims since the last redrive that did not end in a snooze |
| Fence.ClaimNumbers | internal/memdriver/memdriver.go:512-519 | attempts never fall, and two claims share a number exactly when the earlier and all between were snoozed |
| Fence.ClaimsIncreaseOverRuns | internal/memdriver/memdriver.go:157-178 | the same for any two claims of a job in any run from the empty store |
| Fence.RunRemembers | internal/memdriver/memdriver.go:512-565 | an ended claim stays ended over any further run without a redrive of that job |
| Fence.EndedIsRefused | internal/memdriver/memdriver.go:542-565 | the guard refuses the lease of a claim that ended other than by snooze |
| Fence.RefusedIsFenced | internal/memdriver/memdriver.go:209-223 | a refused lease changes nothing through any Mark and is skipped by every lease extension |
| Fence.StaleHolderFenced | internal/memdriver/memdriver.go:512-565 | in every run, a holder whose claim ended other than by snooze is refused everywhere, at every later point before a redrive |
| Fence.RedriveReissuesFirstAttempt | internal/memdriver/memdriver.go:388-413 | why the redrive is excluded: the next claim after one hands out the number of the job's first claim again |
| Ledger.RowLedger | internal/memdriver/memdriver.go:481-582 | a row that agrees with its record has as many errors as the attempts it owes one for |
| Ledger.LedgerOverRuns | internal/memdriver/memdriver.go:481-582 | in every run: errors since insert or redrive are attempt for waiting, dead and cancelled rows, attempt - 1 for running and completed, less the ends written without detail; leased iff running, finalized iff terminal, running implies attempt at least 1, snooze floor never reached |
| Ledger.DocumentedLedger | internal/memdriver/memdriver.go:567-582 | with details always supplied the error count is exact |
| Ceiling.ClaimCeiling | loop.go:233-299 | an attempt exceeds the ceiling by at most the requeues before it |
| Ceiling.ClaimsBound | loop.go:233-299 | a job is claimed at most ceiling + snoozes + requeues times between redrives |
| Ceiling.AttemptCeiling | pool.go:406-418 | both bounds in every run whose outcomes come from the worker loop and shutdown requeues |
| UniqueSlots.SlotsUniqueOverRuns | internal/memdriver/memdriver.go:119-146 | no two live rows share queue, kind and key in any run whose redrives find the slot free |
| UniqueSlots.RedriveKeepsSlotsIff | internal/memdriver/memdriver.go:388-413 | a redrive keeps slots unique exactly when no live row holds the dead row's slot |
| UniqueSlots.RedriveBreaksSlots | internal/memdriver/memdriver.go:388-413 | a run that does not: insert, claim, die, insert again, redrive |
| UniqueSlots.KeyIsTaken | internal/memdriver/memdriver.go:37-48 | a second insert under the key of a job still waiting is refused |
| UniqueSlots.KeyComesBack | internal/memdriver/memdriver.go:119-126 | after insert, claim and completion the same insert succeeds again, as job 2 |
| UniqueSlots.InsertEachExact | internal/memdriver/memdriver.go:37-48 | folding Insert over a batch succeeds exactly when the batch is free of clashes, with consecutive ids |
| UniqueSlots.InsertManyExact | internal/memdriver/memdriver.go:59-83 | the batch equals that fold when every item succeeds, and otherwise leaves rows and next id alone |
| QueueStats.DepthsGrow | internal/memdriver/memdriver.go:252-256 | counting one more row keeps the depths exact |
| QueueStats.OldestGrows | internal/memdriver/memdriver.go:257-266 | looking at one more row keeps the oldest due job exact |
| QueueStats.AgesAgreeWithClaims | internal/memdriver/memdriver.go:243-292 | a queue has an age exactly when claiming one job there succeeds, and the age is that of the row the claim takes |
| SqlDriver.ReachableColumns | internal/pgdriver/pgdriver.go:629-643 | on reachable stores running rows have attempt at least 1, so clamping from below matches nothing new |
| SqlDriver.MarkAgreesIff | internal/dbsqlc/queries.sql.go:359-483 | a guarded Mark statement followed by explain gives the store's result and error class exactly when the clamp does not collide and no NULL would be written |
| SqlDriver.LimitIsPrefix | internal/dbsqlc/queries.sql.go:38-59 | ORDER BY with LIMIT, read as a rank, picks the prefix of the sorted listing |
| SqlDriver.FetchAvailableAgreesIff | internal/pgdriver/pgdriver.go:304-317 | the SQL claim takes the same rows and leaves the same table as the store's, exactly when the limit fits int32 and no claimed row sits at the largest int32 |
| SqlDriver.FetchExpiredAgreesIff | internal/pgdriver/pgdriver.go:323-335 | the SQL sweep leaves the store's table exactly when the limit fits int32 |
| SqlDriver.ExtendAgreesIff | internal/dbsqlc/queries.sql.go:15-25 | the lease extension leaves the store's table exactly when no clamped lease changes a row it does not hold |
| SqlDriver.InsertAgrees | internal/dbsqlc/queries.sql.go:189-201 | the unique index refuses an insert exactly when the store finds a conflict |
| SqlDriver.RedriveAgreesIff | internal/dbsqlc/queries.sql.go:609-619 | the redrive writes the store's table, and the unique index rejects it exactly when a live row holds the slot |
| SqlDriver.CancelAgrees | internal/dbsqlc/queries.sql.go:531-539 | the operator cancel writes the store's table |
| SqlDriver.JobTable.ExecMark | internal/dbsqlc/queries.sql.go:359-483 | walking the rows one by one: on a table keyed by id at most one row matches, exactly the one the guard names, and only it is rewritten; a NULL leaves the table alone |
| SqlDriver.JobTable.Mark | internal/pgdriver/pgdriver.go:361-425 | the statement and the re-read together are the SQL Mark step; a failed statement changes nothing |
| SqlDriver.JobTable.FetchAvailable | internal/pgdriver/pgdriver.go:304-317 | the SQL claim step, rows returned once each in id order; a limit outside int32 or an attempt past the column fails it and changes nothing |
| SqlDriver.JobTable.FetchExpired | internal/pgdriver/pgdriver.go:323-335 | the SQL sweep step in the same way |
| SqlDriver.JobTable.SortedRows | internal/pgdriver/pgdriver.go:618-627 | exactly the claimed rows, ids ascending |
| SqlRuns.BatchIndex | internal/dbsqlc/queries.sql.go:254-269 | the unique index admits a staged batch exactly when it is free of clashes with the table and within itself |
| SqlRuns.StepAgreesIff | internal/pgdriver/pgdriver.go:304-425 | a call of any kind leaves table and store equal exactly when it meets none of the exceptions; a refused insert may use up ids |
| SqlRuns.SqlRefinesTheStore | internal/pgdriver/pgdriver.go:304-425 | from empty, every run of such calls, refused inserts and batches included, leaves the same rows in both, up to the ids the database skips |
| SqlRuns.SkippingNothing | internal/pgdriver/pgdriver.go:51-60 | where no insert is refused the ids are the same too |
| SqlRuns.LimitTooLarge | internal/pgdriver/pgdriver.go:304-307 | a limit one past int32 claims due jobs in memory and is refused by the database driver |
| SqlRuns.ClampCollision | internal/pgdriver/pgdriver.go:629-643 | a lease one past int32 completes a row at the largest int32 on the database; the store refuses it |
| SqlRuns.NullWrite | internal/dbsqlc/queries.sql.go:408-430 | on a job just inserted and claimed, a death without detail is accepted by the store and fails the statement |
| SqlRuns.ClaimOverflow | internal/dbsqlc/queries.sql.go:38-59 | a job at the largest int32 can be claimed in memory and not on the database |
| ClaimRound.ClaimTakesTheLeast | internal/memdriver/memdriver.go:157-178 | a claim takes exactly the min(limit, due) least rows by (due time, id), one attempt and one lease each, and leaves the rest |
| ClaimRound.RoundSize | pool.go:483-535 | a round over distinct queues claims exactly min(capacity, all that is due in them), in any order |
| ClaimRound.RoundTakesPrefixes | pool.go:483-535 | each queue gives a prefix of its due order and keeps the rest; below capacity it gives all of it |
| ClaimRound.ShortRoundDrains | pool.go:483-535 | a round short of capacity leaves no configured queue with a due job |
| ClaimRound.Visit | pool.go:489-507 | one queue: the claim step, and its rows tracked before anything else is asked of the store |
| ClaimRound.RunRound | pool.go:483-535 | the loop in place: the round over the queues it came to, all of them unless it filled up, a claim failed or a stop was seen; whatever was claimed is tracked before the next claim |
| Queues.TotalBounds | queues.go:99-104 | the total is positive, at most 100000 a queue, and fits int64 |
| Queues.Chosen | queues.go:111-124 | every in-range draw lands in some queue's share, so the fallback index is never needed |
| Queues.OneLanding | queues.go:111-124 | and in no other queue's |
| Queues.TotalRemoved | queues.go:126-134 | swap-removal takes exactly the picked weight off the total |
| Queues.OrderIsPermutation | queues.go:90-137 | for every sequence of in-range draws the order lists each queue exactly once |
| Queues.ExactShare | queues.go:111-124 | exactly weight-many draws pick a given queue, wherever it stands |
| Queues.ChanceStep | queues.go:111-134 | under uniform draws the first place goes to a queue with its weight over the total |
| Queues.WeightedWithoutReplacement | queues.go:71-137 | the chance of a whole order is the product of each queue's weight over the weight not yet placed, whatever the arrangement |
| Queues.WaysAreDraws | queues.go:108-136 | the draw sequences counted for an order are exactly the in-range ones that come out as it |
| Queues.OrderIsDrawnProductWays | queues.go:108-136 | as many draw sequences come out as a given order as its weights multiply to |
| Queues.ChanceIsShareOfDraws | queues.go:71-137 | the chance of an order is the share of draw sequences that come out as it |
| QueueOrder.LessIsLexicographic | queues.go:65-67 | names are compared as in a dictionary |
| QueueOrder.Clamped | queues.go:53-62 | a weight below one becomes one, one above 100000 becomes 100000, any other is kept |
| QueueOrder.CheckedQueues | queues.go:43-69 | panics exactly on an empty name; otherwise one entry per configured queue, weight clamped, sorted by name, the default queue when none is configured |
| QueueOrder.Select | queues.go:113-124 | the scan finds the queue the draw lands in, never falling through |
| QueueOrder.Draw | queues.go:110-136 | drawing and swap-removing in place, with the running total equal to the sum of what remains |
| QueueOrder.WeightedOrder | queues.go:90-137 | the drawn order; the configured queues are unchanged as long as scratch is another array |
| QueueOrder.DrawnRound | pool.go:483-535 | a claim round with its order drawn is work-conserving whatever the draws |
| Inflight.InflightSet.AddLease | inflight.go:33-37 | tracks the lease under its job id |
| Inflight.InflightSet.RemoveLease | inflight.go:39-46 | forgets the job only when it is tracked at that attempt |
| Inflight.InflightSet.Snapshot | inflight.go:52-66 | every tracked lease once, ids ascending |
| ClientConfig.Client.constructor | client.go:250-303 | the heartbeat ends strictly inside the lease, three to the lease by default, and usable choices are kept |
| ClientConfig.Client.ExtendLeases | heartbeat.go:37-61 | one beat renews exactly the tracked claims the store still shows running |
| Heartbeat.StepKeeps | heartbeat.go:22-61 | every step of pool, beat and fleet, snooze and redrive included, keeps coverage and lease safety |
| Heartbeat.HeldClaimsAreSafe | loop.go:128-159 | in every run whose beats land less than a lease apart and whose claims hand out no lease still in use, a held claim is tracked under its exact attempt, is current, and is returned by no sweep |
| Heartbeat.BeatsKeepUp | heartbeat.go:22-35 | beats an interval apart, each over before the next, no two in a row missed: with three intervals to the lease time never outruns the last beat to land |
| Heartbeat.ThirdOfLeaseIsEnough | client.go:277-297 | so on that schedule alone every held claim is safe |
| Heartbeat.CalmRunsAreUntangled | inflight.go:33-46 | without snooze and redrive no claim hands out a lease still in use |
| Heartbeat.CalmBeats | heartbeat.go:22-35 | so a calm run needs the beats' schedule and nothing else |
| Heartbeat.SnoozeCanTangle | inflight.go:39-46 | a job snoozed to now and claimed again is untracked by its first claim's deferred remove while it runs |
| Heartbeat.TangledClaimIsUnsafe | inflight.go:39-46 | after any claim that hands out a lease still in use, some next step leaves a held claim untracked or refused |
| Heartbeat.UntangledIsExact | inflight.go:33-46 | so a claim is untangled exactly when no next step can break a held claim |
| Pool.StepKeepsSlots | pool.go:421-574 | every step conserves slots |
| Pool.SendsNeverBlock | pool.go:570-574 | whenever a token is about to be sent the channel has room |
| Pool.HandOffFindsAWorker | pool.go:451-461 | a row waiting for hand-off always has a worker holding none |
| Pool.UnfinishedFits | pool.go:515-535 | rows claimed and not yet finished or given back, surplus on its way back aside, never exceed the concurrency |
| Pool.StepKeepsAccounts | pool.go:421-544 | every claimed row is pending or met exactly one fate, after any step |
| Pool.StepStaysLive | inflight.go:33-46 | after any step every tracked lease belongs to a row still in the pool's hands |
| Pool.SlotsConserved | pool.go:108-110 | free tokens, tokens of the fetch loop and rows in hand add up to the concurrency at every point of every run |
| Dispatch.HandOffsInClaimOrder | pool.go:445-461 | in every run rows are handed to workers in the order their claims returned them |
| Pool.ShutdownStrandsNothing | pool.go:323-335 | once all have exited, each claimed row went to exactly one of runJob, surplus or abandon, one hand-back write was attempted for each of the last two, all tokens are back and nothing is tracked |
| Handover.DrainedLeavesNothingRunning | pool.go:323-418 | over any store and with any calls by other clients: once drained, every lease the pool was handed is refused by the store, unless its write never got there or a later claim was handed it again |
| Handover.StaysRefused | internal/memdriver/memdriver.go:542-565 | no call makes a refused lease current again but a claim that hands it out |
| Handover.CalmNeverReissues | internal/memdriver/memdriver.go:157-178 | without snooze and redrive no lease is handed out twice |
| Handover.LandedCloses | internal/memdriver/memdriver.go:542-565 | a write that reaches the store leaves its lease refused, whether the write was accepted or not |
| Coverage.OwedIsTracked | pool.go:421-574 | in every run where nobody else ends a claim the pool owes a write for and no lease is handed out twice, every such claim is tracked under its exact attempt, through every hand-over |
| Shutdown.StoppedStepProgresses | pool.go:421-462 | after a stop every step does some of the work left, less what a claim that still returns brings in |
| Shutdown.ShutdownEnds | pool.go:223-290 | a stopped pool takes at most its work left in steps, plus a fixed number for each late claim and each row it brought, in any interleaving |
| Shutdown.FailingClaimsEnd | pool.go:489-496 | with claims failing on their cancelled context the bound is fixed at the stop |
| Shutdown.ShutdownNeverStuck | pool.go:539-574 | until it is drained some step other than a claim can be taken |
| Disposal.Dispose | loop.go:233-299 | while the claim is held: cancelled with one error more when hopeless, at any attempt; scheduled after the delay with the attempt given back when not yet; dead at the ceiling and else retryable at the later of the policy's time and now when failed; no other row touched, and nothing changed when the claim is lost |
| Disposal.RunJob | loop.go:128-159 | one attempt: the store is written only while the lease is tracked, the row meets the same fates, or is completed on success, and the job is untracked after |
| Rescue.RescueFate | rescue.go:82-87 | a rescued row is dead exactly at its ceiling and otherwise retryable at the later of the policy's time and now, with one more error and no attempt spent |
| Rescue.FetchHolds | rescue.go:68-71 | each round re-claims the next batch in lease order, past those already disposed of |
| Rescue.DisposeMoves | rescue.go:82-88 | each disposition is accepted and touches that row alone |
| Rescue.RescueOnce | rescue.go:65-95 | a sweep disposes of exactly the first min(E, 1000) expired rows, oldest lease first, each once |
| CronField.SplitJoined | internal/cron/cron.go:104-111 | splitting a list undoes joining it |
| CronField.JoinSplit | internal/cron/cron.go:104-111 | and joining undoes splitting |
| CronField.AtoiReadsDecimal | internal/cron/cron.go:121-127 | a plain decimal that fits reads as its number |
| CronField.AtoiForms | internal/cron/cron.go:121-127 | signs are read; a sign alone, nothing at all and a number that does not fit are not |
| CronField.AtoiRefuses | internal/cron/cron.go:121-127 | any other character spoils a number |
| CronField.ValueForm | internal/cron/cron.go:142-163 | a lone value is a range of one when it lies in the field, and refused otherwise |
| CronField.RangeForm | internal/cron/cron.go:142-163 | two values are a range exactly when both lie in the field and in order |
| CronField.StepForm | internal/cron/cron.go:118-131 | any range takes a positive step, a step of zero is refused, and without one it is 1 |
| CronField.ParseRange | internal/cron/cron.go:142-163 | an accepted range lies within the field, start not after end |
| CronField.Field.AddPart | internal/cron/cron.go:118-140 | rejects exactly the malformed items, panics exactly when start + step passes the largest int, and otherwise adds exactly what the item allows |
| CronField.Field.March | internal/cron/cron.go:132-138 | the stepping loop sets exactly the bits of the values stepped on |
| CronField.Field.Parse | internal/cron/cron.go:99-116 | accepted iff every item is; then never empty, within range, and exactly the union of its items; otherwise rejected or panicking as the first bad item says |
| CronField.FieldMeaning | internal/cron/cron.go:99-140 | value by value: allowed iff some item covers it; as a day of the week 0 is allowed iff some item covers 0 or 7 |
| CronField.PartRoundTrip | internal/cron/cron.go:118-163 | a range with step, written out, reads back as itself |
| CronField.FieldRoundTrip | internal/cron/cron.go:99-140 | a written list of ranges and steps is accepted and allows exactly the values they cover, 7 read as 0 for days of the week |
| CronField.StarAllowsAll | internal/cron/cron.go:142-145 | a lone star allows every value of the field |
| CronField.HugeStepPanics | internal/cron/cron.go:132-138 | 1/9223372036854775807 as a day of the month is such an item |
| Calendar.DateOf | internal/cron/cron.go:175 | every day has one valid date whose day number it is |
| Calendar.DateRoundTrip | internal/cron/cron.go:175-177 | every valid date is the date of its day number |
| Cron.ParseFields | internal/cron/cron.go:31-71 | exactly five fields, each accepted in its own range, give a schedule spelled by them; otherwise it panics iff the first field that cannot be read does |
| Cron.RebuildFloors | internal/cron/cron.go:173-177 | taking the wall clock apart and together again drops exactly the seconds |
| Cron.WallRoundTrip | internal/cron/cron.go:190-192 | the wall clock of a rebuilt instant is the one it was built from |
| Cron.WeekdaysAnchored | internal/cron/cron.go:192 | weekdays follow on by one, and the first of January 1970 is a Thursday, 62135596800 seconds on from Go's zero time |
| Cron.FiresExactly | internal/cron/cron.go:187-197 | a whole minute fires iff minute, hour and month are allowed and the day is, by the one of its two fields that is not a star, by either when neither is, on any day when both are |
| Cron.StarsAlwaysFire | internal/cron/cron.go:187-197 | five stars fire every minute |
| Cron.Next | internal/cron/cron.go:173-186 | the least whole minute after t that matches within the scan, None exactly when there is none |
| Cron.NoneExactly | internal/cron/cron.go:173-197 | for every schedule and instant, the scan is empty exactly when day of week is a star, no allowed date comes every year, and no allowed minute of a February 29 lies within the scan |
| Cron.NoneIff | internal/cron/cron.go:173-197 | with a leap year among the next four, that is exactly when day of week is a star and no allowed month has an allowed day in any year |
| Cron.CenturyWithoutLeapDay | internal/cron/cron.go:165-186 | midnight of February 29, asked in March 2096, fires in 2104, and the scan comes back empty |
| Calendar.LeapSoon | internal/cron/cron.go:165 | that covers every year from 1900 to 2095 |
| Cron.EveryAfter | internal/cron/cron.go:203-209 | the least multiple of the interval from Go's zero time strictly after t |
| Cron.UnixAlignedIff | internal/cron/cron.go:28-30 | its fires are Unix-epoch multiples exactly when the interval divides the offset between the epochs |
| Cron.SevenSecondsDrift | internal/cron/cron.go:28-30 | every seven seconds never is |
| Periodic.NextFire | scheduler.go:83-84 | the next fire of either kind of schedule |
| Periodic.NoneMeansNever | scheduler.go:95-97 | with a leap year among the next four, a schedule that reports no next fire never fires |
| Periodic.OneMoreFire | scheduler.go:85-94 | moving the watermark to the next fire keeps the record of fires exact |
| Periodic.CaughtUpMeansAll | scheduler.go:60-105 | once caught up, with now within the scan or a leap year among the next four, the fires handled are all those of the term up to now |
| TickKey.StampLayout | scheduler.go:8-10 | year, month, day, hour, minute and second stand where section 5.6 of RFC 3339 puts them, then the fraction without its last zeros, then Z |
| TickKey.StampOneForOne | scheduler.go:8-10 | different instants are written differently |
| TickKey.KeyOneForOne | scheduler.go:8-10 | no two ticks, of one schedule or of two, share a unique key |
| Periodic.OwnRows | scheduler.go:111-134 | so one row never stands for two ticks, and no fire is swallowed as another's duplicate |
| Periodic.Scheduler.InsertTick | scheduler.go:111-134 | the watermark may move exactly when the store did not fail; then an unfinished job of the entry's queue and kind carries the fire's key, and a row added has the entry's queue, kind and arguments and is due at the fire |
| Periodic.Scheduler.BecomeLeader | scheduler.go:60-71 | a term starts with every watermark at now and nothing handled |
| Periodic.Scheduler.CatchUp | scheduler.go:83-94 | whatever fails or stops, the fires handled are exactly all in (term start, watermark], ascending, once each; the store failed on none of them and holds a live row for each; a fire left due is one the store failed on or a stop met; it terminates |
| Periodic.Scheduler.EnqueueDue | scheduler.go:81-106 | the same for every entry, and every row added is one handled fire's, with its entry's queue, kind and arguments, due at the fire and under its key; a turn without failure catches up and sleeps a positive time, exactly to the first fire to come |
| Gauges.Gauge.Write | stats.go:167-178 | sets every wanted value one at a time, touching no other series |
| Gauges.Gauge.DeleteVanished | stats.go:180-206 | deletes one at a time what is no longer wanted; from the old series to the new one every state passed through shows each survivor with its old or new value |
| Gauges.Gather | stats.go:137-159 | one depth per configured queue and published state or reported depth, one age per configured or reported queue, zero where nothing was reported |
| Gauges.Refresher.constructor | stats.go:60-98 | configured series start at zero and no success is recorded |
| Gauges.Refresher.Refresh | stats.go:131-212 | a failed reading changes nothing; a good one leads both gauges from old to new one set or delete at a time, never blanking a survivor |
| Gauges.Refresher.RefreshFrom | stats.go:131-212 | after a refresh the gauges show exactly the store's counts and ages, zeros included |

## Left out

- Logging, metric registration and label rejection, the ops server, the CLI, the web page, examples and benchmarks: no hard property.
- pgx, COPY staging, LISTEN/NOTIFY, advisory locks and migrations: foreign behaviour; leadership is granted from outside and an insert is atomic.
- Row locks and SKIP LOCKED: each SQL statement is one atomic step, and interleaved writers are not modelled inside it.
- SqlRuns.SqlRefinesTheStore: times are whole microseconds, which is what the timestamptz columns keep of a time given to the database; the staging table of a batch is part of its one atomic step.
- JSON encoding of arguments and errors, middleware, handler panics and the retry policy's jitter: a handler reports any verdict, a policy any time.
- InsertTx, ListJobs, GetJob and the single retry of an operator action after a miss: the retry is the same step taken again.
- escalate: its requeues are the RequeueOp of runs; that it cancels handlers, and the deadline that triggers it, are not part of the pool's steps.
- Pool.UnfinishedFits: surplus rows on their way back are not counted, because a driver that overshoots its limit has by then claimed more than the pool has room for.
- Heartbeat.HeldClaimsAreSafe: a claim and its tracking are one step, and a worker's own add is made only while its claim is held, so an add after escalate has requeued the row is not covered.
- MemDriver.Driver.Stats: the two reports are maps rather than slices sorted by queue and state, because names are abstract and have no order.
- MemDriver.Driver.FetchAvailable: rows are values, so the copy that keeps callers from changing stored rows has nothing to do.
- CronField.Field.Parse: the word of bits is a set of bit positions; the check for an empty word can never fire and is not repeated.
- Cron.Next: offsets from UTC are fixed, so wall clocks that repeat or skip are not covered; an instant that is itself Go's zero time is not told apart from None.
- Periodic.Scheduler.EnqueueDue: the store's clock stands at the turn's time while it inserts.
- Splitting a spec on white space and parsing an `@every` duration; the fields and the interval are inputs.
- Queue names, kinds, keys, arguments and error details are abstract values compared for equality; names stand for strings one for one, and CheckedQueues and tick keys work on the strings.
- Job ids are unbounded integers.
