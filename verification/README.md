# Stream Lite in Dafny

Stream Lite watches folders, registers stable files as jobs, validates and processes them, and delivers the output to
every destination that shares a route tag, with retries, idempotent commands and an event outbox. This project models
that behaviour and proves what it keeps on every run.

`dafny verify dfyconfig.toml` checks everything.

## How it is laid out

One job is the record of all its rows (`JobModel.dfy`): job row, history, schedules, attempts, manifests, outbox rows.
`JobSteps.dfy` says what one call of each public service does to it, on values; a run is a registration followed by any
calls in any order. The services themselves are classes and methods that change the rows one field or one row at a
time, in the order of the source, and are proved equal to those steps.

| file | content |
|---|---|
| Basics, PythonText | options, time, Python's strip, split and join |
| JobModel, RetryPolicy, JobSteps | the job's rows, backoff and failure catalog, the effect of each call |
| CallShapes | what each call can do to a job, from which the invariants of the runs are proved |
| Outcomes, DeliveryFanOut | how each call ends and every field it leaves, by the job's fields and the inputs alone |
| JobHistory, Pipeline, Verdicts, Ledger | what every call keeps: history, stage order, the validator's verdict, outbox books |
| RetryBound, RetryBoundReached | how many retries a job can get, and that the bound is exact |
| RetryDiscipline, RetryDelays, Handoff | sequential retries, their delays, hand-off between a worker and the scheduler |
| RetryLimits, RetryOverlap | for which configured limits overlapping retries are harmless |
| RetryBatch | one pass over the due schedules |
| JobStore, RetryService, ValidationWorker, ProcessingWorker, DeliveryWorker, Batches | the stored rows and the services that write them |
| StageLease | the claim table and the lease protocol |
| Commands, CommandService | manual retry and lifecycle commands with idempotency keys |
| Outbox, OutboxRuns, OutboxDrain, Dispatcher | the outbox on values, its invariants, how fast it drains, the dispatcher |
| StagedCopy | copy, verify and rename on a failing file system |
| RouteTags, RouteMatching, RoutePreview | tag normalization, the matchers, the preview and its start gate |
| PathNormalization, PathNormalForm, PathPolicy | lexical path resolution, its normal form, the allowlist |
| DedupKey, WatcherPoll, WatcherRuns, WatcherService | deduplication keys, polling on values, what any polls do to the files, the polling service |

## Where the code does not do what one might expect

Each of these is a lemma with the input that shows it, beside the condition under which the code does meet the
property.

- Several retry schedules of a job can be open at once, and releasing one sets the job's attempt number back to the
  schedule's. `docs/reqs/REQ-009-retry-and-recovery.md` asks for attempt numbers that grow (SL-RET-008) and says that
  the attempt count includes the initial attempt, so that the default of 3 means at most two retries for a stage. In
  the code a job can get up to `2^(max(max_attempts, 1) - 1) - 1` retries, three by default
  (`RetryBound.RetryIsBounded`, `RetryBoundReached.BoundIsReached`). Its number can fall on some run exactly if
  `max_attempts` is at least 3 (`RetryOverlap.AttemptsKeepIffTwo`). One attempt number can be sent to a worker twice,
  which then fails on the unique key, exactly if `max_attempts` is at least 4, or is 3 while the worker's own limit is
  at least 4 (`RetryOverlap.KeysHoldIffLimitsAreSmall`), so not with the default of 3 on both sides. When the
  scheduler is called only for jobs without an open schedule, attempt numbers never fall, no key is used twice and a
  job gets at most `max_attempts - 1` retries in all, whatever the limits (`RetryDiscipline`).
- A stage claim does not record which worker holds it, although `docs/reqs/REQ-007-processing-engine-spark-flink.md`
  asks for that (SL-PRO-DATA-002), and releasing or renewing does not check. At every point of a run at most one
  worker holds each stage, and the next claim keeps it so, exactly if every action was harmless
  (`StageLease.SafeIffHarmless`): releasing or renewing after one's own lease has ended is harmful exactly while
  another worker holds the stage (or a row that is no longer active is renewed beyond the present), an expiry exactly
  if it ends a lease that is still held, a clock that goes back exactly if it revives a holding that was replaced.
  Runs without any of these are safe (`StageLease.TimelyRunsExclude`), and each of them can occur
  (`StageLease.HarmfulActionsOccur`).
- Normalizing a path twice is not normalizing it once when the result ends in white space
  (`PathNormalForm.IdempotentIffNoTrailingSpace`, `PathNormalForm.SlashHidesSpace`).
- The display path of a folder, entered again, can name another folder. A path shown from the root `m` is read back as
  itself exactly if `m` is "/", or what is shown does not itself lie under some root and `m` is the first root
  (`PathPolicy.ReadBackIffFirstRoot`), provided that neither the path nor the first root ends in white space. So it
  fails below any root but "/" and the first, and for a folder that repeats its root's name: with the one root
  "/data", "/data/data/x" is shown as "/data/x" and read back as that (`PathPolicy.RepeatedNameIsLost`,
  `PathPolicy.RepeatedDataIsLost`). A path that does end in white space, as "/data/x /" is normalized to, is never
  read back as itself below one root, since what is shown of it is stripped (`PathPolicy.SpaceIsLost`). A root of "/"
  with the path "/" cannot be rebuilt at all (`PathPolicy.RejoinRebuilds`).
- The route preview does not look at `enabled`: a watcher whose only destination is disabled has a green preview and
  delivers nothing (`RoutePreview.GreenWithoutTargets`, `RoutePreview.DeliversIffEnabled`).
- Every unstable observation replaces the snapshot. So a file is ever registered exactly if two consecutive
  observations of it, across polls, show the same file at least the window apart
  (`WatcherRuns.RegisteredIffEverStable`), and one that is always observed again within the window never is
  (`WatcherRuns.HurriedPollsNeverRegister`).
- A source that is itself the temporary file of its copy is emptied and then delivered as nothing
  (`StagedCopy.FileSystem` opens it for writing first; last clauses of `StagedCopy.CopyOutput`).

## Model

| member | source | states |
|---|---|---|
| `RetryBound.RetryIsBounded` | app/retry/scheduler.py:214-289 | However scheduling, releases, manual retries and workers interleave, a job gets at most 2^(max(max_attempts,1)-1)-1 retry schedules. |
| `RetryBoundReached.BoundIsReached` | app/retry/scheduler.py:424-455 | For every max_attempts some run creates exactly that many schedules: the bound cannot be improved. |
| `RetryBound.RunsSettle` | app/retry/manual.py:222-301 | On every run only boundedly many calls change a job's state, attempt number or schedules. |
| `RetryBound.StepSpends` | app/retry/scheduler.py:111-309 | Any single call either leaves state, attempt number and schedules alone (re-failing a FAILED job, re-quarantining a QUARANTINED one) or strictly lowers the measure: retries left first, then open schedules and stage. |
| `RetryBound.TokensClosedForm` | app/retry/backoff.py:54-61 | The retries an attempt number can still spend are a power of two minus one in the distance to the limit. |
| `RetryBound.ClosingFreesTokens` | app/retry/scheduler.py:441-455 | Closing an open schedule takes exactly its own share off the budget of the open ones. |
| `RetryBoundReached.SpendAll` | app/retry/scheduler.py:441-445 | From any retryable job every remaining retry can be spent by opening, spending below, releasing and spending again. |
| `RetryDiscipline.RetriesAreSequential` | app/retry/scheduler.py:250-280 | If the scheduler is called only without an open schedule: at most one schedule is open, it carries the job's attempt number, that number stays within the limit, and at most limit-1 schedules exist. |
| `RetryDiscipline.AttemptsNeverDecrease` | app/retry/scheduler.py:441-445 | On such runs no call lowers the attempt number. |
| `RetryDiscipline.UniqueKeysHold` | app/db/models.py:448-482 | On such runs no worker call violates the unique keys of processing attempts (job, attempt) and delivery attempts (job, destination, attempt). |
| `RetryLimits.SmallLimitsKeepKeys` | app/db/models.py:448-482 | With at most two attempts, or three that the worker's own limit does not exceed, no worker call of any run violates the unique key of processing or delivery attempts, however many schedules are open at once. |
| `RetryLimits.TwoAttemptsNeverFall` | app/retry/scheduler.py:441-445 | With at most two attempts no call of any run lowers the attempt number. |
| `RetryOverlap.OverlapAborts` | app/processing/engine.py:204-224 | For any other limits, and in either worker's stage, some run with two open schedules makes the worker's call fail on its unique key. |
| `RetryOverlap.KeysHoldIffLimitsAreSmall` | app/config/settings.py:215 | Both unique keys hold on every run, for every input with different targets, exactly if max_attempts is at most 2, or 3 with a worker limit of at most 3. |
| `RetryOverlap.AttemptFalls` | app/retry/scheduler.py:424-455 | With max_attempts of at least 3 some run reaches a release that lowers the attempt number. |
| `RetryOverlap.AttemptsKeepIffTwo` | app/retry/scheduler.py:311-464 | No call of any run lowers the attempt number exactly if max_attempts is at most 2. |
| `RetryDelays.EveryDelayIsPaced` | app/retry/scheduler.py:260-273 | On every run each schedule waits either 0 (manual) or between half the base delay of the attempt before and one and a half of it, within the cap, and exactly it without jitter, whatever the sampler returned. |
| `RetryDelays.NoRetryBeforeItsTime` | app/retry/scheduler.py:338-348 | After a report is scheduled, and any calls then: its schedule is due once the delay that fits the failed attempt has passed since the report, and releasing it earlier does nothing. |
| `RetryDelays.TotalDelayIsBounded` | app/retry/backoff.py:63-83 | On disciplined runs all delays of a job sum to at most (max(max_attempts, 1) - 1) times the cap. |
| `RetryPolicy.BaseDelayIsMonotone` | app/retry/backoff.py:63-66 | The base delay never shrinks with the attempt number, is at least one second, and never exceeds the cap. |
| `RetryPolicy.SettingsAreValid` | app/config/settings.py:215-218 | Every policy the settings of a deployment can give passes the checks of the policy. |
| `RetryPolicy.BaseDelayStarts` | app/retry/backoff.py:63-66 | After the first attempt the base delay is the initial one, up to the cap. |
| `RetryPolicy.BaseDelayGrows` | app/retry/backoff.py:63-66 | The base delay of the next attempt is the multiplier times this one's, up to the cap. |
| `RetryPolicy.DelayIsDecided` | app/retry/backoff.py:68-83 | Without jitter the delay is the base delay; with it the sample, held between half the base and the smaller of one and a half of it and the cap. |
| `RetryPolicy.DelayIsBounded` | app/retry/backoff.py:68-83 | The delay used lies between half the base delay and one and a half of it, and within the cap, for any sampler. |
| `JobHistory.HistoryReplays` | app/repositories/jobs.py:118-152 | On every run history rows are numbered 1..n, start None -> DETECTED, chain previous to new state through allowed moves or self-loops, end in the job's state, and the terminal state matches. |
| `JobHistory.ReplayGivesState` | app/repositories/jobs.py:132-168 | A reader that follows the rows and refuses any that does not continue the last arrives at the job's state. |
| `JobHistory.StepReplays` | app/repositories/jobs.py:106-130 | Each service call keeps this for every job, whatever its other rows. |
| `Pipeline.StagesAreNotSkipped` | app/processing/engine.py:141-159 | On every run a job has at most one validation attempt, and a processed or completed job has a valid one and a processed manifest. |
| `Pipeline.FinishedForever` | app/repositories/jobs.py:26-29 | COMPLETED, COMPLETED_WITH_DELIVERY_ERRORS and QUARANTINED are never left, whatever calls follow. |
| `Verdicts.VerdictIsFinal` | app/validation/service.py:203-275 | Whatever is called before the validator and after it: the job has one validation attempt with the verdict given; a rejected job stays QUARANTINED and is never processed or delivered. |
| `Pipeline.SchedulesAreSound` | app/retry/scheduler.py:367-463 | On every run no schedule targets validation, and the exhausted branch of releasing one is unreachable. |
| `Handoff.ProcessingHandoff` | app/processing/engine.py:462-466 | A processing failure left in RETRY_PENDING, with a code the adapter emits and one limit on both sides, is always scheduled under the next number; once due it is released to a job the processing worker takes up: it aborts if an attempt row has that next number already, and otherwise does its work. |
| `Handoff.DisciplinedProcessingHandoff` | app/processing/engine.py:204-224 | On every disciplined run the next number is free, so the retry is neither lost nor aborted. |
| `Handoff.DeliveryHandoff` | app/delivery/service.py:807-813 | The same for a delivery in which every target failed, by the code of the first failure: the next call aborts exactly if the next number is taken for one of its targets. |
| `Handoff.DisciplinedDeliveryHandoff` | app/db/models.py:478-482 | On every disciplined run, for any different targets of the next call, it does not. |
| `Handoff.ManualHandoff` | app/retry/manual.py:268-301 | An accepted manual retry can be released at once, back to the stage that failed last, under a higher number within the limit, in a state that stage's worker accepts. |
| `Handoff.CatalogAgrees` | app/retry/classifier.py:33-278 | Worker and catalog call exactly the same emitted codes retryable, in both stages. |
| `Outcomes.LatestFailureIsPicked` | app/retry/manual.py:410-467 | A manual retry picks up the failed attempt completed last, of either stage; among equals the delivery, and the newer row; only a job without any falls back on its newest schedule of a worker's stage. |
| `DeliveryFanOut.FinalStateIsDecided` | app/delivery/service.py:792-813 | For every nonempty target list: COMPLETED iff all delivered, COMPLETED_WITH_DELIVERY_ERRORS iff both kinds, RETRY_PENDING iff none delivered, all retryable and attempts left, else FAILED. |
| `DeliveryFanOut.TargetsAreConserved` | app/delivery/service.py:256-465 | One delivery call makes one closed attempt per target, in order and with the target's result, and no other. |
| `DeliveryFanOut.FirstFailure` | app/delivery/service.py:473-474 | The code the job keeps is that of the first failed target. |
| `Ledger.OutboxAgrees` | app/delivery/service.py:550-594 | On every run the outbox counts agree with the rows: started = completed + failed = attempts in both stages, retry.scheduled = schedules, and one job.completed iff the job is completed. |
| `RetryBatch.OneReleasePerJob` | app/retry/scheduler.py:466-497 | In one pass at most one schedule of a job is released, whatever its schedules say. |
| `RetryBatch.PassClosesItsBatch` | app/repositories/retry.py:55-64 | Unless the clock goes back behind the query, a pass skips nothing and closes every schedule of its batch. |
| `RetryBatch.UnlimitedPassLeavesNothingDue` | app/repositories/retry.py:55-64 | After a pass not cut short by the limit no due schedule is left open. |
| `RetryBatch.NothingIsReleasedEarly` | app/retry/scheduler.py:338-348 | A pass skips whatever is not due by its clock when its turn comes, even if that goes back behind the query. |
| `RetryBatch.CountsAddUp` | app/retry/scheduler.py:478-497 | Every scanned schedule is counted under exactly one verdict. |
| `JobStore.JobRecord.UpdateState` | app/repositories/jobs.py:106-130 | Refuses exactly the moves that are neither allowed nor self-loops, and otherwise sets state, terminal state and only the error and number it was given. |
| `JobStore.JobRecord.LargestSequence` | app/repositories/jobs.py:147-152 | The largest sequence number of a history is its length. |
| `JobStore.JobRecord.AppendStateHistory` | app/repositories/jobs.py:132-168 | Appends one row, numbered one above the largest so far. |
| `JobStore.JobRecord.CreateProcessingAttempt` | app/db/models.py:448-449 | Adds an open attempt unless the job has one with that number. |
| `JobStore.JobRecord.CreateDeliveryAttempt` | app/db/models.py:478-482 | Adds an open attempt unless the job has one with that destination and number. |
| `RetryService.RetryScheduler.ScheduleRetryForJob` | app/retry/scheduler.py:111-309 | The row by row writes amount to the scheduling step on that job and touch no other; an unknown job is skipped. |
| `RetryService.RetryScheduler.CheckFailure` | app/retry/scheduler.py:129-249 | The guards in their order choose the decision the runs are proved about. |
| `RetryService.RetryScheduler.ProcessDueRetry` | app/retry/scheduler.py:311-464 | The row by row writes amount to the release step. |
| `RetryService.ProcessDueRetries` | app/retry/scheduler.py:466-497 | The loop is one pass over the batch, no job outside it changes, and its counters are the counts of the verdicts. |
| `ValidationWorker.ValidateRegisteredJob` | app/validation/service.py:71-316 | The writes amount to the validation step, with the status the old state calls for. |
| `ValidationWorker.ReconcileOnce` | app/validation/service.py:333-357 | Each job of the pass ends as the validator alone would end it, other jobs are untouched, and each is counted once. |
| `ProcessingWorker.Worker.ProcessOne` | app/processing/engine.py:113-315 | The writes amount to the processing step under the claim, and the claim is given back exactly if it was taken and the work done. |
| `ProcessingWorker.Worker.ClaimAndProcess` | app/processing/engine.py:317-350 | Jobs of one batch do not disturb each other: each ends as if processed alone, against the claim table as it was before. |
| `ProcessingWorker.RunIsProcess` | app/processing/engine.py:352-481 | Opening an attempt row, running the adapter and closing the row in place is the processing step in one piece. |
| `DeliveryWorker.Worker.DeliverOne` | app/delivery/service.py:130-606 | The writes amount to the delivery step under the claim, which is given back at every exit that took it. |
| `DeliveryWorker.Worker.FanOut` | app/delivery/service.py:256-465 | The loop adds the rows and events of all targets in order and collects the failure codes, or stops on a taken key. |
| `DeliveryWorker.OneMoreKey` | app/db/models.py:478-482 | A target's key is taken by the rows made so far exactly if it was taken before or an earlier target has the same destination. |
| `WatcherService.RegisterJob` | app/watcher/service.py:236-296 | Creating and registering a job row by row gives the job every run starts from. |
| `StageLease.SafeIffHarmless` | app/repositories/stage_claims.py:16-102 | On a run of any claims, renewals, releases, expiries and clock readings: in every state at most one worker holds each (job, stage, attempt), whoever claims next, if and only if every action was harmless when taken. |
| `StageLease.ExclusionIffHarmless` | app/repositories/stage_claims.py:65-102 | One action keeps exclusion exactly if harmless: a late release or renewal while nobody else holds the stage (and no inactive row is renewed), an expiry that ends no held lease, a clock that revives no replaced holding. |
| `StageLease.TimelyRunsExclude` | app/repositories/stage_claims.py:27-63 | If nobody acts after the end of its own lease, expiry is not ahead of time and the clock does not go back, every action is harmless and every state of the run safe. |
| `StageLease.AtMostOneLiveHolder` | app/repositories/stage_claims.py:27-63 | On harmless runs two live holders of one (job, stage, attempt) are the same worker. |
| `StageLease.RefusedIffHeld` | app/repositories/stage_claims.py:50-51 | On harmless runs a claim is refused exactly while some worker holds the stage. |
| `StageLease.HarmfulActionsOccur` | app/repositories/stage_claims.py:53-102 | Timely actions reach a takeover of an ended lease, and there one late release, early expiry, late renewal or step back in time gives two holders. |
| `StageLease.ClaimIsGivenBack` | app/processing/engine.py:298-315 | A worker's call that did its work leaves its claim released, so that the next one is not refused, and any other call leaves the claims as they were. |
| `StageLease.RowsAreDecided` | app/repositories/stage_claims.py:16-90 | A claim is new or says when it was taken over; renewing and releasing change the lease end, or the status and time, of that row alone. |
| `StageLease.ExpiryIsDecided` | app/repositories/stage_claims.py:92-102 | Exactly the active rows whose lease ended before the time become expired. |
| `StageLease.StageClaimRepository.ClaimStage` | app/repositories/stage_claims.py:16-63 | Refused exactly for an active unended row; otherwise the row is new, or taken over in place. |
| `StageLease.StageClaimRepository.ExpireClaims` | app/repositories/stage_claims.py:92-102 | Expires exactly the active rows whose lease ended before the time given, and returns how many. |
| `OutboxRuns.OutboxIsSound` | app/repositories/events.py:57-137 | On every run of enqueues and rounds: pending rows have 0 failures, failed ones 1 or 2 and a next time, dead-lettered ones 3; a row's event is on the stream exactly once iff it is published; rows stay in query order. |
| `OutboxRuns.TriedAtMostThreeTimes` | app/events/dispatcher.py:45-61 | No row is ever tried more than three times, and the third try is its last. |
| `OutboxRuns.RoundTriesOnce` | app/events/dispatcher.py:33-40 | A round tries each picked row once, no other, and leaves finished rows as they are. |
| `OutboxRuns.PublicationIsDecided` | app/events/dispatcher.py:45-125 | A sent record is published and on the stream; its n-th failure makes it wait n seconds for n below 3, and the third ends it, on the dead-letter stream if that could be written. |
| `OutboxRuns.EnqueueIsDecided` | app/repositories/events.py:16-55 | A new event becomes one pending row in its place by time and id, a known one nothing. |
| `OutboxRuns.RoundIsDecided` | app/repositories/events.py:63-76 | A round publishes exactly the unfinished rows not told to wait longer that have fewer than `limit` such rows before them. |
| `OutboxRuns.RowsAreInOrder` | app/repositories/events.py:73-75 | On every run no row comes before one with an earlier time, or the same time and a smaller id. |
| `Outbox.PickedExactly` | app/repositories/events.py:63-76 | A batch holds exactly the due rows with fewer than `limit` due rows before them, in order. |
| `OutboxDrain.BacklogDrains` | app/events/dispatcher.py:33-61 | Without new rows, 3 * ceil(backlog / limit) rounds or more, at least two seconds apart, publish or dead-letter everything, whatever the stream does. |
| `OutboxDrain.FewerRoundsDoNotSuffice` | app/events/dispatcher.py:51-61 | While the stream is down, any fewer than 3 * ceil(rows / limit) such rounds over pending rows leave one unfinished, for every number of rows and limit: the bound is exact. |
| `OutboxDrain.ThreeRoundsClearABatch` | app/events/dispatcher.py:104-125 | Three rounds take a whole batch off the backlog, because rows keep their place among the unfinished ones. |
| `OutboxDrain.FailedRowsWait` | app/events/dispatcher.py:51-61 | However often the dispatcher runs, a row that failed for the n-th time is left alone for n seconds. |
| `Dispatcher.EventDispatcher.PublishDueEvents` | app/events/dispatcher.py:33-40 | The loop over the claimed batch changes rows and streams exactly as one round. |
| `Dispatcher.EventDispatcher.PublishRecord` | app/events/dispatcher.py:45-125 | Publishing, rescheduling after n failures for n seconds, and giving up after the third failure even if the dead letter is lost. |
| `Dispatcher.EventOutboxRepository.ClaimDueEvents` | app/repositories/events.py:57-79 | The limited scan returns the picked positions. |
| `Dispatcher.EventOutboxRepository.EnqueueEvent` | app/repositories/events.py:16-55 | A new row goes to its place in the order; a repeated event id is refused. |
| `StagedCopy.CopyOutput` | app/delivery/filesystem.py:41-234 | Delivered means the final file is the source byte for byte, with its digest and size; no recorded state has a partial final file; not delivered means only the temporary file changed; the source never changes; without faults it is delivered. Which step fails first decides the code, its flag and the byte count, case by case. |
| `StagedCopy.CopyChunks` | app/delivery/filesystem.py:162-187 | Digest and length are those of the whole source, whatever the storage kept of it, and only the temporary file changes; or the failure is that of the first chunk that could not be read or written. |
| `StagedCopy.VerifyAndFinalize` | app/delivery/filesystem.py:189-234 | Renames only a file whose digest and size match, in one step, and otherwise changes nothing; an unreadable file, a mismatch and either failed rename have each their own answer. |
| `StagedCopy.FileSystem.ComputeSha256AndSize` | app/delivery/filesystem.py:414-424 | The chunked digest and size are those of the whole file. |
| `RouteTags.NormalizeRouteTags` | app/watcher/routing.py:43-64 | The loop with its list and set gives the normalized tags, or the first entry that is no tag. |
| `RouteTags.NormalizeMeans` | app/watcher/routing.py:43-64 | Succeeds exactly for a nonempty list of entries that all clean to tags, and gives those tags, each once, and no other. |
| `RouteTags.CleaningIsDecided` | app/watcher/routing.py:43-64 | White space around an entry does not matter; what is left is put into upper case. |
| `RouteTags.UpperIsDecided` | app/watcher/routing.py:43-64 | Upper case is taken character by character. |
| `RouteTags.NormalizeIsIdempotent` | app/watcher/routing.py:46-50 | Normalizing again changes nothing, and the tags survive being written as a semicolon text. |
| `RouteMatching.DeliveryAgreesWithWatcher` | app/delivery/routing.py:27-77 | For every input the delivery worker, given the enabled destinations, resolves exactly the destinations the watcher matches, in the same order, and refuses the same tag. |
| `RouteMatching.ResolveDeliveryTargets` | app/delivery/routing.py:33-77 | The loop gives the delivery targets. |
| `RouteMatching.MatchSourceToDestinations` | app/watcher/routing.py:67-78 | The loop gives the watcher's matches. |
| `RouteMatching.TargetsAreSharing` | app/delivery/routing.py:36-40 | With stored tags in normal form the targets are the destinations sharing a tag, each with exactly the shared tags. |
| `RoutePreview.ComputePreview` | app/api/routes/watchers.py:682-760 | The nested loops with their sets of matched folders give the preview. |
| `RoutePreview.RowIsPair` | app/api/routes/watchers.py:694-715 | Every saved match row comes from a source and destination that share a tag, with exactly the shared tags. |
| `RoutePreview.PairIsRow` | app/api/routes/watchers.py:694-715 | Every pair that shares a tag has its row. |
| `RoutePreview.SavedStatusAgrees` | app/api/routes/watchers.py:572-606 | The status read back from the saved rows is the one computed when they were saved. |
| `RoutePreview.GreenMeans` | app/api/routes/watchers.py:763-773 | Green iff there is a destination, every source matches a destination and every destination a source. |
| `RoutePreview.StatusIsDecided` | app/api/routes/watchers.py:763-773 | Red iff no source matches any destination; otherwise yellow iff a source or destination is left over, and green iff none is. |
| `RoutePreview.GreenDelivers` | app/delivery/service.py:730-751 | Green and no destination disabled: every source has a delivery target. |
| `RoutePreview.DeliversIffEnabled` | app/delivery/service.py:735-739 | A source has a delivery target exactly if one of its matching destinations is enabled. |
| `RoutePreview.GreenWithoutTargets` | app/api/routes/watchers.py:690-698 | A green preview whose only destination is disabled delivers nothing. |
| `PathNormalization.NormalizeCandidatePath` | app/config/path_policy.py:222-247 | The loop that pushes and pops parts resolves the path lexically, with its rejections. |
| `PathNormalization.NormalizingIsDecided` | app/config/path_policy.py:222-247 | Invalid iff stripped to nothing, not starting with a slash, or holding a zero or a backslash; traversal iff some beginning leads above the root; any other is resolved, with a note iff it had a ".." part. |
| `PathNormalization.DetourCancels` | app/config/path_policy.py:235-245 | Going into a part and out again anywhere in a path leads to the same place. |
| `PathNormalization.SkippedPartsVanish` | app/config/path_policy.py:236-237 | Empty parts and dots can be left out anywhere. |
| `PathNormalization.PlainPartsStay` | app/config/path_policy.py:245-247 | A path of plain parts is resolved already. |
| `PathNormalization.EscapesIffAboveRoot` | app/config/path_policy.py:238-243 | A path is rejected as traversal exactly if some beginning of it leads above the root. |
| `PathNormalForm.NormalForm` | app/config/path_policy.py:246-247 | A normalized path is plain parts behind slashes, made of characters of the raw path. |
| `PathNormalForm.IdempotentIffNoTrailingSpace` | app/config/path_policy.py:222-247 | Normalizing twice is normalizing once exactly if the result does not end in white space. |
| `PathNormalForm.SlashHidesSpace` | app/config/path_policy.py:223-234 | Such results occur: a part ending in white space with a slash behind it. |
| `PathPolicy.NormalizedIsNormal` | app/config/path_policy.py:212-219 | What normalizing gives, for paths and for the configured roots, is a normal path: its own parts behind slashes. |
| `PathPolicy.GreenIsContainment` | app/config/path_policy.py:66-154 | Green exactly if the path can be normalized, what it resolves to can be, and that lies part by part under an allowed root. |
| `PathPolicy.ValidationIsDecided` | app/config/path_policy.py:66-154 | The whole answer for any text, roots and resolver: green as what the text stands for, shown from the deepest root above that; and which of the four codes otherwise. |
| `PathPolicy.UnderIsTextual` | app/config/path_policy.py:166-176 | A normal path lies under a normal root iff it is the root, the root is "/", or its text continues the root's with a slash. |
| `PathPolicy.MatchingRootIsDeepest` | app/config/path_policy.py:166-176 | The root chosen by text length is the deepest allowed root above the path. |
| `PathPolicy.RejoinRebuilds` | app/config/path_policy.py:275-282 | Root and display path make the path again unless both root and path are "/". |
| `PathPolicy.ReadBackIffFirstRoot` | app/api/routes/watchers.py:661-679 | For normal roots and paths that do not end in white space: what is shown of a path is read back green, as it stands if it lies under some root and else below the first root, and names the same path iff its root is "/", or the shown path lies under no root and its root is the first. |
| `PathPolicy.ShownFolderIsReadBack` | app/config/path_policy.py:66-154 | The same for the display path of any green answer, entered as a folder again. |
| `PathPolicy.RepeatedNameIsLost` | app/api/routes/watchers.py:668-670 | With one root, a folder below it that repeats the root's name is shown, and read back, as another folder. |
| `PathPolicy.SpaceIsLost` | app/config/path_policy.py:222-247 | With one root, no path that ends in white space is read back as itself from what is shown of it. |
| `DedupKey.KeyIsInjective` | app/watcher/deduplication.py:32-41 | The joined key determines watcher, source, display path, size and digest, even when the path contains the separator. |
| `WatcherRuns.EverySightingIsLogged` | app/watcher/service.py:97-165 | Over any polls exactly the files of the sources that are allowed and routed are observed, in order. |
| `WatcherRuns.NamesAreKept` | app/watcher/service.py:429-434 | In one scan, files with different names are different places to compare with and different files to register, whatever they hold. |
| `WatcherRuns.OneJobPerFile` | app/watcher/service.py:189-245 | Over any polls no file, told by watcher, source, folder, name, size and digest, is registered twice; each registration has its own job, registered when the file was found. |
| `WatcherRuns.JobsAreRegistrations` | app/watcher/service.py:221-296 | There is no other job: each stems from a file that was registered. |
| `WatcherRuns.RegisteredIffNew` | app/watcher/service.py:192-221 | A file that kept still is registered iff that same file was not before, and suppressed otherwise. |
| `WatcherRuns.SuppressedIsKnown` | app/watcher/deduplication.py:44-65 | A file is suppressed only as itself: the same watcher, source, folder, name, size and digest, registered before. |
| `WatcherRuns.DuplicatesPointAtTheJob` | app/watcher/service.py:194-219 | Every duplicate row tells when a registered file was found again, and names the job of that very file. |
| `WatcherRuns.RegisteredIffStable` | app/watcher/stability.py:40-46 | Every observation of any polls is registered or suppressed exactly if the last one in the same source under the same name was unstable, had the same path, size and time, and is at least the window old. |
| `WatcherRuns.RegisteredIffEverStable` | app/watcher/service.py:153-191 | Over any polls, among any other files: a file is ever registered or suppressed exactly if two consecutive observations of it show it unchanged for the window, whatever happened to the first. |
| `WatcherRuns.HurriedPollsNeverRegister` | app/watcher/service.py:166-180 | Over any polls, a file whose every observation is checked less than the window after the one before was taken is never registered. |
| `WatcherService.Watcher.PollOnce` | app/watcher/service.py:76-325 | The nested loops are one poll; observed = unstable + registered + suppressed, and each source is scanned or skipped. |
| `WatcherService.Watcher.CheckDuplicate` | app/watcher/deduplication.py:44-65 | The search with its break finds the first job of the file with the key. |
| `Commands.OneCommandPerKey` | app/repositories/commands.py:99-104 | Whatever is requested and whatever else happens, a client's key owns at most one command of its scope. |
| `Commands.AcceptedKeyIsAnswered` | app/retry/manual.py:153-172 | After an accepted request, and anything that happens then, the same payload under its key gets the first response and another payload is refused, both without any change. |
| `Commands.OnlyAcceptedRequestsChange` | app/api/routes/watchers.py:426-475 | A request that is replayed or refused changes nothing at all. |
| `Commands.AfterSound` | app/repositories/commands.py:68-97 | Every key row names the command recorded with it, and every command with a client's key is named by that key. |
| `Commands.StartedWatcherDelivers` | app/api/routes/watchers.py:455-475 | A watcher whose start was accepted, with the rows of its folders saved, has a destination, a match for each of its folders, and while none is disabled a delivery target for every source. |
| `Commands.LifecycleIsDecided` | app/api/routes/watchers.py:412-513 | A lifecycle request under a new key is refused for an unknown watcher, a state the action does not fit (told state by state), or a start without a green preview, in this order, and else recorded and accepted. |
| `Commands.RetryRequestIsDecided` | app/retry/manual.py:134-371 | A retry request under a new key is refused for a reason without text, an unknown job, a job that cannot be retried or has no attempt left, and else recorded as succeeded, with the job scheduled. |
| `CommandService.CommandRepository.Record` | app/repositories/commands.py:16-97 | Recording a command under a key that has no answer yet never violates the unique key. |
| `CommandService.AcceptManualRetryCommand` | app/retry/manual.py:134-371 | The writes to commands, keys and job amount to the manual retry request. |
| `CommandService.CheckRetryable` | app/retry/manual.py:184-244 | The refusals that depend on the job, in their order. |
| `CommandService.RequestLifecycleCommand` | app/api/routes/watchers.py:412-513 | The writes amount to the lifecycle request, start being gated by a green preview. |
| `Outcomes.RegistrationIsDecided` | app/watcher/service.py:236-296 | A registered job has three history rows, three events and nothing else. |
| `Outcomes.ValidationIsDecided` | app/validation/service.py:71-316 | A REGISTERED job without an attempt ends VALIDATED with a valid attempt iff the verdict is valid, and otherwise by way of INVALID in QUARANTINED with the code and an invalid attempt; every row and event is given, and any other job is left alone. |
| `Outcomes.ProcessingIsDecided` | app/processing/engine.py:113-481 | A processing call is skipped, aborted or gets to work by the job's fields; then the checksum and the adapter's answer alone decide code and state: none fails the job, a raised one may be retried, a reported one if it says so, below the limit. Every row and event is given. |
| `DeliveryFanOut.DeliveryIsDecided` | app/delivery/service.py:130-606 | The same of a delivery call: without targets the job fails with NO_MATCHING_DESTINATION and a failed manifest, claimed or not; with targets every row, event, manifest and the code are given by the copies' answers. |
| `Outcomes.SchedulingIsDecided` | app/retry/scheduler.py:111-309 | A failure report by code, stage, state and number: scheduled with its backoff, exhausted, given up on with or without a job.failed event, or skipped; every field is given. |
| `Outcomes.ClassificationIsDecided` | app/retry/classifier.py:33-278 | The codes worth another try in each stage, and the state any other ends in. |
| `Outcomes.ReleaseIsDecided` | app/retry/scheduler.py:311-464 | A schedule is skipped iff it is missing, closed or not due yet; a due one is released, exhausted or failed by its number, stage and the job's state; every field is given. |
| `Outcomes.ManualRetryIsDecided` | app/retry/manual.py:184-301 | Accepted iff the job FAILED, there is a failure to go back to, and an attempt is left after the larger number; then it is due at once under the next number. |

## Left out

- Each service call is one transaction: an exception the services do not turn into a result, in particular a violated unique key, restores every row of the call (`JobStore.JobRecord.Rollback`). `process_one` does catch such an exception, but its session refuses further writes until it is rolled back, so the call still ends without effect.
- ProcessingWorker.Worker.ClaimAndProcess: when a call of the batch is aborted the batch ends there; that the caller then rolls back the jobs before it is not modelled.
- DeliveryWorker.Worker.DeliverOne: `claim_and_deliver` runs the same loop over it as `claim_and_process` does and is left out.
- The failed status of a manual retry command (app/retry/manual.py:355-371): the writes it guards are a state change that is always allowed and new rows with fresh ids, so only errors of the database or of the event schema, which are not modelled, take it.
- StagedCopy.CopyOutput: contents as arguments of an injective constructor stand in for SHA-256; the policy verdicts, the final path and the directories are inputs, and how locators are joined into it is left out.
- OutboxRuns.OutboxIsSound: runs are made of enqueues and `publish_due_events`; `publish_one` looks at no status and is left out.
- RoutePreview.ComputePreview: the sorted list of matched tags is kept as a set, and the lists sorted for the response are left out.
- RouteTags.NormalizeRouteTags: Python's upper-casing is a parameter, of which only the effect on tag characters is fixed.
- WatcherRuns.OneJobPerFile: keys are compared before hashing; a file that vanishes while it is polled raises, which is left out.
- PathPolicy.GreenIsContainment: what is shown of a rejected path and the messages are left out.
- Commands.OneCommandPerKey: payloads stand in for their hashes; correlation ids and request logs are left out.
- `build_route_preview`: it lists the same pairs over the enabled folders for a result the poll discards.
- A worker's or the validator's answer for an unknown job; a schedule whose job is missing, which foreign keys rule out.
- The order of job lists and of due schedules with equal times comes from timestamps and random ids: batches are inputs, for schedules any that fit the query.
- The classifier's trimming and case folding of codes, its aliases and its unknown stages; failure class and jitter flag of a schedule; operator messages, folder health, manifests' contents and locators.
- Validation rules, the processing adapter and file-system calls are oracles that return a status, an emitted code or an exception.
- Identifiers are positions or map keys, times are reals, and a history row's event id, correlation ids, created and updated times are left out.
- FastAPI, SQLAlchemy, Redis consumers and offsets, settings, the user interface, logging and metrics.
