/**
 What a call can do to a job, one predicate for each kind of call. What runs keep is proved from these shapes alone;
 which of them a call takes, and when, is what JobSteps says.
 */
module CallShapes {
  import opened Basics
  import opened JobModel
  import opened RetryPolicy
  import opened JobSteps

  /** Everything but the job row, its history, its schedules and its outbox is the same. */
  ghost predicate SameWork(a: Job, b: Job) {
    && a.processing == b.processing && a.delivery == b.delivery && a.validations == b.validations
    && a.manifests == b.manifests && a.hasChecksum == b.hasChecksum
  }

  // ---------- The validator and the workers ----------

  /** The one validation of a registered job. */
  ghost predicate Validates(before: Job, after: Job) {
    && before.state == Registered && after.attempt == 1 && after.schedules == before.schedules
    && after.processing == before.processing && after.delivery == before.delivery && after.manifests == before.manifests
    && |after.validations| == 1
    && (after.state == Quarantined || (after.state == Validated && after.validations[0].valid))
  }

  lemma ValidateShape(j: Job, verdict: ValidationVerdict, t0: Time, t1: Time, t2: Time)
    ensures var after := Validate(j, verdict, t0, t1, t2); after == j || Validates(j, after)
  {
  }

  /** A processing call that got to work: one more row, under the job's number. */
  ghost predicate Processes(before: Job, after: Job, workerMax: int) {
    && Processable(before)
    && after.attempt == ResolveAttempt(before.attempt) && after.schedules == before.schedules
    && after.delivery == before.delivery && after.validations == before.validations
    && |after.processing| == |before.processing| + 1
    && (forall i | 0 <= i < |before.processing| :: after.processing[i] == before.processing[i])
    && after.processing[|before.processing|].attempt == after.attempt
    && after.manifests == before.manifests + (if after.state == Processed then [ManifestProcessed] else [])
    && after.state in {Processed, RetryPending, Failed} && (after.state == RetryPending ==> after.attempt < workerMax)
  }

  lemma ProcessShape(j: Job, workerMax: int, input: ProcessInput)
    ensures var r := Process(j, workerMax, input);
            && (r.job == j || Processes(j, r.job, workerMax))
            && (r.status == WorkAborted ==>
                  Processable(j) && ProcessingKeyTaken(j.processing, ResolveAttempt(j.attempt)))
  {
  }

  /** A delivery call that got to work: rows under the job's number only. */
  ghost predicate Delivers(before: Job, after: Job, workerMax: int) {
    && Deliverable(before) && ManifestProcessed in before.manifests
    && after.attempt == ResolveAttempt(before.attempt) && after.schedules == before.schedules
    && after.processing == before.processing && after.validations == before.validations
    && |after.delivery| >= |before.delivery|
    && (forall i | 0 <= i < |after.delivery| ::
          if i < |before.delivery| then after.delivery[i] == before.delivery[i]
          else after.delivery[i].attempt == after.attempt)
    && |after.manifests| == |before.manifests| + 1 && after.manifests[..|before.manifests|] == before.manifests
    && after.state in {Completed, CompletedWithDeliveryErrors, RetryPending, Failed}
    && (after.state == RetryPending ==> after.attempt < workerMax)
  }

  lemma FinishShape(j: Job, runs: seq<TargetRun>, attempt: int, workerMax: int, at: Time)
    requires j.state == Delivering
    ensures var after := FinishDelivery(j, runs, attempt, workerMax, at);
            && after.state in {Completed, CompletedWithDeliveryErrors, RetryPending, Failed}
            && (after.state == RetryPending ==> attempt < workerMax) && after.attempt == attempt
            && after.schedules == j.schedules && after.processing == j.processing && after.delivery == j.delivery
            && after.validations == j.validations
            && |after.manifests| == |j.manifests| + 1 && after.manifests[..|j.manifests|] == j.manifests
  {
  }

  lemma DeliverShape(j: Job, workerMax: int, input: DeliverInput)
    ensures var r := Deliver(j, workerMax, input);
            && (r.job == j || Delivers(j, r.job, workerMax))
            && (r.status == WorkAborted ==>
                  Deliverable(j) && DeliveryKeyTaken(j.delivery, input.runs, ResolveAttempt(j.attempt)))
  {
    if Deliver(j, workerMax, input).status in {WorkSucceeded, WorkFailed} && input.runs != [] {
      FinishedDeliveryShape(j, workerMax, input.runs, input.startedAt, input.finalizedAt);
    }
  }

  lemma FinishedDeliveryShape(j: Job, workerMax: int, runs: seq<TargetRun>, startedAt: Time, finalizedAt: Time)
    requires Deliverable(j) && ManifestProcessed in j.manifests
    ensures var attempt := ResolveAttempt(j.attempt);
            var copied := CopiedTo(StartDelivery(j, attempt, startedAt), runs, attempt);
            Delivers(j, FinishDelivery(copied, runs, attempt, workerMax, finalizedAt), workerMax)
  {
    var attempt := ResolveAttempt(j.attempt);
    var copied := CopiedTo(StartDelivery(j, attempt, startedAt), runs, attempt);
    FinishShape(copied, runs, attempt, workerMax, finalizedAt);
    assert forall i | 0 <= i < |Rows(runs, attempt)| :: Rows(runs, attempt)[i].attempt == attempt;
  }

  // ---------- The scheduler and the operator ----------

  /** The job is given one more open schedule, and waits for it under its number. */
  ghost predicate Opens(before: Job, after: Job, row: Schedule) {
    && SameWork(before, after) && TransitionAllowed(before.state, RetryPending)
    && after.state == RetryPending && after.attempt == row.attempt
    && row.status == Open && row.nextStage == row.failedStage
    && after.schedules == before.schedules + [row]
  }

  lemma AddScheduleShape(j: Job, p: Policy, stage: Stage, attempt: int, lastError: Option<ErrorCode>,
                         dueAt: Time, backoff: real, reason: Reason, now: Time)
    requires TransitionAllowed(j.state, RetryPending)
    ensures Opens(j, AddSchedule(j, p, stage, attempt, lastError, dueAt, backoff, reason, now),
                  Schedule(stage, stage, attempt, p.maxAttempts, dueAt, backoff, Open, lastError))
  {
  }

  /** The job is failed or quarantined under its number. */
  ghost predicate GivesUp(before: Job, after: Job) {
    && SameWork(before, after) && TransitionAllowed(before.state, after.state)
    && (after.state == Failed || after.state == Quarantined)
    && after.attempt == before.attempt && after.schedules == before.schedules
  }

  lemma FailingShape(j: Job, to: JobState, code: ErrorCode, reason: Reason, now: Time)
    requires (to == Failed || to == Quarantined) && TransitionAllowed(j.state, to)
    ensures GivesUp(j, Move(j, to, Some(code), Some(j.attempt), RetrySchedulerService, reason, now))
  {
  }

  /** The schedule an automatic retry opens. */
  function RetryRow(j: Job, p: Policy, stage: Stage, code: ErrorCode, now: Time, delay: real): Schedule {
    Schedule(stage, stage, j.attempt + 1, p.maxAttempts, now + delay, delay, Open, Some(code))
  }

  lemma EnactShape(j: Job, p: Policy, d: Decision, stage: Stage, code: ErrorCode, now: Time, delay: real)
    requires d.Fits(j, p, stage)
    ensures var after := Enact(j, p, d, stage, code, now, delay).job;
            match d
            case Skip => after == j
            case Retry => Opens(j, after, RetryRow(j, p, stage, code, now, delay))
            case _ => GivesUp(j, after)
  {
    match d {
      case Skip =>
      case Retry => AddScheduleShape(j, p, stage, j.attempt + 1, Some(code), now + delay, delay, RetryScheduled, now);
      case GiveUp(to) => FailingShape(j, to, code, NonRetryableFailure, now);
      case Exhaust => FailingShape(j, Failed, code, RetryExhausted, now);
    }
  }

  /** Schedule `k` is closed, and the job stays, is failed, or is handed back to the schedule's stage and number. */
  ghost predicate Closes(before: Job, k: nat, after: Job) {
    && SameWork(before, after) && k < |before.schedules| == |after.schedules|
    && var row, closed := before.schedules[k], after.schedules[k];
       && row.status == Open && closed == row.(status := closed.status, lastError := closed.lastError)
       && closed.status != Open && after.schedules == before.schedules[k := closed]
       && (|| (after.state == before.state && after.attempt == before.attempt)
           || (after.attempt == row.attempt > row.maxAttempts && after.state == Failed
               && TransitionAllowed(before.state, Failed))
           || (after.attempt == row.attempt <= row.maxAttempts && before.state == RetryPending
               && IsRetryStage(row.nextStage) && after.state == RetryTarget(row.nextStage)))
  }

  lemma ReleaseShape(j: Job, k: nat, now: Time)
    ensures var r := ReleaseRetry(j, k, now);
            if r.verdict == DueSkipped then r.job == j else Closes(j, k, r.job)
    ensures ReleaseRetry(j, k, now).verdict == DueExhausted ==>
              k < |j.schedules| && j.schedules[k].attempt > j.schedules[k].maxAttempts
  {
  }

  /** The schedule a manual retry opens for a failure, above the job's number and the failure's. */
  function ManualRow(failed: FailedContext, current: int, p: Policy, now: Time): Schedule {
    Schedule(failed.stage, failed.stage, current + 1, p.maxAttempts, now, 0.0, Open, failed.error)
  }

  lemma ManualShape(j: Job, p: Policy, now: Time)
    ensures var r := ManualRetry(j, p, now);
            if r.verdict != ManualAccepted then r.job == j
            else
              && j.state == Failed && InferFailedStage(j).Some?
              && var failed := InferFailedStage(j).value;
                 && CurrentAttempt(j.attempt, failed.attempt).Some?
                 && var current := CurrentAttempt(j.attempt, failed.attempt).value;
                    1 <= current < p.maxAttempts && Opens(j, r.job, ManualRow(failed, current, p, now))
  {
    if ManualRetry(j, p, now).verdict == ManualAccepted {
      var failed := InferFailedStage(j).value;
      var current := CurrentAttempt(j.attempt, failed.attempt).value;
      AddScheduleShape(j, p, failed.stage, current + 1, failed.error, now, 0.0, ManualRetryRequested, now);
    }
  }
}
