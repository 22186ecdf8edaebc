/**
 When the scheduler is called only for jobs with no open schedule, retries of a job are sequential:
 at most one schedule is open and it carries the job's attempt number, attempt numbers only grow, and the
 unique keys of the attempt tables are never hit. Manual retries, releases and workers are not restricted.
 */
module RetryDiscipline {
  import opened Basics
  import opened JobModel
  import opened RetryPolicy
  import opened JobSteps
  import opened CallShapes

  ghost predicate NoneOpen(rows: seq<Schedule>) {
    forall i | 0 <= i < |rows| :: rows[i].status != Open
  }

  ghost predicate Allowed(j: Job, step: Step) {
    step.StepSchedule? ==> NoneOpen(j.schedules)
  }

  /** Every processing attempt is numbered below `n`. */
  ghost predicate ProcessingBelow(rows: seq<ProcessingAttempt>, n: int) {
    forall i | 0 <= i < |rows| :: rows[i].attempt < n
  }

  ghost predicate DeliveryBelow(rows: seq<DeliveryAttempt>, n: int) {
    forall i | 0 <= i < |rows| :: rows[i].attempt < n
  }

  /** Every schedule was made under the current limit for a worker's stage, and is numbered within it, at most `n`. */
  ghost predicate SchedulesUpTo(rows: seq<Schedule>, n: int, max: int) {
    forall i | 0 <= i < |rows| :: 2 <= rows[i].attempt <= n && rows[i].attempt <= rows[i].maxAttempts == max
      && (rows[i].nextStage == ProcessingStage || rows[i].nextStage == DeliveryStage)
  }

  /** At most one schedule is open: the last open one, waiting for a RETRY_PENDING job with its number. */
  ghost predicate OneOpen(j: Job) {
    && (forall i | 0 <= i < |j.schedules| && j.schedules[i].status == Open ::
          j.state == RetryPending && j.schedules[i].attempt == j.attempt)
    && (forall i, k | 0 <= i < k < |j.schedules| :: !(j.schedules[i].status == Open && j.schedules[k].status == Open))
  }

  /** No attempt row carries the number the next processing run will use. */
  ghost predicate NextProcessingFresh(j: Job) {
    && (j.state in {Registered, Validated} ==> j.processing == [])
    && (j.state in {Processing, Delivering} || !NoneOpen(j.schedules) ==> ProcessingBelow(j.processing, j.attempt))
    && ProcessingBelow(j.processing, j.attempt + 1)
  }

  ghost predicate NextDeliveryFresh(j: Job) {
    && (j.state in {Registered, Validated} ==> j.delivery == [])
    && (j.state in {Processing, Delivering, Processed} || !NoneOpen(j.schedules) ==>
      DeliveryBelow(j.delivery, j.attempt))
    && DeliveryBelow(j.delivery, j.attempt + 1)
  }

  ghost predicate Numbered(j: Job, max: int) {
    && 0 <= j.attempt && (j.attempt <= 1 || j.attempt <= max)
    && (j.attempt == 0 <==> j.state == Registered)
    && |j.schedules| + 1 <= ResolveAttempt(j.attempt)
    && SchedulesUpTo(j.schedules, j.attempt, max)
  }

  ghost predicate Sequential(j: Job, max: int) {
    Numbered(j, max) && OneOpen(j) && NextProcessingFresh(j) && NextDeliveryFresh(j)
  }

  lemma RegisterSequential(hasChecksum: bool, at: Time, max: int)
    ensures Sequential(Register(hasChecksum, at), max)
  {
  }

  lemma ValidatingSequential(j: Job, after: Job, max: int)
    requires Sequential(j, max) && Validates(j, after)
    ensures Sequential(after, max) && after.attempt >= j.attempt
  {
  }

  lemma ProcessingSequential(j: Job, after: Job, workerMax: int, max: int)
    requires Sequential(j, max) && Processes(j, after, workerMax)
    ensures Sequential(after, max) && after.attempt == j.attempt
  {
  }

  lemma ProcessDoesNotAbort(j: Job, workerMax: int, input: ProcessInput, max: int)
    requires Sequential(j, max)
    ensures Process(j, workerMax, input).status != WorkAborted
  {
    ProcessShape(j, workerMax, input);
  }

  lemma DeliveringSequential(j: Job, after: Job, workerMax: int, max: int)
    requires Sequential(j, max) && Delivers(j, after, workerMax)
    ensures Sequential(after, max) && after.attempt == j.attempt
  {
    assert forall i | 0 <= i < |j.delivery| :: after.delivery[i].attempt == j.delivery[i].attempt;
  }

  ghost predicate DifferentTargets(runs: seq<TargetRun>) {
    forall i, k | 0 <= i < k < |runs| :: runs[i].destination != runs[k].destination
  }

  lemma DeliverDoesNotAbort(j: Job, workerMax: int, input: DeliverInput, max: int)
    requires Sequential(j, max) && DifferentTargets(input.runs)
    ensures Deliver(j, workerMax, input).status != WorkAborted
  {
    DeliverShape(j, workerMax, input);
  }

  lemma OpeningSequential(j: Job, after: Job, row: Schedule, max: int)
    requires Sequential(j, max) && NoneOpen(j.schedules) && Opens(j, after, row)
    requires row.nextStage == ProcessingStage || row.nextStage == DeliveryStage
    requires 1 <= j.attempt < max && row.attempt == j.attempt + 1 && row.maxAttempts == max
    ensures Sequential(after, max)
  {
  }

  lemma GivingUpSequential(j: Job, after: Job, max: int)
    requires Sequential(j, max) && NoneOpen(j.schedules) && j.attempt >= 1 && GivesUp(j, after)
    ensures Sequential(after, max)
  {
  }

  lemma EnactSequential(j: Job, p: Policy, d: Decision, stage: Stage, code: ErrorCode, now: Time, delay: real)
    requires Sequential(j, p.maxAttempts) && NoneOpen(j.schedules) && d.Fits(j, p, stage)
    ensures var after := Enact(j, p, d, stage, code, now, delay).job;
            Sequential(after, p.maxAttempts) && after.attempt >= j.attempt
  {
    var after := Enact(j, p, d, stage, code, now, delay).job;
    EnactShape(j, p, d, stage, code, now, delay);
    match d {
      case Skip =>
      case Retry => OpeningSequential(j, after, RetryRow(j, p, stage, code, now, delay), p.maxAttempts);
      case _ => GivingUpSequential(j, after, p.maxAttempts);
    }
  }

  lemma ClosingSequential(j: Job, k: nat, after: Job, max: int)
    requires Sequential(j, max) && Closes(j, k, after)
    ensures Sequential(after, max) && after.attempt == j.attempt
  {
  }

  /** The failure a manual retry picks up is a row of the job: no attempt number in it is above the rows' own. */
  lemma {:induction false} ProcessingFailureBelow(rows: seq<ProcessingAttempt>, n: int)
    requires ProcessingBelow(rows, n)
    ensures ProcessingFailure(rows).Some? ==>
              ProcessingFailure(rows).value.attempt < n && ProcessingFailure(rows).value.stage == ProcessingStage
  {
    if rows != [] {
      ProcessingFailureBelow(rows[..|rows| - 1], n);
    }
  }

  lemma {:induction false} DeliveryFailureBelow(rows: seq<DeliveryAttempt>, n: int)
    requires DeliveryBelow(rows, n)
    ensures DeliveryFailure(rows).Some? ==>
              DeliveryFailure(rows).value.attempt < n && DeliveryFailure(rows).value.stage == DeliveryStage
  {
    if rows != [] {
      DeliveryFailureBelow(rows[..|rows| - 1], n);
    }
  }

  lemma {:induction false} LatestScheduleUpTo(rows: seq<Schedule>, n: int, max: int)
    requires SchedulesUpTo(rows, n, max)
    ensures LatestSchedule(rows).Some? ==>
              LatestSchedule(rows).value.attempt <= n
                && LatestSchedule(rows).value.stage in {ProcessingStage, DeliveryStage}
  {
    if rows != [] {
      LatestScheduleUpTo(rows[..|rows| - 1], n, max);
    }
  }

  lemma ManualSequential(j: Job, p: Policy, now: Time)
    requires Sequential(j, p.maxAttempts)
    ensures Sequential(ManualRetry(j, p, now).job, p.maxAttempts) && ManualRetry(j, p, now).job.attempt >= j.attempt
  {
    ManualShape(j, p, now);
    if ManualRetry(j, p, now).verdict == ManualAccepted {
      var failed := InferFailedStage(j).value;
      FailureIsBelow(j, p.maxAttempts);
      assert CurrentAttempt(j.attempt, failed.attempt) == Some(j.attempt);
      OpeningSequential(j, ManualRetry(j, p, now).job, ManualRow(failed, j.attempt, p, now), p.maxAttempts);
    }
  }

  lemma FailureIsBelow(j: Job, max: int)
    requires Sequential(j, max) && InferFailedStage(j).Some?
    ensures var failed := InferFailedStage(j).value;
            failed.attempt <= j.attempt && (failed.stage == ProcessingStage || failed.stage == DeliveryStage)
  {
    ProcessingFailureBelow(j.processing, j.attempt + 1);
    DeliveryFailureBelow(j.delivery, j.attempt + 1);
    LatestScheduleUpTo(j.schedules, j.attempt, max);
  }

  lemma StepSequential(c: Config, j: Job, step: Step)
    requires Sequential(j, c.policy.maxAttempts) && Allowed(j, step)
    ensures Sequential(Apply(c, j, step), c.policy.maxAttempts)
    ensures Apply(c, j, step).attempt >= j.attempt
  {
    var max, after := c.policy.maxAttempts, Apply(c, j, step);
    match step
    case StepValidate(verdict, t0, t1, t2) =>
      ValidateShape(j, verdict, t0, t1, t2);
      if after != j {
        ValidatingSequential(j, after, max);
      }
    case StepProcess(input) =>
      ProcessShape(j, c.workerMax, input);
      if after != j {
        ProcessingSequential(j, after, c.workerMax, max);
      }
    case StepDeliver(input) =>
      DeliverShape(j, c.workerMax, input);
      if after != j {
        DeliveringSequential(j, after, c.workerMax, max);
      }
    case StepSchedule(stage, code, now, sample) =>
      EnactSequential(j, c.policy, Decide(j, c.policy, stage, code), stage, code, now,
        DelayFor(j, c.policy, stage, code, sample));
    case StepRelease(schedule, now) =>
      ReleaseShape(j, schedule, now);
      if after != j {
        ClosingSequential(j, schedule, after, max);
      }
    case StepManual(now) => ManualSequential(j, c.policy, now);
  }

  /** Every scheduler call of the run finds no open schedule. */
  ghost predicate Disciplined(c: Config, j: Job, steps: seq<Step>) {
    steps == [] || (var n := |steps| - 1;
                    Disciplined(c, j, steps[..n]) && Allowed(Continue(c, j, steps[..n]), steps[n]))
  }

  lemma {:induction false} CallsSequential(c: Config, j: Job, steps: seq<Step>)
    requires Sequential(j, c.policy.maxAttempts) && Disciplined(c, j, steps)
    ensures Sequential(Continue(c, j, steps), c.policy.maxAttempts)
    ensures Continue(c, j, steps).attempt >= j.attempt
  {
    if steps != [] {
      var n := |steps| - 1;
      CallsSequential(c, j, steps[..n]);
      StepSequential(c, Continue(c, j, steps[..n]), steps[n]);
    }
  }

  ghost predicate DisciplinedRun(c: Config, hasChecksum: bool, at: Time, steps: seq<Step>) {
    Disciplined(c, Register(hasChecksum, at), steps)
  }

  function AttemptLimit(max: int): int {
    if max <= 1 then 1 else max
  }

  /**
   On every disciplined run: at most one schedule is open, it carries the job's attempt number and the job waits
   for it; the attempt number stays within the limit; and there are at most limit - 1 schedules.
   */
  lemma RetriesAreSequential(c: Config, hasChecksum: bool, at: Time, steps: seq<Step>)
    requires DisciplinedRun(c, hasChecksum, at, steps)
    ensures var j := Run(c, hasChecksum, at, steps);
            && OneOpen(j)
            && 0 <= j.attempt <= AttemptLimit(c.policy.maxAttempts)
            && |j.schedules| <= AttemptLimit(c.policy.maxAttempts) - 1
  {
    RegisterSequential(hasChecksum, at, c.policy.maxAttempts);
    CallsSequential(c, Register(hasChecksum, at), steps);
  }

  /** On every disciplined run a further allowed call never lowers the attempt number. */
  lemma AttemptsNeverDecrease(c: Config, hasChecksum: bool, at: Time, steps: seq<Step>, step: Step)
    requires DisciplinedRun(c, hasChecksum, at, steps) && Allowed(Run(c, hasChecksum, at, steps), step)
    ensures Apply(c, Run(c, hasChecksum, at, steps), step).attempt >= Run(c, hasChecksum, at, steps).attempt
  {
    RegisterSequential(hasChecksum, at, c.policy.maxAttempts);
    CallsSequential(c, Register(hasChecksum, at), steps);
    StepSequential(c, Run(c, hasChecksum, at, steps), step);
  }

  /**
   On every disciplined run no worker call is aborted by a unique key of an attempt table, given that the
   targets of one delivery are different destination rows.
   */
  lemma UniqueKeysHold(c: Config, hasChecksum: bool, at: Time, steps: seq<Step>, work: ProcessInput,
                       delivery: DeliverInput)
    requires DisciplinedRun(c, hasChecksum, at, steps) && DifferentTargets(delivery.runs)
    ensures Process(Run(c, hasChecksum, at, steps), c.workerMax, work).status != WorkAborted
    ensures Deliver(Run(c, hasChecksum, at, steps), c.workerMax, delivery).status != WorkAborted
  {
    var j := Run(c, hasChecksum, at, steps);
    RegisterSequential(hasChecksum, at, c.policy.maxAttempts);
    CallsSequential(c, Register(hasChecksum, at), steps);
    ProcessDoesNotAbort(j, c.workerMax, work, c.policy.maxAttempts);
    DeliverDoesNotAbort(j, c.workerMax, delivery, c.policy.maxAttempts);
  }
}
