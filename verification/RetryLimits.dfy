/**
 What holds on every run, disciplined or not, because the configured limits are small: with at most two attempts no
 call lowers an attempt number, and with at most three on both sides no worker call violates a unique key.
 */
module RetryLimits {
  import opened Basics
  import opened JobModel
  import opened RetryPolicy
  import opened JobSteps
  import opened CallShapes
  import opened RetryDiscipline
  import Pipeline

  /** The limits under which schedules can be open at once without harm to the attempt tables. */
  predicate KeepsKeys(max: int, workerMax: int) {
    max <= 2 || (max == 3 && workerMax <= 3)
  }

  /** Neither attempt table has a row numbered `n`. */
  ghost predicate Unused(j: Job, n: int) {
    && (forall i | 0 <= i < |j.processing| :: j.processing[i].attempt != n)
    && NoDelivery(j, n)
  }

  ghost predicate NoDelivery(j: Job, n: int) {
    forall i | 0 <= i < |j.delivery| :: j.delivery[i].attempt != n
  }

  /** The first schedule is for attempt 2, and every other one for attempt 3. */
  ghost predicate FewNumbers(rows: seq<Schedule>, max: int) {
    forall i | 0 <= i < |rows| ::
      && rows[i].attempt == (if i == 0 then 2 else 3) && rows[i].attempt <= rows[i].maxAttempts == max
      && (rows[i].nextStage == ProcessingStage || rows[i].nextStage == DeliveryStage)
  }

  ghost predicate InLimits(j: Job, max: int) {
    && 0 <= j.attempt <= AttemptLimit(max) && (j.attempt == 0 <==> j.state == Registered)
    && (j.schedules == [] <==> j.attempt <= 1) && FewNumbers(j.schedules, max)
    && ProcessingBelow(j.processing, j.attempt + 1) && DeliveryBelow(j.delivery, j.attempt + 1)
  }

  /** The first pass through both stages. */
  ghost predicate FirstFresh(j: Job) {
    && (j.state in {Registered, Validated} ==> j.attempt <= 1 && j.processing == [] && j.delivery == [])
    && (j.state == Processed && j.attempt <= 1 ==> NoDelivery(j, 1))
    && (j.state in {Processing, Delivering} ==> j.attempt >= 2)
  }

  /** Attempt 2 is entered only by releasing the first schedule, and number 2 is unused until then. */
  ghost predicate SecondFresh(j: Job) {
    && (j.schedules != [] && j.schedules[0].status == Open ==> Unused(j, 2))
    && (j.attempt == 2 && j.state in {Processing, Delivering, Processed} ==>
          j.schedules != [] && j.schedules[0].status != Open)
    && (j.attempt == 2 && j.state in {Processing, Delivering} ==> Unused(j, 2))
    && (j.attempt == 2 && j.state == Processed ==> NoDelivery(j, 2))
  }

  /** A job that has used number 3 never waits for a retry again. */
  ghost predicate ThirdFresh(j: Job) {
    && (!Unused(j, 3) ==> j.state in {Processed, Failed, Completed, CompletedWithDeliveryErrors})
    && (j.attempt == 3 && j.state == Processed ==> NoDelivery(j, 3))
  }

  ghost predicate Fresh(j: Job, max: int) {
    InLimits(j, max) && FirstFresh(j) && SecondFresh(j) && ThirdFresh(j)
  }

  // ---------- The workers ----------

  lemma ProcessingStaysFresh(before: Job, after: Job, max: int, workerMax: int)
    requires KeepsKeys(max, workerMax) && Fresh(before, max) && Processes(before, after, workerMax)
    ensures Fresh(after, max) && after.attempt == before.attempt
  {
  }

  lemma ProcessDoesNotAbort(j: Job, max: int, workerMax: int, input: ProcessInput)
    requires max <= 3 && Fresh(j, max)
    ensures Process(j, workerMax, input).status != WorkAborted
  {
    ProcessShape(j, workerMax, input);
  }

  lemma DeliveringStaysFresh(before: Job, after: Job, max: int, workerMax: int)
    requires KeepsKeys(max, workerMax) && Fresh(before, max) && Delivers(before, after, workerMax)
    ensures Fresh(after, max) && after.attempt == before.attempt
  {
    assert forall i | 0 <= i < |before.delivery| :: before.delivery[i] == after.delivery[i];
  }

  lemma DeliverDoesNotAbort(j: Job, max: int, workerMax: int, input: DeliverInput)
    requires max <= 3 && Fresh(j, max) && DifferentTargets(input.runs)
    ensures Deliver(j, workerMax, input).status != WorkAborted
  {
    DeliverShape(j, workerMax, input);
    if Deliverable(j) {
      NoDeliveryRowYet(j, max);
    }
  }

  lemma NoDeliveryRowYet(j: Job, max: int)
    requires max <= 3 && Fresh(j, max) && Deliverable(j)
    ensures j.attempt >= 1 && NoDelivery(j, j.attempt)
  {
  }

  // ---------- The scheduler and the operator ----------

  lemma OpeningStaysFresh(before: Job, after: Job, row: Schedule, max: int, workerMax: int)
    requires KeepsKeys(max, workerMax) && Fresh(before, max) && Opens(before, after, row)
    requires 1 <= before.attempt < row.attempt <= max == row.maxAttempts
    requires row.nextStage == ProcessingStage || row.nextStage == DeliveryStage
    requires before.schedules == [] ==> row.attempt == 2
    ensures Fresh(after, max)
  {
    assert before.state !in {Processed, Completed, CompletedWithDeliveryErrors};
  }

  lemma GivingUpStaysFresh(before: Job, after: Job, max: int)
    requires Fresh(before, max) && before.attempt >= 1 && GivesUp(before, after)
    ensures Fresh(after, max)
  {
    assert after.state == Quarantined ==> before.state in {Invalid, Quarantined};
  }

  lemma EnactStaysFresh(j: Job, p: Policy, d: Decision, stage: Stage, code: ErrorCode, now: Time, delay: real,
                        workerMax: int)
    requires KeepsKeys(p.maxAttempts, workerMax) && Fresh(j, p.maxAttempts) && d.Fits(j, p, stage)
    ensures var after := Enact(j, p, d, stage, code, now, delay).job;
            Fresh(after, p.maxAttempts) && after.attempt >= j.attempt
  {
    var after := Enact(j, p, d, stage, code, now, delay).job;
    EnactShape(j, p, d, stage, code, now, delay);
    match d {
      case Skip =>
      case Retry => OpeningStaysFresh(j, after, RetryRow(j, p, stage, code, now, delay), p.maxAttempts, workerMax);
      case _ => GivingUpStaysFresh(j, after, p.maxAttempts);
    }
  }

  /** Only a job without failed rows and schedules starts above attempt 1. */
  lemma FailureIsKnown(j: Job, max: int)
    requires max <= 3 && Fresh(j, max) && InferFailedStage(j).Some? && j.state == Failed
    ensures var failed := InferFailedStage(j).value;
            && (failed.stage == ProcessingStage || failed.stage == DeliveryStage)
            && (j.schedules == [] ==> failed.attempt <= j.attempt)
  {
    Pipeline.InferredStage(j);
    ProcessingFailureBelow(j.processing, j.attempt + 1);
    DeliveryFailureBelow(j.delivery, j.attempt + 1);
  }

  lemma ManualStaysFresh(j: Job, p: Policy, workerMax: int, now: Time)
    requires KeepsKeys(p.maxAttempts, workerMax) && Fresh(j, p.maxAttempts)
    ensures Fresh(ManualRetry(j, p, now).job, p.maxAttempts) && ManualRetry(j, p, now).job.attempt >= j.attempt
  {
    ManualShape(j, p, now);
    if ManualRetry(j, p, now).verdict == ManualAccepted {
      var failed := InferFailedStage(j).value;
      var current := CurrentAttempt(j.attempt, failed.attempt).value;
      FailureIsKnown(j, p.maxAttempts);
      OpeningStaysFresh(j, ManualRetry(j, p, now).job, ManualRow(failed, current, p, now), p.maxAttempts, workerMax);
    }
  }

  lemma ClosingStaysFresh(before: Job, k: nat, after: Job, max: int)
    requires max <= 3 && Fresh(before, max) && Closes(before, k, after)
    ensures Fresh(after, max)
    ensures max <= 2 ==> after.attempt >= before.attempt
  {
  }

  // ---------- Runs ----------

  lemma ValidatingStaysFresh(before: Job, after: Job, max: int)
    requires Fresh(before, max) && Validates(before, after)
    ensures Fresh(after, max) && after.attempt >= before.attempt
  {
  }

  lemma StepStaysFresh(c: Config, j: Job, step: Step)
    requires KeepsKeys(c.policy.maxAttempts, c.workerMax) && Fresh(j, c.policy.maxAttempts)
    ensures Fresh(Apply(c, j, step), c.policy.maxAttempts)
    ensures c.policy.maxAttempts <= 2 ==> Apply(c, j, step).attempt >= j.attempt
  {
    var max, after := c.policy.maxAttempts, Apply(c, j, step);
    match step
    case StepValidate(verdict, t0, t1, t2) =>
      ValidateShape(j, verdict, t0, t1, t2);
      if after != j {
        ValidatingStaysFresh(j, after, max);
      }
    case StepProcess(input) =>
      ProcessShape(j, c.workerMax, input);
      if after != j {
        ProcessingStaysFresh(j, after, max, c.workerMax);
      }
    case StepDeliver(input) =>
      DeliverShape(j, c.workerMax, input);
      if after != j {
        DeliveringStaysFresh(j, after, max, c.workerMax);
      }
    case StepSchedule(stage, code, now, sample) =>
      EnactStaysFresh(j, c.policy, Decide(j, c.policy, stage, code), stage, code, now,
        DelayFor(j, c.policy, stage, code, sample), c.workerMax);
    case StepRelease(schedule, now) =>
      ReleaseShape(j, schedule, now);
      if after != j {
        ClosingStaysFresh(j, schedule, after, max);
      }
    case StepManual(now) => ManualStaysFresh(j, c.policy, c.workerMax, now);
  }

  lemma {:induction false} CallsStayFresh(c: Config, j: Job, steps: seq<Step>)
    requires KeepsKeys(c.policy.maxAttempts, c.workerMax) && Fresh(j, c.policy.maxAttempts)
    ensures Fresh(Continue(c, j, steps), c.policy.maxAttempts)
  {
    if steps != [] {
      var n := |steps| - 1;
      CallsStayFresh(c, j, steps[..n]);
      StepStaysFresh(c, Continue(c, j, steps[..n]), steps[n]);
    }
  }

  lemma RunIsFresh(c: Config, hasChecksum: bool, at: Time, steps: seq<Step>)
    requires KeepsKeys(c.policy.maxAttempts, c.workerMax)
    ensures Fresh(Run(c, hasChecksum, at, steps), c.policy.maxAttempts)
  {
    CallsStayFresh(c, Register(hasChecksum, at), steps);
  }

  /**
   With at most two attempts, or three that the workers' own limit does not exceed: on every run, however many
   schedules are open at once, neither worker's call is aborted by a unique key.
   */
  lemma SmallLimitsKeepKeys(c: Config, hasChecksum: bool, at: Time, steps: seq<Step>, work: ProcessInput,
                            delivery: DeliverInput)
    requires KeepsKeys(c.policy.maxAttempts, c.workerMax) && DifferentTargets(delivery.runs)
    ensures Process(Run(c, hasChecksum, at, steps), c.workerMax, work).status != WorkAborted
    ensures Deliver(Run(c, hasChecksum, at, steps), c.workerMax, delivery).status != WorkAborted
  {
    var j := Run(c, hasChecksum, at, steps);
    RunIsFresh(c, hasChecksum, at, steps);
    ProcessDoesNotAbort(j, c.policy.maxAttempts, c.workerMax, work);
    DeliverDoesNotAbort(j, c.policy.maxAttempts, c.workerMax, delivery);
  }

  /** With at most two attempts no call of any run lowers the attempt number. */
  lemma TwoAttemptsNeverFall(c: Config, hasChecksum: bool, at: Time, steps: seq<Step>, step: Step)
    requires c.policy.maxAttempts <= 2
    ensures Apply(c, Run(c, hasChecksum, at, steps), step).attempt >= Run(c, hasChecksum, at, steps).attempt
  {
    RunIsFresh(c, hasChecksum, at, steps);
    StepStaysFresh(c, Run(c, hasChecksum, at, steps), step);
  }
}
