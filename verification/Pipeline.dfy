/** Stages cannot be skipped, finished jobs are never left, and every schedule is one a worker can pick up. */
module Pipeline {
  import opened Basics
  import opened JobModel
  import opened RetryPolicy
  import opened JobSteps
  import opened CallShapes

  /** Every schedule sends its job to a worker's stage, within the limit it was made under. */
  ghost predicate SoundSchedule(s: Schedule, max: int) {
    && s.nextStage == s.failedStage && (s.nextStage == ProcessingStage || s.nextStage == DeliveryStage)
    && 2 <= s.attempt <= s.maxAttempts == max
  }

  ghost predicate Sound(j: Job, max: int) {
    forall i | 0 <= i < |j.schedules| :: SoundSchedule(j.schedules[i], max)
  }

  lemma {:induction false} ProcessingFailureStage(rows: seq<ProcessingAttempt>)
    ensures ProcessingFailure(rows).Some? ==> ProcessingFailure(rows).value.stage == ProcessingStage
  {
    if rows != [] {
      ProcessingFailureStage(rows[..|rows| - 1]);
    }
  }

  lemma {:induction false} DeliveryFailureStage(rows: seq<DeliveryAttempt>)
    ensures DeliveryFailure(rows).Some? ==> DeliveryFailure(rows).value.stage == DeliveryStage
  {
    if rows != [] {
      DeliveryFailureStage(rows[..|rows| - 1]);
    }
  }

  lemma {:induction false} LatestScheduleStage(rows: seq<Schedule>)
    ensures LatestSchedule(rows).Some? ==> LatestSchedule(rows).value.stage in {ProcessingStage, DeliveryStage}
  {
    if rows != [] {
      LatestScheduleStage(rows[..|rows| - 1]);
    }
  }

  /** A manual retry always goes back to one of the two worker stages. */
  lemma InferredStage(j: Job)
    ensures InferFailedStage(j).Some? ==> InferFailedStage(j).value.stage in {ProcessingStage, DeliveryStage}
  {
    ProcessingFailureStage(j.processing);
    DeliveryFailureStage(j.delivery);
    LatestScheduleStage(j.schedules);
  }

  lemma OpeningSound(j: Job, after: Job, row: Schedule, max: int)
    requires Sound(j, max) && Opens(j, after, row) && SoundSchedule(row, max)
    ensures Sound(after, max)
  {
  }

  lemma EnactSound(j: Job, p: Policy, d: Decision, stage: Stage, code: ErrorCode, now: Time, delay: real)
    requires Sound(j, p.maxAttempts) && d.Fits(j, p, stage)
    ensures Sound(Enact(j, p, d, stage, code, now, delay).job, p.maxAttempts)
  {
    EnactShape(j, p, d, stage, code, now, delay);
    if d.Retry? {
      var row := RetryRow(j, p, stage, code, now, delay);
      OpeningSound(j, Enact(j, p, d, stage, code, now, delay).job, row, p.maxAttempts);
    }
  }

  lemma ManualSound(j: Job, p: Policy, now: Time)
    requires Sound(j, p.maxAttempts)
    ensures Sound(ManualRetry(j, p, now).job, p.maxAttempts)
  {
    ManualShape(j, p, now);
    if ManualRetry(j, p, now).verdict == ManualAccepted {
      InferredStage(j);
      var failed := InferFailedStage(j).value;
      var row := ManualRow(failed, CurrentAttempt(j.attempt, failed.attempt).value, p, now);
      OpeningSound(j, ManualRetry(j, p, now).job, row, p.maxAttempts);
    }
  }

  lemma ReleaseSound(j: Job, k: nat, now: Time, max: int)
    requires Sound(j, max)
    ensures Sound(ReleaseRetry(j, k, now).job, max)
    ensures ReleaseRetry(j, k, now).verdict != DueExhausted
  {
    ReleaseShape(j, k, now);
  }

  lemma StepSound(c: Config, j: Job, step: Step)
    requires Sound(j, c.policy.maxAttempts)
    ensures Sound(Apply(c, j, step), c.policy.maxAttempts)
  {
    match step
    case StepSchedule(stage, code, now, sample) =>
      EnactSound(j, c.policy, Decide(j, c.policy, stage, code), stage, code, now,
        DelayFor(j, c.policy, stage, code, sample));
    case StepRelease(schedule, now) => ReleaseSound(j, schedule, now, c.policy.maxAttempts);
    case StepManual(now) => ManualSound(j, c.policy, now);
    case StepValidate(verdict, t0, t1, t2) => ValidateShape(j, verdict, t0, t1, t2);
    case StepProcess(input) => ProcessShape(j, c.workerMax, input);
    case StepDeliver(input) => DeliverShape(j, c.workerMax, input);
  }

  lemma {:induction false} CallsSound(c: Config, j: Job, steps: seq<Step>)
    requires Sound(j, c.policy.maxAttempts)
    ensures Sound(Continue(c, j, steps), c.policy.maxAttempts)
  {
    if steps != [] {
      var n := |steps| - 1;
      CallsSound(c, j, steps[..n]);
      StepSound(c, Continue(c, j, steps[..n]), steps[n]);
    }
  }

  /** On every run no schedule targets validation, and releasing one never takes the exhausted branch. */
  lemma SchedulesAreSound(c: Config, hasChecksum: bool, at: Time, steps: seq<Step>, k: nat, now: Time)
    ensures var j := Run(c, hasChecksum, at, steps);
            && (forall s | s in j.schedules :: s.nextStage == ProcessingStage || s.nextStage == DeliveryStage)
            && ReleaseRetry(j, k, now).verdict != DueExhausted
  {
    CallsSound(c, Register(hasChecksum, at), steps);
    ReleaseSound(Run(c, hasChecksum, at, steps), k, now, c.policy.maxAttempts);
  }

  /**
   A job past registration has exactly one validation attempt, valid unless the job is quarantined; a job that
   was processed, or finished, has a processed manifest.
   */
  ghost predicate InOrder(j: Job) {
    && (if j.state == Registered then j.attempt == 0 && j.validations == [] else |j.validations| == 1)
    && (j.state !in {Registered, Quarantined} ==> j.validations[0].valid)
    && (j.state in {Processed, Completed, CompletedWithDeliveryErrors} ==> ManifestProcessed in j.manifests)
  }

  lemma RegisterInOrder(hasChecksum: bool, at: Time)
    ensures InOrder(Register(hasChecksum, at))
  {
  }

  lemma WorkInOrder(j: Job, after: Job, workerMax: int)
    requires InOrder(j)
    requires Validates(j, after) || Processes(j, after, workerMax) || Delivers(j, after, workerMax)
    ensures InOrder(after)
  {
    assert Delivers(j, after, workerMax) ==> ManifestProcessed in after.manifests[..|j.manifests|];
  }

  lemma EnactInOrder(j: Job, p: Policy, d: Decision, stage: Stage, code: ErrorCode, now: Time, delay: real)
    requires InOrder(j) && d.Fits(j, p, stage)
    ensures InOrder(Enact(j, p, d, stage, code, now, delay).job)
  {
    EnactShape(j, p, d, stage, code, now, delay);
  }

  lemma ReleaseInOrder(j: Job, k: nat, now: Time, max: int)
    requires InOrder(j) && Sound(j, max)
    ensures InOrder(ReleaseRetry(j, k, now).job)
  {
    ReleaseShape(j, k, now);
  }

  lemma StepInOrder(c: Config, j: Job, step: Step)
    requires InOrder(j) && Sound(j, c.policy.maxAttempts)
    ensures InOrder(Apply(c, j, step))
  {
    var after := Apply(c, j, step);
    match step
    case StepValidate(verdict, t0, t1, t2) =>
      ValidateShape(j, verdict, t0, t1, t2);
      if after != j {
        WorkInOrder(j, after, c.workerMax);
      }
    case StepProcess(input) =>
      ProcessShape(j, c.workerMax, input);
      if after != j {
        WorkInOrder(j, after, c.workerMax);
      }
    case StepDeliver(input) =>
      DeliverShape(j, c.workerMax, input);
      if after != j {
        WorkInOrder(j, after, c.workerMax);
      }
    case StepSchedule(stage, code, now, sample) =>
      EnactInOrder(j, c.policy, Decide(j, c.policy, stage, code), stage, code, now,
        DelayFor(j, c.policy, stage, code, sample));
    case StepRelease(schedule, now) => ReleaseInOrder(j, schedule, now, c.policy.maxAttempts);
    case StepManual(now) => ManualShape(j, c.policy, now);
  }

  lemma {:induction false} CallsInOrder(c: Config, j: Job, steps: seq<Step>)
    requires InOrder(j) && Sound(j, c.policy.maxAttempts)
    ensures InOrder(Continue(c, j, steps))
  {
    if steps != [] {
      var n := |steps| - 1;
      CallsSound(c, j, steps[..n]);
      CallsInOrder(c, j, steps[..n]);
      StepInOrder(c, Continue(c, j, steps[..n]), steps[n]);
    }
  }

  /**
   On every run: one validation attempt at most, and no processed or finished job without a valid one and a manifest.
   */
  lemma StagesAreNotSkipped(c: Config, hasChecksum: bool, at: Time, steps: seq<Step>)
    ensures var j := Run(c, hasChecksum, at, steps);
            && |j.validations| <= 1
            && (j.state in {Processed, Completed, CompletedWithDeliveryErrors} ==>
                  |j.validations| == 1 && j.validations[0].valid && ManifestProcessed in j.manifests)
  {
    RegisterInOrder(hasChecksum, at);
    CallsInOrder(c, Register(hasChecksum, at), steps);
  }

  ghost predicate Finished(s: JobState) {
    s in {Completed, CompletedWithDeliveryErrors, Quarantined}
  }

  lemma NoWayOut(s: JobState, next: JobState)
    requires Finished(s) && TransitionAllowed(s, next)
    ensures next == s
  {
  }

  lemma EnactStays(j: Job, p: Policy, d: Decision, stage: Stage, code: ErrorCode, now: Time, delay: real)
    requires Finished(j.state) && d.Fits(j, p, stage)
    ensures var after := Enact(j, p, d, stage, code, now, delay).job;
            && after.state == j.state && after.attempt == j.attempt && after.schedules == j.schedules
            && after.events == j.events
            && (j.state != Quarantined ==> after == j)
  {
    match d {
      case GiveUp(to) => NoWayOut(j.state, to);
      case _ =>
    }
  }

  lemma ReleaseStays(j: Job, k: nat, now: Time)
    requires Finished(j.state)
    ensures var after := ReleaseRetry(j, k, now).job;
            && after.state == j.state && after.attempt == j.attempt && after.events == j.events
            && |after.schedules| == |j.schedules|
  {
  }

  /**
   A finished job is never left: a call can only close its open schedules and, when it is quarantined, record
   the quarantine again.
   */
  lemma FinishedStays(c: Config, j: Job, step: Step)
    requires Finished(j.state)
    ensures var after := Apply(c, j, step);
            && after.state == j.state && after.attempt == j.attempt && after.events == j.events
            && |after.schedules| == |j.schedules|
  {
    match step
    case StepSchedule(stage, code, now, sample) =>
      EnactStays(j, c.policy, Decide(j, c.policy, stage, code), stage, code, now,
        DelayFor(j, c.policy, stage, code, sample));
    case StepRelease(schedule, now) => ReleaseStays(j, schedule, now);
    case StepManual(now) => ManualShape(j, c.policy, now);
    case StepValidate(verdict, t0, t1, t2) => ValidateShape(j, verdict, t0, t1, t2);
    case StepProcess(input) => ProcessShape(j, c.workerMax, input);
    case StepDeliver(input) => DeliverShape(j, c.workerMax, input);
  }

  lemma {:induction false} FinishedForever(c: Config, j: Job, steps: seq<Step>)
    requires Finished(j.state)
    ensures var after := Continue(c, j, steps);
            && after.state == j.state && after.attempt == j.attempt && after.events == j.events
            && |after.schedules| == |j.schedules|
  {
    if steps != [] {
      var n := |steps| - 1;
      FinishedForever(c, j, steps[..n]);
      FinishedStays(c, Continue(c, j, steps[..n]), steps[n]);
    }
  }
}
