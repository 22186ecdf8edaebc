/**
 What a worker leaves in RETRY_PENDING the scheduler picks up: with the codes the stages really emit and one
 attempt limit on both sides, the failure is always scheduled, and its release is work for the same stage.
 */
module Handoff {
  import opened Basics
  import opened JobModel
  import opened RetryPolicy
  import opened JobSteps
  import opened CallShapes
  import opened RetryDiscipline
  import Pipeline

  /** The failures the processing adapter reports, with their retryable flags. */
  predicate AdapterReports(code: ErrorCode, retryable: bool) {
    match code
    case ProcessingInputUnavailable => retryable
    case ProcessingOutputUnavailable => retryable
    case ProcessingUnexpectedError => retryable
    case UnsupportedExtensionReachedProcessing => !retryable
    case ProcessingInputInvalid => !retryable
    case ProcessingArtifactInvalid => !retryable
    case _ => false
  }

  /** The failures the staged copy reports, with their retryable flags. */
  predicate CopyReports(code: ErrorCode, retryable: bool) {
    match code
    case SourceTransferFailed => retryable
    case DestinationNotFound => retryable
    case DestinationNotWritable => retryable
    case FinalizeFailed => retryable
    case DestinationNotAllowlisted => !retryable
    case FinalizeUnsupported => !retryable
    case _ => false
  }

  predicate RealOutcome(outcome: AdapterOutcome) {
    outcome.AdapterFailed? ==> AdapterReports(outcome.code, outcome.retryable)
  }

  predicate RealCopy(outcome: CopyOutcome) {
    !outcome.delivered ==> outcome.code.Some? && CopyReports(outcome.code.value, outcome.retryable)
  }

  /** Worker and catalog agree on every code a stage emits: it is retryable for one exactly if it is for the other. */
  lemma CatalogAgrees(code: ErrorCode, retryable: bool)
    ensures AdapterReports(code, retryable) ==> retryable == Classify(ProcessingStage, code).retryable
    ensures CopyReports(code, retryable) ==> retryable == Classify(DeliveryStage, code).retryable
    ensures !Classify(ProcessingStage, ProcessingSourceSha256Missing).retryable
  {
  }

  /** `waiting` is `before` scheduled for its next attempt in `stage`, which its new last schedule will release. */
  ghost predicate Scheduled(before: Job, stage: Stage, max: int, now: Time, r: ScheduleResult) {
    && r.verdict == VerdictScheduled && r.job.state == RetryPending && r.job.attempt == before.attempt + 1 <= max
    && r.job.validations == before.validations && r.job.manifests == before.manifests
    && r.job.processing == before.processing && r.job.delivery == before.delivery
    && |r.job.schedules| == |before.schedules| + 1
    && var s := r.job.schedules[|before.schedules|];
       s.status == Open && s.nextStage == stage && s.attempt == before.attempt + 1 && s.maxAttempts == max
       && s.dueAt == now + s.backoff
  }

  lemma RetryableIsScheduled(j: Job, p: Policy, stage: Stage, code: ErrorCode, now: Time, sample: real)
    requires j.state == RetryPending && 1 <= j.attempt < p.maxAttempts
    requires (stage == ProcessingStage || stage == DeliveryStage) && Classify(stage, code).retryable
    ensures Scheduled(j, stage, p.maxAttempts, now, ScheduleRetry(j, p, stage, code, now, sample))
  {
  }

  /** `released` is the waiting job back in its stage. */
  ghost predicate BackInStage(waiting: Job, r: DueResult, target: JobState) {
    && r.verdict == DueAttempted && r.job.state == target && r.job.attempt == waiting.attempt
    && r.job.validations == waiting.validations && r.job.manifests == waiting.manifests
    && r.job.processing == waiting.processing && r.job.delivery == waiting.delivery
  }

  lemma ScheduledIsReleased(before: Job, stage: Stage, max: int, now: Time, r: ScheduleResult, later: Time)
    requires Scheduled(before, stage, max, now, r) && (stage == ProcessingStage || stage == DeliveryStage)
    requires later >= r.job.schedules[|before.schedules|].dueAt
    ensures BackInStage(r.job, ReleaseRetry(r.job, |before.schedules|, later), RetryTarget(stage))
  {
  }

  /** The call is aborted if its key is taken, and otherwise does its work. */
  predicate WorksUnless(keyTaken: bool, status: WorkStatus) {
    if keyTaken then status == WorkAborted else status in {WorkSucceeded, WorkFailed}
  }

  /**
   What a processing call left waiting: its number can be followed by one more, and its code says it may be retried.
   */
  lemma ProcessingLeavesWaiting(j: Job, max: int, input: ProcessInput)
    requires RealOutcome(input.outcome)
    requires Process(j, max, input).status == WorkFailed && Process(j, max, input).job.state == RetryPending
    ensures var left := Process(j, max, input).job;
            && 1 <= left.attempt < max && ValidationConfirmed(left)
            && left.error.Some? && Classify(ProcessingStage, left.error.value).retryable
  {
    CatalogAgrees(ProcessingUnexpectedError, true);
    if input.outcome.AdapterFailed? {
      CatalogAgrees(input.outcome.code, input.outcome.retryable);
    }
  }

  /**
   A processing failure left in RETRY_PENDING is scheduled under the next number, and once due it is released to a
   job that the processing worker, when it gets the claim, does not skip: it does its work, unless the job has an
   attempt row with that next number already, which happens to a job whose number was set back.
   */
  lemma ProcessingHandoff(j: Job, p: Policy, input: ProcessInput, now: Time, sample: real, later: Time,
                          next: ProcessInput)
    requires RealOutcome(input.outcome)
    requires Process(j, p.maxAttempts, input).status == WorkFailed
    requires Process(j, p.maxAttempts, input).job.state == RetryPending
    requires next.claimFree
    ensures var left := Process(j, p.maxAttempts, input).job;
            left.error.Some?
            && var r := ScheduleRetry(left, p, ProcessingStage, left.error.value, now, sample);
               && Scheduled(left, ProcessingStage, p.maxAttempts, now, r)
               && (later >= r.job.schedules[|left.schedules|].dueAt ==>
                     var released := ReleaseRetry(r.job, |left.schedules|, later);
                     BackInStage(r.job, released, Processing)
                     && WorksUnless(ProcessingKeyTaken(left.processing, left.attempt + 1),
                                    Process(released.job, p.maxAttempts, next).status))
  {
    ProcessingLeavesWaiting(j, p.maxAttempts, input);
    WaitingProcessingComesBack(Process(j, p.maxAttempts, input).job, p, now, sample, later, next);
  }

  lemma WaitingProcessingComesBack(left: Job, p: Policy, now: Time, sample: real, later: Time, next: ProcessInput)
    requires left.state == RetryPending && 1 <= left.attempt < p.maxAttempts && ValidationConfirmed(left)
    requires left.error.Some? && Classify(ProcessingStage, left.error.value).retryable
    requires next.claimFree
    ensures var r := ScheduleRetry(left, p, ProcessingStage, left.error.value, now, sample);
            && Scheduled(left, ProcessingStage, p.maxAttempts, now, r)
            && (later >= r.job.schedules[|left.schedules|].dueAt ==>
                  var released := ReleaseRetry(r.job, |left.schedules|, later);
                  BackInStage(r.job, released, Processing)
                  && WorksUnless(ProcessingKeyTaken(left.processing, left.attempt + 1),
                                 Process(released.job, p.maxAttempts, next).status))
  {
    RetryableIsScheduled(left, p, ProcessingStage, left.error.value, now, sample);
    var r := ScheduleRetry(left, p, ProcessingStage, left.error.value, now, sample);
    if later >= r.job.schedules[|left.schedules|].dueAt {
      ScheduledIsReleased(left, ProcessingStage, p.maxAttempts, now, r, later);
      ProcessableIsWorked(ReleaseRetry(r.job, |left.schedules|, later).job, p.maxAttempts, next);
    }
  }

  lemma ProcessableIsWorked(j: Job, max: int, input: ProcessInput)
    requires input.claimFree && Processable(j) && ValidationConfirmed(j)
    ensures WorksUnless(ProcessingKeyTaken(j.processing, ResolveAttempt(j.attempt)), Process(j, max, input).status)
  {
  }

  lemma DeliveryLeavesWaiting(j: Job, max: int, input: DeliverInput)
    requires forall i | 0 <= i < |input.runs| :: RealCopy(input.runs[i].outcome)
    requires Deliver(j, max, input).status == WorkFailed && Deliver(j, max, input).job.state == RetryPending
    ensures var left := Deliver(j, max, input).job;
            && 1 <= left.attempt < max && ManifestProcessed in left.manifests
            && left.error.Some? && Classify(DeliveryStage, left.error.value).retryable
  {
    var attempt := ResolveAttempt(j.attempt);
    var copied := CopiedTo(StartDelivery(j, attempt, input.startedAt), input.runs, attempt);
    FailuresAreRuns(input.runs);
    var first := Failures(input.runs)[0];
    CatalogAgrees(first.outcome.code.value, first.outcome.retryable);
    WaitingAfterFinish(copied, input.runs, attempt, max, input.finalizedAt);
  }

  lemma {:induction false} FailuresAreRuns(runs: seq<TargetRun>)
    ensures forall run | run in Failures(runs) :: run in runs && !run.outcome.delivered
  {
    if runs != [] {
      FailuresAreRuns(runs[..|runs| - 1]);
    }
  }

  lemma WaitingAfterFinish(copied: Job, runs: seq<TargetRun>, attempt: int, max: int, at: Time)
    requires copied.state == Delivering && FinishDelivery(copied, runs, attempt, max, at).state == RetryPending
    ensures var left := FinishDelivery(copied, runs, attempt, max, at);
            && attempt < max && left.attempt == attempt && Failures(runs) != [] && Failures(runs)[0].outcome.retryable
            && left.error == Some(Failures(runs)[0].FailureCode()) && left.delivery == copied.delivery
            && left.manifests == copied.manifests + [ManifestFailed]
  {
    assert Failures(runs) != [] ==> Failures(runs)[0] in Failures(runs);
  }

  /** The same for a delivery in which every target failed, and the keys of the targets of the next call. */
  lemma DeliveryHandoff(j: Job, p: Policy, input: DeliverInput, now: Time, sample: real, later: Time,
                        next: DeliverInput)
    requires forall i | 0 <= i < |input.runs| :: RealCopy(input.runs[i].outcome)
    requires Deliver(j, p.maxAttempts, input).status == WorkFailed
    requires Deliver(j, p.maxAttempts, input).job.state == RetryPending
    requires next.claimFree && next.manifestReadable
    ensures var left := Deliver(j, p.maxAttempts, input).job;
            left.error.Some?
            && var r := ScheduleRetry(left, p, DeliveryStage, left.error.value, now, sample);
               && Scheduled(left, DeliveryStage, p.maxAttempts, now, r)
               && (later >= r.job.schedules[|left.schedules|].dueAt ==>
                     var released := ReleaseRetry(r.job, |left.schedules|, later);
                     BackInStage(r.job, released, Delivering)
                     && WorksUnless(DeliveryKeyTaken(left.delivery, next.runs, left.attempt + 1),
                                    Deliver(released.job, p.maxAttempts, next).status))
  {
    DeliveryLeavesWaiting(j, p.maxAttempts, input);
    WaitingDeliveryComesBack(Deliver(j, p.maxAttempts, input).job, p, now, sample, later, next);
  }

  lemma WaitingDeliveryComesBack(left: Job, p: Policy, now: Time, sample: real, later: Time, next: DeliverInput)
    requires left.state == RetryPending && 1 <= left.attempt < p.maxAttempts && ManifestProcessed in left.manifests
    requires left.error.Some? && Classify(DeliveryStage, left.error.value).retryable
    requires next.claimFree && next.manifestReadable
    ensures var r := ScheduleRetry(left, p, DeliveryStage, left.error.value, now, sample);
            && Scheduled(left, DeliveryStage, p.maxAttempts, now, r)
            && (later >= r.job.schedules[|left.schedules|].dueAt ==>
                  var released := ReleaseRetry(r.job, |left.schedules|, later);
                  BackInStage(r.job, released, Delivering)
                  && WorksUnless(DeliveryKeyTaken(left.delivery, next.runs, left.attempt + 1),
                                 Deliver(released.job, p.maxAttempts, next).status))
  {
    var r := ScheduleRetry(left, p, DeliveryStage, left.error.value, now, sample);
    assert Scheduled(left, DeliveryStage, p.maxAttempts, now, r) by {
      RetryableIsScheduled(left, p, DeliveryStage, left.error.value, now, sample);
    }
    if later >= r.job.schedules[|left.schedules|].dueAt {
      ScheduledIsReleased(left, DeliveryStage, p.maxAttempts, now, r, later);
      DeliverableIsWorked(ReleaseRetry(r.job, |left.schedules|, later).job, p.maxAttempts, next);
    }
  }

  lemma DeliverableIsWorked(j: Job, max: int, input: DeliverInput)
    requires input.claimFree && input.manifestReadable && Deliverable(j) && ManifestProcessed in j.manifests
    ensures WorksUnless(DeliveryKeyTaken(j.delivery, input.runs, ResolveAttempt(j.attempt)),
                        Deliver(j, max, input).status)
  {
  }

  // ---------- On disciplined runs the next number is always free ----------

  lemma DisciplinedIsSequential(c: Config, hasChecksum: bool, at: Time, steps: seq<Step>)
    requires DisciplinedRun(c, hasChecksum, at, steps)
    ensures Sequential(Run(c, hasChecksum, at, steps), c.policy.maxAttempts)
  {
    RegisterSequential(hasChecksum, at, c.policy.maxAttempts);
    CallsSequential(c, Register(hasChecksum, at), steps);
  }

  lemma NextProcessingKeyIsFree(j: Job, max: int, workerMax: int, input: ProcessInput)
    requires Sequential(j, max) && Process(j, workerMax, input).status == WorkFailed
    ensures var left := Process(j, workerMax, input).job;
            NoneOpen(left.schedules) && !ProcessingKeyTaken(left.processing, left.attempt + 1)
  {
    assert ProcessingBelow(j.processing, j.attempt + 1);
  }

  lemma NextDeliveryKeyIsFree(j: Job, max: int, workerMax: int, input: DeliverInput, next: seq<TargetRun>)
    requires Sequential(j, max) && Deliver(j, workerMax, input).status == WorkFailed && input.runs != []
    requires forall i, k | 0 <= i < k < |next| :: next[i].destination != next[k].destination
    ensures var left := Deliver(j, workerMax, input).job;
            NoneOpen(left.schedules) && !DeliveryKeyTaken(left.delivery, next, left.attempt + 1)
  {
    DeliverShape(j, workerMax, input);
  }

  /**
   On every disciplined run, a processing failure left in RETRY_PENDING may be scheduled again, and its release is
   worked on: the retry is neither lost nor aborted.
   */
  lemma DisciplinedProcessingHandoff(c: Config, hasChecksum: bool, at: Time, steps: seq<Step>, input: ProcessInput,
                                     now: Time, sample: real, later: Time, next: ProcessInput)
    requires DisciplinedRun(c, hasChecksum, at, steps) && c.workerMax == c.policy.maxAttempts
    requires RealOutcome(input.outcome) && next.claimFree
    requires var r := Process(Run(c, hasChecksum, at, steps), c.workerMax, input);
             r.status == WorkFailed && r.job.state == RetryPending
    ensures var left := Process(Run(c, hasChecksum, at, steps), c.workerMax, input).job;
            left.error.Some? && NoneOpen(left.schedules)
            && var r := ScheduleRetry(left, c.policy, ProcessingStage, left.error.value, now, sample);
               && Scheduled(left, ProcessingStage, c.policy.maxAttempts, now, r)
               && (later >= r.job.schedules[|left.schedules|].dueAt ==>
                     Process(ReleaseRetry(r.job, |left.schedules|, later).job, c.workerMax, next).status
                     in {WorkSucceeded, WorkFailed})
  {
    var j := Run(c, hasChecksum, at, steps);
    DisciplinedIsSequential(c, hasChecksum, at, steps);
    NextProcessingKeyIsFree(j, c.policy.maxAttempts, c.workerMax, input);
    ProcessingHandoff(j, c.policy, input, now, sample, later, next);
  }

  /** The same for a delivery in which every target failed, and any different targets the next time. */
  lemma DisciplinedDeliveryHandoff(c: Config, hasChecksum: bool, at: Time, steps: seq<Step>, input: DeliverInput,
                                   now: Time, sample: real, later: Time, next: DeliverInput)
    requires DisciplinedRun(c, hasChecksum, at, steps) && c.workerMax == c.policy.maxAttempts
    requires forall i | 0 <= i < |input.runs| :: RealCopy(input.runs[i].outcome)
    requires next.claimFree && next.manifestReadable
    requires forall i, k | 0 <= i < k < |next.runs| :: next.runs[i].destination != next.runs[k].destination
    requires var r := Deliver(Run(c, hasChecksum, at, steps), c.workerMax, input);
             r.status == WorkFailed && r.job.state == RetryPending
    ensures var left := Deliver(Run(c, hasChecksum, at, steps), c.workerMax, input).job;
            left.error.Some? && NoneOpen(left.schedules)
            && var r := ScheduleRetry(left, c.policy, DeliveryStage, left.error.value, now, sample);
               && Scheduled(left, DeliveryStage, c.policy.maxAttempts, now, r)
               && (later >= r.job.schedules[|left.schedules|].dueAt ==>
                     Deliver(ReleaseRetry(r.job, |left.schedules|, later).job, c.workerMax, next).status
                     in {WorkSucceeded, WorkFailed})
  {
    var j := Run(c, hasChecksum, at, steps);
    DisciplinedIsSequential(c, hasChecksum, at, steps);
    NextDeliveryKeyIsFree(j, c.policy.maxAttempts, c.workerMax, input, next.runs);
    DeliveryHandoff(j, c.policy, input, now, sample, later, next);
  }

  ghost predicate WaitsByHand(before: Job, after: Job, stage: Stage, max: int, now: Time) {
    && after.state == RetryPending && after.attempt > before.attempt && 2 <= after.attempt <= max
    && |after.schedules| == |before.schedules| + 1
    && var s := after.schedules[|before.schedules|];
       s.status == Open && s.nextStage == stage && s.attempt == after.attempt && s.maxAttempts == max
       && s.dueAt == now && s.backoff == 0.0
  }

  lemma AcceptedWaits(j: Job, p: Policy, now: Time)
    requires ManualRetry(j, p, now).verdict == ManualAccepted
    ensures WaitsByHand(j, ManualRetry(j, p, now).job, InferFailedStage(j).value.stage, p.maxAttempts, now)
  {
  }

  lemma WaitingIsReleased(before: Job, waiting: Job, stage: Stage, max: int, now: Time, later: Time)
    requires WaitsByHand(before, waiting, stage, max, now) && (stage == ProcessingStage || stage == DeliveryStage)
             && later >= now
    ensures BackInStage(waiting, ReleaseRetry(waiting, |before.schedules|, later), RetryTarget(stage))
  {
  }

  /**
   An accepted manual retry can be released at once, and from then on: the job goes back to the stage that failed
   last, under a number above its own and within the limit, and that stage's worker takes it up.
   */
  lemma ManualHandoff(j: Job, p: Policy, now: Time, later: Time)
    requires ManualRetry(j, p, now).verdict == ManualAccepted && later >= now
    ensures var waiting, stage := ManualRetry(j, p, now).job, InferFailedStage(j).value.stage;
            var released := ReleaseRetry(waiting, |j.schedules|, later);
            && stage in {ProcessingStage, DeliveryStage} && j.attempt < waiting.attempt <= p.maxAttempts
            && BackInStage(waiting, released, RetryTarget(stage))
            && (if stage == ProcessingStage then Processable(released.job) else Deliverable(released.job))
  {
    Pipeline.InferredStage(j);
    AcceptedWaits(j, p, now);
    WaitingIsReleased(j, ManualRetry(j, p, now).job, InferFailedStage(j).value.stage, p.maxAttempts, now, later);
  }
}
