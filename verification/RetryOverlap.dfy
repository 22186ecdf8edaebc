/**
 Where small limits end: with one attempt or one worker retry more than RetryLimits allows, two schedules open at once
 can send the same attempt number to the same worker twice, and the second call is aborted by a unique key.
 */
module RetryOverlap {
  import opened Basics
  import opened JobModel
  import opened RetryPolicy
  import opened JobSteps
  import opened CallShapes
  import opened RetryBoundReached
  import opened RetryLimits
  import opened RetryDiscipline

  // ---------- One failing call of either worker ----------

  /** The work that fails: retryably or not, against destination 0 in the delivery stage. */
  function FailingWork(retryable: bool): ProcessInput {
    var code := if retryable then ProcessingInputUnavailable else ProcessingInputInvalid;
    ProcessInput(true, AdapterFailed(code, retryable), 0.0, 0.0)
  }

  function FailingDelivery(retryable: bool): DeliverInput {
    var code := if retryable then DestinationNotFound else FinalizeUnsupported;
    DeliverInput(true, true, [TargetRun(0, CopyOutcome(false, Some(code), retryable), 0.0, 0.0)], 0.0, 0.0)
  }

  function FailingStep(stage: Stage, retryable: bool): Step {
    if stage == ProcessingStage then StepProcess(FailingWork(retryable)) else StepDeliver(FailingDelivery(retryable))
  }

  /** The job has what the stage's worker asks for. */
  ghost predicate Equipped(j: Job, stage: Stage) {
    if stage == ProcessingStage then ValidationConfirmed(j) && j.hasChecksum else ManifestProcessed in j.manifests
  }

  /** The stage's worker has used the number before; for deliveries, at destination 0. */
  ghost predicate Used(j: Job, stage: Stage, n: int) {
    if stage == ProcessingStage then ProcessingKeyTaken(j.processing, n)
    else exists k | 0 <= k < |j.delivery| :: j.delivery[k].attempt == n && j.delivery[k].destination == 0
  }

  /** A call of the stage's worker is aborted. */
  ghost predicate Aborts(c: Config, j: Job, stage: Stage) {
    if stage == ProcessingStage then Process(j, c.workerMax, FailingWork(false)).status == WorkAborted
    else Deliver(j, c.workerMax, FailingDelivery(false)).status == WorkAborted
  }

  /** What a failing call leaves: the number used, the schedules as they were, and the job waiting or failed. */
  ghost predicate FailedAt(c: Config, j: Job, stage: Stage, retryable: bool, after: Job) {
    && after.state == (if retryable && j.attempt < c.workerMax then RetryPending else Failed)
    && after.attempt == j.attempt && after.schedules == j.schedules && Used(after, stage, j.attempt)
      && Equipped(after, stage)
  }

  lemma WorkFails(c: Config, j: Job, retryable: bool)
    requires j.state == Processing && j.attempt > 1 && Equipped(j, ProcessingStage)
             && !Used(j, ProcessingStage, j.attempt)
    ensures FailedAt(c, j, ProcessingStage, retryable, Process(j, c.workerMax, FailingWork(retryable)).job)
  {
    var after := Process(j, c.workerMax, FailingWork(retryable)).job;
    assert after.processing[|j.processing|].attempt == j.attempt;
  }

  lemma OneTarget(retryable: bool, attempt: int, workerMax: int)
    ensures var runs := FailingDelivery(retryable).runs;
            && Failures(runs) == runs && |Rows(runs, attempt)| == 1 && Rows(runs, attempt)[0].attempt == attempt
            && Rows(runs, attempt)[0].destination == 0
            && FinalState(runs, attempt, workerMax) == if retryable && attempt < workerMax then RetryPending else Failed
  {
    var runs := FailingDelivery(retryable).runs;
    assert runs[..0] == [];
    assert Failures(runs[..0]) == [];
    assert runs[0] in Failures(runs);
  }

  lemma DeliveryFails(c: Config, j: Job, retryable: bool)
    requires j.state == Processed || (j.state == Delivering && j.attempt > 1)
    requires j.attempt >= 1 && Equipped(j, DeliveryStage) && !Used(j, DeliveryStage, j.attempt)
    ensures FailedAt(c, j, DeliveryStage, retryable, Deliver(j, c.workerMax, FailingDelivery(retryable)).job)
  {
    var input := FailingDelivery(retryable);
    OneTarget(retryable, j.attempt, c.workerMax);
    assert !DeliveryKeyTaken(j.delivery, input.runs, j.attempt);
    var copied := CopiedTo(StartDelivery(j, j.attempt, input.startedAt), input.runs, j.attempt);
    EndsFailing(copied, retryable, j.attempt, c.workerMax);
    assert copied.delivery[|j.delivery|] == Rows(input.runs, j.attempt)[0];
  }

  lemma EndsFailing(copied: Job, retryable: bool, attempt: int, workerMax: int)
    requires copied.state == Delivering
    ensures var after := FinishDelivery(copied, FailingDelivery(retryable).runs, attempt, workerMax, 0.0);
            && after.state == (if retryable && attempt < workerMax then RetryPending else Failed)
              && after.attempt == attempt
            && after.schedules == copied.schedules && after.delivery == copied.delivery
            && after.manifests == copied.manifests + [ManifestFailed]
  {
    OneTarget(retryable, attempt, workerMax);
  }

  lemma StageFails(c: Config, j: Job, stage: Stage, retryable: bool) returns (steps: seq<Step>, after: Job)
    requires IsWorkerStage(stage) && j.state == RetryTarget(stage) && j.attempt > 1
    requires Equipped(j, stage) && !Used(j, stage, j.attempt)
    ensures Leads(c, j, steps, after) && FailedAt(c, j, stage, retryable, after)
  {
    var fail := FailingStep(stage, retryable);
    LeadsOne(c, j, fail);
    if stage == ProcessingStage {
      WorkFails(c, j, retryable);
    } else {
      DeliveryFails(c, j, retryable);
    }
    steps, after := [fail], Apply(c, j, fail);
  }

  lemma UsedNumberAborts(c: Config, j: Job, stage: Stage)
    requires IsWorkerStage(stage) && j.state == RetryTarget(stage) && j.attempt > 1
    requires Equipped(j, stage) && Used(j, stage, j.attempt)
    ensures Aborts(c, j, stage)
  {
  }

  // ---------- The run ----------

  /** Failed at attempt 1, with no schedule yet and numbers 2 and up unused. */
  ghost predicate ReadyToOverlap(j: Job, stage: Stage) {
    && j.state == Failed && j.attempt == 1 && j.schedules == [] && Equipped(j, stage)
    && ProcessingBelow(j.processing, 2) && DeliveryBelow(j.delivery, 2)
  }

  /** In its stage at attempt 3 for the first time, while the schedule for attempt 2 is still open. */
  ghost predicate Overlapping(j: Job, stage: Stage) {
    && IsWorkerStage(stage) && j.state == RetryTarget(stage) && j.attempt == 3 && |j.schedules| == 2
      && Releasable(j, 0, 2, stage)
    && Equipped(j, stage) && !Used(j, stage, 3)
  }

  /** Open a schedule for attempt 2, then one for attempt 3, and release the newer one first. */
  lemma OpenTwoReleaseNewer(c: Config, j: Job, stage: Stage) returns (steps: seq<Step>, r: Job)
    requires c.policy.maxAttempts >= 3 && IsWorkerStage(stage) && ReadyToOverlap(j, stage)
    ensures Leads(c, j, steps, r) && Overlapping(r, stage)
  {
    var s0, a := ScheduleOpens(c, j, stage);
    var s1, b := ScheduleOpens(c, a, stage);
    assert b.schedules[0] == b.schedules[..1][0];
    var s2, d := ReleaseRewinds(c, b, 1, 3, stage);
    assert d.schedules[0] == d.schedules[..1][0];
    steps, r := s0 + s1 + s2, d;
    LeadsThree(c, j, a, b, d, s0, s1, s2);
  }

  /** Waiting, with the schedule for attempt 2 open and attempt 3 used. */
  ghost predicate WaitingAgain(j: Job, stage: Stage) {
    && j.state == RetryPending && |j.schedules| >= 2 && Releasable(j, 0, 2, stage) && Equipped(j, stage)
      && Used(j, stage, 3)
  }

  /**
   Fail attempt 3 and wait again: the worker does it itself when its limit leaves it an attempt; otherwise a fourth
   attempt is scheduled.
   */
  lemma FailAndWait(c: Config, j: Job, stage: Stage) returns (steps: seq<Step>, r: Job)
    requires c.policy.maxAttempts >= 4 || c.workerMax >= 4
    requires IsWorkerStage(stage) && Overlapping(j, stage)
    ensures Leads(c, j, steps, r) && WaitingAgain(r, stage)
  {
    var s0, a := StageFails(c, j, stage, true);
    if c.workerMax >= 4 {
      steps, r := s0, a;
    } else {
      var s1, b := ScheduleOpens(c, a, stage);
      assert b.schedules[0] == b.schedules[..|a.schedules|][0];
      LeadsTwo(c, j, a, b, s0, s1);
      steps, r := s0 + s1, b;
    }
  }

  /** Release attempt 2, and let it be scheduled and released as attempt 3 again. */
  lemma ReuseNumber(c: Config, j: Job, stage: Stage) returns (steps: seq<Step>, r: Job)
    requires c.policy.maxAttempts >= 3 && IsWorkerStage(stage) && WaitingAgain(j, stage)
    ensures Leads(c, j, steps, r) && Aborts(c, r, stage)
  {
    var s0, a := ReleaseRewinds(c, j, 0, 2, stage);
    var s1, b := ScheduleOpens(c, a, stage);
    var s2, d := ReleaseRewinds(c, b, |a.schedules|, 3, stage);
    UsedNumberAborts(c, d, stage);
    steps, r := s0 + s1 + s2, d;
    LeadsThree(c, j, a, b, d, s0, s1, s2);
  }

  lemma OverlapEnds(c: Config, j: Job, stage: Stage) returns (steps: seq<Step>, r: Job)
    requires !KeepsKeys(c.policy.maxAttempts, c.workerMax) && IsWorkerStage(stage) && ReadyToOverlap(j, stage)
    ensures Leads(c, j, steps, r) && Aborts(c, r, stage)
  {
    var s0, a := OpenTwoReleaseNewer(c, j, stage);
    var s1, b := FailAndWait(c, a, stage);
    var s2, d := ReuseNumber(c, b, stage);
    steps, r := s0 + s1 + s2, d;
    LeadsThree(c, j, a, b, d, s0, s1, s2);
  }

  // ---------- How a job gets there ----------

  /** Validated, with nothing done since. */
  ghost predicate JustValidated(j: Job) {
    && j.state == Validated && j.attempt == 1 && Equipped(j, ProcessingStage)
    && j.processing == [] && j.delivery == [] && j.schedules == []
  }

  lemma ValidationSucceeds(c: Config, at: Time) returns (steps: seq<Step>, r: Job)
    ensures Leads(c, Register(true, at), steps, r) && JustValidated(r)
  {
    var validate := StepValidate(Valid, at, at, at);
    LeadsOne(c, Register(true, at), validate);
    steps, r := [validate], Apply(c, Register(true, at), validate);
  }

  lemma GiveUpBeforeProcessing(j: Job, p: Policy)
    requires JustValidated(j)
    ensures ReadyToOverlap(ScheduleRetry(j, p, ProcessingStage, ProcessingInputInvalid, 0.0, 0.0).job, ProcessingStage)
  {
    var d := Decide(j, p, ProcessingStage, ProcessingInputInvalid);
    assert d == GiveUp(Failed);
    EnactShape(j, p, d, ProcessingStage, ProcessingInputInvalid, 0.0, 0.0);
  }

  /** Failed by the scheduler before its first processing attempt. */
  lemma FailedBeforeProcessing(c: Config, at: Time) returns (steps: seq<Step>, r: Job)
    ensures Leads(c, Register(true, at), steps, r) && ReadyToOverlap(r, ProcessingStage)
  {
    var first, validated := ValidationSucceeds(c, at);
    var giveUp := StepSchedule(ProcessingStage, ProcessingInputInvalid, 0.0, 0.0);
    GiveUpBeforeProcessing(validated, c.policy);
    steps, r := first + [giveUp], Apply(c, validated, giveUp);
    LeadsOne(c, validated, giveUp);
    LeadsTwo(c, Register(true, at), validated, r, first, [giveUp]);
  }

  const GOOD_WORK := ProcessInput(true, AdapterProcessed, 0.0, 0.0)

  lemma WorkSucceeds(j: Job, workerMax: int)
    requires JustValidated(j)
    ensures var after := Process(j, workerMax, GOOD_WORK).job;
            && after.state == Processed && after.attempt == 1 && after.schedules == [] && Equipped(after, DeliveryStage)
            && ProcessingBelow(after.processing, 2) && after.delivery == []
  {
  }

  lemma FirstDeliveryFails(j: Job, workerMax: int)
    requires j.state == Processed && j.attempt == 1 && j.schedules == [] && Equipped(j, DeliveryStage)
    requires ProcessingBelow(j.processing, 2) && j.delivery == []
    ensures ReadyToOverlap(Deliver(j, workerMax, FailingDelivery(false)).job, DeliveryStage)
  {
    var input := FailingDelivery(false);
    OneTarget(false, 1, workerMax);
    var copied := CopiedTo(StartDelivery(j, 1, 0.0), input.runs, 1);
    EndsFailing(copied, false, 1, workerMax);
    assert !DeliveryKeyTaken(j.delivery, input.runs, 1);
  }

  /** Processed, and failed in its first delivery. */
  lemma FailedInDelivery(c: Config, at: Time) returns (steps: seq<Step>, r: Job)
    ensures Leads(c, Register(true, at), steps, r) && ReadyToOverlap(r, DeliveryStage)
  {
    var first, validated := ValidationSucceeds(c, at);
    var work, fail := StepProcess(GOOD_WORK), StepDeliver(FailingDelivery(false));
    WorkSucceeds(validated, c.workerMax);
    var processed := Apply(c, validated, work);
    FirstDeliveryFails(processed, c.workerMax);
    steps, r := first + [work] + [fail], Apply(c, processed, fail);
    LeadsOne(c, validated, work);
    LeadsOne(c, processed, fail);
    LeadsThree(c, Register(true, at), validated, processed, r, first, [work], [fail]);
  }

  /** Beyond the limits of RetryLimits, each worker has a run in which a call of it is aborted. */
  lemma OverlapAborts(c: Config, at: Time, stage: Stage) returns (steps: seq<Step>)
    requires !KeepsKeys(c.policy.maxAttempts, c.workerMax) && IsWorkerStage(stage)
    ensures Aborts(c, Run(c, true, at, steps), stage)
  {
    var s0, s1: seq<Step>, a, b;
    if stage == ProcessingStage {
      s0, a := FailedBeforeProcessing(c, at);
    } else {
      s0, a := FailedInDelivery(c, at);
    }
    s1, b := OverlapEnds(c, a, stage);
    LeadsTwo(c, Register(true, at), a, b, s0, s1);
    LeadsFrom(c, Register(true, at), s0 + s1, b);
    steps := s0 + s1;
  }

  /** With at least three attempts some run reaches a release that lowers the attempt number. */
  lemma AttemptFalls(c: Config, at: Time) returns (steps: seq<Step>, release: Step)
    requires c.policy.maxAttempts >= 3
    ensures var j := Run(c, true, at, steps); Apply(c, j, release).attempt < j.attempt
  {
    var s0, a := FailedBeforeProcessing(c, at);
    var s1, b := ScheduleOpens(c, a, ProcessingStage);
    var s2, d := ScheduleOpens(c, b, ProcessingStage);
    assert d.schedules[0] == d.schedules[..1][0];
    steps, release := s0 + s1 + s2, StepRelease(0, d.schedules[0].dueAt);
    LeadsThree(c, Register(true, at), a, b, d, s0, s1, s2);
    LeadsFrom(c, Register(true, at), s0 + s1 + s2, d);
  }

  // ---------- The exact conditions ----------

  /** On no run is a processing call aborted. */
  ghost predicate WorkNeverAborts(c: Config) {
    forall hasChecksum, at, steps, work ::
      Process(Run(c, hasChecksum, at, steps), c.workerMax, work).status != WorkAborted
  }

  /** On no run is a delivery call to different destinations aborted. */
  ghost predicate DeliveryNeverAborts(c: Config) {
    forall hasChecksum, at, steps, delivery: DeliverInput | DifferentTargets(delivery.runs) ::
      Deliver(Run(c, hasChecksum, at, steps), c.workerMax, delivery).status != WorkAborted
  }

  /**
   Each unique key holds on every run exactly for the limits of RetryLimits: at most 2, or 3 with a worker limit of at
   most 3.
   */
  lemma KeysHoldIffLimitsAreSmall(c: Config)
    ensures WorkNeverAborts(c) <==> KeepsKeys(c.policy.maxAttempts, c.workerMax)
    ensures DeliveryNeverAborts(c) <==> KeepsKeys(c.policy.maxAttempts, c.workerMax)
  {
    if KeepsKeys(c.policy.maxAttempts, c.workerMax) {
      forall hasChecksum, at, steps, work: ProcessInput
        ensures Process(Run(c, hasChecksum, at, steps), c.workerMax, work).status != WorkAborted
      {
        SmallLimitsKeepKeys(c, hasChecksum, at, steps, work, FailingDelivery(false));
      }
      forall hasChecksum, at, steps, delivery: DeliverInput | DifferentTargets(delivery.runs)
        ensures Deliver(Run(c, hasChecksum, at, steps), c.workerMax, delivery).status != WorkAborted
      {
        SmallLimitsKeepKeys(c, hasChecksum, at, steps, FailingWork(false), delivery);
      }
    } else {
      var work := OverlapAborts(c, 0.0, ProcessingStage);
      var delivery := OverlapAborts(c, 0.0, DeliveryStage);
      assert DifferentTargets(FailingDelivery(false).runs);
    }
  }

  ghost predicate NeverFalls(c: Config) {
    forall hasChecksum, at, steps, step ::
      Apply(c, Run(c, hasChecksum, at, steps), step).attempt >= Run(c, hasChecksum, at, steps).attempt
  }

  /** Attempt numbers never fall, on any run, exactly when at most two attempts are allowed. */
  lemma AttemptsKeepIffTwo(c: Config)
    ensures NeverFalls(c) <==> c.policy.maxAttempts <= 2
  {
    if c.policy.maxAttempts <= 2 {
      forall hasChecksum, at, steps, step
        ensures Apply(c, Run(c, hasChecksum, at, steps), step).attempt >= Run(c, hasChecksum, at, steps).attempt
      {
        TwoAttemptsNeverFall(c, hasChecksum, at, steps, step);
      }
    } else {
      var steps, release := AttemptFalls(c, 0.0);
    }
  }
}
