/**
 What one call of each public service does to one job. Each call is one transaction: either all its
 writes are kept, or, when a unique key would be violated, none of them. `Move` may only be applied to
 an allowed transition, so these definitions being well formed already says that no service call
 reaches the illegal-transition error of `update_state`.
 */
module JobSteps {
  import opened Basics
  import opened JobModel
  import opened RetryPolicy

  // ---------- Registration by the watcher ----------

  /** A new job with its first history row. */
  function DetectedJob(hasChecksum: bool, at: Time): Job {
    var row := HistoryRow(None, Detected, WatcherService, FileDetected, 1, at);
    Job(Detected, None, 0, None, hasChecksum, [row], [], [], [], [], [], [])
  }

  function Announce(j: Job, at: Time): Job {
    Emit(Emit(Emit(j, FileDetectedEvent, 0, at), FileStableEvent, 0, at), JobRegisteredEvent, 0, at)
  }

  function Register(hasChecksum: bool, at: Time): Job {
    var j := Move(DetectedJob(hasChecksum, at), Stabilizing, None, None, WatcherService, FileStable, at);
    Announce(Move(j, Registered, None, None, WatcherService, JobRegistered, at), at)
  }

  // ---------- Validation ----------

  datatype ValidationVerdict = Valid | Rejected(code: ErrorCode)

  function Validate(j: Job, verdict: ValidationVerdict, startedAt: Time, completedAt: Time, quarantinedAt: Time): Job {
    if j.state != Registered || j.validations != [] then j
    else
      var j := Move(j, Validating, None, Some(1), ValidatorService, ValidationStarted, startedAt);
      var j := j.(validations := j.validations + [ValidationAttempt(1, verdict.Valid?)]);
      match verdict
      case Valid =>
        var j := Move(j, Validated, None, Some(1), ValidatorService, ValidationPassed, completedAt);
        Emit(j, FileValidatedEvent, 1, completedAt)
      case Rejected(code) =>
        var j := Move(j, Invalid, Some(code), Some(1), ValidatorService, Code(code), completedAt);
        var j := Move(j, Quarantined, Some(code), Some(1), ValidatorService, Code(code), quarantinedAt);
        Emit(j, FileQuarantinedEvent, 1, quarantinedAt)
  }

  /** `get_latest_attempt` finds a valid attempt. */
  predicate ValidationConfirmed(j: Job) {
    j.validations != [] && j.validations[|j.validations| - 1].valid
  }

  // ---------- Processing ----------

  /** What the adapter did: it finished, it reported a failure, or it raised. */
  datatype AdapterOutcome = AdapterProcessed | AdapterFailed(code: ErrorCode, retryable: bool) | AdapterRaised

  /** `claimFree` says whether the stage claim could be taken. */
  datatype ProcessInput = ProcessInput(claimFree: bool, outcome: AdapterOutcome, startedAt: Time, completedAt: Time)

  datatype WorkStatus = WorkSucceeded | WorkFailed | WorkSkipped | WorkAborted

  datatype WorkResult = WorkResult(job: Job, status: WorkStatus)

  predicate IsRetryAttempt(attempt: int) {
    attempt > 1
  }

  /** `_is_processable_state` */
  predicate Processable(j: Job) {
    j.state == Validated || (j.state == Processing && IsRetryAttempt(j.attempt))
  }

  /** The unique key (job, attempt) of the processing attempts is already taken. */
  predicate ProcessingKeyTaken(rows: seq<ProcessingAttempt>, attempt: int) {
    exists i | 0 <= i < |rows| :: rows[i].attempt == attempt
  }

  function AdapterResult(j: Job, outcome: AdapterOutcome): AdapterOutcome {
    if !j.hasChecksum then AdapterFailed(ProcessingSourceSha256Missing, false)
    else if outcome.AdapterRaised? then AdapterFailed(ProcessingUnexpectedError, true)
    else outcome
  }

  /** The state `_complete_failure` chooses. */
  function FailureState(retryable: bool, attempt: int, workerMax: int): JobState {
    if retryable && attempt < workerMax then RetryPending else Failed
  }

  function Process(j: Job, workerMax: int, input: ProcessInput): WorkResult {
    var attempt := ResolveAttempt(j.attempt);
    if !Processable(j) || !ValidationConfirmed(j) || !input.claimFree then WorkResult(j, WorkSkipped)
    else if ProcessingKeyTaken(j.processing, attempt) then WorkResult(j, WorkAborted)
    else
      var started := Move(j, Processing, None, Some(attempt), ProcessorService, ProcessingStarted, input.startedAt);
      var started := Emit(started, ProcessingStartedEvent, attempt, input.startedAt);
      match AdapterResult(j, input.outcome)
      case AdapterFailed(code, retryable) =>
        var next := FailureState(retryable, attempt, workerMax);
        var done := started.(processing := j.processing
                               + [ProcessingAttempt(attempt, RunFailed, Some(code), Some(input.completedAt))]);
        var done := Move(done, next, Some(code), Some(attempt), ProcessorService, Code(code), input.completedAt);
        WorkResult(Emit(done, ProcessingFailedEvent, attempt, input.completedAt), WorkFailed)
      case _ =>
        var done := started.(processing := j.processing
                               + [ProcessingAttempt(attempt, RunSucceeded, None, Some(input.completedAt))],
                             manifests := j.manifests + [ManifestProcessed]);
        var done := Move(done, Processed, None, Some(attempt), ProcessorService, ProcessingCompleted,
                         input.completedAt);
        WorkResult(Emit(done, ProcessingCompletedEvent, attempt, input.completedAt), WorkSucceeded)
  }

  // ---------- Delivery ----------

  /** What `copy_output_to_destination` returned for one destination. */
  datatype CopyOutcome = CopyOutcome(delivered: bool, code: Option<ErrorCode>, retryable: bool)

  datatype TargetRun = TargetRun(destination: DestinationId, outcome: CopyOutcome, startedAt: Time, completedAt: Time)
  {
    function FailureCode(): ErrorCode {
      if outcome.code.Some? then outcome.code.value else FinalizeFailed
    }

    function Row(attempt: int): DeliveryAttempt {
      if outcome.delivered then DeliveryAttempt(destination, attempt, RunSucceeded, None, Some(completedAt))
      else DeliveryAttempt(destination, attempt, RunFailed, Some(FailureCode()), Some(completedAt))
    }
  }

  /** `runs` are the resolved targets in order, each with what its copy will return. */
  datatype DeliverInput = DeliverInput(
    manifestReadable: bool, claimFree: bool, runs: seq<TargetRun>, startedAt: Time, finalizedAt: Time)

  /** `_is_deliverable_state` */
  predicate Deliverable(j: Job) {
    j.state == Processed || (j.state == Delivering && IsRetryAttempt(j.attempt))
  }

  /** Creating the attempt rows of `runs` in order would violate the key (job, destination, attempt). */
  predicate DeliveryKeyTaken(rows: seq<DeliveryAttempt>, runs: seq<TargetRun>, attempt: int) {
    || (exists i, k | 0 <= i < |runs| && 0 <= k < |rows| ::
          rows[k].attempt == attempt && rows[k].destination == runs[i].destination)
    || (exists i, k | 0 <= k < i < |runs| :: runs[k].destination == runs[i].destination)
  }

  function Rows(runs: seq<TargetRun>, attempt: int): seq<DeliveryAttempt> {
    seq(|runs|, i requires 0 <= i < |runs| => runs[i].Row(attempt))
  }

  function RunEvents(runs: seq<TargetRun>, attempt: int): seq<Event> {
    if runs == [] then []
    else
      var run := runs[|runs| - 1];
      var ended := if run.outcome.delivered then DeliveryCompletedEvent else DeliveryFailedEvent;
      RunEvents(runs[..|runs| - 1], attempt)
      + [Event(DeliveryStartedEvent, attempt, run.startedAt), Event(ended, attempt, run.completedAt)]
  }

  /** The job once all targets of `runs` are done. */
  function CopiedTo(j: Job, runs: seq<TargetRun>, attempt: int): Job {
    j.(delivery := j.delivery + Rows(runs, attempt), events := j.events + RunEvents(runs, attempt))
  }

  function Failures(runs: seq<TargetRun>): seq<TargetRun> {
    if runs == [] then []
    else
      var last := runs[|runs| - 1];
      Failures(runs[..|runs| - 1]) + if last.outcome.delivered then [] else [last]
  }

  /** `_final_state_from_outcomes` */
  function FinalState(runs: seq<TargetRun>, attempt: int, workerMax: int): JobState {
    var failed := Failures(runs);
    if failed == [] then Completed
    else if |failed| < |runs| then CompletedWithDeliveryErrors
    else if (forall run | run in failed :: run.outcome.retryable) && attempt < workerMax then RetryPending
    else Failed
  }

  function FinalManifest(state: JobState): ManifestStatus {
    match state
    case Completed => ManifestDelivered
    case CompletedWithDeliveryErrors => ManifestPartlyDelivered
    case _ => ManifestFailed
  }

  function FailWithoutTargets(j: Job, attempt: int, at: Time): Job
    requires Deliverable(j)
  {
    var j := Move(j, Failed, Some(NoMatchingDestination), Some(attempt), DeliveryService,
                  Code(NoMatchingDestination), at);
    j.(manifests := j.manifests + [ManifestFailed])
  }

  function StartDelivery(j: Job, attempt: int, at: Time): Job
    requires Deliverable(j)
  {
    Move(j, Delivering, None, Some(attempt), DeliveryService, DeliveryStarted, at)
  }

  function CompleteDelivery(j: Job, attempt: int, at: Time): Job
    requires j.state == Delivering
  {
    var j := Move(j, Delivered, None, Some(attempt), DeliveryService, DeliveryCompleted, at);
    var j := Move(j, Completed, None, Some(attempt), DeliveryService, JobCompleted, at);
    Emit(j.(manifests := j.manifests + [ManifestDelivered]), JobCompletedEvent, attempt, at)
  }

  function EndWithFailures(j: Job, final: JobState, code: ErrorCode, attempt: int, at: Time): Job
    requires j.state == Delivering && TransitionAllowed(Delivering, final)
  {
    var j := Move(j, final, Some(code), Some(attempt), DeliveryService, Code(code), at);
    var j := j.(manifests := j.manifests + [FinalManifest(final)]);
    if final == CompletedWithDeliveryErrors then Emit(j, JobCompletedEvent, attempt, at) else j
  }

  function FinishDelivery(j: Job, runs: seq<TargetRun>, attempt: int, workerMax: int, at: Time): Job
    requires j.state == Delivering
  {
    var failed := Failures(runs);
    if failed == [] then CompleteDelivery(j, attempt, at)
    else EndWithFailures(j, FinalState(runs, attempt, workerMax), failed[0].FailureCode(), attempt, at)
  }

  function Deliver(j: Job, workerMax: int, input: DeliverInput): WorkResult {
    var attempt := ResolveAttempt(j.attempt);
    if !Deliverable(j) || ManifestProcessed !in j.manifests || !input.manifestReadable then WorkResult(j, WorkSkipped)
    else if input.runs == [] then WorkResult(FailWithoutTargets(j, attempt, input.finalizedAt), WorkFailed)
    else if !input.claimFree then WorkResult(j, WorkSkipped)
    else if DeliveryKeyTaken(j.delivery, input.runs, attempt) then WorkResult(j, WorkAborted)
    else
      var copied := CopiedTo(StartDelivery(j, attempt, input.startedAt), input.runs, attempt);
      WorkResult(FinishDelivery(copied, input.runs, attempt, workerMax, input.finalizedAt),
                 if |Failures(input.runs)| < |input.runs| then WorkSucceeded else WorkFailed)
  }

  // ---------- Retry scheduling ----------

  datatype ScheduleVerdict = VerdictScheduled | VerdictTerminal | VerdictExhausted | VerdictSkipped

  datatype ScheduleResult = ScheduleResult(job: Job, verdict: ScheduleVerdict)

  predicate IsRetryStage(stage: Stage) {
    stage == ValidationStage || stage == ProcessingStage || stage == DeliveryStage
  }

  function RetryTarget(stage: Stage): JobState
    requires IsRetryStage(stage)
  {
    match stage
    case ValidationStage => Validating
    case ProcessingStage => Processing
    case _ => Delivering
  }

  /** `_supports_job_failed_stage` */
  predicate SupportsJobFailed(stage: Stage) {
    stage != EventStage
  }

  /** One new schedule, the move to RETRY_PENDING with the next attempt number, and its event. */
  function AddSchedule(j: Job, p: Policy, stage: Stage, attempt: int, lastError: Option<ErrorCode>,
                       dueAt: Time, backoff: real, reason: Reason, now: Time): Job
    requires TransitionAllowed(j.state, RetryPending)
  {
    var schedule := Schedule(stage, stage, attempt, p.maxAttempts, dueAt, backoff, Open, lastError);
    var j := j.(schedules := j.schedules + [schedule]);
    var j := Move(j, RetryPending, lastError, Some(attempt), RetrySchedulerService, reason, now);
    Emit(j, RetryScheduledEvent, attempt, now)
  }

  /** What the guards of `schedule_retry_for_job` choose for a failure report. */
  datatype Decision = Skip | GiveUp(to: JobState) | Exhaust | Retry
  {
    predicate Fits(j: Job, p: Policy, stage: Stage) {
      match this
      case Skip => true
      case GiveUp(to) => j.attempt >= 1 && (to == Failed || to == Quarantined) && TransitionAllowed(j.state, to)
      case Exhaust => 1 <= j.attempt && p.maxAttempts <= j.attempt && TransitionAllowed(j.state, Failed)
      case Retry =>
        && 1 <= j.attempt < p.maxAttempts && TransitionAllowed(j.state, RetryPending)
        && (stage == ProcessingStage || stage == DeliveryStage)
    }
  }

  function Decide(j: Job, p: Policy, stage: Stage, code: ErrorCode): (d: Decision)
    ensures d.Fits(j, p, stage)
  {
    var c := Classify(stage, code);
    if j.attempt < 1 then Skip
    else if !c.retryable then
      if c.terminal.Some? && TransitionAllowed(j.state, c.terminal.value) then GiveUp(c.terminal.value) else Skip
    else if !IsRetryStage(stage) || !TransitionAllowed(j.state, RetryPending) then Skip
    else if p.RetryAllowedAfter(j.attempt) then Retry else Exhaust
  }

  /** Carrying out a decision. */
  function Enact(j: Job, p: Policy, d: Decision, stage: Stage, code: ErrorCode, now: Time, delay: real): ScheduleResult
    requires d.Fits(j, p, stage)
  {
    match d
    case Skip => ScheduleResult(j, VerdictSkipped)
    case GiveUp(to) =>
      var done := Move(j, to, Some(code), Some(j.attempt), RetrySchedulerService, NonRetryableFailure, now);
      var emitted :=
        if to == Failed && SupportsJobFailed(stage) then Emit(done, JobFailedEvent, j.attempt, now) else done;
      ScheduleResult(emitted, VerdictTerminal)
    case Exhaust =>
      var done := Move(j, Failed, Some(code), Some(j.attempt), RetrySchedulerService, RetryExhausted, now);
      ScheduleResult(Emit(done, JobFailedEvent, j.attempt, now), VerdictExhausted)
    case Retry =>
      ScheduleResult(
        AddSchedule(j, p, stage, j.attempt + 1, Some(code), now + delay, delay, RetryScheduled, now),
        VerdictScheduled)
  }

  /** The backoff drawn for a retry; no other decision draws one. */
  function DelayFor(j: Job, p: Policy, stage: Stage, code: ErrorCode, sample: real): real {
    if Decide(j, p, stage, code).Retry? then p.NextDelay(j.attempt, sample) else 0.0
  }

  function ScheduleRetry(j: Job, p: Policy, stage: Stage, code: ErrorCode, now: Time, sample: real): ScheduleResult {
    Enact(j, p, Decide(j, p, stage, code), stage, code, now, DelayFor(j, p, stage, code, sample))
  }

  datatype DueVerdict = DueAttempted | DueExhausted | DueFailed | DueSkipped

  datatype DueResult = DueResult(job: Job, verdict: DueVerdict)

  function Close(j: Job, k: nat, status: ScheduleStatus, lastError: Option<ErrorCode>): Job
    requires k < |j.schedules|
  {
    j.(schedules := j.schedules[k := j.schedules[k].(status := status, lastError := lastError)])
  }

  predicate IsDue(s: Schedule, now: Time) {
    s.status == Open && s.dueAt <= now
  }

  function CodeOr(code: Option<ErrorCode>, text: string): Option<ErrorCode> {
    if code.Some? then code else Some(OtherCode(text))
  }

  function ReleaseRetry(j: Job, k: nat, now: Time): DueResult {
    if k >= |j.schedules| || !IsDue(j.schedules[k], now) then DueResult(j, DueSkipped)
    else
      var s := j.schedules[k];
      if s.attempt > s.maxAttempts then
        if !TransitionAllowed(j.state, Failed) then
          DueResult(Close(j, k, FailedSchedule, CodeOr(s.lastError, "RETRY_EXHAUSTED")), DueFailed)
        else
          var j := Close(j, k, ExhaustedSchedule, s.lastError);
          var j := Move(j, Failed, s.lastError, Some(s.attempt), RetrySchedulerService, RetryExhausted, now);
          DueResult(if SupportsJobFailed(s.failedStage) then Emit(j, JobFailedEvent, s.attempt, now) else j,
                    DueExhausted)
      else if !IsRetryStage(s.nextStage) || j.state != RetryPending then
        DueResult(Close(j, k, FailedSchedule, CodeOr(s.lastError, "INVALID_STATE_TRANSITION")), DueFailed)
      else
        var moved := Move(j, RetryTarget(s.nextStage), None, Some(s.attempt), RetrySchedulerService, RetryDue, now);
        DueResult(Close(moved, k, Attempted, s.lastError), DueAttempted)
  }

  // ---------- Manual retry ----------

  datatype FailedContext = FailedContext(stage: Stage, attempt: int, error: Option<ErrorCode>, failedAt: Time)

  /** The later of two failures; on a tie the second, which was created later. */
  function Later(a: Option<FailedContext>, b: Option<FailedContext>): Option<FailedContext> {
    if a.Some? && b.Some? then (if b.value.failedAt >= a.value.failedAt then b else a)
    else if a.Some? then a else b
  }

  function ProcessingFailure(rows: seq<ProcessingAttempt>): Option<FailedContext> {
    if rows == [] then None
    else
      var row := rows[|rows| - 1];
      Later(ProcessingFailure(rows[..|rows| - 1]),
            if row.status == RunFailed && row.completedAt.Some?
            then Some(FailedContext(ProcessingStage, row.attempt, row.error, row.completedAt.value)) else None)
  }

  function DeliveryFailure(rows: seq<DeliveryAttempt>): Option<FailedContext> {
    if rows == [] then None
    else
      var row := rows[|rows| - 1];
      Later(DeliveryFailure(rows[..|rows| - 1]),
            if row.status == RunFailed && row.completedAt.Some?
            then Some(FailedContext(DeliveryStage, row.attempt, row.error, row.completedAt.value)) else None)
  }

  /** The newest schedule of a stage that can be retried by hand. */
  function LatestSchedule(rows: seq<Schedule>): Option<FailedContext> {
    if rows == [] then None
    else
      var row := rows[|rows| - 1];
      if row.failedStage == ProcessingStage || row.failedStage == DeliveryStage
      then Some(FailedContext(row.failedStage, row.attempt, row.lastError, row.dueAt))
      else LatestSchedule(rows[..|rows| - 1])
  }

  /** `_infer_failed_stage`; delivery wins a tie against processing. */
  function InferFailedStage(j: Job): Option<FailedContext> {
    var failure := Later(ProcessingFailure(j.processing), DeliveryFailure(j.delivery));
    if failure.Some? then failure else LatestSchedule(j.schedules)
  }

  /** `_resolve_current_attempt_number` */
  function CurrentAttempt(jobAttempt: int, failedAttempt: int): Option<int> {
    var candidate := if jobAttempt >= failedAttempt then jobAttempt else failedAttempt;
    if candidate >= 1 then Some(candidate) else None
  }

  datatype ManualVerdict = ManualAccepted | JobNotRetryable | RetryLimitExhausted

  datatype ManualResult = ManualResult(job: Job, verdict: ManualVerdict)

  function ManualRetry(j: Job, p: Policy, now: Time): ManualResult {
    var context := InferFailedStage(j);
    if j.state != Failed || context.None? then ManualResult(j, JobNotRetryable)
    else
      var failed := context.value;
      var code := if failed.error.Some? then failed.error.value else if j.error.Some? then j.error.value
        else UnknownFailure;
      if Classify(failed.stage, code).terminal == Some(Quarantined) then ManualResult(j, JobNotRetryable)
      else
        var current := CurrentAttempt(j.attempt, failed.attempt);
        if current.None? then ManualResult(j, JobNotRetryable)
        else if !p.RetryAllowedAfter(current.value) then ManualResult(j, RetryLimitExhausted)
        else
          ManualResult(
            AddSchedule(j, p, failed.stage, current.value + 1, failed.error, now, 0.0, ManualRetryRequested, now),
            ManualAccepted)
  }

  // ---------- Runs ----------

  /** The two limits a deployment configures: the retry policy, and the workers' own attempt limit. */
  datatype Config = Config(policy: Policy, workerMax: int)

  datatype Step =
    | StepValidate(verdict: ValidationVerdict, startedAt: Time, completedAt: Time, quarantinedAt: Time)
    | StepProcess(process: ProcessInput)
    | StepDeliver(deliver: DeliverInput)
    | StepSchedule(stage: Stage, code: ErrorCode, now: Time, sample: real)
    | StepRelease(schedule: nat, now: Time)
    | StepManual(now: Time)

  function Apply(c: Config, j: Job, step: Step): Job {
    match step
    case StepValidate(verdict, startedAt, completedAt, quarantinedAt) =>
      Validate(j, verdict, startedAt, completedAt, quarantinedAt)
    case StepProcess(input) => Process(j, c.workerMax, input).job
    case StepDeliver(input) => Deliver(j, c.workerMax, input).job
    case StepSchedule(stage, code, now, sample) => ScheduleRetry(j, c.policy, stage, code, now, sample).job
    case StepRelease(schedule, now) => ReleaseRetry(j, schedule, now).job
    case StepManual(now) => ManualRetry(j, c.policy, now).job
  }

  /** The job after any calls, in any order. */
  function Continue(c: Config, j: Job, steps: seq<Step>): Job {
    if steps == [] then j
    else Apply(c, Continue(c, j, steps[..|steps| - 1]), steps[|steps| - 1])
  }

  /** The job after its registration and then any calls, in any order. */
  function Run(c: Config, hasChecksum: bool, at: Time, steps: seq<Step>): Job {
    Continue(c, Register(hasChecksum, at), steps)
  }

  lemma ContinueMore(c: Config, j: Job, steps: seq<Step>, step: Step)
    ensures Continue(c, j, steps + [step]) == Apply(c, Continue(c, j, steps), step)
  {
    assert (steps + [step])[..|steps|] == steps;
  }
}
