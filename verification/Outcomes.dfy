/**
 How one call ends, in terms of the job's fields and the call's inputs alone: which call goes on, which is refused, and
 every field of the job it leaves. What runs keep is proved elsewhere; this is what each step of a run is.
 */
module Outcomes {
  import opened Basics
  import opened JobModel
  import opened RetryPolicy
  import opened JobSteps
  import Pipeline

  // ---------- Registration and validation ----------

  /** A registered job: three states, three events, and nothing else yet. */
  lemma RegistrationIsDecided(hasChecksum: bool, at: Time)
    ensures Register(hasChecksum, at)
            == Job(Registered, None, 0, None, hasChecksum,
                   [HistoryRow(None, Detected, WatcherService, FileDetected, 1, at),
                    HistoryRow(Some(Detected), Stabilizing, WatcherService, FileStable, 2, at),
                    HistoryRow(Some(Stabilizing), Registered, WatcherService, JobRegistered, 3, at)],
                   [], [], [], [], [],
                   [Event(FileDetectedEvent, 0, at), Event(FileStableEvent, 0, at), Event(JobRegisteredEvent, 0, at)])
  {
  }

  /** Accepted: VALIDATED, with one valid attempt and the event. */
  ghost predicate AcceptedAt(j: Job, after: Job, t0: Time, t1: Time) {
    var n := |j.history|;
    after == j.(
      state := Validated, terminal := None, attempt := 1, validations := [ValidationAttempt(1, true)],
      history := j.history + [HistoryRow(Some(Registered), Validating, ValidatorService, ValidationStarted, n + 1, t0),
                              HistoryRow(Some(Validating), Validated, ValidatorService, ValidationPassed, n + 2, t1)],
      events := j.events + [Event(FileValidatedEvent, 1, t1)])
  }

  /** Rejected: by way of INVALID to QUARANTINED, with the code, one invalid attempt and the event. */
  ghost predicate RejectedAt(j: Job, after: Job, code: ErrorCode, t0: Time, t1: Time, t2: Time) {
    var n := |j.history|;
    after == j.(
      state := Quarantined, terminal := Some(Quarantined), attempt := 1, error := Some(code),
      validations := [ValidationAttempt(1, false)],
      history := j.history + [HistoryRow(Some(Registered), Validating, ValidatorService, ValidationStarted, n + 1, t0),
                              HistoryRow(Some(Validating), Invalid, ValidatorService, Code(code), n + 2, t1),
                              HistoryRow(Some(Invalid), Quarantined, ValidatorService, Code(code), n + 3, t2)],
      events := j.events + [Event(FileQuarantinedEvent, 1, t2)])
  }

  /** A registered job without an attempt is validated exactly if the verdict is so; every other job is left alone. */
  lemma ValidationIsDecided(j: Job, verdict: ValidationVerdict, t0: Time, t1: Time, t2: Time)
    ensures var after := Validate(j, verdict, t0, t1, t2);
            if j.state != Registered || j.validations != [] then after == j
            else if verdict.Valid? then AcceptedAt(j, after, t0, t1)
            else RejectedAt(j, after, verdict.code, t0, t1, t2)
  {
  }

  // ---------- Processing ----------

  /** The number a worker uses. */
  function Numbered(attempt: int): int {
    if attempt >= 1 then attempt else 1
  }

  /** The job is validated, or was handed back for a retry, and its last validation attempt is valid. */
  ghost predicate AwaitsProcessing(j: Job) {
    && (j.state == Validated || (j.state == Processing && j.attempt >= 2))
    && |j.validations| > 0 && j.validations[|j.validations| - 1].valid
  }

  ghost predicate UsedInProcessing(j: Job, n: int) {
    exists i | 0 <= i < |j.processing| :: j.processing[i].attempt == n
  }

  /** PROCESSED: one more succeeded row and manifest, and the events of the attempt. */
  ghost predicate ProcessedAt(j: Job, after: Job, n: int, t0: Time, t1: Time) {
    var m := |j.history|;
    after == j.(
      state := Processed, terminal := None, attempt := n,
      processing := j.processing + [ProcessingAttempt(n, RunSucceeded, None, Some(t1))],
      manifests := j.manifests + [ManifestProcessed],
      history :=
        j.history + [HistoryRow(Some(j.state), Processing, ProcessorService, ProcessingStarted, m + 1, t0),
                     HistoryRow(Some(Processing), Processed, ProcessorService, ProcessingCompleted, m + 2, t1)],
      events := j.events + [Event(ProcessingStartedEvent, n, t0), Event(ProcessingCompletedEvent, n, t1)])
  }

  /** RETRY_PENDING or FAILED: one more failed row with the code, which the job keeps, and the events of the attempt. */
  ghost predicate ProcessingFailedAt(j: Job, after: Job, n: int, code: ErrorCode, again: bool, t0: Time, t1: Time) {
    var m, next := |j.history|, if again then RetryPending else Failed;
    after == j.(
      state := next, terminal := (if again then None else Some(Failed)), attempt := n, error := Some(code),
      processing := j.processing + [ProcessingAttempt(n, RunFailed, Some(code), Some(t1))],
      history := j.history + [HistoryRow(Some(j.state), Processing, ProcessorService, ProcessingStarted, m + 1, t0),
                              HistoryRow(Some(Processing), next, ProcessorService, Code(code), m + 2, t1)],
      events := j.events + [Event(ProcessingStartedEvent, n, t0), Event(ProcessingFailedEvent, n, t1)])
  }

  /**
   How a processing call ends that gets to work. Without a checksum the job fails for good; what the adapter raises may
   be retried, and what it reports may be if it says so, as long as the number is below the limit.
   */
  ghost predicate WorkIsDecided(j: Job, max: int, input: ProcessInput, r: WorkResult) {
    var n, t0, t1 := Numbered(j.attempt), input.startedAt, input.completedAt;
    if !j.hasChecksum then
      r.status == WorkFailed && ProcessingFailedAt(j, r.job, n, ProcessingSourceSha256Missing, false, t0, t1)
    else
      match input.outcome
      case AdapterProcessed => r.status == WorkSucceeded && ProcessedAt(j, r.job, n, t0, t1)
      case AdapterRaised =>
        r.status == WorkFailed && ProcessingFailedAt(j, r.job, n, ProcessingUnexpectedError, n < max, t0, t1)
      case AdapterFailed(code, retryable) =>
        r.status == WorkFailed && ProcessingFailedAt(j, r.job, n, code, retryable && n < max, t0, t1)
  }

  /** A processing call is skipped, aborted on a used number, or gets to work, by what can be seen before it. */
  lemma ProcessingIsDecided(j: Job, max: int, input: ProcessInput)
    ensures var r := Process(j, max, input);
            if !AwaitsProcessing(j) || !input.claimFree then r == WorkResult(j, WorkSkipped)
            else if UsedInProcessing(j, Numbered(j.attempt)) then r == WorkResult(j, WorkAborted)
            else WorkIsDecided(j, max, input, r)
  {
    if AwaitsProcessing(j) && input.claimFree && !UsedInProcessing(j, Numbered(j.attempt)) {
      GettingToWork(j, max, input);
    }
  }

  lemma GettingToWork(j: Job, max: int, input: ProcessInput)
    requires AwaitsProcessing(j) && input.claimFree && !UsedInProcessing(j, Numbered(j.attempt))
    ensures WorkIsDecided(j, max, input, Process(j, max, input))
  {
    if !j.hasChecksum || !input.outcome.AdapterProcessed? {
      FailingWork(j, max, input);
    }
  }

  lemma FailingWork(j: Job, max: int, input: ProcessInput)
    requires AwaitsProcessing(j) && input.claimFree && !UsedInProcessing(j, Numbered(j.attempt))
    requires !j.hasChecksum || !input.outcome.AdapterProcessed?
    ensures WorkIsDecided(j, max, input, Process(j, max, input))
  {
  }

  // ---------- Failure reports ----------

  /** The codes worth another try, by stage: of the two worker stages, as far as a schedule can be made. */
  const PROCESSING_RETRIES: set<ErrorCode> :=
    {ProcessorTimeout, ProcessorTransientError, ProcessingTransientFailure, ProcessingInputUnavailable,
     ProcessingOutputUnavailable, ProcessingUnexpectedError}

  const DELIVERY_RETRIES: set<ErrorCode> :=
    {DestinationTemporarilyUnavailable, DestinationUnavailable, DeliveryTransientFailure, DestinationNotFound,
     DestinationNotWritable, FinalizeFailed, SourceTransferFailed}

  predicate MayRetry(stage: Stage, code: ErrorCode) {
    (stage == ProcessingStage && code in PROCESSING_RETRIES) || (stage == DeliveryStage && code in DELIVERY_RETRIES)
  }

  /** Broker failures may be retried, but not as a job's stage. */
  predicate IsBrokerFailure(stage: Stage, code: ErrorCode) {
    stage == EventStage && (code == BrokerUnavailable || code == BrokerPublishFailure)
  }

  /** The states a job can be failed from, and those it can wait from for a retry. */
  predicate CanFail(s: JobState) {
    s !in {Delivered, Invalid, CompletedWithDeliveryErrors, Completed, Quarantined}
  }

  predicate CanWait(s: JobState) {
    s in {Processing, Delivering, RetryPending, Failed}
  }

  /** One more open schedule for the next number, due when its backoff has passed. */
  ghost predicate ScheduledAt(j: Job, after: Job, max: int, stage: Stage, code: ErrorCode, now: Time, backoff: real) {
    var m, n := |j.history|, j.attempt + 1;
    after == j.(
      state := RetryPending, terminal := None, attempt := n, error := Some(code),
      schedules := j.schedules + [Schedule(stage, stage, n, max, now + backoff, backoff, Open, Some(code))],
      history :=
        j.history + [HistoryRow(Some(j.state), RetryPending, RetrySchedulerService, RetryScheduled, m + 1, now)],
      events := j.events + [Event(RetryScheduledEvent, n, now)])
  }

  /** The job is given up on under its number; the failure of a stage of the job is announced. */
  ghost predicate GivenUpAt(
    j: Job, after: Job, to: JobState, code: ErrorCode, reason: Reason, announced: bool, now: Time)
  {
    var m := |j.history|;
    after == j.(
      state := to, terminal := Some(to), error := Some(code),
      history := j.history + [HistoryRow(Some(j.state), to, RetrySchedulerService, reason, m + 1, now)],
      events := j.events + if announced then [Event(JobFailedEvent, j.attempt, now)] else [])
  }

  lemma ClassificationIsDecided(stage: Stage, code: ErrorCode)
    ensures var c := Classify(stage, code);
            && (c.retryable <==> MayRetry(stage, code) || IsBrokerFailure(stage, code))
            && c.terminal == if c.retryable then None
                             else if stage == ValidationStage then Some(Quarantined) else Some(Failed)
  {
  }

  lemma TransitionsAreDecided(s: JobState)
    ensures TransitionAllowed(s, Failed) <==> CanFail(s)
    ensures TransitionAllowed(s, Quarantined) <==> s in {Invalid, Quarantined}
    ensures TransitionAllowed(s, RetryPending) <==> CanWait(s)
  {
  }

  /**
   A failure report on a job under some number. A code worth another try is scheduled while attempts are left and ends
   the job when none is; any other ends it; a job that can do neither is left alone.
   */
  ghost predicate ReportIsDecided(
    j: Job, p: Policy, stage: Stage, code: ErrorCode, now: Time, sample: real, r: ScheduleResult)
  {
    if j.attempt < 1 || IsBrokerFailure(stage, code) then r == ScheduleResult(j, VerdictSkipped)
    else if MayRetry(stage, code) then
      if !CanWait(j.state) then r == ScheduleResult(j, VerdictSkipped)
      else if j.attempt < p.maxAttempts then
        r.verdict == VerdictScheduled
        && ScheduledAt(j, r.job, p.maxAttempts, stage, code, now, p.NextDelay(j.attempt, sample))
      else r.verdict == VerdictExhausted && GivenUpAt(j, r.job, Failed, code, RetryExhausted, true, now)
    else if stage == ValidationStage then
      if j.state != Invalid && j.state != Quarantined then r == ScheduleResult(j, VerdictSkipped)
      else r.verdict == VerdictTerminal && GivenUpAt(j, r.job, Quarantined, code, NonRetryableFailure, false, now)
    else if !CanFail(j.state) then r == ScheduleResult(j, VerdictSkipped)
    else
      r.verdict == VerdictTerminal
      && GivenUpAt(j, r.job, Failed, code, NonRetryableFailure, stage != EventStage, now)
  }

  lemma SchedulingIsDecided(j: Job, p: Policy, stage: Stage, code: ErrorCode, now: Time, sample: real)
    ensures ReportIsDecided(j, p, stage, code, now, sample, ScheduleRetry(j, p, stage, code, now, sample))
  {
    if Decide(j, p, stage, code).Retry? {
      ClassificationIsDecided(stage, code);
      TransitionsAreDecided(j.state);
      RetryIsScheduled(j, p, stage, code, now, DelayFor(j, p, stage, code, sample));
    } else {
      OtherReportsAreDecided(j, p, stage, code, now, sample);
    }
  }

  lemma OtherReportsAreDecided(j: Job, p: Policy, stage: Stage, code: ErrorCode, now: Time, sample: real)
    requires !Decide(j, p, stage, code).Retry?
    ensures ReportIsDecided(j, p, stage, code, now, sample, ScheduleRetry(j, p, stage, code, now, sample))
  {
    ClassificationIsDecided(stage, code);
    TransitionsAreDecided(j.state);
    var d := Decide(j, p, stage, code);
    if !d.Skip? {
      GivingUpIsWritten(j, p, d, stage, code, now, DelayFor(j, p, stage, code, sample));
    }
  }

  lemma GivingUpIsWritten(j: Job, p: Policy, d: Decision, stage: Stage, code: ErrorCode, now: Time, delay: real)
    requires d.Fits(j, p, stage) && (d.GiveUp? || d.Exhaust?)
    ensures var r := Enact(j, p, d, stage, code, now, delay);
            match d
            case GiveUp(to) =>
              r.verdict == VerdictTerminal
              && GivenUpAt(j, r.job, to, code, NonRetryableFailure, to == Failed && stage != EventStage, now)
            case _ => r.verdict == VerdictExhausted && GivenUpAt(j, r.job, Failed, code, RetryExhausted, true, now)
  {
  }

  lemma RetryIsScheduled(j: Job, p: Policy, stage: Stage, code: ErrorCode, now: Time, delay: real)
    requires Retry.Fits(j, p, stage)
    ensures var r := Enact(j, p, Retry, stage, code, now, delay);
            r.verdict == VerdictScheduled && ScheduledAt(j, r.job, p.maxAttempts, stage, code, now, delay)
  {
  }

  // ---------- Releases ----------

  /** Schedule `k` gets the status; a failed one also keeps or gets an error. */
  function WithStatus(rows: seq<Schedule>, k: nat, status: ScheduleStatus, lastError: Option<ErrorCode>): seq<Schedule>
    requires k < |rows|
  {
    rows[k := rows[k].(status := status, lastError := lastError)]
  }

  function OrText(code: Option<ErrorCode>, text: string): Option<ErrorCode> {
    if code == None then Some(OtherCode(text)) else code
  }

  /** The stage's state the job is handed back to. */
  function StateOf(stage: Stage): Option<JobState> {
    match stage
    case ValidationStage => Some(Validating)
    case ProcessingStage => Some(Processing)
    case DeliveryStage => Some(Delivering)
    case _ => None
  }

  ghost predicate ReleasedAt(j: Job, after: Job, k: nat, now: Time)
    requires k < |j.schedules| && StateOf(j.schedules[k].nextStage).Some?
  {
    var s, m := j.schedules[k], |j.history|;
    var next := StateOf(s.nextStage).value;
    after == j.(
      state := next, terminal := None, attempt := s.attempt,
      schedules := WithStatus(j.schedules, k, Attempted, s.lastError),
      history := j.history + [HistoryRow(Some(RetryPending), next, RetrySchedulerService, RetryDue, m + 1, now)])
  }

  ghost predicate ExhaustedAt(j: Job, after: Job, k: nat, now: Time)
    requires k < |j.schedules|
  {
    var s, m := j.schedules[k], |j.history|;
    after == j.(
      state := Failed, terminal := Some(Failed), attempt := s.attempt,
      error := (if s.lastError == None then j.error else s.lastError),
      schedules := WithStatus(j.schedules, k, ExhaustedSchedule, s.lastError),
      history := j.history + [HistoryRow(Some(j.state), Failed, RetrySchedulerService, RetryExhausted, m + 1, now)],
      events := j.events + if s.failedStage == EventStage then [] else [Event(JobFailedEvent, s.attempt, now)])
  }

  /** How a schedule is released that is open and whose time has come. */
  ghost predicate DueIsDecided(j: Job, k: nat, now: Time, r: DueResult)
    requires k < |j.schedules|
  {
    var s := j.schedules[k];
    if s.attempt > s.maxAttempts then
      if CanFail(j.state) then r.verdict == DueExhausted && ExhaustedAt(j, r.job, k, now)
      else
        r == DueResult(
          j.(schedules := WithStatus(j.schedules, k, FailedSchedule, OrText(s.lastError, "RETRY_EXHAUSTED"))),
          DueFailed)
    else if j.state == RetryPending && StateOf(s.nextStage).Some? then
      r.verdict == DueAttempted && ReleasedAt(j, r.job, k, now)
    else
      r == DueResult(
        j.(schedules := WithStatus(j.schedules, k, FailedSchedule, OrText(s.lastError, "INVALID_STATE_TRANSITION"))),
        DueFailed)
  }

  /** A schedule that is missing, closed or not due yet is skipped, and only such a one. */
  lemma ReleaseIsDecided(j: Job, k: nat, now: Time)
    ensures var r := ReleaseRetry(j, k, now);
            if k >= |j.schedules| || j.schedules[k].status != Open || j.schedules[k].dueAt > now
            then r == DueResult(j, DueSkipped)
            else DueIsDecided(j, k, now, r)
  {
    if k < |j.schedules| && j.schedules[k].status == Open && j.schedules[k].dueAt <= now {
      DueRelease(j, k, now);
    }
  }

  lemma DueRelease(j: Job, k: nat, now: Time)
    requires k < |j.schedules| && j.schedules[k].status == Open && j.schedules[k].dueAt <= now
    ensures DueIsDecided(j, k, now, ReleaseRetry(j, k, now))
  {
    TransitionsAreDecided(j.state);
  }

  // ---------- Manual retries ----------

  /** One more open schedule, due at once, above the job's number and the failure's. */
  ghost predicate RetriedByHand(j: Job, after: Job, failed: FailedContext, n: int, max: int, now: Time) {
    var m := |j.history|;
    after == j.(
      state := RetryPending, terminal := None, attempt := n,
      error := (if failed.error == None then j.error else failed.error),
      schedules := j.schedules + [Schedule(failed.stage, failed.stage, n, max, now, 0.0, Open, failed.error)],
      history :=
        j.history + [HistoryRow(Some(Failed), RetryPending, RetrySchedulerService, ManualRetryRequested, m + 1, now)],
      events := j.events + [Event(RetryScheduledEvent, n, now)])
  }

  /** Refused if no attempt is left after the last one, and else accepted. */
  ghost predicate AnsweredByHand(j: Job, r: ManualResult, failed: FailedContext, last: int, max: int, now: Time) {
    if last >= max then r == ManualResult(j, RetryLimitExhausted)
    else r.verdict == ManualAccepted && RetriedByHand(j, r.job, failed, last + 1, max, now)
  }

  /**
   An operator's retry is accepted exactly for a FAILED job with a failure to go back to and an attempt left after the
   larger of the two numbers; a job whose attempts are used up is told so, and no other.
   */
  lemma ManualRetryIsDecided(j: Job, p: Policy, now: Time)
    ensures var r, failed := ManualRetry(j, p, now), InferFailedStage(j);
            if j.state != Failed || failed == None || (j.attempt < 1 && failed.value.attempt < 1)
            then r == ManualResult(j, JobNotRetryable)
            else
              AnsweredByHand(j, r, failed.value, if j.attempt > failed.value.attempt then j.attempt
                                                 else failed.value.attempt, p.maxAttempts, now)
  {
    var failed := InferFailedStage(j);
    if j.state == Failed && failed.Some? && (j.attempt >= 1 || failed.value.attempt >= 1) {
      assert failed.value.stage in {ProcessingStage, DeliveryStage} by { Pipeline.InferredStage(j); }
      AcceptedByHand(j, p, failed.value, if j.attempt > failed.value.attempt then j.attempt else failed.value.attempt,
                     now);
    } else {
      RefusedByHand(j, p, now);
    }
  }

  lemma RefusedByHand(j: Job, p: Policy, now: Time)
    requires var failed := InferFailedStage(j);
             j.state != Failed || failed == None || (j.attempt < 1 && failed.value.attempt < 1)
    ensures ManualRetry(j, p, now) == ManualResult(j, JobNotRetryable)
  {
  }

  lemma AcceptedByHand(j: Job, p: Policy, failed: FailedContext, last: int, now: Time)
    requires j.state == Failed && InferFailedStage(j) == Some(failed)
    requires failed.stage in {ProcessingStage, DeliveryStage}
    requires CurrentAttempt(j.attempt, failed.attempt) == Some(last)
    ensures AnsweredByHand(j, ManualRetry(j, p, now), failed, last, p.maxAttempts, now)
  {
  }

  // ---------- Which failure a manual retry picks up ----------

  ghost predicate FailedThen(row: ProcessingAttempt, at: Time) {
    row.status == RunFailed && row.completedAt == Some(at)
  }

  ghost predicate DeliveryFailedThen(row: DeliveryAttempt, at: Time) {
    row.status == RunFailed && row.completedAt == Some(at)
  }

  /** Row `i` is the last of the processing failures completed latest. */
  ghost predicate IsLatestProcessing(rows: seq<ProcessingAttempt>, i: nat, at: Time) {
    && i < |rows| && FailedThen(rows[i], at)
    && forall k, t | 0 <= k < |rows| && FailedThen(rows[k], t) :: t < at || (t == at && k <= i)
  }

  ghost predicate IsLatestDelivery(rows: seq<DeliveryAttempt>, i: nat, at: Time) {
    && i < |rows| && DeliveryFailedThen(rows[i], at)
    && forall k, t | 0 <= k < |rows| && DeliveryFailedThen(rows[k], t) :: t < at || (t == at && k <= i)
  }

  ghost predicate NoProcessingFailed(rows: seq<ProcessingAttempt>) {
    forall k | 0 <= k < |rows| :: rows[k].status == RunFailed ==> rows[k].completedAt == None
  }

  ghost predicate NoDeliveryFailed(rows: seq<DeliveryAttempt>) {
    forall k | 0 <= k < |rows| :: rows[k].status == RunFailed ==> rows[k].completedAt == None
  }

  lemma {:induction false} LatestProcessing(rows: seq<ProcessingAttempt>) returns (i: nat)
    ensures var f := ProcessingFailure(rows);
            if f == None then NoProcessingFailed(rows)
            else
              && IsLatestProcessing(rows, i, f.value.failedAt)
              && f.value == FailedContext(ProcessingStage, rows[i].attempt, rows[i].error, f.value.failedAt)
  {
    i := 0;
    if rows != [] {
      var n := |rows| - 1;
      i := LatestProcessing(rows[..n]);
      assert forall k, t | 0 <= k < n && FailedThen(rows[k], t) :: FailedThen(rows[..n][k], t);
      var f := ProcessingFailure(rows);
      if f.Some? && FailedThen(rows[n], f.value.failedAt) {
        i := n;
      }
    }
  }

  lemma {:induction false} LatestDelivery(rows: seq<DeliveryAttempt>) returns (i: nat)
    ensures var f := DeliveryFailure(rows);
            if f == None then NoDeliveryFailed(rows)
            else
              && IsLatestDelivery(rows, i, f.value.failedAt)
              && f.value == FailedContext(DeliveryStage, rows[i].attempt, rows[i].error, f.value.failedAt)
  {
    i := 0;
    if rows != [] {
      var n := |rows| - 1;
      i := LatestDelivery(rows[..n]);
      assert forall k, t | 0 <= k < n && DeliveryFailedThen(rows[k], t) :: DeliveryFailedThen(rows[..n][k], t);
      var f := DeliveryFailure(rows);
      if f.Some? && DeliveryFailedThen(rows[n], f.value.failedAt) {
        i := n;
      }
    }
  }

  /** The newest schedule of a worker's stage, at position `i`. */
  ghost predicate IsNewestSchedule(rows: seq<Schedule>, i: nat) {
    && i < |rows| && rows[i].failedStage in {ProcessingStage, DeliveryStage}
    && forall k | i < k < |rows| :: rows[k].failedStage !in {ProcessingStage, DeliveryStage}
  }

  lemma {:induction false} NewestSchedule(rows: seq<Schedule>) returns (i: nat)
    ensures var f := LatestSchedule(rows);
            if f == None then forall k | 0 <= k < |rows| :: rows[k].failedStage !in {ProcessingStage, DeliveryStage}
            else
              && IsNewestSchedule(rows, i)
              && f.value == FailedContext(rows[i].failedStage, rows[i].attempt, rows[i].lastError, rows[i].dueAt)
  {
    i := 0;
    if rows != [] {
      var n := |rows| - 1;
      i := n;
      if rows[n].failedStage !in {ProcessingStage, DeliveryStage} {
        i := NewestSchedule(rows[..n]);
        assert forall k | 0 <= k < n :: rows[k] == rows[..n][k];
      }
    }
  }

  /** The failure is that of processing row `i`, and every delivery failed earlier. */
  ghost predicate PicksProcessing(j: Job, c: FailedContext, i: nat) {
    && IsLatestProcessing(j.processing, i, c.failedAt)
    && (forall k, t | 0 <= k < |j.delivery| && DeliveryFailedThen(j.delivery[k], t) :: t < c.failedAt)
    && c == FailedContext(ProcessingStage, j.processing[i].attempt, j.processing[i].error, c.failedAt)
  }

  /** The failure is that of delivery row `i`, and no processing failed later. */
  ghost predicate PicksDelivery(j: Job, c: FailedContext, i: nat) {
    && IsLatestDelivery(j.delivery, i, c.failedAt)
    && (forall k, t | 0 <= k < |j.processing| && FailedThen(j.processing[k], t) :: t <= c.failedAt)
    && c == FailedContext(DeliveryStage, j.delivery[i].attempt, j.delivery[i].error, c.failedAt)
  }

  /** No attempt failed, and the failure is that of the newest schedule of a worker's stage. */
  ghost predicate PicksSchedule(j: Job, c: FailedContext, i: nat) {
    && NoProcessingFailed(j.processing) && NoDeliveryFailed(j.delivery) && IsNewestSchedule(j.schedules, i)
    && var s := j.schedules[i];
       c == FailedContext(s.failedStage, s.attempt, s.lastError, s.dueAt)
  }

  /**
   A manual retry picks up the failed attempt that was completed last, of either stage; among equals the delivery, and
   the newer row. Only a job without any falls back on its newest schedule.
   */
  lemma LatestFailureIsPicked(j: Job) returns (i: nat)
    ensures var c := InferFailedStage(j);
            if c == None then
              && NoProcessingFailed(j.processing) && NoDeliveryFailed(j.delivery)
              && forall k | 0 <= k < |j.schedules| :: j.schedules[k].failedStage !in {ProcessingStage, DeliveryStage}
            else PicksProcessing(j, c.value, i) || PicksDelivery(j, c.value, i) || PicksSchedule(j, c.value, i)
  {
    var a := LatestProcessing(j.processing);
    var b := LatestDelivery(j.delivery);
    var d := NewestSchedule(j.schedules);
    var p, q := ProcessingFailure(j.processing), DeliveryFailure(j.delivery);
    i := if q.Some? && (p.None? || q.value.failedAt >= p.value.failedAt) then b else if p.Some? then a else d;
  }
}
