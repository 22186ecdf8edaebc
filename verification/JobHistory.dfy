/** The state history of a job replays to its current state, on every run. */
module JobHistory {
  import opened Basics
  import opened JobModel
  import opened RetryPolicy
  import opened JobSteps

  /** Rows 1..n without gaps, each starting where the one before it ended, each an allowed move. */
  ghost predicate Chained(rows: seq<HistoryRow>) {
    var n := |rows|;
    && n > 0
    && rows[n - 1].sequence == n
    && if n == 1 then rows[0].previous == None && rows[0].next == Detected
       else
         && rows[n - 1].previous == Some(rows[n - 2].next)
         && TransitionAllowed(rows[n - 2].next, rows[n - 1].next)
         && Chained(rows[..n - 1])
  }

  ghost predicate Replays(j: Job) {
    && Chained(j.history)
    && j.history[|j.history| - 1].next == j.state
    && j.terminal == TerminalState(j.state)
  }

  /** One move: a row numbered next, from the old state to the new one, which must be allowed. */
  ghost predicate Advances(before: Job, after: Job) {
    var n := |before.history|;
    && TransitionAllowed(before.state, after.state)
    && |after.history| == n + 1 && after.history[..n] == before.history
    && after.history[n].previous == Some(before.state) && after.history[n].next == after.state
    && after.history[n].sequence == n + 1
    && after.terminal == TerminalState(after.state)
  }

  /** One move, or none, whatever else happens to the job. */
  ghost predicate Follows(before: Job, after: Job) {
    || (after.history == before.history && after.state == before.state && after.terminal == before.terminal)
    || Advances(before, after)
  }

  lemma FollowingReplays(before: Job, after: Job)
    requires Replays(before) && Follows(before, after)
    ensures Replays(after)
  {
  }

  lemma MoveAdvances(j: Job, next: JobState, error: Option<ErrorCode>, attempt: Option<int>,
                     actor: Service, reason: Reason, at: Time)
    requires TransitionAllowed(j.state, next)
    ensures Advances(j, Move(j, next, error, attempt, actor, reason, at))
  {
  }

  lemma RegisterReplays(hasChecksum: bool, at: Time)
    ensures Replays(Register(hasChecksum, at))
  {
    var a := DetectedJob(hasChecksum, at);
    var b := Move(a, Stabilizing, None, None, WatcherService, FileStable, at);
    FollowingReplays(a, b);
    FollowingReplays(b, Register(hasChecksum, at));
  }

  /** A job whose validation has begun, with its attempt row. */
  function Checked(j: Job, valid: bool, at: Time): Job
    requires j.state == Registered
  {
    var j := Move(j, Validating, None, Some(1), ValidatorService, ValidationStarted, at);
    j.(validations := j.validations + [ValidationAttempt(1, valid)])
  }

  lemma CheckedFollows(j: Job, valid: bool, at: Time)
    requires j.state == Registered
    ensures Follows(j, Checked(j, valid, at)) && Checked(j, valid, at).state == Validating
  {
  }

  lemma PassingFollows(j: Job, t0: Time, t1: Time, t2: Time)
    requires j.state == Registered && j.validations == []
    ensures Follows(Checked(j, true, t0), Validate(j, Valid, t0, t1, t2))
  {
    var passed := Move(Checked(j, true, t0), Validated, None, Some(1), ValidatorService, ValidationPassed, t1);
    assert Validate(j, Valid, t0, t1, t2) == Emit(passed, FileValidatedEvent, 1, t1);
  }

  lemma RejectingFollows(j: Job, code: ErrorCode, t0: Time, t1: Time, t2: Time) returns (a: Job)
    requires j.state == Registered && j.validations == []
    ensures Follows(Checked(j, false, t0), a) && Follows(a, Validate(j, Rejected(code), t0, t1, t2))
  {
    a := Move(Checked(j, false, t0), Invalid, Some(code), Some(1), ValidatorService, Code(code), t1);
    var rejected := Move(a, Quarantined, Some(code), Some(1), ValidatorService, Code(code), t2);
    assert Validate(j, Rejected(code), t0, t1, t2) == Emit(rejected, FileQuarantinedEvent, 1, t2);
  }

  /** A validation moves the job up to three times. */
  lemma ValidateFollows(j: Job, verdict: ValidationVerdict, t0: Time, t1: Time, t2: Time) returns (a: Job, b: Job)
    ensures Follows(j, a) && Follows(a, b) && Follows(b, Validate(j, verdict, t0, t1, t2))
  {
    a, b := j, j;
    if j.state == Registered && j.validations == [] {
      a := Checked(j, verdict.Valid?, t0);
      b := a;
      CheckedFollows(j, verdict.Valid?, t0);
      match verdict {
        case Valid => PassingFollows(j, t0, t1, t2);
        case Rejected(code) => b := RejectingFollows(j, code, t0, t1, t2);
      }
    }
  }

  /** A processing call moves the job to PROCESSING and on. */
  lemma ProcessFollows(j: Job, workerMax: int, input: ProcessInput) returns (a: Job)
    ensures Follows(j, a) && Follows(a, Process(j, workerMax, input).job)
  {
    a := j;
    if Process(j, workerMax, input).status in {WorkSucceeded, WorkFailed} {
      a := Move(j, Processing, None, Some(ResolveAttempt(j.attempt)), ProcessorService, ProcessingStarted,
                input.startedAt);
    }
  }

  lemma FinishDeliveryFollows(j: Job, runs: seq<TargetRun>, attempt: int, workerMax: int, at: Time) returns (a: Job)
    requires j.state == Delivering
    ensures Follows(j, a) && Follows(a, FinishDelivery(j, runs, attempt, workerMax, at))
  {
    a := j;
    if Failures(runs) == [] {
      a := Move(j, Delivered, None, Some(attempt), DeliveryService, DeliveryCompleted, at);
    }
  }

  /** A delivery call moves the job to DELIVERING and on, directly or by way of DELIVERED. */
  lemma DeliverFollows(j: Job, workerMax: int, input: DeliverInput) returns (a: Job, b: Job)
    ensures Follows(j, a) && Follows(a, b) && Follows(b, Deliver(j, workerMax, input).job)
  {
    a, b := j, j;
    if Deliver(j, workerMax, input).status in {WorkSucceeded, WorkFailed} && input.runs != [] {
      var attempt := ResolveAttempt(j.attempt);
      a := CopiedTo(StartDelivery(j, attempt, input.startedAt), input.runs, attempt);
      b := FinishDeliveryFollows(a, input.runs, attempt, workerMax, input.finalizedAt);
    }
  }

  lemma AddScheduleFollows(j: Job, p: Policy, stage: Stage, attempt: int, lastError: Option<ErrorCode>,
                           dueAt: Time, backoff: real, reason: Reason, now: Time)
    requires TransitionAllowed(j.state, RetryPending)
    ensures Follows(j, AddSchedule(j, p, stage, attempt, lastError, dueAt, backoff, reason, now))
  {
  }

  lemma EnactFollows(j: Job, p: Policy, d: Decision, stage: Stage, code: ErrorCode, now: Time, delay: real)
    requires d.Fits(j, p, stage)
    ensures Follows(j, Enact(j, p, d, stage, code, now, delay).job)
  {
    var after := Enact(j, p, d, stage, code, now, delay).job;
    match d {
      case Skip => assert after == j;
      case GiveUp(to) =>
        MoveAdvances(j, to, Some(code), Some(j.attempt), RetrySchedulerService, NonRetryableFailure, now);
      case Exhaust =>
        MoveAdvances(j, Failed, Some(code), Some(j.attempt), RetrySchedulerService, RetryExhausted, now);
      case Retry =>
        assert after
            == AddSchedule(j, p, stage, j.attempt + 1, Some(code), now + delay, delay, RetryScheduled, now);
        AddScheduleFollows(j, p, stage, j.attempt + 1, Some(code), now + delay, delay, RetryScheduled, now);
    }
  }

  lemma ReleaseFollows(j: Job, k: nat, now: Time)
    ensures Follows(j, ReleaseRetry(j, k, now).job)
  {
    if k < |j.schedules| && IsDue(j.schedules[k], now) {
      var s := j.schedules[k];
      if s.attempt > s.maxAttempts && TransitionAllowed(j.state, Failed) {
        MoveAdvances(Close(j, k, ExhaustedSchedule, s.lastError), Failed, s.lastError, Some(s.attempt),
                     RetrySchedulerService, RetryExhausted, now);
      } else if s.attempt <= s.maxAttempts && IsRetryStage(s.nextStage) && j.state == RetryPending {
        MoveAdvances(j, RetryTarget(s.nextStage), None, Some(s.attempt), RetrySchedulerService, RetryDue, now);
      }
    }
  }

  lemma ManualFollows(j: Job, p: Policy, now: Time)
    ensures Follows(j, ManualRetry(j, p, now).job)
  {
    if ManualRetry(j, p, now).verdict.ManualAccepted? {
      var failed := InferFailedStage(j).value;
      var next := CurrentAttempt(j.attempt, failed.attempt).value + 1;
      AddScheduleFollows(j, p, failed.stage, next, failed.error, now, 0.0, ManualRetryRequested, now);
    }
  }

  /** Every call keeps the history replaying, whatever the job looks like otherwise. */
  lemma StepReplays(c: Config, j: Job, step: Step)
    requires Replays(j)
    ensures Replays(Apply(c, j, step))
  {
    var a, b := StepFollows(c, j, step);
    FollowingReplays(j, a);
    FollowingReplays(a, b);
    FollowingReplays(b, Apply(c, j, step));
  }

  /** A call moves a job at most three times. */
  lemma StepFollows(c: Config, j: Job, step: Step) returns (a: Job, b: Job)
    ensures Follows(j, a) && Follows(a, b) && Follows(b, Apply(c, j, step))
  {
    a, b := j, j;
    match step
    case StepValidate(verdict, t0, t1, t2) => a, b := ValidateFollows(j, verdict, t0, t1, t2);
    case StepProcess(input) => b := ProcessFollows(j, c.workerMax, input);
    case StepDeliver(input) => a, b := DeliverFollows(j, c.workerMax, input);
    case StepSchedule(stage, code, now, sample) =>
      EnactFollows(j, c.policy, Decide(j, c.policy, stage, code), stage, code, now,
        DelayFor(j, c.policy, stage, code, sample));
    case StepRelease(schedule, now) => ReleaseFollows(j, schedule, now);
    case StepManual(now) => ManualFollows(j, c.policy, now);
  }

  lemma {:induction false} CallsReplay(c: Config, j: Job, steps: seq<Step>)
    requires Replays(j)
    ensures Replays(Continue(c, j, steps))
  {
    if steps != [] {
      var n := |steps| - 1;
      CallsReplay(c, j, steps[..n]);
      StepReplays(c, Continue(c, j, steps[..n]), steps[n]);
    }
  }

  /** On every run the history starts at None -> DETECTED, has no gap, and ends in the job's state. */
  lemma HistoryReplays(c: Config, hasChecksum: bool, at: Time, steps: seq<Step>)
    ensures Replays(Run(c, hasChecksum, at, steps))
  {
    RegisterReplays(hasChecksum, at);
    CallsReplay(c, Register(hasChecksum, at), steps);
  }

  /** The state a reader gets by following the rows from the first one. */
  function Replay(rows: seq<HistoryRow>): Option<JobState> {
    if rows == [] then None
    else
      var last := rows[|rows| - 1];
      if last.previous == Replay(rows[..|rows| - 1]) && last.sequence == |rows| then Some(last.next) else None
  }

  /** Following the history row by row, refusing any row that does not continue the last, gives the job's state. */
  lemma {:induction false} ReplayGivesState(c: Config, hasChecksum: bool, at: Time, steps: seq<Step>)
    ensures Replay(Run(c, hasChecksum, at, steps).history) == Some(Run(c, hasChecksum, at, steps).state)
  {
    var j := Run(c, hasChecksum, at, steps);
    HistoryReplays(c, hasChecksum, at, steps);
    ChainReplays(j.history);
  }

  lemma {:induction false} ChainReplays(rows: seq<HistoryRow>)
    requires Chained(rows)
    ensures Replay(rows) == Some(rows[|rows| - 1].next)
  {
    if |rows| > 1 {
      ChainReplays(rows[..|rows| - 1]);
    }
  }
}
