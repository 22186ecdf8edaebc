/** The retry scheduler and the manual retry service as they write to the store, row by row. */
module RetryService {
  import opened Basics
  import opened JobModel
  import opened RetryPolicy
  import opened JobSteps
  import opened JobStore
  import opened RetryBatch

  class RetryScheduler {
    const policy: Policy

    constructor (policy: Policy)
      ensures this.policy == policy
    {
      this.policy := policy;
    }

    /** `schedule_retry_for_job`: an unknown job is skipped, and no other job is touched. */
    method ScheduleRetryForJob(jobs: JobRepository, id: JobId, stage: Stage, code: ErrorCode, now: Time, sample: real)
      returns (verdict: ScheduleVerdict)
      requires jobs.Valid()
      modifies jobs.rows.Values
      ensures jobs.Valid()
      ensures id !in jobs.rows ==> verdict == VerdictSkipped && jobs.Value() == old(jobs.Value())
      ensures id in jobs.rows ==>
                var r := ScheduleRetry(old(jobs.Value())[id], policy, stage, code, now, sample);
                verdict == r.verdict && jobs.Value() == old(jobs.Value())[id := r.job]
    {
      var job := jobs.GetJob(id);
      if job == null {
        return VerdictSkipped;
      }
      ghost var before := jobs.Value();
      verdict := HandleFailure(job, stage, code, now, sample);
      assert jobs.Value() == before[id := job.Value()];
    }

    /** The guards of a failure report, then the writes of the branch they choose. */
    method HandleFailure(job: JobRecord, stage: Stage, code: ErrorCode, now: Time, sample: real)
      returns (verdict: ScheduleVerdict)
      requires job.Valid()
      modifies job
      ensures job.Valid()
      ensures ScheduleResult(job.Value(), verdict) == ScheduleRetry(old(job.Value()), policy, stage, code, now, sample)
    {
      var d := CheckFailure(job, stage, code);
      var backoff := if d.Retry? then policy.NextDelay(job.attempt, sample) else 0.0;
      verdict := EnactDecision(job, d, stage, code, now, backoff);
    }

    /** The writes of the branch a failure report takes. */
    method EnactDecision(job: JobRecord, d: Decision, stage: Stage, code: ErrorCode, now: Time, backoff: real)
      returns (verdict: ScheduleVerdict)
      requires job.Valid() && d.Fits(job.Value(), policy, stage) && (d.Exhaust? ==> IsRetryStage(stage))
      modifies job
      ensures job.Valid()
      ensures ScheduleResult(job.Value(), verdict) == Enact(old(job.Value()), policy, d, stage, code, now, backoff)
    {
      match d {
        case Skip =>
          verdict := VerdictSkipped;
        case GiveUp(to) =>
          GiveUpOn(job, to, stage, code, NonRetryableFailure, now);
          verdict := VerdictTerminal;
        case Exhaust =>
          GiveUpOn(job, Failed, stage, code, RetryExhausted, now);
          verdict := VerdictExhausted;
        case Retry =>
          OpenSchedule(job, policy, stage, job.attempt + 1, Some(code), now + backoff, backoff, RetryScheduled, now);
          verdict := VerdictScheduled;
      }
    }

    method CheckFailure(job: JobRecord, stage: Stage, code: ErrorCode) returns (d: Decision)
      ensures d == Decide(job.Value(), policy, stage, code)
    {
      var classification := Classify(stage, code);
      if job.attempt < 1 {
        return Skip;
      }
      if !classification.retryable {
        if classification.terminal.None? || !TransitionAllowed(job.state, classification.terminal.value) {
          return Skip;
        }
        return GiveUp(classification.terminal.value);
      }
      if !IsRetryStage(stage) {
        return Skip;
      }
      if !TransitionAllowed(job.state, RetryPending) {
        return Skip;
      }
      if !policy.RetryAllowedAfter(job.attempt) {
        return Exhaust;
      }
      d := Retry;
    }

    /** The move to a final state, with `job.failed` when the job has failed in a stage that reports it. */
    method GiveUpOn(job: JobRecord, to: JobState, stage: Stage, code: ErrorCode, reason: Reason, now: Time)
      requires job.Valid() && TransitionAllowed(job.state, to)
      modifies job
      ensures job.Valid()
      ensures job.Value() ==
              var moved := Move(old(job.Value()), to, Some(code), Some(old(job.attempt)), RetrySchedulerService,
                                reason, now);
              if to == Failed && SupportsJobFailed(stage) then Emit(moved, JobFailedEvent, old(job.attempt), now)
              else moved
    {
      var current := job.attempt;
      job.Advance(job.state, to, Some(code), Some(current), RetrySchedulerService, reason, now);
      if to == Failed && SupportsJobFailed(stage) {
        job.EnqueueEvent(JobFailedEvent, current, now);
      }
    }

    /** `process_due_retry`: the schedule is named by its job and its position among the job's schedules. */
    method ProcessDueRetry(job: JobRecord, k: nat, now: Time) returns (verdict: DueVerdict)
      requires job.Valid()
      modifies job
      ensures job.Valid()
      ensures DueResult(job.Value(), verdict) == ReleaseRetry(old(job.Value()), k, now)
    {
      if k >= |job.schedules| {
        return DueSkipped;
      }
      var schedule := job.schedules[k];
      if schedule.status != Open || schedule.dueAt > now {
        return DueSkipped;
      }
      if schedule.attempt > schedule.maxAttempts {
        verdict := ExhaustDue(job, k, now);
        return;
      }
      var previous := job.state;
      if !IsRetryStage(schedule.nextStage) || previous != RetryPending {
        job.MarkRetryFailed(k, CodeOr(schedule.lastError, "INVALID_STATE_TRANSITION"));
        return DueFailed;
      }
      job.Advance(previous, RetryTarget(schedule.nextStage), None, Some(schedule.attempt), RetrySchedulerService,
                  RetryDue, now);
      job.MarkRetryAttempted(k);
      return DueAttempted;
    }

    /** A due schedule whose number is already above its limit. */
    method ExhaustDue(job: JobRecord, k: nat, now: Time) returns (verdict: DueVerdict)
      requires job.Valid()
      requires k < |job.schedules| && IsDue(job.schedules[k], now)
               && job.schedules[k].attempt > job.schedules[k].maxAttempts
      modifies job
      ensures job.Valid()
      ensures DueResult(job.Value(), verdict) == ReleaseRetry(old(job.Value()), k, now)
    {
      var schedule := job.schedules[k];
      var previous := job.state;
      if !TransitionAllowed(previous, Failed) {
        job.MarkRetryFailed(k, CodeOr(schedule.lastError, "RETRY_EXHAUSTED"));
        return DueFailed;
      }
      job.MarkRetryExhausted(k, schedule.lastError);
      job.Advance(previous, Failed, schedule.lastError, Some(schedule.attempt), RetrySchedulerService, RetryExhausted,
                  now);
      if SupportsJobFailed(schedule.failedStage) {
        job.EnqueueEvent(JobFailedEvent, schedule.attempt, now);
      }
      return DueExhausted;
    }
  }

  datatype RetryBatchResult = RetryBatchResult(scanned: nat, attempted: nat, exhausted: nat, skipped: nat, failed: nat)

  function BatchTotals(verdicts: seq<DueVerdict>): RetryBatchResult {
    RetryBatchResult(|verdicts|, CountOf(verdicts, DueAttempted), CountOf(verdicts, DueExhausted),
                     CountOf(verdicts, DueSkipped), CountOf(verdicts, DueFailed))
  }

  /** The counters after one more schedule. */
  function Counted(r: RetryBatchResult, verdict: DueVerdict): RetryBatchResult {
    var r := r.(scanned := r.scanned + 1);
    match verdict
    case DueAttempted => r.(attempted := r.attempted + 1)
    case DueExhausted => r.(exhausted := r.exhausted + 1)
    case DueFailed => r.(failed := r.failed + 1)
    case DueSkipped => r.(skipped := r.skipped + 1)
  }

  lemma TotalsGrow(verdicts: seq<DueVerdict>, verdict: DueVerdict)
    ensures BatchTotals(verdicts + [verdict]) == Counted(BatchTotals(verdicts), verdict)
  {
    assert (verdicts + [verdict])[..|verdicts|] == verdicts;
  }

  /** One schedule of a batch, looked up by its key; no other job is touched. */
  method ReleaseKey(scheduler: RetryScheduler, jobs: JobRepository, key: ScheduleKey, now: Time)
    returns (verdict: DueVerdict)
    requires jobs.Valid() && key.job in jobs.rows
    modifies jobs.rows.Values
    ensures jobs.Valid()
    ensures ReleasesOne(old(jobs.Value()), key, now, jobs.Value(), verdict)
  {
    var job := jobs.rows[key.job];
    ghost var before := jobs.Value();
    verdict := scheduler.ProcessDueRetry(job, key.position, now);
    assert jobs.Value() == before[key.job := job.Value()];
  }

  lemma PassGrows(pass: Pass, batch: seq<ScheduleKey>, clock: seq<Time>, i: nat, after: Jobs, verdict: DueVerdict)
    requires i < |batch| == |clock| && IsPass(pass, batch[..i], clock[..i])
    requires ReleasesOne(pass.states[i], batch[i], clock[i], after, verdict)
    ensures var grown := Pass(pass.states + [after], pass.verdicts + [verdict]);
            IsPass(grown, batch[..i + 1], clock[..i + 1]) && grown.verdicts[..i] == pass.verdicts
  {
    forall k | 0 <= k < i
      ensures ReleasesOne(pass.states[k], batch[k], clock[k], pass.states[k + 1], pass.verdicts[k])
    {
      assert batch[..i][k] == batch[k] && clock[..i][k] == clock[k];
    }
  }

  /**
   `process_due_retries` over the batch its query returned; `clock[i]` is the time when schedule `i` is reached.
   The ghost result records the pass.
   */
  method ProcessDueRetries(scheduler: RetryScheduler, jobs: JobRepository, batch: seq<ScheduleKey>, clock: seq<Time>)
    returns (result: RetryBatchResult, ghost pass: Pass)
    requires jobs.Valid() && |clock| == |batch| && forall i | 0 <= i < |batch| :: batch[i].job in jobs.rows
    modifies jobs.rows.Values
    ensures jobs.Valid()
    ensures IsPass(pass, batch, clock)
    ensures pass.states[0] == old(jobs.Value()) && pass.states[|batch|] == jobs.Value()
    ensures result == BatchTotals(pass.verdicts)
    ensures result.scanned == result.attempted + result.exhausted + result.skipped + result.failed
  {
    result := RetryBatchResult(0, 0, 0, 0, 0);
    pass := Pass([jobs.Value()], []);
    for i := 0 to |batch|
      invariant jobs.Valid()
      invariant IsPass(pass, batch[..i], clock[..i])
      invariant pass.states[0] == old(jobs.Value()) && pass.states[i] == jobs.Value()
      invariant result == BatchTotals(pass.verdicts)
    {
      var verdict := ReleaseKey(scheduler, jobs, batch[i], clock[i]);
      PassGrows(pass, batch, clock, i, jobs.Value(), verdict);
      TotalsGrow(pass.verdicts, verdict);
      pass := Pass(pass.states + [jobs.Value()], pass.verdicts + [verdict]);
      result := Counted(result, verdict);
    }
    assert batch[..|batch|] == batch && clock[..|clock|] == clock;
    CountsAddUp(pass.verdicts);
  }

  /** The rows a new schedule writes: the schedule, the job and its history, and the event. */
  method OpenSchedule(job: JobRecord, p: Policy, stage: Stage, attempt: int, lastError: Option<ErrorCode>,
                      dueAt: Time, backoff: real, reason: Reason, now: Time)
    requires job.Valid() && TransitionAllowed(job.state, RetryPending)
    modifies job
    ensures job.Valid()
    ensures job.Value() == AddSchedule(old(job.Value()), p, stage, attempt, lastError, dueAt, backoff, reason, now)
  {
    job.CreateSchedule(Schedule(stage, stage, attempt, p.maxAttempts, dueAt, backoff, Open, lastError));
    job.Advance(job.state, RetryPending, lastError, Some(attempt), RetrySchedulerService, reason, now);
    job.EnqueueEvent(RetryScheduledEvent, attempt, now);
  }
}
