/** How long the retries of a job wait: each delay on every run, and all of them together on a disciplined run. */
module RetryDelays {
  import opened Basics
  import opened JobModel
  import opened RetryPolicy
  import opened JobSteps
  import opened CallShapes
  import opened RetryDiscipline
  import opened Outcomes

  /** The delay after an attempt that failed: about its base delay, exactly that without jitter, and within the cap. */
  ghost predicate DelayFits(p: Policy, attempt: int, delay: real)
    requires p.Valid() && attempt >= 1
  {
    && p.BaseDelay(attempt) / 2.0 <= delay <= p.BaseDelay(attempt) * 1.5 && delay <= p.capSeconds as real
    && (!p.jitter ==> delay == p.BaseDelay(attempt))
  }

  /** A manual retry waits not at all; an automatic one for the delay that fits the attempt before it. */
  ghost predicate Paced(s: Schedule, p: Policy)
    requires p.Valid()
  {
    && s.attempt >= 2
    && (s.backoff == 0.0 || DelayFits(p, s.attempt - 1, s.backoff))
    && 0.0 <= s.backoff <= p.capSeconds as real
  }

  ghost predicate AllPaced(rows: seq<Schedule>, p: Policy)
    requires p.Valid()
  {
    forall i | 0 <= i < |rows| :: Paced(rows[i], p)
  }

  lemma OpeningPaced(j: Job, after: Job, row: Schedule, p: Policy)
    requires p.Valid() && AllPaced(j.schedules, p) && Opens(j, after, row) && Paced(row, p)
    ensures AllPaced(after.schedules, p)
  {
  }

  lemma PacedAfter(row: Schedule, p: Policy, attempt: int)
    requires p.Valid() && attempt >= 1 && row.attempt == attempt + 1
    requires DelayFits(p, attempt, row.backoff) && 0.0 <= row.backoff
    ensures Paced(row, p)
  {
  }

  lemma EnactPaced(j: Job, p: Policy, stage: Stage, code: ErrorCode, now: Time, sample: real)
    requires p.Valid() && AllPaced(j.schedules, p)
    ensures AllPaced(ScheduleRetry(j, p, stage, code, now, sample).job.schedules, p)
  {
    var d, delay := Decide(j, p, stage, code), DelayFor(j, p, stage, code, sample);
    EnactShape(j, p, d, stage, code, now, delay);
    if d.Retry? {
      var row := RetryRow(j, p, stage, code, now, delay);
      assert Paced(row, p) by {
        DelayIsBounded(p, j.attempt, sample);
        PacedAfter(row, p, j.attempt);
      }
      OpeningPaced(j, ScheduleRetry(j, p, stage, code, now, sample).job, row, p);
    }
  }

  lemma ManualPaced(j: Job, p: Policy, now: Time)
    requires p.Valid() && AllPaced(j.schedules, p)
    ensures AllPaced(ManualRetry(j, p, now).job.schedules, p)
  {
    ManualShape(j, p, now);
    if ManualRetry(j, p, now).verdict == ManualAccepted {
      var failed := InferFailedStage(j).value;
      var row := ManualRow(failed, CurrentAttempt(j.attempt, failed.attempt).value, p, now);
      OpeningPaced(j, ManualRetry(j, p, now).job, row, p);
    }
  }

  lemma ReleasePaced(j: Job, k: nat, now: Time, p: Policy)
    requires p.Valid() && AllPaced(j.schedules, p)
    ensures AllPaced(ReleaseRetry(j, k, now).job.schedules, p)
  {
    ReleaseShape(j, k, now);
    var after := ReleaseRetry(j, k, now).job;
    if after != j {
      forall i | 0 <= i < |after.schedules| ensures Paced(after.schedules[i], p) {
        assert Paced(j.schedules[i], p);
        SamePace(j.schedules[i], after.schedules[i], p);
      }
    }
  }

  lemma SamePace(a: Schedule, b: Schedule, p: Policy)
    requires p.Valid() && Paced(a, p) && b.attempt == a.attempt && b.backoff == a.backoff
    ensures Paced(b, p)
  {
  }

  lemma StepPaced(c: Config, j: Job, step: Step)
    requires c.policy.Valid() && AllPaced(j.schedules, c.policy)
    ensures AllPaced(Apply(c, j, step).schedules, c.policy)
  {
    match step
    case StepValidate(verdict, t0, t1, t2) => ValidateShape(j, verdict, t0, t1, t2);
    case StepProcess(input) => ProcessShape(j, c.workerMax, input);
    case StepDeliver(input) => DeliverShape(j, c.workerMax, input);
    case StepSchedule(stage, code, now, sample) => EnactPaced(j, c.policy, stage, code, now, sample);
    case StepRelease(schedule, now) => ReleasePaced(j, schedule, now, c.policy);
    case StepManual(now) => ManualPaced(j, c.policy, now);
  }

  lemma {:induction false} CallsPaced(c: Config, j: Job, steps: seq<Step>)
    requires c.policy.Valid() && AllPaced(j.schedules, c.policy)
    ensures AllPaced(Continue(c, j, steps).schedules, c.policy)
  {
    if steps != [] {
      var n := |steps| - 1;
      CallsPaced(c, j, steps[..n]);
      StepPaced(c, Continue(c, j, steps[..n]), steps[n]);
    }
  }

  /** On every run, whatever the samplers returned and however the calls interleave, every schedule is paced. */
  lemma EveryDelayIsPaced(c: Config, hasChecksum: bool, at: Time, steps: seq<Step>)
    requires c.policy.Valid()
    ensures AllPaced(Run(c, hasChecksum, at, steps).schedules, c.policy)
  {
    CallsPaced(c, Register(hasChecksum, at), steps);
  }

  function TotalBackoff(rows: seq<Schedule>): real {
    if rows == [] then 0.0 else TotalBackoff(rows[..|rows| - 1]) + rows[|rows| - 1].backoff
  }

  /** The cap once for each retry. */
  function Caps(retries: nat, p: Policy): real {
    retries as real * p.capSeconds as real
  }

  lemma CapOnceMore(retries: nat, p: Policy)
    ensures Caps(retries + 1, p) == Caps(retries, p) + p.capSeconds as real
  {
    assert (retries + 1) as real == retries as real + 1.0;
  }

  lemma CapsAreMonotone(low: nat, high: nat, p: Policy)
    requires p.Valid() && low <= high
    ensures Caps(low, p) <= Caps(high, p)
  {
    assert low as real <= high as real;
  }

  ghost predicate AllCapped(rows: seq<Schedule>, p: Policy) {
    forall i | 0 <= i < |rows| :: 0.0 <= rows[i].backoff <= p.capSeconds as real
  }

  lemma EveryDelayIsCapped(c: Config, hasChecksum: bool, at: Time, steps: seq<Step>)
    requires c.policy.Valid()
    ensures AllCapped(Run(c, hasChecksum, at, steps).schedules, c.policy)
  {
    EveryDelayIsPaced(c, hasChecksum, at, steps);
    var rows := Run(c, hasChecksum, at, steps).schedules;
    forall i | 0 <= i < |rows| ensures 0.0 <= rows[i].backoff <= c.policy.capSeconds as real {
      assert Paced(rows[i], c.policy);
    }
  }

  lemma {:induction false} TotalIsBounded(rows: seq<Schedule>, p: Policy)
    requires p.Valid() && AllCapped(rows, p)
    ensures 0.0 <= TotalBackoff(rows) <= Caps(|rows|, p)
  {
    if rows != [] {
      var n := |rows| - 1;
      TotalIsBounded(rows[..n], p);
      CapOnceMore(n, p);
    }
  }

  lemma SchedulesAreFew(c: Config, hasChecksum: bool, at: Time, steps: seq<Step>)
    requires DisciplinedRun(c, hasChecksum, at, steps)
    ensures |Run(c, hasChecksum, at, steps).schedules| <= AttemptLimit(c.policy.maxAttempts) - 1
  {
    RetriesAreSequential(c, hasChecksum, at, steps);
  }

  lemma FewRowsWaitLittle(rows: seq<Schedule>, most: nat, p: Policy)
    requires p.Valid() && AllCapped(rows, p) && |rows| <= most
    ensures 0.0 <= TotalBackoff(rows) <= Caps(most, p)
  {
    TotalIsBounded(rows, p);
    CapsAreMonotone(|rows|, most, p);
  }

  /**
   On every disciplined run all delays of a job together are at most the cap, once for each retry the limit leaves.
   */
  lemma TotalDelayIsBounded(c: Config, hasChecksum: bool, at: Time, steps: seq<Step>)
    requires c.policy.Valid() && DisciplinedRun(c, hasChecksum, at, steps)
    ensures 0.0 <= TotalBackoff(Run(c, hasChecksum, at, steps).schedules)
            <= Caps(AttemptLimit(c.policy.maxAttempts) - 1, c.policy)
  {
    var j := Run(c, hasChecksum, at, steps);
    var most := AttemptLimit(c.policy.maxAttempts) - 1;
    assert AllCapped(j.schedules, c.policy) && |j.schedules| <= most by {
      EveryDelayIsCapped(c, hasChecksum, at, steps);
      SchedulesAreFew(c, hasChecksum, at, steps);
    }
    FewRowsWaitLittle(j.schedules, most, c.policy);
  }

  // ---------- No retry before its time ----------

  /** `after` still has the schedules of `before`, at most with another status and error. */
  ghost predicate KeepsSchedules(before: seq<Schedule>, after: seq<Schedule>) {
    && |before| <= |after|
    && forall i | 0 <= i < |before| ::
         after[i] == before[i].(status := after[i].status, lastError := after[i].lastError)
  }

  lemma StepKeepsSchedules(c: Config, j: Job, step: Step)
    ensures KeepsSchedules(j.schedules, Apply(c, j, step).schedules)
  {
    match step
    case StepValidate(verdict, t0, t1, t2) => ValidateShape(j, verdict, t0, t1, t2);
    case StepProcess(input) => ProcessShape(j, c.workerMax, input);
    case StepDeliver(input) => DeliverShape(j, c.workerMax, input);
    case StepSchedule(stage, code, now, sample) =>
      EnactShape(j, c.policy, Decide(j, c.policy, stage, code), stage, code, now,
        DelayFor(j, c.policy, stage, code, sample));
    case StepRelease(schedule, now) => ReleaseShape(j, schedule, now);
    case StepManual(now) => ManualShape(j, c.policy, now);
  }

  lemma {:induction false} CallsKeepSchedules(c: Config, j: Job, steps: seq<Step>)
    ensures KeepsSchedules(j.schedules, Continue(c, j, steps).schedules)
  {
    if steps != [] {
      var n := |steps| - 1;
      CallsKeepSchedules(c, j, steps[..n]);
      StepKeepsSchedules(c, Continue(c, j, steps[..n]), steps[n]);
    }
  }

  /**
   A failure that was scheduled for a retry, and any calls after that: releasing its schedule does nothing until the
   delay that fits the failed attempt has passed since the report.
   */
  lemma NoRetryBeforeItsTime(c: Config, j: Job, stage: Stage, code: ErrorCode, reportedAt: Time, sample: real,
                             steps: seq<Step>, now: Time)
    requires c.policy.Valid()
    requires ScheduleRetry(j, c.policy, stage, code, reportedAt, sample).verdict == VerdictScheduled
    ensures var k, later := |j.schedules|,
                            Continue(c, ScheduleRetry(j, c.policy, stage, code, reportedAt, sample).job, steps);
            && k < |later.schedules| && j.attempt >= 1
            && DelayFits(c.policy, j.attempt, later.schedules[k].dueAt - reportedAt)
            && (now < later.schedules[k].dueAt ==> ReleaseRetry(later, k, now) == DueResult(later, DueSkipped))
  {
    var waiting := ScheduleRetry(j, c.policy, stage, code, reportedAt, sample).job;
    assert j.attempt >= 1 && |waiting.schedules| == |j.schedules| + 1
           && waiting.schedules[|j.schedules|].dueAt == reportedAt + c.policy.NextDelay(j.attempt, sample) by {
      SchedulingIsDecided(j, c.policy, stage, code, reportedAt, sample);
    }
    DelayIsBounded(c.policy, j.attempt, sample);
    CallsKeepSchedules(c, waiting, steps);
    ReleaseIsDecided(Continue(c, waiting, steps), |j.schedules|, now);
  }
}
