/**
 Retries are bounded on every run, even though several schedules of a job can be open at once and
 releasing one of them may set the job's attempt number back.

 A job at attempt a can still create Tokens(a) schedules: creating one replaces the job's token at a by two
 tokens at a + 1, its own and the schedule's; releasing a schedule throws the job's token away and
 puts the schedule's in its place.
 */
module RetryBound {
  import opened Basics
  import opened JobModel
  import opened RetryPolicy
  import opened JobSteps
  import opened CallShapes

  function Tokens(attempt: int, max: int): nat
    decreases max - attempt
  {
    if attempt >= max then 0 else 1 + 2 * Tokens(attempt + 1, max)
  }

  function OpenTokens(rows: seq<Schedule>, max: int): nat {
    if rows == [] then 0
    else
      var row := rows[|rows| - 1];
      OpenTokens(rows[..|rows| - 1], max) + if row.status == Open then Tokens(row.attempt, max) else 0
  }

  function OpenCount(rows: seq<Schedule>): nat {
    if rows == [] then 0
    else OpenCount(rows[..|rows| - 1]) + if rows[|rows| - 1].status == Open then 1 else 0
  }

  /** How many schedules the job can still create. */
  function Budget(j: Job, max: int): nat {
    Tokens(ResolveAttempt(j.attempt), max) + OpenTokens(j.schedules, max)
  }

  function Rank(s: JobState): nat {
    match s
    case Detected => 10
    case Stabilizing => 9
    case Registered => 8
    case Validating => 7
    case Validated => 6
    case Processing => 5
    case Processed => 4
    case Delivering => 3
    case RetryPending => 2
    case Failed => 1
    case Invalid => 1
    case Delivered => 1
    case Quarantined => 0
    case Completed => 0
    case CompletedWithDeliveryErrors => 0
  }

  /** Retries first, then the stage: one number for the lexicographic measure. */
  function Measure(j: Job, max: int): nat {
    11 * (2 * Budget(j, max) + OpenCount(j.schedules)) + Rank(j.state)
  }

  lemma {:induction false} TokensShrink(low: int, high: int, max: int)
    requires low <= high
    ensures Tokens(high, max) <= Tokens(low, max)
    decreases high - low
  {
    if low < high {
      TokensShrink(low + 1, high, max);
    }
  }

  /** Closing an open schedule takes its tokens, and one open schedule, away; nothing else changes. */
  lemma {:induction false} ClosingFreesTokens(rows: seq<Schedule>, k: nat, closed: Schedule, max: int)
    requires k < |rows| && rows[k].status == Open && closed.status != Open
    ensures OpenTokens(rows[k := closed], max) + Tokens(rows[k].attempt, max) == OpenTokens(rows, max)
    ensures OpenCount(rows[k := closed]) + 1 == OpenCount(rows)
  {
    var n := |rows| - 1;
    if k < n {
      ClosingFreesTokens(rows[..n], k, closed, max);
      assert rows[k := closed][..n] == rows[..n][k := closed];
    } else {
      assert rows[k := closed][..n] == rows[..n];
    }
  }

  lemma OpeningAddsTokens(rows: seq<Schedule>, row: Schedule, max: int)
    requires row.status == Open
    ensures OpenTokens(rows + [row], max) == OpenTokens(rows, max) + Tokens(row.attempt, max)
    ensures OpenCount(rows + [row]) == OpenCount(rows) + 1
  {
    assert (rows + [row])[..|rows|] == rows;
  }

  ghost predicate Untouched(a: Job, b: Job) {
    a.state == b.state && a.attempt == b.attempt && a.schedules == b.schedules
  }

  /** Schedules created plus schedules that can still be created never grows, and any change costs measure. */
  ghost predicate Spends(before: Job, after: Job, max: int) {
    && |after.schedules| + Budget(after, max) <= |before.schedules| + Budget(before, max)
    && (!Untouched(before, after) ==> Measure(after, max) < Measure(before, max))
  }

  /** A new schedule above an attempt that is at least the job's spends one token. */
  lemma OpeningSpends(before: Job, after: Job, row: Schedule, max: int)
    requires Opens(before, after, row) && ResolveAttempt(before.attempt) < row.attempt <= max
    ensures Spends(before, after, max)
  {
    OpeningAddsTokens(before.schedules, row, max);
    TokensShrink(ResolveAttempt(before.attempt), row.attempt - 1, max);
  }

  /** A call that leaves schedules and attempt level alone may only lower the job's rank. */
  lemma StageMoveSpends(before: Job, after: Job, max: int)
    requires after.schedules == before.schedules
    requires ResolveAttempt(after.attempt) == ResolveAttempt(before.attempt)
    requires (after.state == before.state && after.attempt == before.attempt) || Rank(after.state) < Rank(before.state)
    ensures Spends(before, after, max)
  {
  }

  lemma FailureFalls(from: JobState, to: JobState)
    requires TransitionAllowed(from, to) && (to == Failed || to == Quarantined)
    ensures to == from || Rank(to) < Rank(from)
  {
  }

  lemma EnactSpends(j: Job, p: Policy, d: Decision, stage: Stage, code: ErrorCode, now: Time, delay: real)
    requires d.Fits(j, p, stage)
    ensures Spends(j, Enact(j, p, d, stage, code, now, delay).job, p.maxAttempts)
  {
    var after := Enact(j, p, d, stage, code, now, delay).job;
    EnactShape(j, p, d, stage, code, now, delay);
    match d {
      case Skip =>
      case Retry => OpeningSpends(j, after, RetryRow(j, p, stage, code, now, delay), p.maxAttempts);
      case _ =>
        FailureFalls(j.state, after.state);
        StageMoveSpends(j, after, p.maxAttempts);
    }
  }

  /** Closing a schedule pays for whatever the job is given back: at most the schedule's own tokens. */
  lemma ClosingSpends(j: Job, k: nat, after: Job, max: int)
    requires Closes(j, k, after)
    ensures Spends(j, after, max)
  {
    var s := j.schedules[k];
    ClosingFreesTokens(j.schedules, k, after.schedules[k], max);
    TokensShrink(s.attempt, ResolveAttempt(s.attempt), max);
  }

  lemma ManualSpends(j: Job, p: Policy, now: Time)
    ensures Spends(j, ManualRetry(j, p, now).job, p.maxAttempts)
  {
    ManualShape(j, p, now);
    if ManualRetry(j, p, now).verdict == ManualAccepted {
      var failed := InferFailedStage(j).value;
      var row := ManualRow(failed, CurrentAttempt(j.attempt, failed.attempt).value, p, now);
      OpeningSpends(j, ManualRetry(j, p, now).job, row, p.maxAttempts);
    }
  }

  /** Validation is the first service to set an attempt number. */
  ghost predicate FreshUntilValidated(j: Job) {
    j.state == Registered ==> j.attempt == 0
  }

  lemma WorkSpends(j: Job, after: Job, workerMax: int, max: int)
    requires FreshUntilValidated(j)
    requires Validates(j, after) || Processes(j, after, workerMax) || Delivers(j, after, workerMax)
    ensures Spends(j, after, max)
  {
    StageMoveSpends(j, after, max);
  }

  /**
   Every call on every job: the measure falls strictly when the call changes the job's state, attempt number
   or schedules; a call that re-fails a FAILED job or re-quarantines a QUARANTINED one changes none of them.
   */
  lemma StepSpends(c: Config, j: Job, step: Step)
    requires FreshUntilValidated(j)
    ensures Spends(j, Apply(c, j, step), c.policy.maxAttempts)
  {
    var after, max := Apply(c, j, step), c.policy.maxAttempts;
    match step
    case StepValidate(verdict, t0, t1, t2) =>
      ValidateShape(j, verdict, t0, t1, t2);
      if after != j {
        WorkSpends(j, after, c.workerMax, max);
      }
    case StepProcess(input) =>
      ProcessShape(j, c.workerMax, input);
      if after != j {
        WorkSpends(j, after, c.workerMax, max);
      }
    case StepDeliver(input) =>
      DeliverShape(j, c.workerMax, input);
      if after != j {
        WorkSpends(j, after, c.workerMax, max);
      }
    case StepSchedule(stage, code, now, sample) =>
      EnactSpends(j, c.policy, Decide(j, c.policy, stage, code), stage, code, now,
        DelayFor(j, c.policy, stage, code, sample));
    case StepRelease(schedule, now) =>
      ReleaseShape(j, schedule, now);
      if after != j {
        ClosingSpends(j, schedule, after, max);
      }
    case StepManual(now) => ManualSpends(j, c.policy, now);
  }

  lemma StepStaysFresh(c: Config, j: Job, step: Step)
    requires FreshUntilValidated(j)
    ensures FreshUntilValidated(Apply(c, j, step))
  {
    match step
    case StepValidate(verdict, t0, t1, t2) => ValidateShape(j, verdict, t0, t1, t2);
    case StepProcess(input) => ProcessShape(j, c.workerMax, input);
    case StepDeliver(input) => DeliverShape(j, c.workerMax, input);
    case StepSchedule(stage, code, now, sample) =>
      EnactShape(j, c.policy, Decide(j, c.policy, stage, code), stage, code, now,
        DelayFor(j, c.policy, stage, code, sample));
    case StepRelease(schedule, now) => ReleaseShape(j, schedule, now);
    case StepManual(now) => ManualShape(j, c.policy, now);
  }

  /** How many of the calls changed the job's state, attempt number or schedules. */
  ghost function EffectiveCalls(c: Config, j: Job, steps: seq<Step>): nat {
    if steps == [] then 0
    else
      var n := |steps| - 1;
      var before := Continue(c, j, steps[..n]);
      EffectiveCalls(c, j, steps[..n]) + if Untouched(before, Apply(c, before, steps[n])) then 0 else 1
  }

  lemma {:induction false} CallsSpend(c: Config, j: Job, steps: seq<Step>)
    requires FreshUntilValidated(j)
    ensures var after, max := Continue(c, j, steps), c.policy.maxAttempts;
            && FreshUntilValidated(after)
            && |after.schedules| + Budget(after, max) <= |j.schedules| + Budget(j, max)
            && EffectiveCalls(c, j, steps) + Measure(after, max) <= Measure(j, max)
  {
    if steps != [] {
      var n := |steps| - 1;
      var before := Continue(c, j, steps[..n]);
      CallsSpend(c, j, steps[..n]);
      StepSpends(c, before, steps[n]);
      StepStaysFresh(c, before, steps[n]);
    }
  }

  function Pow2(n: nat): nat {
    if n == 0 then 1 else 2 * Pow2(n - 1)
  }

  lemma {:induction false} TokensClosedForm(attempt: int, max: int)
    ensures attempt <= max ==> Tokens(attempt, max) + 1 == Pow2(max - attempt)
    ensures attempt > max ==> Tokens(attempt, max) == 0
    decreases max - attempt
  {
    if attempt < max {
      TokensClosedForm(attempt + 1, max);
    }
  }

  function MostSchedules(max: int): int {
    Pow2(if max <= 1 then 0 else max - 1) - 1
  }

  lemma MostSchedulesAreTokens(max: int)
    ensures Tokens(1, max) == MostSchedules(max)
  {
    TokensClosedForm(1, max);
  }

  lemma TokensFromRegistration(hasChecksum: bool, at: Time, max: int)
    ensures var j := Register(hasChecksum, at);
            FreshUntilValidated(j) && j.schedules == [] && Budget(j, max) == MostSchedules(max)
            && Measure(j, max) == 22 * MostSchedules(max) + Rank(Registered)
  {
    MostSchedulesAreTokens(max);
  }

  /** However the calls interleave, a job gets at most 2^(max(max_attempts, 1) - 1) - 1 retry schedules. */
  lemma RetryIsBounded(c: Config, hasChecksum: bool, at: Time, steps: seq<Step>)
    ensures |Run(c, hasChecksum, at, steps).schedules| <= MostSchedules(c.policy.maxAttempts)
  {
    var j := Register(hasChecksum, at);
    TokensFromRegistration(hasChecksum, at, c.policy.maxAttempts);
    CallsSpend(c, j, steps);
  }

  /** Every run settles: no more than this many of its calls change the job's state, attempt number or schedules. */
  lemma RunsSettle(c: Config, hasChecksum: bool, at: Time, steps: seq<Step>)
    ensures EffectiveCalls(c, Register(hasChecksum, at), steps)
            <= 22 * MostSchedules(c.policy.maxAttempts) + Rank(Registered)
  {
    var j := Register(hasChecksum, at);
    TokensFromRegistration(hasChecksum, at, c.policy.maxAttempts);
    CallsSpend(c, j, steps);
  }
}
