/** The bound of RetryBound is exact: for every limit some run creates that many schedules. */
module RetryBoundReached {
  import opened Basics
  import opened JobModel
  import opened RetryPolicy
  import opened JobSteps
  import opened CallShapes
  import opened RetryBound

  /** Calls that lead from `a` to `b`: any calls on any job that come to `a`, and then these, come to `b`. */
  ghost predicate Leads(c: Config, a: Job, steps: seq<Step>, b: Job) {
    forall j, first :: Continue(c, j, first) == a ==> Continue(c, j, first + steps) == b
  }

  lemma LeadsOne(c: Config, j: Job, step: Step)
    ensures Leads(c, j, [step], Apply(c, j, step))
  {
    forall from, first | Continue(c, from, first) == j ensures Continue(c, from, first + [step]) == Apply(c, j, step) {
      ContinueMore(c, from, first, step);
    }
  }

  /** One run of calls after another. */
  lemma LeadsTwo(c: Config, a: Job, b: Job, d: Job, s0: seq<Step>, s1: seq<Step>)
    requires Leads(c, a, s0, b) && Leads(c, b, s1, d)
    ensures Leads(c, a, s0 + s1, d)
  {
    forall j, first | Continue(c, j, first) == a ensures Continue(c, j, first + (s0 + s1)) == d {
      assert Continue(c, j, first + s0) == b;
      assert first + s0 + s1 == first + (s0 + s1);
    }
  }

  lemma LeadsThree(c: Config, j: Job, a: Job, b: Job, d: Job, s0: seq<Step>, s1: seq<Step>, s2: seq<Step>)
    requires Leads(c, j, s0, a) && Leads(c, a, s1, b) && Leads(c, b, s2, d)
    ensures Leads(c, j, s0 + s1 + s2, d)
  {
    LeadsTwo(c, j, a, b, s0, s1);
    LeadsTwo(c, j, b, d, s0 + s1, s2);
  }

  lemma LeadsFrom(c: Config, j: Job, steps: seq<Step>, b: Job)
    requires Leads(c, j, steps, b)
    ensures Continue(c, j, steps) == b
  {
    assert Continue(c, j, []) == j && [] + steps == steps;
  }

  predicate IsWorkerStage(stage: Stage) {
    stage == ProcessingStage || stage == DeliveryStage
  }

  /** A retryable failure reported while a retry is allowed opens one schedule behind the existing ones. */
  lemma ScheduleOpens(c: Config, j: Job, stage: Stage) returns (steps: seq<Step>, after: Job)
    requires 1 <= j.attempt < c.policy.maxAttempts && TransitionAllowed(j.state, RetryPending) && IsWorkerStage(stage)
    ensures Leads(c, j, steps, after)
    ensures after.state == RetryPending && after.attempt == j.attempt + 1
    ensures |after.schedules| == |j.schedules| + 1 && after.schedules[..|j.schedules|] == j.schedules
    ensures Releasable(after, |j.schedules|, j.attempt + 1, stage)
    ensures SameWork(after, j)
  {
    var fail := StepSchedule(
      stage, if stage == ProcessingStage then ProcessorTimeout else DestinationUnavailable, 0.0, 0.0);
    LeadsOne(c, j, fail);
    steps, after := [fail], Apply(c, j, fail);
  }

  ghost predicate Releasable(j: Job, k: nat, attempt: int, stage: Stage) {
    && k < |j.schedules|
    && var s := j.schedules[k];
       s.status == Open && s.attempt == attempt <= s.maxAttempts && s.nextStage == stage
  }

  lemma ReleaseRewinds(c: Config, j: Job, k: nat, attempt: int, stage: Stage) returns (steps: seq<Step>, after: Job)
    requires j.state == RetryPending && Releasable(j, k, attempt, stage) && IsWorkerStage(stage)
    ensures Leads(c, j, steps, after)
    ensures after.state == RetryTarget(stage) && after.attempt == attempt
    ensures |after.schedules| == |j.schedules| && after.schedules[..k] == j.schedules[..k]
    ensures SameWork(after, j)
  {
    var release := StepRelease(k, j.schedules[k].dueAt);
    LeadsOne(c, j, release);
    steps, after := [release], Apply(c, j, release);
  }

  lemma PrefixOfPrefix<T>(a: seq<T>, b: seq<T>, k: nat)
    requires k < |b| <= |a| && a[..|b|] == b
    ensures a[k] == b[k] && a[..k] == b[..k]
  {
    assert a[k] == a[..|b|][k];
    assert a[..k] == a[..|b|][..k];
  }

  lemma PrefixTransitive<T>(a: seq<T>, b: seq<T>, k: nat)
    requires k <= |b| <= |a| && a[..|b|] == b
    ensures a[..k] == b[..k]
  {
    assert a[..k] == a[..|b|][..k];
  }

  /** The schedule just opened is spent below and then released, which sets the job back to its number. */
  lemma {:induction false} SpendBelow(c: Config, failed: Job, k: nat) returns (steps: seq<Step>, rewound: Job)
    requires 1 <= failed.attempt < c.policy.maxAttempts && failed.state == RetryPending
    requires |failed.schedules| == k + 1 && Releasable(failed, k, failed.attempt, ProcessingStage)
    ensures Leads(c, failed, steps, rewound)
    ensures rewound.state == Processing && rewound.attempt == failed.attempt
    ensures |rewound.schedules| == k + 1 + Tokens(failed.attempt, c.policy.maxAttempts)
    ensures rewound.schedules[..k] == failed.schedules[..k]
    decreases c.policy.maxAttempts - failed.attempt, 2
  {
    var below, spent := SpendAll(c, failed);
    PrefixOfPrefix(spent.schedules, failed.schedules, k);
    var release, r := ReleaseRewinds(c, spent, k, failed.attempt, ProcessingStage);
    LeadsTwo(c, failed, spent, r, below, release);
    steps, rewound := below + release, r;
  }

  /** Spend below the schedule just opened, release it, and spend again. */
  lemma {:induction false} SpendTwice(c: Config, failed: Job, k: nat) returns (steps: seq<Step>, after: Job)
    requires 1 <= failed.attempt < c.policy.maxAttempts && failed.state == RetryPending
    requires |failed.schedules| == k + 1 && Releasable(failed, k, failed.attempt, ProcessingStage)
    ensures Leads(c, failed, steps, after) && after.state == RetryPending
    ensures |after.schedules| == k + 1 + 2 * Tokens(failed.attempt, c.policy.maxAttempts)
    ensures after.schedules[..k] == failed.schedules[..k]
    decreases c.policy.maxAttempts - failed.attempt, 3
  {
    var below, rewound := SpendBelow(c, failed, k);
    var again, last := SpendAll(c, rewound);
    PrefixTransitive(last.schedules, rewound.schedules, k);
    LeadsTwo(c, failed, rewound, last, below, again);
    steps, after := below + again, last;
  }

  /** From attempt a, spend every token: open a schedule, spend below it, release it, and spend again. */
  lemma {:induction false} SpendAll(c: Config, j: Job) returns (steps: seq<Step>, after: Job)
    requires 1 <= j.attempt < c.policy.maxAttempts && TransitionAllowed(j.state, RetryPending)
    ensures Leads(c, j, steps, after)
    ensures after.state == RetryPending
    ensures |after.schedules| == |j.schedules| + Tokens(j.attempt, c.policy.maxAttempts)
    ensures after.schedules[..|j.schedules|] == j.schedules
    decreases c.policy.maxAttempts - j.attempt, 1
  {
    var first, failed := ScheduleOpens(c, j, ProcessingStage);
    TokensOnce(j.attempt, c.policy.maxAttempts);
    if failed.attempt == c.policy.maxAttempts {
      steps, after := first, failed;
    } else {
      var rest;
      rest, after := SpendTwice(c, failed, |j.schedules|);
      LeadsTwo(c, j, failed, after, first, rest);
      steps := first + rest;
    }
  }

  lemma TokensOnce(attempt: int, max: int)
    requires attempt < max
    ensures Tokens(attempt, max) == 1 + 2 * Tokens(attempt + 1, max)
    ensures attempt + 1 == max ==> Tokens(attempt, max) == 1
  {
  }

  const FIRST_WORK := ProcessInput(true, AdapterFailed(ProcessingInputInvalid, false), 0.0, 0.0)

  lemma FirstWorkFails(c: Config, j: Job)
    requires j.state == Validated && j.attempt == 1 && ValidationConfirmed(j) && j.processing == [] && j.schedules == []
    ensures var failed := Apply(c, j, StepProcess(FIRST_WORK));
            failed.state == Failed && failed.attempt == 1 && failed.schedules == []
  {
  }

  /** Calls that end in FAILED at attempt 1, with no schedule yet. */
  lemma FirstFailure(c: Config, hasChecksum: bool, at: Time) returns (steps: seq<Step>, failed: Job)
    ensures Leads(c, Register(hasChecksum, at), steps, failed)
    ensures failed.state == Failed && failed.attempt == 1 && failed.schedules == []
  {
    var validate, process := StepValidate(Valid, at, at, at), StepProcess(FIRST_WORK);
    var registered := Register(hasChecksum, at);
    var validated := Apply(c, registered, validate);
    FirstWorkFails(c, validated);
    steps, failed := [validate] + [process], Apply(c, validated, process);
    LeadsOne(c, registered, validate);
    LeadsOne(c, validated, process);
    LeadsTwo(c, registered, validated, failed, [validate], [process]);
  }

  /** For every max_attempts and any job file there is a run with exactly the bounded number of schedules. */
  lemma BoundIsReached(c: Config, hasChecksum: bool, at: Time) returns (steps: seq<Step>)
    ensures |Run(c, hasChecksum, at, steps).schedules| == MostSchedules(c.policy.maxAttempts)
  {
    var first, failed := FirstFailure(c, hasChecksum, at);
    var after := failed;
    MostSchedulesAreTokens(c.policy.maxAttempts);
    steps := first;
    if c.policy.maxAttempts > 1 {
      var rest, last := SpendAll(c, failed);
      LeadsTwo(c, Register(hasChecksum, at), failed, last, first, rest);
      steps, after := first + rest, last;
    }
    LeadsFrom(c, Register(hasChecksum, at), steps, after);
  }
}
