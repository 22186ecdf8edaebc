/** The validator's verdict is final: on every run it decides whether the job is ever worked on. */
module Verdicts {
  import opened Basics
  import opened JobModel
  import opened JobSteps
  import opened CallShapes
  import opened Outcomes

  /** A registered job waits for its validation: nothing else that is called changes it. */
  lemma RegisteredWaits(c: Config, hasChecksum: bool, at: Time, step: Step)
    requires !step.StepValidate?
    ensures Apply(c, Register(hasChecksum, at), step) == Register(hasChecksum, at)
  {
    var j := Register(hasChecksum, at);
    match step
    case StepProcess(input) => ProcessingIsDecided(j, c.workerMax, input);
    case StepDeliver(input) => DeliverShape(j, c.workerMax, input);
    case StepSchedule(stage, code, now, sample) => SchedulingIsDecided(j, c.policy, stage, code, now, sample);
    case StepRelease(schedule, now) => ReleaseIsDecided(j, schedule, now);
    case StepManual(now) => ManualRetryIsDecided(j, c.policy, now);
  }

  ghost predicate NoValidation(steps: seq<Step>) {
    forall i | 0 <= i < |steps| :: !steps[i].StepValidate?
  }

  lemma {:induction false} RegisteredKeepsWaiting(c: Config, hasChecksum: bool, at: Time, steps: seq<Step>)
    requires NoValidation(steps)
    ensures Run(c, hasChecksum, at, steps) == Register(hasChecksum, at)
  {
    if steps != [] {
      var n := |steps| - 1;
      RegisteredKeepsWaiting(c, hasChecksum, at, steps[..n]);
      RegisteredWaits(c, hasChecksum, at, steps[n]);
    }
  }

  /** Once validated, a job keeps its validation attempts, and one that is quarantined all its work. */
  lemma StepKeepsVerdict(c: Config, j: Job, step: Step)
    requires j.state != Registered
    ensures var after := Apply(c, j, step);
            && after.state != Registered && after.validations == j.validations
            && (j.state == Quarantined ==> after.state == Quarantined && SameWork(j, after))
  {
    match step
    case StepValidate(verdict, t0, t1, t2) => ValidateShape(j, verdict, t0, t1, t2);
    case StepProcess(input) => ProcessShape(j, c.workerMax, input);
    case StepDeliver(input) => DeliverShape(j, c.workerMax, input);
    case StepSchedule(stage, code, now, sample) =>
      EnactShape(j, c.policy, Decide(j, c.policy, stage, code), stage, code, now,
        DelayFor(j, c.policy, stage, code, sample));
    case StepRelease(schedule, now) => ReleaseShape(j, schedule, now);
    case StepManual(now) => ManualShape(j, c.policy, now);
  }

  lemma {:induction false} CallsKeepVerdict(c: Config, j: Job, steps: seq<Step>)
    requires j.state != Registered
    ensures var after := Continue(c, j, steps);
            && after.state != Registered && after.validations == j.validations
            && (j.state == Quarantined ==> after.state == Quarantined && SameWork(j, after))
  {
    if steps != [] {
      var n := |steps| - 1;
      CallsKeepVerdict(c, j, steps[..n]);
      StepKeepsVerdict(c, Continue(c, j, steps[..n]), steps[n]);
    }
  }

  /**
   Whatever is called before the validator, and whatever after it: the job has the one validation attempt with the
   verdict it was given; and if it was rejected then it is quarantined, and nobody ever processes or delivers it.
   */
  lemma VerdictIsFinal(c: Config, hasChecksum: bool, at: Time, before: seq<Step>, verdict: ValidationVerdict,
                       t0: Time, t1: Time, t2: Time, after: seq<Step>)
    requires NoValidation(before)
    ensures var validated := Apply(c, Run(c, hasChecksum, at, before), StepValidate(verdict, t0, t1, t2));
            var j := Continue(c, validated, after);
            && j.validations == [ValidationAttempt(1, verdict.Valid?)]
            && (verdict.Rejected? ==>
                  j.state == Quarantined && j.processing == [] && j.delivery == [] && j.manifests == [])
  {
    var registered := Run(c, hasChecksum, at, before);
    var validated := Apply(c, registered, StepValidate(verdict, t0, t1, t2));
    RegisteredKeepsWaiting(c, hasChecksum, at, before);
    RegistrationIsDecided(hasChecksum, at);
    ValidationIsDecided(registered, verdict, t0, t1, t2);
    CallsKeepVerdict(c, validated, after);
  }
}
