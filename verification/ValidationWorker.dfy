/** The validator: one registered job at a time, and the reconciliation pass over all of them. */
module ValidationWorker {
  import opened Basics
  import opened JobModel
  import opened JobSteps
  import opened JobStore
  import opened Batches

  datatype ValidationStatus = JobValidated | JobQuarantined | SkippedNonRegistered | SkippedExistingAttempt

  /** What the file checks will say about one job, and the clock readings of the call. */
  datatype Check = Check(verdict: ValidationVerdict, startedAt: Time, completedAt: Time, quarantinedAt: Time)
  {
    function AppliedTo(j: Job): Job {
      Validate(j, verdict, startedAt, completedAt, quarantinedAt)
    }
  }

  function StatusFor(j: Job, verdict: ValidationVerdict): ValidationStatus {
    if j.state != Registered then SkippedNonRegistered
    else if j.validations != [] then SkippedExistingAttempt
    else if verdict.Valid? then JobValidated else JobQuarantined
  }

  /** `validate_registered_job`, for a job that was found. */
  method ValidateRegisteredJob(job: JobRecord, check: Check) returns (status: ValidationStatus)
    requires job.Valid()
    modifies job
    ensures job.Valid()
    ensures job.Value() == check.AppliedTo(old(job.Value()))
    ensures status == StatusFor(old(job.Value()), check.verdict)
  {
    if job.state != Registered {
      return SkippedNonRegistered;
    }
    if job.validations != [] {
      return SkippedExistingAttempt;
    }
    job.Advance(Registered, Validating, None, Some(1), ValidatorService, ValidationStarted, check.startedAt);
    job.CreateValidationAttempt(1, check.verdict.Valid?);
    match check.verdict {
      case Valid =>
        PassJob(job, check.completedAt);
        status := JobValidated;
      case Rejected(code) =>
        QuarantineJob(job, code, check.completedAt, check.quarantinedAt);
        status := JobQuarantined;
    }
  }

  method PassJob(job: JobRecord, at: Time)
    requires job.Valid() && job.state == Validating
    modifies job
    ensures job.Valid()
    ensures job.Value() ==
            var passed := Move(old(job.Value()), Validated, None, Some(1), ValidatorService, ValidationPassed, at);
            Emit(passed, FileValidatedEvent, 1, at)
  {
    job.Advance(Validating, Validated, None, Some(1), ValidatorService, ValidationPassed, at);
    job.EnqueueEvent(FileValidatedEvent, 1, at);
  }

  method QuarantineJob(job: JobRecord, code: ErrorCode, completedAt: Time, quarantinedAt: Time)
    requires job.Valid() && job.state == Validating
    modifies job
    ensures job.Valid()
    ensures job.Value() ==
            var rejected := Move(old(job.Value()), Invalid, Some(code), Some(1), ValidatorService, Code(code),
                                 completedAt);
            Emit(Move(rejected, Quarantined, Some(code), Some(1), ValidatorService, Code(code), quarantinedAt),
                 FileQuarantinedEvent, 1, quarantinedAt)
  {
    job.Advance(Validating, Invalid, Some(code), Some(1), ValidatorService, Code(code), completedAt);
    job.Advance(Invalid, Quarantined, Some(code), Some(1), ValidatorService, Code(code), quarantinedAt);
    job.EnqueueEvent(FileQuarantinedEvent, 1, quarantinedAt);
  }

  /** `validate_registered_job` by id, among all jobs. */
  method ValidateById(jobs: JobRepository, id: JobId, check: Check) returns (status: ValidationStatus)
    requires jobs.Valid() && id in jobs.rows
    modifies jobs.rows.Values
    ensures jobs.Valid()
    ensures jobs.Value() == old(jobs.Value())[id := check.AppliedTo(old(jobs.Value())[id])]
    ensures status == StatusFor(old(jobs.Value())[id], check.verdict)
  {
    ghost var before := jobs.Value();
    status := ValidateRegisteredJob(jobs.rows[id], check);
    assert jobs.Value() == before[id := jobs.rows[id].Value()];
  }

  ghost function Checked(jobs: map<JobId, Job>, batch: seq<JobId>, checks: seq<Check>): seq<Job>
    requires |checks| == |batch| && forall i | 0 <= i < |batch| :: batch[i] in jobs
  {
    seq(|batch|, i requires 0 <= i < |batch| => checks[i].AppliedTo(jobs[batch[i]]))
  }

  /** One job of the pass: a job that has an attempt already is not handed to the validator. */
  method ReconcileListed(jobs: JobRepository, batch: seq<JobId>, n: nat, check: Check,
                         ghost start: map<JobId, Job>, ghost ended: seq<Job>)
    returns (status: ValidationStatus)
    requires jobs.Valid() && Distinct(batch) && n < |batch| == |ended| && batch[n] in jobs.rows && batch[n] in start
    requires EachEndedAs(start, jobs.Value(), batch, n, ended) && ended[n] == check.AppliedTo(start[batch[n]])
    modifies jobs.rows.Values
    ensures jobs.Valid() && EachEndedAs(start, jobs.Value(), batch, n + 1, ended)
    ensures status == SkippedExistingAttempt <==> start[batch[n]].validations != []
    ensures status == SkippedNonRegistered <==>
            start[batch[n]].validations == [] && start[batch[n]].state != Registered
  {
    OneMoreEnded(start, jobs.Value(), batch, n, ended);
    assert jobs.rows[batch[n]].Value() == start[batch[n]];
    if jobs.rows[batch[n]].validations != [] {
      return SkippedExistingAttempt;
    }
    status := ValidateById(jobs, batch[n], check);
  }

  /** What the pass finds of a job before the validator would look at its file. */
  datatype Found = Checkable | CheckedBefore | NotRegistered

  ghost function Ends(jobs: map<JobId, Job>, batch: seq<JobId>): seq<Found>
    requires forall i | 0 <= i < |batch| :: batch[i] in jobs
  {
    seq(|batch|, i requires 0 <= i < |batch| =>
      if jobs[batch[i]].validations != [] then CheckedBefore
      else if jobs[batch[i]].state != Registered then NotRegistered else Checkable)
  }

  datatype ReconcileResult = ReconcileResult(processed: nat, existing: nat, nonRegistered: nat)

  function TotalsOf(found: seq<Found>): ReconcileResult {
    ReconcileResult(HowMany(found, Checkable), HowMany(found, CheckedBefore), HowMany(found, NotRegistered))
  }

  /**
   `reconcile_once` over the jobs its query returned: each ends as the validator alone would end it, and is counted as
   what it was found to be.
   */
  method ReconcileOnce(jobs: JobRepository, batch: seq<JobId>, checks: seq<Check>) returns (r: ReconcileResult)
    requires jobs.Valid() && Distinct(batch) && |checks| == |batch|
    requires forall i | 0 <= i < |batch| :: batch[i] in jobs.rows
    modifies jobs.rows.Values
    ensures jobs.Valid()
    ensures EachEndedAs(old(jobs.Value()), jobs.Value(), batch, |batch|, Checked(old(jobs.Value()), batch, checks))
    ensures r == TotalsOf(Ends(old(jobs.Value()), batch))
  {
    ghost var start := jobs.Value();
    ghost var ended, ends := Checked(start, batch, checks), Ends(start, batch);
    r := ReconcileResult(0, 0, 0);
    for i := 0 to |batch|
      invariant jobs.Valid() && EachEndedAs(start, jobs.Value(), batch, i, ended)
      invariant r == TotalsOf(ends[..i])
    {
      r := ReconcileNext(jobs, batch, i, checks, r, start, ended, ends);
    }
    assert ends[..|batch|] == ends;
  }

  /** The body of the loop. */
  method ReconcileNext(jobs: JobRepository, batch: seq<JobId>, n: nat, checks: seq<Check>, r: ReconcileResult,
                       ghost start: map<JobId, Job>, ghost ended: seq<Job>, ghost ends: seq<Found>)
    returns (after: ReconcileResult)
    requires jobs.Valid() && Distinct(batch) && n < |batch| == |checks|
    requires forall i | 0 <= i < |batch| :: batch[i] in start
    requires ended == Checked(start, batch, checks) && ends == Ends(start, batch)
    requires EachEndedAs(start, jobs.Value(), batch, n, ended) && r == TotalsOf(ends[..n])
    modifies jobs.rows.Values
    ensures jobs.Valid() && EachEndedAs(start, jobs.Value(), batch, n + 1, ended) && after == TotalsOf(ends[..n + 1])
  {
    var status := ReconcileListed(jobs, batch, n, checks[n], start, ended);
    after := CountFound(r, status, ends, n);
  }

  /** The counters after one more job. */
  method CountFound(r: ReconcileResult, status: ValidationStatus, ghost found: seq<Found>, ghost n: nat)
    returns (after: ReconcileResult)
    requires n < |found| && r == TotalsOf(found[..n])
    requires status == SkippedExistingAttempt <==> found[n] == CheckedBefore
    requires status == SkippedNonRegistered <==> found[n] == NotRegistered
    ensures after == TotalsOf(found[..n + 1])
  {
    OneMoreOfThem(found, n);
    match status {
      case SkippedExistingAttempt => after := r.(existing := r.existing + 1);
      case SkippedNonRegistered => after := r.(nonRegistered := r.nonRegistered + 1);
      case _ => after := r.(processed := r.processed + 1);
    }
  }
}
