/** The processing worker: one job at a time under a stage claim, and a batch of jobs in turn. */
module ProcessingWorker {
  import opened Basics
  import opened JobModel
  import opened JobSteps
  import opened JobStore
  import opened StageLease
  import opened Batches

  const LEASE_SECONDS: real := 30.0

  /** The clock readings of one call, in the order they are taken. */
  datatype WorkTimes = WorkTimes(startedAt: Time, claimedAt: Time, completedAt: Time, releasedAt: Time)

  function ProcessingKey(id: JobId, j: Job): ClaimKey {
    ClaimKey(id, ProcessingStage, ResolveAttempt(j.attempt))
  }

  function InputFor(rows: ClaimRows, key: ClaimKey, outcome: AdapterOutcome, t: WorkTimes): ProcessInput {
    ProcessInput(!Blocked(rows, key, t.claimedAt), outcome, t.startedAt, t.completedAt)
  }

  /** One call on its own. */
  function ProcessAlone(id: JobId, j: Job, workerMax: int, rows: ClaimRows, outcome: AdapterOutcome,
                        t: WorkTimes): WorkResult {
    Process(j, workerMax, InputFor(rows, ProcessingKey(id, j), outcome, t))
  }

  /** What each call of a batch would do on its own, to the jobs and the claim table as they are. */
  ghost function Alone(jobs: map<JobId, Job>, batch: seq<JobId>, workerMax: int, rows: ClaimRows,
                       outcomes: seq<AdapterOutcome>, times: seq<WorkTimes>): seq<WorkResult>
    requires |batch| == |outcomes| == |times| && forall i | 0 <= i < |batch| :: batch[i] in jobs
  {
    seq(|batch|, i requires 0 <= i < |batch| =>
      ProcessAlone(batch[i], jobs[batch[i]], workerMax, rows, outcomes[i], times[i]))
  }

  ghost function Ended(alone: seq<WorkResult>): seq<Job> {
    seq(|alone|, i requires 0 <= i < |alone| => alone[i].job)
  }

  ghost function Statuses(alone: seq<WorkResult>): seq<WorkStatus> {
    seq(|alone|, i requires 0 <= i < |alone| => alone[i].status)
  }

  datatype ProcessingBatchResult = ProcessingBatchResult(claimed: nat, processed: nat, failed: nat, skipped: nat)

  /** Each call counted under its status; those that were not skipped took the claim. */
  function TotalsOf(statuses: seq<WorkStatus>): ProcessingBatchResult {
    var processed, failed := HowMany(statuses, WorkSucceeded), HowMany(statuses, WorkFailed);
    ProcessingBatchResult(processed + failed, processed, failed, HowMany(statuses, WorkSkipped))
  }

  /** The first `n` calls of a batch are counted, and the next one was aborted if the batch has ended there. */
  ghost predicate WorkedOff(batch: seq<JobId>, alone: seq<WorkResult>, r: ProcessingBatchResult, n: nat,
                            aborted: bool) {
    && n <= |batch| == |alone| && r == TotalsOf(Statuses(alone)[..n])
    && (aborted ==> n < |batch| && alone[n].status == WorkAborted)
  }

  lemma AbortChangesNothing(id: JobId, j: Job, workerMax: int, rows: ClaimRows, outcome: AdapterOutcome, t: WorkTimes)
    ensures var r := ProcessAlone(id, j, workerMax, rows, outcome, t); r.status == WorkAborted ==> r.job == j
  {
  }

  /** What one more call of a batch makes of the jobs. */
  lemma NextEnds(start: map<JobId, Job>, before: map<JobId, Job>, batch: seq<JobId>, n: nat, workerMax: int,
                 rows: ClaimRows, outcomes: seq<AdapterOutcome>, times: seq<WorkTimes>)
    requires Distinct(batch) && n < |batch| == |outcomes| == |times|
    requires forall i | 0 <= i < |batch| :: batch[i] in start
    requires EachEndedAs(start, before, batch, n, Ended(Alone(start, batch, workerMax, rows, outcomes, times)))
    ensures batch[n] in before && batch[n] !in batch[..n] && batch[..n + 1] == batch[..n] + [batch[n]]
    ensures var alone := Alone(start, batch, workerMax, rows, outcomes, times);
            && alone[n] == ProcessAlone(batch[n], before[batch[n]], workerMax, rows, outcomes[n], times[n])
            && EachEndedAs(start, before[batch[n] := alone[n].job], batch, AfterCall(n, alone[n].status), Ended(alone))
  {
    var alone := Alone(start, batch, workerMax, rows, outcomes, times);
    NextIsNew(batch, n);
    AbortChangesNothing(batch[n], start[batch[n]], workerMax, rows, outcomes[n], times[n]);
    EndsOrStays(start, before, batch, n, Ended(alone), alone[n]);
  }

  lemma EndsOrStays(start: map<JobId, Job>, before: map<JobId, Job>, batch: seq<JobId>, n: nat, ended: seq<Job>,
                    r: WorkResult)
    requires Distinct(batch) && n < |batch| && EachEndedAs(start, before, batch, n, ended) && batch[n] in start
    requires r.job == ended[n] && (r.status == WorkAborted ==> r.job == start[batch[n]])
    ensures batch[n] in before && before[batch[n]] == start[batch[n]]
    ensures EachEndedAs(start, before[batch[n] := r.job], batch, AfterCall(n, r.status), ended)
  {
    OneMoreEnded(start, before, batch, n, ended);
    SameEntry(before, batch[n]);
  }

  /** How many jobs of a batch are done after the call for job `n`. */
  function AfterCall(n: nat, status: WorkStatus): nat {
    if status == WorkAborted then n else n + 1
  }

  /** The claims of other jobs are the same in both tables. */
  ghost predicate SameOutside(a: ClaimRows, b: ClaimRows, ids: seq<JobId>) {
    forall key: ClaimKey | key.job !in ids :: (key in a <==> key in b) && (key in a && key in b ==> a[key] == b[key])
  }

  predicate Worked(status: WorkStatus) {
    status == WorkSucceeded || status == WorkFailed
  }

  class Worker {
    const retryMaxAttempts: int

    constructor (retryMaxAttempts: int)
      ensures this.retryMaxAttempts == retryMaxAttempts
    {
      this.retryMaxAttempts := retryMaxAttempts;
    }

    /** `process_one`, for a job that was found. A violated unique key aborts the transaction. */
    method ProcessOne(id: JobId, job: JobRecord, claims: StageClaimRepository, outcome: AdapterOutcome, t: WorkTimes)
      returns (status: WorkStatus)
      requires job.Valid()
      modifies job, claims
      ensures job.Valid()
      ensures var j, key := old(job.Value()), ProcessingKey(id, old(job.Value()));
              && WorkResult(job.Value(), status)
                 == Process(j, retryMaxAttempts, InputFor(old(claims.rows), key, outcome, t))
              && claims.rows == RowsAfter(old(claims.rows), key, ProcessorService, Worked(status),
                                            t.startedAt + LEASE_SECONDS, t.claimedAt, t.releasedAt)
    {
      if !Processable(job.Value()) {
        return WorkSkipped;
      }
      if job.validations == [] || !job.validations[|job.validations| - 1].valid {
        return WorkSkipped;
      }
      var attempt := ResolveAttempt(job.attempt);
      var key := ClaimKey(id, ProcessingStage, attempt);
      var begun := claims.rows;
      var claimed := claims.ClaimStage(key, ProcessorService, t.startedAt + LEASE_SECONDS, t.claimedAt);
      if !claimed {
        return WorkSkipped;
      }
      status := WorkClaimed(job, attempt, outcome, t);
      if status == WorkAborted {
        claims.rows := begun;
      } else {
        var found := claims.ReleaseStage(key, t.releasedAt);
      }
    }

    /** One job by its id; `r` is what the call would do on its own, to the claim table `rows`. */
    method ProcessById(jobs: JobRepository, id: JobId, claims: StageClaimRepository, outcome: AdapterOutcome,
                       t: WorkTimes,
                       ghost rows: ClaimRows, ghost done: seq<JobId>, ghost r: WorkResult)
      returns (status: WorkStatus)
      requires jobs.Valid() && id in jobs.rows && id !in done && SameOutside(claims.rows, rows, done)
      requires r == ProcessAlone(id, jobs.Value()[id], retryMaxAttempts, rows, outcome, t)
      modifies jobs.rows.Values, claims
      ensures jobs.Valid() && SameOutside(claims.rows, rows, done + [id])
      ensures status == r.status && jobs.Value() == old(jobs.Value())[id := r.job]
    {
      ghost var before := jobs.Value();
      status := ProcessOne(id, jobs.rows[id], claims, outcome, t);
      assert WorkResult(jobs.rows[id].Value(), status) == r;
      assert jobs.Value() == before[id := jobs.rows[id].Value()];
    }

    /** Job `n` of a batch; `start` are the jobs before the batch and `rows` is the claim table then. */
    method ProcessListed(jobs: JobRepository, batch: seq<JobId>, n: nat, claims: StageClaimRepository,
                         outcomes: seq<AdapterOutcome>, times: seq<WorkTimes>,
                         ghost start: map<JobId, Job>, ghost rows: ClaimRows, ghost alone: seq<WorkResult>)
      returns (status: WorkStatus)
      requires jobs.Valid() && Distinct(batch) && n < |batch| == |outcomes| == |times|
      requires forall i | 0 <= i < |batch| :: batch[i] in start
      requires alone == Alone(start, batch, retryMaxAttempts, rows, outcomes, times)
      requires EachEndedAs(start, jobs.Value(), batch, n, Ended(alone)) && SameOutside(claims.rows, rows, batch[..n])
      modifies jobs.rows.Values, claims
      ensures jobs.Valid() && SameOutside(claims.rows, rows, batch[..n + 1])
      ensures status == alone[n].status
      ensures EachEndedAs(start, jobs.Value(), batch, AfterCall(n, status), Ended(alone))
    {
      ghost var before := jobs.Value();
      NextEnds(start, before, batch, n, retryMaxAttempts, rows, outcomes, times);
      status := ProcessById(jobs, batch[n], claims, outcomes[n], times[n], rows, batch[..n], alone[n]);
      assert jobs.Value() == before[batch[n] := alone[n].job];
    }

    /**
     `claim_and_process` over the jobs its queries returned. Jobs of one batch do not disturb each other: each ends
     as if it had been processed alone, against the claim table as it was before the batch. A violated unique
     key ends the batch where it happens.
     */
    method ClaimAndProcess(jobs: JobRepository, batch: seq<JobId>, claims: StageClaimRepository,
                           outcomes: seq<AdapterOutcome>, times: seq<WorkTimes>)
      returns (r: ProcessingBatchResult, scanned: nat, aborted: bool)
      requires jobs.Valid() && Distinct(batch) && |batch| == |outcomes| == |times|
      requires forall i | 0 <= i < |batch| :: batch[i] in jobs.rows
      modifies jobs.rows.Values, claims
      ensures jobs.Valid() && scanned <= |batch|
      ensures var alone := Alone(old(jobs.Value()), batch, retryMaxAttempts, old(claims.rows), outcomes, times);
              && (if aborted then scanned < |batch| && alone[scanned].status == WorkAborted else scanned == |batch|)
              && r == TotalsOf(Statuses(alone)[..scanned])
              && EachEndedAs(old(jobs.Value()), jobs.Value(), batch, scanned, Ended(alone))
    {
      ghost var start, rows := jobs.Value(), claims.rows;
      ghost var alone := Alone(start, batch, retryMaxAttempts, rows, outcomes, times);
      r, scanned, aborted := ProcessingBatchResult(0, 0, 0, 0), 0, false;
      while scanned < |batch| && !aborted
        invariant jobs.Valid() && WorkedOff(batch, alone, r, scanned, aborted)
        invariant EachEndedAs(start, jobs.Value(), batch, scanned, Ended(alone))
        invariant !aborted ==> SameOutside(claims.rows, rows, batch[..scanned])
        decreases |batch| - scanned, !aborted
      {
        r, scanned, aborted := ProcessNext(jobs, batch, scanned, claims, outcomes, times, start, rows, alone, r);
      }
    }

    /** The body of the loop. */
    method ProcessNext(jobs: JobRepository, batch: seq<JobId>, n: nat, claims: StageClaimRepository,
                       outcomes: seq<AdapterOutcome>, times: seq<WorkTimes>,
                       ghost start: map<JobId, Job>, ghost rows: ClaimRows, ghost alone: seq<WorkResult>,
                       r: ProcessingBatchResult)
      returns (after: ProcessingBatchResult, scanned: nat, aborted: bool)
      requires jobs.Valid() && Distinct(batch) && n < |batch| == |outcomes| == |times|
      requires forall i | 0 <= i < |batch| :: batch[i] in start
      requires alone == Alone(start, batch, retryMaxAttempts, rows, outcomes, times)
      requires EachEndedAs(start, jobs.Value(), batch, n, Ended(alone)) && SameOutside(claims.rows, rows, batch[..n])
      requires WorkedOff(batch, alone, r, n, false)
      modifies jobs.rows.Values, claims
      ensures jobs.Valid() && WorkedOff(batch, alone, after, scanned, aborted)
      ensures if aborted then scanned == n else scanned == n + 1
      ensures EachEndedAs(start, jobs.Value(), batch, scanned, Ended(alone))
      ensures !aborted ==> SameOutside(claims.rows, rows, batch[..scanned])
    {
      var status := ProcessListed(jobs, batch, n, claims, outcomes, times, start, rows, alone);
      after, scanned, aborted := CountStatus(r, status, batch, alone, n);
    }

    /** The counters after the call for job `n`. */
    method CountStatus(r: ProcessingBatchResult, status: WorkStatus, ghost batch: seq<JobId>,
                       ghost alone: seq<WorkResult>, n: nat)
      returns (after: ProcessingBatchResult, scanned: nat, aborted: bool)
      requires n < |batch| && WorkedOff(batch, alone, r, n, false) && status == alone[n].status
      ensures scanned == AfterCall(n, status) && WorkedOff(batch, alone, after, scanned, aborted)
      ensures aborted <==> status == WorkAborted
    {
      after, scanned, aborted := r, n + 1, false;
      OneMoreOfThem(Statuses(alone), n);
      match status {
        case WorkSucceeded => after := r.(claimed := r.claimed + 1, processed := r.processed + 1);
        case WorkFailed => after := r.(claimed := r.claimed + 1, failed := r.failed + 1);
        case WorkSkipped => after := r.(skipped := r.skipped + 1);
        case WorkAborted => scanned, aborted := n, true;
      }
    }

    /** The part of a call that runs under the claim. */
    method WorkClaimed(job: JobRecord, attempt: int, outcome: AdapterOutcome, t: WorkTimes) returns (status: WorkStatus)
      requires job.Valid() && Processable(job.Value()) && ValidationConfirmed(job.Value())
      requires attempt == ResolveAttempt(job.attempt)
      modifies job
      ensures job.Valid() && status != WorkSkipped
      ensures WorkResult(job.Value(), status)
              == Process(old(job.Value()), retryMaxAttempts, ProcessInput(true, outcome, t.startedAt, t.completedAt))
    {
      var begun := job.Value();
      var created, attemptId := Begin(job, attempt, t.startedAt);
      if !created {
        job.Rollback(begun);
        return WorkAborted;
      }
      var result := RunAdapter(job, outcome);
      RunIsProcess(begun, retryMaxAttempts, outcome, t);
      if result.AdapterProcessed? {
        CompleteSuccess(job, attempt, attemptId, t.completedAt);
        status := WorkSucceeded;
      } else {
        CompleteFailure(job, attempt, attemptId, result, t.completedAt);
        status := WorkFailed;
      }
    }

    /** Entering PROCESSING: the state change, the attempt row, and the event when the row could be made. */
    method Begin(job: JobRecord, attempt: int, at: Time) returns (ok: bool, id: nat)
      requires job.Valid() && Processable(job.Value())
      modifies job
      ensures job.Valid()
      ensures ok == !ProcessingKeyTaken(old(job.processing), attempt)
      ensures id == |old(job.processing)|
      ensures ok ==> job.Value() == WithOpenAttempt(Started(old(job.Value()), attempt, at), attempt)
    {
      job.Advance(job.state, Processing, None, Some(attempt), ProcessorService, ProcessingStarted, at);
      ok, id := job.CreateProcessingAttempt(attempt);
      if ok {
        job.EnqueueEvent(ProcessingStartedEvent, attempt, at);
      }
    }

    /** The adapter is not called without a source checksum, and its exceptions become retryable failures. */
    method RunAdapter(job: JobRecord, outcome: AdapterOutcome) returns (result: AdapterOutcome)
      ensures result == AdapterResult(job.Value(), outcome)
    {
      if !job.hasChecksum {
        return AdapterFailed(ProcessingSourceSha256Missing, false);
      }
      if outcome.AdapterRaised? {
        return AdapterFailed(ProcessingUnexpectedError, true);
      }
      result := outcome;
    }

    method CompleteSuccess(job: JobRecord, attempt: int, id: nat, at: Time)
      requires job.Valid() && job.state == Processing && id < |job.processing|
      modifies job
      ensures job.Valid()
      ensures job.Value() == Succeeded(old(job.Value()), attempt, id, at)
    {
      job.CreateOutputManifest(ManifestProcessed);
      job.CompleteProcessingAttempt(id, at);
      job.Advance(Processing, Processed, None, Some(attempt), ProcessorService, ProcessingCompleted, at);
      job.EnqueueEvent(ProcessingCompletedEvent, attempt, at);
    }

    method CompleteFailure(job: JobRecord, attempt: int, id: nat, result: AdapterOutcome, at: Time)
      requires job.Valid() && job.state == Processing && id < |job.processing| && result.AdapterFailed?
      modifies job
      ensures job.Valid()
      ensures job.Value() == FailedRun(old(job.Value()), attempt, id, result.code,
                                       FailureState(result.retryable, attempt, retryMaxAttempts), at)
    {
      var next := if result.retryable && attempt < retryMaxAttempts then RetryPending else Failed;
      job.FailProcessingAttempt(id, result.code, at);
      job.Advance(Processing, next, Some(result.code), Some(attempt), ProcessorService, Code(result.code), at);
      job.EnqueueEvent(ProcessingFailedEvent, attempt, at);
    }
  }

  // ---------- The job after each part of a call ----------

  function Started(j: Job, attempt: int, at: Time): Job
    requires Processable(j)
  {
    Emit(Move(j, Processing, None, Some(attempt), ProcessorService, ProcessingStarted, at),
         ProcessingStartedEvent, attempt, at)
  }

  function Succeeded(j: Job, attempt: int, id: nat, at: Time): Job
    requires j.state == Processing && id < |j.processing|
  {
    var done := j.(processing := j.processing[id := j.processing[id].(status := RunSucceeded, completedAt := Some(at))],
                   manifests := j.manifests + [ManifestProcessed]);
    Emit(Move(done, Processed, None, Some(attempt), ProcessorService, ProcessingCompleted, at),
         ProcessingCompletedEvent, attempt, at)
  }

  function FailedRun(j: Job, attempt: int, id: nat, code: ErrorCode, next: JobState, at: Time): Job
    requires j.state == Processing && id < |j.processing| && (next == RetryPending || next == Failed)
  {
    var row := j.processing[id].(status := RunFailed, error := Some(code), completedAt := Some(at));
    var done := j.(processing := j.processing[id := row]);
    Emit(Move(done, next, Some(code), Some(attempt), ProcessorService, Code(code), at), ProcessingFailedEvent,
         attempt, at)
  }

  function WithOpenAttempt(j: Job, attempt: int): Job {
    j.(processing := j.processing + [ProcessingAttempt(attempt, RunStarted, None, None)])
  }

  /** `Process` writes an attempt row once, closed; the worker opens it first and closes it in place later. */
  lemma RunIsProcess(j: Job, workerMax: int, outcome: AdapterOutcome, t: WorkTimes)
    requires Processable(j) && ValidationConfirmed(j) && !ProcessingKeyTaken(j.processing, ResolveAttempt(j.attempt))
    ensures var attempt := ResolveAttempt(j.attempt);
            var running := WithOpenAttempt(Started(j, attempt, t.startedAt), attempt);
            var result := AdapterResult(j, outcome);
            Process(j, workerMax, ProcessInput(true, outcome, t.startedAt, t.completedAt))
            == if result.AdapterFailed?
               then WorkResult(FailedRun(running, attempt, |j.processing|, result.code,
                                         FailureState(result.retryable, attempt, workerMax), t.completedAt), WorkFailed)
               else WorkResult(Succeeded(running, attempt, |j.processing|, t.completedAt), WorkSucceeded)
  {
  }
}
