/** The delivery worker: the fan-out over a job's targets under a stage claim, and how it ends the job. */
module DeliveryWorker {
  import opened Basics
  import opened JobModel
  import opened JobSteps
  import opened JobStore
  import opened StageLease

  const LEASE_SECONDS: real := 30.0

  /** The clock readings of one call besides those of its targets. */
  datatype DeliveryTimes = DeliveryTimes(startedAt: Time, claimedAt: Time, finalizedAt: Time, releasedAt: Time)

  function DeliveryKey(id: JobId, j: Job): ClaimKey {
    ClaimKey(id, DeliveryStage, ResolveAttempt(j.attempt))
  }

  function InputFor(rows: ClaimRows, key: ClaimKey, readable: bool, runs: seq<TargetRun>,
                    t: DeliveryTimes): DeliverInput {
    DeliverInput(readable, !Blocked(rows, key, t.claimedAt), runs, t.startedAt, t.finalizedAt)
  }

  /** A call without targets ends the job before it would claim the stage. */
  predicate WorkedUnderClaim(status: WorkStatus, runs: seq<TargetRun>) {
    runs != [] && (status == WorkSucceeded || status == WorkFailed)
  }

  function TargetEvents(run: TargetRun, attempt: int): seq<Event> {
    [Event(DeliveryStartedEvent, attempt, run.startedAt),
     Event(if run.outcome.delivered then DeliveryCompletedEvent else DeliveryFailedEvent, attempt, run.completedAt)]
  }

  lemma CopiedOneMore(j: Job, runs: seq<TargetRun>, attempt: int, i: nat)
    requires i < |runs|
    ensures var before := CopiedTo(j, runs[..i], attempt);
            CopiedTo(j, runs[..i + 1], attempt)
            == before.(delivery := before.delivery + [runs[i].Row(attempt)],
                       events := before.events + TargetEvents(runs[i], attempt))
  {
    assert runs[..i + 1][..i] == runs[..i];
    assert Rows(runs[..i + 1], attempt) == Rows(runs[..i], attempt) + [runs[i].Row(attempt)];
  }

  class Worker {
    const retryMaxAttempts: int

    constructor (retryMaxAttempts: int)
      ensures this.retryMaxAttempts == retryMaxAttempts
    {
      this.retryMaxAttempts := retryMaxAttempts;
    }

    /** `deliver_one`, for a job that was found. A violated unique key aborts the transaction. */
    method DeliverOne(id: JobId, job: JobRecord, claims: StageClaimRepository, readable: bool, runs: seq<TargetRun>,
                      t: DeliveryTimes)
      returns (status: WorkStatus)
      requires job.Valid()
      modifies job, claims
      ensures job.Valid()
      ensures var j, key := old(job.Value()), DeliveryKey(id, old(job.Value()));
              && WorkResult(job.Value(), status)
                == Deliver(j, retryMaxAttempts, InputFor(old(claims.rows), key, readable, runs, t))
              && claims.rows == RowsAfter(old(claims.rows), key, DeliveryService, WorkedUnderClaim(status, runs),
                                          t.startedAt + LEASE_SECONDS, t.claimedAt, t.releasedAt)
    {
      if !Deliverable(job.Value()) {
        return WorkSkipped;
      }
      var attempt := ResolveAttempt(job.attempt);
      if ManifestProcessed !in job.manifests || !readable {
        return WorkSkipped;
      }
      if runs == [] {
        FailWithoutDeliveryTargets(job, attempt, t.finalizedAt);
        return WorkFailed;
      }
      var key := ClaimKey(id, DeliveryStage, attempt);
      var begun := claims.rows;
      var claimed := claims.ClaimStage(key, DeliveryService, t.startedAt + LEASE_SECONDS, t.claimedAt);
      if !claimed {
        return WorkSkipped;
      }
      status := DeliverClaimed(job, attempt, runs, t);
      if status == WorkAborted {
        claims.rows := begun;
      } else {
        var found := claims.ReleaseStage(key, t.releasedAt);
      }
    }

    method FailWithoutDeliveryTargets(job: JobRecord, attempt: int, at: Time)
      requires job.Valid() && Deliverable(job.Value())
      modifies job
      ensures job.Valid()
      ensures job.Value() == FailWithoutTargets(old(job.Value()), attempt, at)
    {
      job.Advance(job.state, Failed, Some(NoMatchingDestination), Some(attempt), DeliveryService,
                  Code(NoMatchingDestination), at);
      job.CreateOutputManifest(ManifestFailed);
    }

    /** The part of a call that runs under the claim: the targets in order, then the end of the job. */
    method DeliverClaimed(job: JobRecord, attempt: int, runs: seq<TargetRun>, t: DeliveryTimes)
      returns (status: WorkStatus)
      requires job.Valid() && Deliverable(job.Value()) && ManifestProcessed in job.manifests && runs != []
      requires attempt == ResolveAttempt(job.attempt)
      modifies job
      ensures job.Valid() && status != WorkSkipped
      ensures WorkResult(job.Value(), status)
              == Deliver(old(job.Value()), retryMaxAttempts, DeliverInput(true, true, runs, t.startedAt, t.finalizedAt))
    {
      var begun := job.Value();
      job.Advance(job.state, Delivering, None, Some(attempt), DeliveryService, DeliveryStarted, t.startedAt);
      var ok, failed := FanOut(job, attempt, runs);
      if !ok {
        job.Rollback(begun);
        return WorkAborted;
      }
      FanOutIsDeliver(begun, retryMaxAttempts, runs, t);
      FailureCodesMatch(runs);
      Finish(job, attempt, runs, failed, t.finalizedAt);
      status := if |failed| < |runs| then WorkSucceeded else WorkFailed;
    }

    /** One attempt per target; `failed` are the codes of the targets that failed, in target order. */
    method FanOut(job: JobRecord, attempt: int, runs: seq<TargetRun>) returns (ok: bool, failed: seq<ErrorCode>)
      requires job.Valid() && job.state == Delivering
      modifies job`delivery, job`events
      ensures job.Valid()
      ensures ok == !DeliveryKeyTaken(old(job.delivery), runs, attempt)
      ensures ok ==> job.Value() == CopiedTo(old(job.Value()), runs, attempt) && failed == FailureCodes(runs)
    {
      ghost var j := job.Value();
      failed := [];
      assert runs[..0] == [] && Rows([], attempt) == [];
      for i := 0 to |runs|
        invariant job.Value() == CopiedTo(j, runs[..i], attempt)
        invariant failed == FailureCodes(runs[..i])
        invariant !DeliveryKeyTaken(j.delivery, runs[..i], attempt)
      {
        var created := DeliverTarget(job, attempt, runs[i]);
        OneMoreKey(j.delivery, runs, attempt, i);
        CopiedOneMore(j, runs, attempt, i);
        if !created {
          return false, failed;
        }
        if !runs[i].outcome.delivered {
          failed := failed + [runs[i].FailureCode()];
        }
        assert runs[..i + 1][..i] == runs[..i];
      }
      assert runs[..|runs|] == runs;
      ok := true;
    }

    /** The attempt row, the copy whose outcome `run` tells, and the two events. */
    method DeliverTarget(job: JobRecord, attempt: int, run: TargetRun) returns (ok: bool)
      modifies job`delivery, job`events
      ensures ok == !HasKey(old(job.delivery), run.destination, attempt)
      ensures ok ==> job.delivery == old(job.delivery) + [run.Row(attempt)]
      ensures ok ==> job.events == old(job.events) + TargetEvents(run, attempt)
    {
      ghost var rows := job.delivery;
      var id;
      ok, id := job.CreateDeliveryAttempt(run.destination, attempt);
      if !ok {
        return;
      }
      job.EnqueueEvent(DeliveryStartedEvent, attempt, run.startedAt);
      if run.outcome.delivered {
        job.CompleteDeliveryAttempt(id, run.completedAt);
        job.EnqueueEvent(DeliveryCompletedEvent, attempt, run.completedAt);
      } else {
        job.FailDeliveryAttempt(id, run.FailureCode(), run.completedAt);
        job.EnqueueEvent(DeliveryFailedEvent, attempt, run.completedAt);
      }
      assert job.delivery == rows + [run.Row(attempt)];
    }

    method Finish(job: JobRecord, attempt: int, runs: seq<TargetRun>, failed: seq<ErrorCode>, at: Time)
      requires job.Valid() && job.state == Delivering && failed == FailureCodes(runs)
      modifies job
      ensures job.Valid()
      ensures job.Value() == FinishDelivery(old(job.Value()), runs, attempt, retryMaxAttempts, at)
    {
      var final := FinalState(runs, attempt, retryMaxAttempts);
      FailureCodesMatch(runs);
      if final == Completed {
        Complete(job, attempt, at);
      } else {
        FinishFailed(job, final, failed[0], attempt, at);
      }
    }

    method Complete(job: JobRecord, attempt: int, at: Time)
      requires job.Valid() && job.state == Delivering
      modifies job
      ensures job.Valid()
      ensures job.Value() == CompleteDelivery(old(job.Value()), attempt, at)
    {
      job.Advance(Delivering, Delivered, None, Some(attempt), DeliveryService, DeliveryCompleted, at);
      job.Advance(Delivered, Completed, None, Some(attempt), DeliveryService, JobCompleted, at);
      job.CreateOutputManifest(ManifestDelivered);
      job.EnqueueEvent(JobCompletedEvent, attempt, at);
    }

    method FinishFailed(job: JobRecord, final: JobState, code: ErrorCode, attempt: int, at: Time)
      requires job.Valid() && job.state == Delivering && TransitionAllowed(Delivering, final)
      modifies job
      ensures job.Valid()
      ensures job.Value() == EndWithFailures(old(job.Value()), final, code, attempt, at)
    {
      job.Advance(Delivering, final, Some(code), Some(attempt), DeliveryService, Code(code), at);
      job.CreateOutputManifest(FinalManifest(final));
      if final == CompletedWithDeliveryErrors {
        job.EnqueueEvent(JobCompletedEvent, attempt, at);
      }
    }
  }

  /** `failed_reason_codes` */
  function FailureCodes(runs: seq<TargetRun>): seq<ErrorCode> {
    if runs == [] then []
    else
      var last := runs[|runs| - 1];
      FailureCodes(runs[..|runs| - 1]) + if last.outcome.delivered then [] else [last.FailureCode()]
  }

  lemma {:induction false} FailureCodesMatch(runs: seq<TargetRun>)
    ensures |FailureCodes(runs)| == |Failures(runs)|
    ensures forall i | 0 <= i < |Failures(runs)| :: FailureCodes(runs)[i] == Failures(runs)[i].FailureCode()
  {
    if runs != [] {
      FailureCodesMatch(runs[..|runs| - 1]);
    }
  }

  /** Some row holds the key (job, destination, attempt). */
  predicate HasKey(rows: seq<DeliveryAttempt>, destination: DestinationId, attempt: int) {
    exists k | 0 <= k < |rows| :: rows[k].attempt == attempt && rows[k].destination == destination
  }

  lemma HasKeyOfAppended(a: seq<DeliveryAttempt>, b: seq<DeliveryAttempt>, destination: DestinationId, attempt: int)
    ensures HasKey(a + b, destination, attempt) <==> HasKey(a, destination, attempt) || HasKey(b, destination, attempt)
  {
    if k :| 0 <= k < |a| && a[k].attempt == attempt && a[k].destination == destination {
      assert (a + b)[k] == a[k];
    }
    if k :| 0 <= k < |b| && b[k].attempt == attempt && b[k].destination == destination {
      assert (a + b)[|a| + k] == b[k];
    }
  }

  lemma HasKeyOfRows(runs: seq<TargetRun>, destination: DestinationId, attempt: int)
    ensures HasKey(Rows(runs, attempt), destination, attempt) <==>
            exists k | 0 <= k < |runs| :: runs[k].destination == destination
  {
    if k :| 0 <= k < |runs| && runs[k].destination == destination {
      assert Rows(runs, attempt)[k].destination == destination;
    }
  }

  /** The rows made so far hold the next target's key exactly when the key was taken before or by an earlier target. */
  lemma OneMoreKey(before: seq<DeliveryAttempt>, runs: seq<TargetRun>, attempt: int, i: nat)
    requires i < |runs| && !DeliveryKeyTaken(before, runs[..i], attempt)
    ensures HasKey(before + Rows(runs[..i], attempt), runs[i].destination, attempt) <==>
            DeliveryKeyTaken(before, runs[..i + 1], attempt)
    ensures DeliveryKeyTaken(before, runs[..i + 1], attempt) ==> DeliveryKeyTaken(before, runs, attempt)
  {
    var now, d := runs[..i + 1], runs[i].destination;
    HasKeyOfAppended(before, Rows(runs[..i], attempt), d, attempt);
    HasKeyOfRows(runs[..i], d, attempt);
    assert now[i] == runs[i] && forall m | 0 <= m < i :: now[m] == runs[..i][m];
    if m, k :| && 0 <= m <= i && 0 <= k < |before|
               && before[k].attempt == attempt && before[k].destination == now[m].destination {
      assert m == i;
    } else if m, k :| 0 <= k < m <= i && now[k].destination == now[m].destination {
      assert m == i;
      assert runs[..i][k].destination == d;
    }
  }

  /** A whole call under the claim is its parts, one after the other. */
  lemma FanOutIsDeliver(j: Job, workerMax: int, runs: seq<TargetRun>, t: DeliveryTimes)
    requires Deliverable(j) && ManifestProcessed in j.manifests && runs != []
    requires !DeliveryKeyTaken(j.delivery, runs, ResolveAttempt(j.attempt))
    ensures var attempt := ResolveAttempt(j.attempt);
            var copied := CopiedTo(StartDelivery(j, attempt, t.startedAt), runs, attempt);
            Deliver(j, workerMax, DeliverInput(true, true, runs, t.startedAt, t.finalizedAt))
            == WorkResult(FinishDelivery(copied, runs, attempt, workerMax, t.finalizedAt),
                          if |Failures(runs)| < |runs| then WorkSucceeded else WorkFailed)
  {
  }
}
