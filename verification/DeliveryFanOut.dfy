/** One delivery call conserves its targets: each gets exactly one closed attempt, and together they decide the job. */
module DeliveryFanOut {
  import opened Basics
  import opened JobModel
  import opened JobSteps
  import opened Outcomes

  lemma {:induction false} FailuresAreTheFailures(runs: seq<TargetRun>)
    ensures |Failures(runs)| <= |runs|
    ensures Failures(runs) == [] <==> forall i | 0 <= i < |runs| :: runs[i].outcome.delivered
    ensures |Failures(runs)| == |runs| <==> forall i | 0 <= i < |runs| :: !runs[i].outcome.delivered
    ensures forall run :: run in Failures(runs) <==> run in runs && !run.outcome.delivered
  {
    if runs != [] {
      var n := |runs| - 1;
      FailuresAreTheFailures(runs[..n]);
      assert runs == runs[..n] + [runs[n]];
    }
  }

  lemma {:induction false} NoFailure(runs: seq<TargetRun>)
    requires forall i | 0 <= i < |runs| :: runs[i].outcome.delivered
    ensures Failures(runs) == []
  {
    if runs != [] {
      NoFailure(runs[..|runs| - 1]);
    }
  }

  /** The first failure in target order is the one whose code the job keeps. */
  lemma {:induction false} FirstFailure(runs: seq<TargetRun>, first: nat)
    requires first < |runs| && !runs[first].outcome.delivered
    requires forall i | 0 <= i < first :: runs[i].outcome.delivered
    ensures Failures(runs) != [] && Failures(runs)[0] == runs[first]
  {
    var n := |runs| - 1;
    if first < n {
      FirstFailure(runs[..n], first);
    } else {
      NoFailure(runs[..n]);
    }
  }

  ghost predicate AllDelivered(runs: seq<TargetRun>) {
    forall i | 0 <= i < |runs| :: runs[i].outcome.delivered
  }

  ghost predicate NoneDelivered(runs: seq<TargetRun>) {
    forall i | 0 <= i < |runs| :: !runs[i].outcome.delivered
  }

  ghost predicate AllRetryable(runs: seq<TargetRun>) {
    forall i | 0 <= i < |runs| :: runs[i].outcome.retryable
  }

  /** For every nonempty target list the final state is decided by what happened to the targets, and only by that. */
  lemma FinalStateIsDecided(runs: seq<TargetRun>, attempt: int, workerMax: int)
    requires runs != []
    ensures var final := FinalState(runs, attempt, workerMax);
            && (final == Completed <==> AllDelivered(runs))
            && (final == CompletedWithDeliveryErrors <==> !AllDelivered(runs) && !NoneDelivered(runs))
            && (final == RetryPending <==> NoneDelivered(runs) && AllRetryable(runs) && attempt < workerMax)
            && (final == Failed <==> NoneDelivered(runs) && !(AllRetryable(runs) && attempt < workerMax))
  {
    FailuresAreTheFailures(runs);
    if NoneDelivered(runs) {
      assert runs[0] in Failures(runs);
      assert AllRetryable(runs) <==> forall run | run in Failures(runs) :: run.outcome.retryable by {
        forall i | 0 <= i < |runs| ensures runs[i] in Failures(runs) {}
      }
    }
  }

  ghost predicate Delivers(j: Job, workerMax: int, input: DeliverInput) {
    Deliver(j, workerMax, input).status in {WorkSucceeded, WorkFailed} && input.runs != []
  }

  lemma FinishDeliveryShape(j: Job, runs: seq<TargetRun>, attempt: int, workerMax: int, at: Time)
    requires j.state == Delivering
    ensures var after := FinishDelivery(j, runs, attempt, workerMax, at);
            && after.state == FinalState(runs, attempt, workerMax)
            && after.delivery == j.delivery && after.attempt == attempt
            && after.error == (if Failures(runs) == [] then j.error else Some(Failures(runs)[0].FailureCode()))
            && |after.manifests| == |j.manifests| + 1
  {
  }

  /** After the rows there were comes one closed row for each target, in order. */
  ghost predicate OneRowEach(before: seq<DeliveryAttempt>, after: seq<DeliveryAttempt>, runs: seq<TargetRun>, n: int) {
    && |after| == |before| + |runs| && after[..|before|] == before
    && forall i | 0 <= i < |runs| :: IsRowOf(after[|before| + i], runs[i], n)
  }

  ghost predicate IsRowOf(row: DeliveryAttempt, run: TargetRun, n: int) {
    && row.destination == run.destination && row.attempt == n && row.completedAt == Some(run.completedAt)
    && row.status == if run.outcome.delivered then RunSucceeded else RunFailed
  }

  /** The delivery call creates one closed attempt per target, in order, and nothing else in the attempt table. */
  lemma TargetsAreConserved(j: Job, workerMax: int, input: DeliverInput)
    requires Delivers(j, workerMax, input)
    ensures var after := Deliver(j, workerMax, input).job;
            && OneRowEach(j.delivery, after.delivery, input.runs, after.attempt)
            && after.state == FinalState(input.runs, after.attempt, workerMax)
  {
    RowsAreAppended(j, workerMax, input);
    RowsFollow(j.delivery, input.runs, Deliver(j, workerMax, input).job.attempt);
  }

  lemma RowsAreAppended(j: Job, workerMax: int, input: DeliverInput)
    requires Delivers(j, workerMax, input)
    ensures var after := Deliver(j, workerMax, input).job;
            && after.delivery == j.delivery + Rows(input.runs, after.attempt)
            && after.state == FinalState(input.runs, after.attempt, workerMax)
  {
    var attempt := ResolveAttempt(j.attempt);
    var copied := CopiedTo(StartDelivery(j, attempt, input.startedAt), input.runs, attempt);
    FinishDeliveryShape(copied, input.runs, attempt, workerMax, input.finalizedAt);
  }

  lemma RowsFollow(before: seq<DeliveryAttempt>, runs: seq<TargetRun>, attempt: int)
    ensures OneRowEach(before, before + Rows(runs, attempt), runs, attempt)
  {
  }

  // ---------- How a delivery call ends, by what can be seen before it ----------

  /** The job is processed, or was handed back for a retry, and its output can be read. */
  ghost predicate AwaitsDelivery(j: Job, input: DeliverInput) {
    && (j.state == Processed || (j.state == Delivering && j.attempt >= 2))
    && ManifestProcessed in j.manifests && input.manifestReadable
  }

  ghost predicate UsedInDelivery(j: Job, runs: seq<TargetRun>, n: int) {
    || (exists i, k | 0 <= i < |runs| && 0 <= k < |j.delivery| ::
          j.delivery[k].attempt == n && j.delivery[k].destination == runs[i].destination)
    || exists i, k | 0 <= i < k < |runs| :: runs[i].destination == runs[k].destination
  }

  /** FAILED for want of a destination, with a manifest that says so; no attempt and no event. */
  ghost predicate WithoutTargets(j: Job, after: Job, at: Time) {
    var n, m := Numbered(j.attempt), |j.history|;
    after == j.(
      state := Failed, terminal := Some(Failed), attempt := n, error := Some(NoMatchingDestination),
      manifests := j.manifests + [ManifestFailed],
      history :=
        j.history + [HistoryRow(Some(j.state), Failed, DeliveryService, Code(NoMatchingDestination), m + 1, at)])
  }

  /** What a target's copy says went wrong. */
  function ReasonOf(outcome: CopyOutcome): ErrorCode {
    match outcome.code
    case None => FinalizeFailed
    case Some(code) => code
  }

  /** One closed row, a started event and a final one for each target, in order. */
  ghost predicate OneForEach(runs: seq<TargetRun>, n: int, rows: seq<DeliveryAttempt>, events: seq<Event>) {
    && |rows| == |runs| && |events| == 2 * |runs|
    && forall i | 0 <= i < |runs| :: IsWritten(runs[i], n, rows[i], events[2 * i], events[2 * i + 1])
  }

  ghost predicate IsWritten(run: TargetRun, n: int, row: DeliveryAttempt, started: Event, ended: Event) {
    && row == (
         if run.outcome.delivered
         then DeliveryAttempt(run.destination, n, RunSucceeded, None, Some(run.completedAt))
         else DeliveryAttempt(run.destination, n, RunFailed, Some(ReasonOf(run.outcome)), Some(run.completedAt)))
    && started == Event(DeliveryStartedEvent, n, run.startedAt)
    && ended == Event(if run.outcome.delivered then DeliveryCompletedEvent else DeliveryFailedEvent, n, run.completedAt)
  }

  lemma {:induction false} RunsAreWritten(runs: seq<TargetRun>, n: int)
    ensures OneForEach(runs, n, Rows(runs, n), RunEvents(runs, n))
  {
    if runs != [] {
      var m := |runs| - 1;
      RunsAreWritten(runs[..m], n);
      var before, events := RunEvents(runs[..m], n), RunEvents(runs, n);
      assert |before| == 2 * m && |events| == 2 * m + 2;
      forall i | 0 <= i < |runs| ensures IsWritten(runs[i], n, Rows(runs, n)[i], events[2 * i], events[2 * i + 1]) {
        if i < m {
          assert IsWritten(runs[..m][i], n, Rows(runs[..m], n)[i], before[2 * i], before[2 * i + 1]);
        }
      }
    }
  }

  ghost predicate IsFirstFailure(runs: seq<TargetRun>, first: nat) {
    && first < |runs| && !runs[first].outcome.delivered
    && forall i | 0 <= i < first :: runs[i].outcome.delivered
  }

  /** COMPLETED, by way of DELIVERED. */
  ghost predicate CompletedAt(
    j: Job, after: Job, t0: Time, t1: Time, rows: seq<DeliveryAttempt>, events: seq<Event>)
  {
    var n, m := Numbered(j.attempt), |j.history|;
    after == j.(
      state := Completed, terminal := Some(Completed), attempt := n, delivery := j.delivery + rows,
      manifests := j.manifests + [ManifestDelivered],
      history := j.history + [HistoryRow(Some(j.state), Delivering, DeliveryService, DeliveryStarted, m + 1, t0),
                              HistoryRow(Some(Delivering), Delivered, DeliveryService, DeliveryCompleted, m + 2, t1),
                              HistoryRow(Some(Delivered), Completed, DeliveryService, JobCompleted, m + 3, t1)],
      events := j.events + events + [Event(JobCompletedEvent, n, t1)])
  }

  /** Completed with errors, waiting for a retry, or FAILED, with the code of the first failure. */
  ghost predicate EndedWithFailures(
    j: Job, after: Job, final: JobState, code: ErrorCode, t0: Time, t1: Time,
    rows: seq<DeliveryAttempt>, events: seq<Event>)
  {
    var n, m, partly := Numbered(j.attempt), |j.history|, final == CompletedWithDeliveryErrors;
    after == j.(
      state := final, terminal := (if final == RetryPending then None else Some(final)), attempt := n,
      error := Some(code), delivery := j.delivery + rows,
      manifests := j.manifests + [if partly then ManifestPartlyDelivered else ManifestFailed],
      history := j.history + [HistoryRow(Some(j.state), Delivering, DeliveryService, DeliveryStarted, m + 1, t0),
                              HistoryRow(Some(Delivering), final, DeliveryService, Code(code), m + 2, t1)],
      events := j.events + events + if partly then [Event(JobCompletedEvent, n, t1)] else [])
  }

  /** How a call ends that gets to its targets. */
  ghost predicate FanOutIsDecided(
    j: Job, max: int, input: DeliverInput, r: WorkResult, first: nat, rows: seq<DeliveryAttempt>, events: seq<Event>)
  {
    var n, t0, t1 := Numbered(j.attempt), input.startedAt, input.finalizedAt;
    && OneForEach(input.runs, n, rows, events)
    && if AllDelivered(input.runs) then r.status == WorkSucceeded && CompletedAt(j, r.job, t0, t1, rows, events)
       else
         && IsFirstFailure(input.runs, first)
         && r.status == (if NoneDelivered(input.runs) then WorkFailed else WorkSucceeded)
         && var final :=
              if !NoneDelivered(input.runs) then CompletedWithDeliveryErrors
              else if AllRetryable(input.runs) && n < max then RetryPending else Failed;
            EndedWithFailures(j, r.job, final, ReasonOf(input.runs[first].outcome), t0, t1, rows, events)
  }

  /**
   A delivery call is skipped unless the job and its output are ready. Without targets it fails the job, claimed or
   not; with targets it is skipped when the stage is claimed, aborted when a target's number is used, and otherwise
   goes through all of them.
   */
  lemma DeliveryIsDecided(j: Job, max: int, input: DeliverInput)
    returns (first: nat, rows: seq<DeliveryAttempt>, events: seq<Event>)
    ensures var r := Deliver(j, max, input);
            if !AwaitsDelivery(j, input) then r == WorkResult(j, WorkSkipped)
            else if input.runs == [] then r.status == WorkFailed && WithoutTargets(j, r.job, input.finalizedAt)
            else if !input.claimFree then r == WorkResult(j, WorkSkipped)
            else if UsedInDelivery(j, input.runs, Numbered(j.attempt)) then r == WorkResult(j, WorkAborted)
            else FanOutIsDecided(j, max, input, r, first, rows, events)
  {
    var n := Numbered(j.attempt);
    first, rows, events := 0, Rows(input.runs, n), RunEvents(input.runs, n);
    if AwaitsDelivery(j, input) && input.claimFree && input.runs != [] && !UsedInDelivery(j, input.runs, n) {
      first := FindFirstFailure(input.runs);
      RunsAreWritten(input.runs, n);
      FinalStateIsDecided(input.runs, n, max);
      FailuresAreTheFailures(input.runs);
      GettingToTargets(j, max, input);
      if AllDelivered(input.runs) {
        CompletionIsDecided(CopiedTo(StartDelivery(j, n, input.startedAt), input.runs, n), j, n, input);
      } else {
        FirstFailure(input.runs, first);
        FailureIsDecided(CopiedTo(StartDelivery(j, n, input.startedAt), input.runs, n), j, n, max, input, first);
      }
    }
  }

  lemma FindFirstFailure(runs: seq<TargetRun>) returns (first: nat)
    ensures !AllDelivered(runs) ==> IsFirstFailure(runs, first)
  {
    first := 0;
    while first < |runs| && runs[first].outcome.delivered
      invariant first <= |runs| && forall i | 0 <= i < first :: runs[i].outcome.delivered
    {
      first := first + 1;
    }
  }

  lemma GettingToTargets(j: Job, max: int, input: DeliverInput)
    requires AwaitsDelivery(j, input) && input.claimFree && input.runs != []
    requires !UsedInDelivery(j, input.runs, Numbered(j.attempt))
    ensures Deliverable(j)
    ensures var n := Numbered(j.attempt);
            var copied := CopiedTo(StartDelivery(j, n, input.startedAt), input.runs, n);
            Deliver(j, max, input)
            == WorkResult(FinishDelivery(copied, input.runs, n, max, input.finalizedAt),
                          if |Failures(input.runs)| < |input.runs| then WorkSucceeded else WorkFailed)
  {
  }

  lemma CompletionIsDecided(copied: Job, j: Job, n: int, input: DeliverInput)
    requires Deliverable(j) && n == Numbered(j.attempt) && Failures(input.runs) == []
    requires copied == CopiedTo(StartDelivery(j, n, input.startedAt), input.runs, n)
    ensures forall max :: CompletedAt(j, FinishDelivery(copied, input.runs, n, max, input.finalizedAt), input.startedAt,
                                      input.finalizedAt, Rows(input.runs, n), RunEvents(input.runs, n))
  {
  }

  lemma FailureIsDecided(copied: Job, j: Job, n: int, max: int, input: DeliverInput, first: nat)
    requires Deliverable(j) && n == Numbered(j.attempt) && first < |input.runs|
    requires Failures(input.runs) != [] && Failures(input.runs)[0] == input.runs[first]
    requires copied == CopiedTo(StartDelivery(j, n, input.startedAt), input.runs, n)
    ensures EndedWithFailures(
              j, FinishDelivery(copied, input.runs, n, max, input.finalizedAt), FinalState(input.runs, n, max),
              ReasonOf(input.runs[first].outcome), input.startedAt, input.finalizedAt,
              Rows(input.runs, n), RunEvents(input.runs, n))
  {
  }
}
