/** The outbox of a job agrees with its rows and its state, after any calls in any order. */
module Ledger {
  import opened Basics
  import opened JobModel
  import opened RetryPolicy
  import opened JobSteps
  import opened DeliveryFanOut

  /** How many events of each kind the outbox holds. */
  datatype Tally = Tally(
    processingStarted: nat, processingCompleted: nat, processingFailed: nat,
    deliveryStarted: nat, deliveryCompleted: nat, deliveryFailed: nat,
    retryScheduled: nat, jobCompleted: nat)
  {
    function Add(kind: EventKind): Tally {
      match kind
      case ProcessingStartedEvent => this.(processingStarted := processingStarted + 1)
      case ProcessingCompletedEvent => this.(processingCompleted := processingCompleted + 1)
      case ProcessingFailedEvent => this.(processingFailed := processingFailed + 1)
      case DeliveryStartedEvent => this.(deliveryStarted := deliveryStarted + 1)
      case DeliveryCompletedEvent => this.(deliveryCompleted := deliveryCompleted + 1)
      case DeliveryFailedEvent => this.(deliveryFailed := deliveryFailed + 1)
      case RetryScheduledEvent => this.(retryScheduled := retryScheduled + 1)
      case JobCompletedEvent => this.(jobCompleted := jobCompleted + 1)
      case _ => this
    }
  }

  function Count(events: seq<Event>): Tally {
    if events == [] then Tally(0, 0, 0, 0, 0, 0, 0, 0)
    else Count(events[..|events| - 1]).Add(events[|events| - 1].kind)
  }

  function CountProcessing(rows: seq<ProcessingAttempt>, status: RunStatus): nat {
    if rows == [] then 0
    else CountProcessing(rows[..|rows| - 1], status) + if rows[|rows| - 1].status == status then 1 else 0
  }

  function CountDelivery(rows: seq<DeliveryAttempt>, status: RunStatus): nat {
    if rows == [] then 0
    else CountDelivery(rows[..|rows| - 1], status) + if rows[|rows| - 1].status == status then 1 else 0
  }

  /** The books: started = completed + failed for both stages, each matched by attempt rows, all of them closed. */
  ghost predicate Balanced(j: Job) {
    var t := Count(j.events);
    && t.processingCompleted == CountProcessing(j.processing, RunSucceeded)
    && t.processingFailed == CountProcessing(j.processing, RunFailed)
    && t.processingStarted == t.processingCompleted + t.processingFailed == |j.processing|
    && t.deliveryCompleted == CountDelivery(j.delivery, RunSucceeded)
    && t.deliveryFailed == CountDelivery(j.delivery, RunFailed)
    && t.deliveryStarted == t.deliveryCompleted + t.deliveryFailed == |j.delivery|
    && t.retryScheduled == |j.schedules|
    && t.jobCompleted == if j.state in {Completed, CompletedWithDeliveryErrors} then 1 else 0
  }

  lemma CountAppend(events: seq<Event>, e: Event)
    ensures Count(events + [e]) == Count(events).Add(e.kind)
  {
    assert (events + [e])[..|events|] == events;
  }

  lemma CountProcessingAppend(rows: seq<ProcessingAttempt>, row: ProcessingAttempt, status: RunStatus)
    ensures CountProcessing(rows + [row], status)
            == CountProcessing(rows, status) + if row.status == status then 1 else 0
  {
    assert (rows + [row])[..|rows|] == rows;
  }

  lemma CountDeliveryAppend(rows: seq<DeliveryAttempt>, row: DeliveryAttempt, status: RunStatus)
    ensures CountDelivery(rows + [row], status) == CountDelivery(rows, status) + if row.status == status then 1 else 0
  {
    assert (rows + [row])[..|rows|] == rows;
  }

  lemma {:induction false} CountRows(rows: seq<DeliveryAttempt>, runs: seq<TargetRun>, attempt: int)
    ensures CountDelivery(rows + Rows(runs, attempt), RunFailed) == CountDelivery(rows, RunFailed) + |Failures(runs)|
    ensures CountDelivery(rows + Rows(runs, attempt), RunSucceeded)
            == CountDelivery(rows, RunSucceeded) + |runs| - |Failures(runs)|
  {
    if runs == [] {
      assert rows + Rows(runs, attempt) == rows;
    } else {
      var n := |runs| - 1;
      var before := rows + Rows(runs[..n], attempt);
      CountRows(rows, runs[..n], attempt);
      assert rows + Rows(runs, attempt) == before + [runs[n].Row(attempt)];
      CountDeliveryAppend(before, runs[n].Row(attempt), RunFailed);
      CountDeliveryAppend(before, runs[n].Row(attempt), RunSucceeded);
    }
  }

  lemma OneRunEvents(run: TargetRun, attempt: int)
    ensures RunEvents([run], attempt)
            == [Event(DeliveryStartedEvent, attempt, run.startedAt),
                Event(if run.outcome.delivered then DeliveryCompletedEvent else DeliveryFailedEvent, attempt,
                      run.completedAt)]
  {
    assert RunEvents([run][..0], attempt) == [];
  }

  /** The two events of one destination. */
  lemma CountRun(events: seq<Event>, run: TargetRun, attempt: int)
    ensures var t := Count(events);
            Count(events + RunEvents([run], attempt)) ==
            t.(deliveryStarted := t.deliveryStarted + 1,
               deliveryCompleted := t.deliveryCompleted + if run.outcome.delivered then 1 else 0,
               deliveryFailed := t.deliveryFailed + if run.outcome.delivered then 0 else 1)
  {
    var ended := if run.outcome.delivered then DeliveryCompletedEvent else DeliveryFailedEvent;
    var e0, e1 := Event(DeliveryStartedEvent, attempt, run.startedAt), Event(ended, attempt, run.completedAt);
    assert events + RunEvents([run], attempt) == events + [e0] + [e1] by { OneRunEvents(run, attempt); }
    CountAppend(events, e0);
    CountAppend(events + [e0], e1);
  }

  lemma RunEventsLast(runs: seq<TargetRun>, attempt: int)
    requires runs != []
    ensures RunEvents(runs, attempt) == RunEvents(runs[..|runs| - 1], attempt) + RunEvents([runs[|runs| - 1]], attempt)
  {
    assert RunEvents([], attempt) == [];
  }

  lemma {:induction false} CountRunEvents(events: seq<Event>, runs: seq<TargetRun>, attempt: int)
    ensures |Failures(runs)| <= |runs|
    ensures var t := Count(events);
            Count(events + RunEvents(runs, attempt)) ==
            t.(deliveryStarted := t.deliveryStarted + |runs|,
               deliveryCompleted := t.deliveryCompleted + |runs| - |Failures(runs)|,
               deliveryFailed := t.deliveryFailed + |Failures(runs)|)
  {
    if runs == [] {
      assert events + RunEvents(runs, attempt) == events;
    } else {
      var n := |runs| - 1;
      CountRunEvents(events, runs[..n], attempt);
      CountRun(events + RunEvents(runs[..n], attempt), runs[n], attempt);
      RunEventsLast(runs, attempt);
      assert events + RunEvents(runs, attempt)
          == events + RunEvents(runs[..n], attempt) + RunEvents([runs[n]], attempt);
    }
  }

  lemma RegisterBalanced(hasChecksum: bool, at: Time)
    ensures Balanced(Register(hasChecksum, at))
  {
    CountAppend([], Event(FileDetectedEvent, 0, at));
    CountAppend([Event(FileDetectedEvent, 0, at)], Event(FileStableEvent, 0, at));
    CountAppend([Event(FileDetectedEvent, 0, at), Event(FileStableEvent, 0, at)], Event(JobRegisteredEvent, 0, at));
  }

  lemma ValidateBalanced(j: Job, verdict: ValidationVerdict, t0: Time, t1: Time, t2: Time)
    requires Balanced(j)
    ensures Balanced(Validate(j, verdict, t0, t1, t2))
  {
    CountAppend(j.events, Event(FileValidatedEvent, 1, t1));
    CountAppend(j.events, Event(FileQuarantinedEvent, 1, t2));
  }

  /** One processing attempt: a row, its started event, and the event that ends it. */
  ghost predicate Works(before: Job, after: Job, row: ProcessingAttempt, e0: Event, e1: Event) {
    && after.events == before.events + [e0] + [e1] && e0.kind == ProcessingStartedEvent
    && after.processing == before.processing + [row]
    && (|| (row.status == RunSucceeded && e1.kind == ProcessingCompletedEvent)
        || (row.status == RunFailed && e1.kind == ProcessingFailedEvent))
    && after.delivery == before.delivery && after.schedules == before.schedules
    && before.state !in {Completed, CompletedWithDeliveryErrors}
    && after.state in {Processed, RetryPending, Failed}
  }

  lemma ProcessWorks(j: Job, workerMax: int, input: ProcessInput) returns (row: ProcessingAttempt, e0: Event, e1: Event)
    requires Process(j, workerMax, input).status in {WorkSucceeded, WorkFailed}
    ensures Works(j, Process(j, workerMax, input).job, row, e0, e1)
  {
    var after := Process(j, workerMax, input).job;
    row := after.processing[|j.processing|];
    e0, e1 := after.events[|j.events|], after.events[|j.events| + 1];
  }

  lemma WorksBalanced(before: Job, after: Job, row: ProcessingAttempt, e0: Event, e1: Event)
    requires Balanced(before) && Works(before, after, row, e0, e1)
    ensures Balanced(after)
  {
    CountAppend(before.events, e0);
    CountAppend(before.events + [e0], e1);
    CountProcessingAppend(before.processing, row, RunSucceeded);
    CountProcessingAppend(before.processing, row, RunFailed);
  }

  lemma ProcessBalanced(j: Job, r: WorkResult, workerMax: int, input: ProcessInput)
    requires Balanced(j) && r == Process(j, workerMax, input)
    ensures Balanced(r.job)
  {
    if r.status in {WorkSucceeded, WorkFailed} {
      var row, e0, e1 := ProcessWorks(j, workerMax, input);
      WorksBalanced(j, r.job, row, e0, e1);
    }
  }

  lemma FinishDeliveryCounts(j: Job, runs: seq<TargetRun>, attempt: int, workerMax: int, at: Time)
    requires j.state == Delivering
    ensures var after := FinishDelivery(j, runs, attempt, workerMax, at);
            && after.processing == j.processing && after.delivery == j.delivery && after.schedules == j.schedules
            && Count(after.events) ==
               if after.state in {Completed, CompletedWithDeliveryErrors}
               then Count(j.events).Add(JobCompletedEvent) else Count(j.events)
  {
    CountAppend(j.events, Event(JobCompletedEvent, attempt, at));
  }

  /** One fan-out: a row and a pair of events per target, and job.completed exactly if it completes the job. */
  ghost predicate FansOut(before: Job, after: Job, runs: seq<TargetRun>, attempt: int) {
    && after.processing == before.processing && after.schedules == before.schedules
    && after.delivery == before.delivery + Rows(runs, attempt)
    && before.state !in {Completed, CompletedWithDeliveryErrors}
    && var events := Count(before.events + RunEvents(runs, attempt));
       Count(after.events) == if after.state in {Completed, CompletedWithDeliveryErrors}
                              then events.Add(JobCompletedEvent) else events
  }

  lemma DeliverFansOut(j: Job, workerMax: int, input: DeliverInput)
    requires Delivers(j, workerMax, input)
    ensures FansOut(j, Deliver(j, workerMax, input).job, input.runs, ResolveAttempt(j.attempt))
  {
    var attempt := ResolveAttempt(j.attempt);
    var copied := CopiedTo(StartDelivery(j, attempt, input.startedAt), input.runs, attempt);
    FinishDeliveryCounts(copied, input.runs, attempt, workerMax, input.finalizedAt);
  }

  lemma FanOutBalanced(before: Job, after: Job, runs: seq<TargetRun>, attempt: int)
    requires Balanced(before) && FansOut(before, after, runs, attempt)
    ensures Balanced(after)
  {
    CountRows(before.delivery, runs, attempt);
    CountRunEvents(before.events, runs, attempt);
  }

  lemma DeliverBalanced(j: Job, r: WorkResult, workerMax: int, input: DeliverInput)
    requires Balanced(j) && r == Deliver(j, workerMax, input)
    ensures Balanced(r.job)
  {
    if Delivers(j, workerMax, input) {
      DeliverFansOut(j, workerMax, input);
      FanOutBalanced(j, r.job, input.runs, ResolveAttempt(j.attempt));
    }
  }

  /** A retry bookkeeping call leaves the attempts alone, and adds one schedule exactly with its event. */
  ghost predicate Books(before: Job, after: Job, added: Option<Event>) {
    && after.processing == before.processing && after.delivery == before.delivery
    && (after.state == before.state || (before.state !in {Completed, CompletedWithDeliveryErrors}
                                        && after.state !in {Completed, CompletedWithDeliveryErrors}))
    && match added
       case None => after.events == before.events && |after.schedules| == |before.schedules|
       case Some(e) =>
         && after.events == before.events + [e]
         && (|| (e.kind == RetryScheduledEvent && |after.schedules| == |before.schedules| + 1)
             || (e.kind == JobFailedEvent && |after.schedules| == |before.schedules|))
  }

  lemma BooksBalanced(before: Job, after: Job, added: Option<Event>)
    requires Balanced(before) && Books(before, after, added)
    ensures Balanced(after)
  {
    if added.Some? {
      CountAppend(before.events, added.value);
    }
  }

  function Added(before: Job, after: Job): Option<Event> {
    if |after.events| > |before.events| then Some(after.events[|before.events|]) else None
  }

  lemma EnactBooks(j: Job, p: Policy, d: Decision, stage: Stage, code: ErrorCode, now: Time, delay: real)
    requires d.Fits(j, p, stage)
    ensures var after := Enact(j, p, d, stage, code, now, delay).job; Books(j, after, Added(j, after))
  {
    match d {
      case Skip =>
      case Retry => RetryBooks(j, p, stage, code, now, delay);
      case GiveUp(to) => GiveUpBooks(j, p, to, stage, code, now, delay);
      case Exhaust => ExhaustedBooks(j, p, stage, code, now, delay);
    }
  }

  lemma GiveUpBooks(j: Job, p: Policy, to: JobState, stage: Stage, code: ErrorCode, now: Time, delay: real)
    requires GiveUp(to).Fits(j, p, stage)
    ensures var after := Enact(j, p, GiveUp(to), stage, code, now, delay).job; Books(j, after, Added(j, after))
  {
  }

  lemma ExhaustedBooks(j: Job, p: Policy, stage: Stage, code: ErrorCode, now: Time, delay: real)
    requires Exhaust.Fits(j, p, stage)
    ensures var after := Enact(j, p, Exhaust, stage, code, now, delay).job; Books(j, after, Added(j, after))
  {
  }

  lemma RetryBooks(j: Job, p: Policy, stage: Stage, code: ErrorCode, now: Time, delay: real)
    requires Retry.Fits(j, p, stage)
    ensures var after := Enact(j, p, Retry, stage, code, now, delay).job; Books(j, after, Added(j, after))
  {
  }

  lemma ExhaustBooks(j: Job, k: nat, now: Time)
    requires k < |j.schedules| && j.schedules[k].attempt > j.schedules[k].maxAttempts
    ensures var after := ReleaseRetry(j, k, now).job; Books(j, after, Added(j, after))
  {
  }

  lemma ReleaseBooks(j: Job, k: nat, now: Time)
    ensures var after := ReleaseRetry(j, k, now).job; Books(j, after, Added(j, after))
  {
    if k < |j.schedules| && j.schedules[k].attempt > j.schedules[k].maxAttempts {
      ExhaustBooks(j, k, now);
    }
  }

  lemma ManualBooks(j: Job, p: Policy, now: Time)
    ensures var after := ManualRetry(j, p, now).job; Books(j, after, Added(j, after))
  {
  }

  lemma StepBalanced(c: Config, j: Job, step: Step)
    requires Balanced(j)
    ensures Balanced(Apply(c, j, step))
  {
    var after := Apply(c, j, step);
    match step
    case StepValidate(verdict, t0, t1, t2) => ValidateBalanced(j, verdict, t0, t1, t2);
    case StepProcess(input) => ProcessBalanced(j, Process(j, c.workerMax, input), c.workerMax, input);
    case StepDeliver(input) => DeliverBalanced(j, Deliver(j, c.workerMax, input), c.workerMax, input);
    case StepSchedule(stage, code, now, sample) =>
      EnactBooks(j, c.policy, Decide(j, c.policy, stage, code), stage, code, now,
        DelayFor(j, c.policy, stage, code, sample));
      BooksBalanced(j, after, Added(j, after));
    case StepRelease(schedule, now) =>
      ReleaseBooks(j, schedule, now);
      BooksBalanced(j, after, Added(j, after));
    case StepManual(now) =>
      ManualBooks(j, c.policy, now);
      BooksBalanced(j, after, Added(j, after));
  }

  lemma {:induction false} CallsBalanced(c: Config, j: Job, steps: seq<Step>)
    requires Balanced(j)
    ensures Balanced(Continue(c, j, steps))
  {
    if steps != [] {
      var n := |steps| - 1;
      CallsBalanced(c, j, steps[..n]);
      StepBalanced(c, Continue(c, j, steps[..n]), steps[n]);
    }
  }

  /** On every run, events and rows agree, and there is one job.completed event exactly if the job is completed. */
  lemma OutboxAgrees(c: Config, hasChecksum: bool, at: Time, steps: seq<Step>)
    ensures Balanced(Run(c, hasChecksum, at, steps))
  {
    RegisterBalanced(hasChecksum, at);
    CallsBalanced(c, Register(hasChecksum, at), steps);
  }
}
