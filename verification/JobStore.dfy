/**
 The stored rows of a job as the services change them: one field at a time, in place. The repositories of
 jobs, attempts, manifests, schedules and the outbox are methods of the record they write to.
 */
module JobStore {
  import opened Basics
  import opened JobModel

  /** History rows are numbered 1, 2, 3, ... in the order they were appended. */
  ghost predicate Numbered(rows: seq<HistoryRow>) {
    forall i | 0 <= i < |rows| :: rows[i].sequence == i + 1
  }

  class JobRecord {
    var state: JobState
    var terminal: Option<JobState>
    var attempt: int
    var error: Option<ErrorCode>
    var hasChecksum: bool
    var history: seq<HistoryRow>
    var schedules: seq<Schedule>
    var validations: seq<ValidationAttempt>
    var processing: seq<ProcessingAttempt>
    var delivery: seq<DeliveryAttempt>
    var manifests: seq<ManifestStatus>
    var events: seq<Event>

    ghost predicate Valid()
      reads this
    {
      Numbered(history)
    }

    /** Everything stored about the job. */
    function Value(): Job
      reads this
    {
      Job(state, terminal, attempt, error, hasChecksum, history, schedules, validations, processing, delivery,
          manifests, events)
    }

    /** `create_job` */
    constructor (initial: JobState, sha256Known: bool)
      ensures Valid()
      ensures Value() == Job(initial, TerminalState(initial), 0, None, sha256Known, [], [], [], [], [], [], [])
    {
      state, attempt, error, hasChecksum := initial, 0, None, sha256Known;
      terminal := if IsTerminal(initial) then Some(initial) else None;
      history, schedules, validations, processing, delivery := [], [], [], [], [];
      manifests, events := [], [];
    }

    /** Rolling the transaction back restores every row. */
    method Rollback(begun: Job)
      requires Numbered(begun.history)
      modifies this
      ensures Value() == begun && Valid()
    {
      state, terminal, attempt, error := begun.state, begun.terminal, begun.attempt, begun.error;
      hasChecksum, history := begun.hasChecksum, begun.history;
      RollbackTables(begun);
    }

    method RollbackTables(begun: Job)
      modifies this`schedules, this`validations, this`processing, this`delivery, this`manifests, this`events
      ensures schedules == begun.schedules && validations == begun.validations && processing == begun.processing
      ensures delivery == begun.delivery && manifests == begun.manifests && events == begun.events
    {
      schedules, validations, processing := begun.schedules, begun.validations, begun.processing;
      delivery, manifests, events := begun.delivery, begun.manifests, begun.events;
    }

    /** `ok` is false where the transition is not allowed, which raises an error. */
    method UpdateState(next: JobState, newError: Option<ErrorCode>, newAttempt: Option<int>) returns (ok: bool)
      modifies this`state, this`terminal, this`error, this`attempt
      ensures ok == TransitionAllowed(old(state), next)
      ensures state == if ok then next else old(state)
      ensures terminal == if ok then TerminalState(next) else old(terminal)
      ensures error == if ok && newError.Some? then newError else old(error)
      ensures attempt == if ok && newAttempt.Some? then newAttempt.value else old(attempt)
    {
      ok := TransitionAllowed(state, next);
      if ok {
        state := next;
        terminal := TerminalState(next);
        error := if newError.Some? then newError else error;
        attempt := if newAttempt.Some? then newAttempt.value else attempt;
      }
    }

    /** `SELECT max(transition_sequence)`; None when there is no row. */
    method LargestSequence() returns (largest: Option<int>)
      requires Valid()
      ensures largest == if history == [] then None else Some(|history|)
    {
      largest := None;
      for i := 0 to |history|
        invariant largest == if i == 0 then None else Some(i)
      {
        if largest.None? || history[i].sequence > largest.value {
          largest := Some(history[i].sequence);
        }
      }
    }

    method AppendStateHistory(previous: Option<JobState>, next: JobState, actor: Service, reason: Reason, at: Time)
      requires Valid()
      modifies this`history
      ensures Valid()
      ensures history == old(history) + [HistoryRow(previous, next, actor, reason, |old(history)| + 1, at)]
    {
      var largest := LargestSequence();
      var sequence := if largest.None? then 1 else largest.value + 1;
      history := history + [HistoryRow(previous, next, actor, reason, sequence, at)];
    }

    /** The two writes of every state change, for a transition that is allowed. */
    method Advance(previous: JobState, next: JobState, newError: Option<ErrorCode>, newAttempt: Option<int>,
                   actor: Service, reason: Reason, at: Time)
      requires Valid() && previous == state && TransitionAllowed(state, next)
      modifies this`state, this`terminal, this`error, this`attempt, this`history
      ensures Valid()
      ensures Value() == Move(old(Value()), next, newError, newAttempt, actor, reason, at)
    {
      var ok := UpdateState(next, newError, newAttempt);
      assert ok;
      AppendStateHistory(Some(previous), next, actor, reason, at);
    }

    method EnqueueEvent(kind: EventKind, attemptNumber: int, at: Time)
      modifies this`events
      ensures Value() == Emit(old(Value()), kind, attemptNumber, at)
    {
      events := events + [Event(kind, attemptNumber, at)];
    }

    method CreateValidationAttempt(attemptNumber: int, valid: bool)
      modifies this`validations
      ensures validations == old(validations) + [ValidationAttempt(attemptNumber, valid)]
    {
      validations := validations + [ValidationAttempt(attemptNumber, valid)];
    }

    /** `ok` is false where the unique key (job, attempt) is violated. */
    method CreateProcessingAttempt(attemptNumber: int) returns (ok: bool, id: nat)
      modifies this`processing
      ensures ok == !(exists i | 0 <= i < |old(processing)| :: old(processing)[i].attempt == attemptNumber)
      ensures processing == if ok then old(processing) + [ProcessingAttempt(attemptNumber, RunStarted, None, None)]
                            else old(processing)
      ensures id == |old(processing)|
    {
      id := |processing|;
      for i := 0 to |processing|
        invariant processing == old(processing)
        invariant forall k | 0 <= k < i :: processing[k].attempt != attemptNumber
      {
        if processing[i].attempt == attemptNumber {
          return false, id;
        }
      }
      processing := processing + [ProcessingAttempt(attemptNumber, RunStarted, None, None)];
      ok := true;
    }

    method CompleteProcessingAttempt(id: nat, at: Time)
      requires id < |processing|
      modifies this`processing
      ensures processing == old(processing)[id := old(processing)[id].(status := RunSucceeded, completedAt := Some(at))]
    {
      processing := processing[id := processing[id].(status := RunSucceeded, completedAt := Some(at))];
    }

    method FailProcessingAttempt(id: nat, code: ErrorCode, at: Time)
      requires id < |processing|
      modifies this`processing
      ensures processing == old(processing)[id := old(processing)[id].(
                              status := RunFailed, error := Some(code), completedAt := Some(at))]
    {
      processing := processing[id := processing[id].(status := RunFailed, error := Some(code),
                                                     completedAt := Some(at))];
    }

    /** `ok` is false where the unique key (job, destination, attempt) is violated. */
    method CreateDeliveryAttempt(destination: DestinationId, attemptNumber: int) returns (ok: bool, id: nat)
      modifies this`delivery
      ensures ok == !(exists i | 0 <= i < |old(delivery)| ::
                        old(delivery)[i].attempt == attemptNumber && old(delivery)[i].destination == destination)
      ensures delivery == if ok then
              old(delivery) + [DeliveryAttempt(destination, attemptNumber, RunStarted, None, None)]
                          else old(delivery)
      ensures id == |old(delivery)|
    {
      id := |delivery|;
      for i := 0 to |delivery|
        invariant delivery == old(delivery)
        invariant forall k | 0 <= k < i ::
                    !(delivery[k].attempt == attemptNumber && delivery[k].destination == destination)
      {
        if delivery[i].attempt == attemptNumber && delivery[i].destination == destination {
          return false, id;
        }
      }
      delivery := delivery + [DeliveryAttempt(destination, attemptNumber, RunStarted, None, None)];
      ok := true;
    }

    method CompleteDeliveryAttempt(id: nat, at: Time)
      requires id < |delivery|
      modifies this`delivery
      ensures delivery == old(delivery)[id := old(delivery)[id].(status := RunSucceeded, completedAt := Some(at))]
    {
      delivery := delivery[id := delivery[id].(status := RunSucceeded, completedAt := Some(at))];
    }

    method FailDeliveryAttempt(id: nat, code: ErrorCode, at: Time)
      requires id < |delivery|
      modifies this`delivery
      ensures delivery == old(delivery)[id := old(delivery)[id].(
                            status := RunFailed, error := Some(code), completedAt := Some(at))]
    {
      delivery := delivery[id := delivery[id].(status := RunFailed, error := Some(code), completedAt := Some(at))];
    }

    method CreateOutputManifest(status: ManifestStatus)
      modifies this`manifests
      ensures manifests == old(manifests) + [status]
    {
      manifests := manifests + [status];
    }

    /** `schedule_retry`: a new row, always with status `Open`. */
    method CreateSchedule(row: Schedule)
      requires row.status == Open
      modifies this`schedules
      ensures schedules == old(schedules) + [row]
    {
      schedules := schedules + [row];
    }

    method MarkRetryAttempted(k: nat)
      requires k < |schedules|
      modifies this`schedules
      ensures schedules == old(schedules)[k := old(schedules)[k].(status := Attempted)]
    {
      schedules := schedules[k := schedules[k].(status := Attempted)];
    }

    method MarkRetryExhausted(k: nat, lastError: Option<ErrorCode>)
      requires k < |schedules|
      modifies this`schedules
      ensures schedules == old(schedules)[k := old(schedules)[k].(status := ExhaustedSchedule, lastError := lastError)]
    {
      schedules := schedules[k := schedules[k].(status := ExhaustedSchedule, lastError := lastError)];
    }

    method MarkRetryFailed(k: nat, lastError: Option<ErrorCode>)
      requires k < |schedules|
      modifies this`schedules
      ensures schedules == old(schedules)[k := old(schedules)[k].(status := FailedSchedule, lastError := lastError)]
    {
      schedules := schedules[k := schedules[k].(status := FailedSchedule, lastError := lastError)];
    }
  }

  /** The job table: every id has a record of its own. */
  class JobRepository {
    var rows: map<JobId, JobRecord>

    ghost predicate Valid()
      reads this, rows.Values
    {
      && (forall id | id in rows :: rows[id].Valid())
      && (forall a, b | a in rows && b in rows && a != b :: rows[a] != rows[b])
    }

    /** What is stored about every job. */
    ghost function Value(): map<JobId, Job>
      reads this, rows.Values
    {
      map id | id in rows :: rows[id].Value()
    }

    constructor ()
      ensures Valid() && rows == map[]
    {
      rows := map[];
    }

    method GetJob(id: JobId) returns (job: JobRecord?)
      ensures job == if id in rows then rows[id] else null
    {
      job := if id in rows then rows[id] else null;
    }
  }
}
