/** The command and key tables, and the two services that write to them. */
module CommandService {
  import opened Basics
  import opened JobModel
  import opened RetryPolicy
  import opened JobSteps
  import opened JobStore
  import opened RetryService
  import opened RoutePreview
  import opened Commands

  class CommandRepository {
    var commands: seq<Command>
    var keys: map<KeyName, KeyRow>

    function Value(): Desk
      reads this
    {
      Desk(commands, keys)
    }

    constructor ()
      ensures Value() == EMPTY_DESK
    {
      commands, keys := [], map[];
    }

    method GetKey(scope: Scope, key: string) returns (row: Option<KeyRow>)
      ensures row == Get(keys, KeyName(scope, key))
    {
      row := if KeyName(scope, key) in keys then Some(keys[KeyName(scope, key)]) else None;
    }

    method CreateCommand(scope: Scope, payload: Payload, key: Option<string>) returns (id: CommandId)
      modifies this`commands
      ensures id == |old(commands)|
      ensures commands == old(commands) + [Command(scope, payload, key, CommandAccepted)]
    {
      id := |commands|;
      commands := commands + [Command(scope, payload, key, CommandAccepted)];
    }

    method UpdateCommandStatus(id: CommandId, status: CommandStatus)
      requires id < |commands|
      modifies this`commands
      ensures commands == old(commands)[id := old(commands)[id].(status := status)]
    {
      commands := commands[id := commands[id].(status := status)];
    }

    /** `ok` is false where the unique key (scope, key) is violated. */
    method ReserveIdempotencyKey(scope: Scope, key: string, payload: Payload, response: Response) returns (ok: bool)
      modifies this`keys
      ensures ok == (KeyName(scope, key) !in old(keys))
      ensures keys == if ok then old(keys)[KeyName(scope, key) := KeyRow(payload, response)] else old(keys)
    {
      ok := KeyName(scope, key) !in keys;
      if ok {
        keys := keys[KeyName(scope, key) := KeyRow(payload, response)];
      }
    }

    /** The answer a known key gives without running the request again. */
    method AnswerKnownKey(scope: Scope, payload: Payload, key: Option<string>) returns (answer: Option<Answer>)
      ensures answer == AnswerFromKey(Value(), scope, payload, key)
    {
      if key.None? {
        return None;
      }
      var row := GetKey(scope, key.value);
      if row.None? {
        return None;
      }
      if row.value.payload != payload {
        return Some(Refused(KeyConflict));
      }
      answer := Some(Replayed(row.value.response));
    }

    /** The command row and, for a client's key, the key row; the unique key is never violated. */
    method Record(scope: Scope, payload: Payload, key: Option<string>, at: Time) returns (response: Response)
      requires AnswerFromKey(Value(), scope, payload, key).None?
      modifies this
      ensures Value() == Recorded(old(Value()), scope, payload, key, CommandAccepted, at)
      ensures response == Response(|old(commands)|, at)
    {
      var id := CreateCommand(scope, payload, key);
      response := Response(id, at);
      if key.Some? {
        var ok := ReserveIdempotencyKey(scope, key.value, payload, response);
        assert ok;
      }
    }
  }

  /** `accept_manual_retry_command`; `job` is null when the id is unknown. */
  method AcceptManualRetryCommand(policy: Policy, id: JobId, job: JobRecord?, desk: CommandRepository,
                                  payload: Payload, key: Option<string>, now: Time)
    returns (answer: Answer)
    requires job != null ==> job.Valid()
    modifies job, desk
    ensures job != null ==> job.Valid()
    ensures var value := if job == null then None else Some(job.Value());
            RetryOutcome(value, desk.Value(), answer)
            == HandleRetry(policy, id, if job == null then None else Some(old(job.Value())), old(desk.Value()),
                           payload, key, now)
  {
    if !GivesReason(payload) {
      return Refused(ReasonRequired);
    }
    var known := desk.AnswerKnownKey(RetryOf(id), payload, key);
    if known.Some? {
      return known.value;
    }
    if job == null {
      return Refused(NotFound);
    }
    var verdict := CheckRetryable(policy, job);
    if verdict != ManualAccepted {
      return Refused(RefusalFor(verdict));
    }
    var response := RecordRetry(policy, id, job, desk, payload, key, now);
    answer := Accepted(response);
  }

  /** The writes of an accepted retry: the command and its key, the job, and the command's success. */
  method RecordRetry(policy: Policy, id: JobId, job: JobRecord, desk: CommandRepository,
                     payload: Payload, key: Option<string>, now: Time)
    returns (response: Response)
    requires job.Valid() && ManualRetry(job.Value(), policy, now).verdict == ManualAccepted
    requires AnswerFromKey(desk.Value(), RetryOf(id), payload, key).None?
    modifies job, desk
    ensures job.Valid() && job.Value() == ManualRetry(old(job.Value()), policy, now).job
    ensures desk.Value() == Recorded(old(desk.Value()), RetryOf(id), payload, key, CommandSucceeded, now)
    ensures response == Response(|old(desk.commands)|, now)
  {
    response := desk.Record(RetryOf(id), payload, key, now);
    RetryByHand(policy, job, now);
    desk.UpdateCommandStatus(response.command, CommandSucceeded);
  }

  /** The refusals that depend on the job, in the order they are checked. */
  method CheckRetryable(policy: Policy, job: JobRecord) returns (verdict: ManualVerdict)
    ensures forall now :: verdict == ManualRetry(job.Value(), policy, now).verdict
  {
    if job.state != Failed {
      return JobNotRetryable;
    }
    var context := InferFailedStage(job.Value());
    if context.None? {
      return JobNotRetryable;
    }
    var failed := context.value;
    var code := if failed.error.Some? then failed.error.value else if job.error.Some? then job.error.value
      else UnknownFailure;
    var classification := Classify(failed.stage, code);
    if classification.terminal == Some(Quarantined) {
      return JobNotRetryable;
    }
    var current := CurrentAttempt(job.attempt, failed.attempt);
    if current.None? {
      return JobNotRetryable;
    }
    if !policy.RetryAllowedAfter(current.value) {
      return RetryLimitExhausted;
    }
    verdict := ManualAccepted;
  }

  /** The writes of an accepted retry to the job. */
  method RetryByHand(policy: Policy, job: JobRecord, now: Time)
    requires job.Valid() && ManualRetry(job.Value(), policy, now).verdict == ManualAccepted
    modifies job
    ensures job.Valid() && job.Value() == ManualRetry(old(job.Value()), policy, now).job
  {
    var failed := InferFailedStage(job.Value()).value;
    var current := CurrentAttempt(job.attempt, failed.attempt).value;
    OpenSchedule(job, policy, failed.stage, current + 1, failed.error, now, 0.0, ManualRetryRequested, now);
  }

  /** `_request_lifecycle_command`; `watcher` is None when the id is unknown. */
  method RequestLifecycleCommand(action: LifecycleAction, id: WatcherId, watcher: Option<WatcherRecord>,
                                 desk: CommandRepository, payload: Payload, key: Option<string>, now: Time)
    returns (answer: Answer)
    modifies desk
    ensures LifecycleOutcome(desk.Value(), answer)
            == HandleLifecycle(action, id, watcher, old(desk.Value()), payload, key, now)
  {
    var scope := LifecycleOf(action, id);
    var known := desk.AnswerKnownKey(scope, payload, key);
    if known.Some? {
      return known.value;
    }
    if watcher.None? {
      return Refused(NotFound);
    }
    if watcher.value.state !in AllowedStates(action) {
      return Refused(StateConflict);
    }
    if action == StartWatcher && SavedStatus(watcher.value.rows, watcher.value.destinations) != Green {
      return Refused(RouteNotGreen);
    }
    var response := desk.Record(scope, payload, key, now);
    answer := Accepted(response);
  }
}
