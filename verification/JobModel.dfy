/**
 The durable rows of one job: the job row itself, its state history, its retry schedules,
 its validation, processing and delivery attempts, its output manifests and its outbox rows.
 Every table keeps its rows in creation order, so a row is named by its position.
 */
module JobModel {
  import opened Basics

  datatype JobState =
    | Detected | Stabilizing | Registered | Validating | Validated | Invalid | Quarantined
    | Processing | Processed | Delivering | Delivered | RetryPending | Failed
    | Completed | CompletedWithDeliveryErrors

  /** ALLOWED_JOB_TRANSITIONS */
  function AllowedNext(s: JobState): set<JobState> {
    match s
    case Detected => {Stabilizing, Failed}
    case Stabilizing => {Registered, Failed}
    case Registered => {Validating, Failed}
    case Validating => {Validated, Invalid, Failed}
    case Validated => {Processing, Failed}
    case Processing => {Processed, RetryPending, Failed}
    case Processed => {Delivering, Failed}
    case Delivering => {Delivered, CompletedWithDeliveryErrors, RetryPending, Failed}
    case Delivered => {Completed}
    case Invalid => {Quarantined}
    case RetryPending => {Validating, Processing, Delivering, Failed}
    case CompletedWithDeliveryErrors => {}
    case Completed => {}
    case Failed => {RetryPending}
    case Quarantined => {}
  }

  predicate TransitionAllowed(previous: JobState, next: JobState) {
    previous == next || next in AllowedNext(previous)
  }

  /** TERMINAL_JOB_STATES */
  predicate IsTerminal(s: JobState) {
    s == Completed || s == CompletedWithDeliveryErrors || s == Failed || s == Quarantined
  }

  function TerminalState(s: JobState): Option<JobState> {
    if IsTerminal(s) then Some(s) else None
  }

  datatype Stage = ValidationStage | ProcessingStage | DeliveryStage | RoutingStage | EventStage

  datatype Service = WatcherService | ValidatorService | ProcessorService | DeliveryService | RetrySchedulerService

  /** The failure codes the services emit or the retry catalog lists; any other text is `OtherCode`. */
  datatype ErrorCode =
    | BrokerUnavailable | BrokerPublishFailure
    | PathPolicyViolation | PathSecurityFailure
    | FileEmpty | FileNotFound | FileNotReadable | FileTooLarge | ExtensionNotAllowed
    | SchemaInvalid | ValidationPolicyFailure
    | ProcessorTimeout | ProcessorTransientError | ProcessingTransientFailure
    | ProcessingInputUnavailable | ProcessingOutputUnavailable | ProcessingUnexpectedError
    | ProcessingArtifactInvalid | ProcessingInputInvalid | ProcessingSourceSha256Missing
    | UnsupportedExtensionReachedProcessing
    | DestinationTemporarilyUnavailable | DestinationUnavailable | DeliveryTransientFailure
    | DestinationNotFound | DestinationNotWritable | FinalizeFailed | SourceTransferFailed
    | DestinationNotAllowlisted | FinalizeUnsupported
    | NoMatchingDestination | UnknownFailure
    | OtherCode(text: string)

  datatype Reason =
    | FileDetected | FileStable | JobRegistered
    | ValidationStarted | ValidationPassed
    | ProcessingStarted | ProcessingCompleted
    | DeliveryStarted | DeliveryCompleted | JobCompleted
    | RetryScheduled | RetryDue | RetryExhausted | NonRetryableFailure | ManualRetryRequested
    | Code(code: ErrorCode)

  datatype HistoryRow = HistoryRow(
    previous: Option<JobState>, next: JobState, actor: Service, reason: Reason, sequence: int, at: Time)

  datatype ScheduleStatus = Open | Attempted | ExhaustedSchedule | FailedSchedule

  /** A retry_schedules row; `Open` is the status text "scheduled". */
  datatype Schedule = Schedule(
    failedStage: Stage, nextStage: Stage, attempt: int, maxAttempts: int,
    dueAt: Time, backoff: real, status: ScheduleStatus, lastError: Option<ErrorCode>)

  datatype ValidationAttempt = ValidationAttempt(attempt: int, valid: bool)

  datatype RunStatus = RunStarted | RunSucceeded | RunFailed

  datatype ProcessingAttempt = ProcessingAttempt(
    attempt: int, status: RunStatus, error: Option<ErrorCode>, completedAt: Option<Time>)

  type JobId = nat

  type DestinationId = nat

  datatype DeliveryAttempt = DeliveryAttempt(
    destination: DestinationId, attempt: int, status: RunStatus, error: Option<ErrorCode>, completedAt: Option<Time>)

  datatype ManifestStatus = ManifestProcessed | ManifestDelivered | ManifestPartlyDelivered | ManifestFailed

  datatype EventKind =
    | FileDetectedEvent | FileStableEvent | JobRegisteredEvent
    | FileValidatedEvent | FileQuarantinedEvent
    | ProcessingStartedEvent | ProcessingCompletedEvent | ProcessingFailedEvent
    | DeliveryStartedEvent | DeliveryCompletedEvent | DeliveryFailedEvent
    | RetryScheduledEvent | JobFailedEvent | JobCompletedEvent

  datatype Event = Event(kind: EventKind, attempt: int, at: Time)

  datatype Job = Job(
    state: JobState,
    terminal: Option<JobState>,
    attempt: int,
    error: Option<ErrorCode>,
    hasChecksum: bool,
    history: seq<HistoryRow>,
    schedules: seq<Schedule>,
    validations: seq<ValidationAttempt>,
    processing: seq<ProcessingAttempt>,
    delivery: seq<DeliveryAttempt>,
    manifests: seq<ManifestStatus>,
    events: seq<Event>)

  /**
   `update_state` followed by the `append_state_history` call that always accompanies it. The new row's number
   is one more than the largest so far, which for a history numbered from 1 is its length plus one.
   */
  function Move(j: Job, next: JobState, error: Option<ErrorCode>, attempt: Option<int>,
                actor: Service, reason: Reason, at: Time): Job
    requires TransitionAllowed(j.state, next)
  {
    j.(state := next,
       terminal := TerminalState(next),
       error := if error.Some? then error else j.error,
       attempt := if attempt.Some? then attempt.value else j.attempt,
       history := j.history + [HistoryRow(Some(j.state), next, actor, reason, |j.history| + 1, at)])
  }

  function Emit(j: Job, kind: EventKind, attempt: int, at: Time): Job {
    j.(events := j.events + [Event(kind, attempt, at)])
  }

  /** `_resolve_attempt_number` of both workers. */
  function ResolveAttempt(attempt: int): int {
    if attempt < 1 then 1 else attempt
  }
}
