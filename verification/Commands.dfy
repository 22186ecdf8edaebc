/**
 Idempotent commands: manual retries of jobs and lifecycle commands of watchers share one command table and one
 key table. A key belongs to a scope; its row keeps the payload and the first response.
 */
module Commands {
  import opened Basics
  import opened JobModel
  import opened RetryPolicy
  import opened JobSteps
  import opened PythonText
  import opened RouteTags
  import opened RouteMatching
  import opened RoutePreview

  type CommandId = nat

  type WatcherId = nat

  datatype LifecycleAction = StartWatcher | PauseWatcher | ResumeWatcher | StopWatcher

  datatype WatcherState =
    WatcherCreated | WatcherActive | WatcherPaused | WatcherStopping | WatcherStopped | WatcherError

  /** A watcher with its folders and the match rows saved with them. */
  datatype WatcherRecord = WatcherRecord(
    state: WatcherState, sources: seq<Folder>, destinations: seq<Folder>, rows: seq<RouteRow>)

  function AllowedStates(action: LifecycleAction): set<WatcherState> {
    match action
    case StartWatcher => {WatcherCreated, WatcherStopped, WatcherError}
    case PauseWatcher => {WatcherActive}
    case ResumeWatcher => {WatcherPaused}
    case StopWatcher => {WatcherCreated, WatcherActive, WatcherPaused, WatcherError}
  }

  datatype Scope = RetryOf(job: JobId) | LifecycleOf(action: LifecycleAction, watcher: WatcherId)

  /** What is hashed and compared; the hash is taken to be free of collisions. */
  datatype Payload = Payload(requestedBy: string, reason: Option<string>)

  datatype CommandStatus = CommandAccepted | CommandSucceeded

  /** `key` is the key the client sent; without one the row gets a random key that is never looked up. */
  datatype Command = Command(scope: Scope, payload: Payload, key: Option<string>, status: CommandStatus)

  datatype Response = Response(command: CommandId, acceptedAt: Time)

  datatype KeyRow = KeyRow(payload: Payload, response: Response)

  datatype KeyName = KeyName(scope: Scope, key: string)

  /** A command's id is its position in the table. */
  datatype Desk = Desk(commands: seq<Command>, keys: map<KeyName, KeyRow>)

  datatype Refusal =
    ReasonRequired | KeyConflict | NotFound | NotRetryable | LimitExhausted | StateConflict | RouteNotGreen

  datatype Answer = Accepted(response: Response) | Replayed(response: Response) | Refused(why: Refusal)

  /** What the key says before anything else is looked at; None when the request goes on. */
  function AnswerFromKey(desk: Desk, scope: Scope, payload: Payload, key: Option<string>): Option<Answer> {
    if key.None? || KeyName(scope, key.value) !in desk.keys then None
    else
      var row := desk.keys[KeyName(scope, key.value)];
      Some(if row.payload != payload then Refused(KeyConflict) else Replayed(row.response))
  }

  /** The command row, and the key row when the client sent a key. */
  function Recorded(desk: Desk, scope: Scope, payload: Payload, key: Option<string>, status: CommandStatus,
                    at: Time): Desk {
    var response := Response(|desk.commands|, at);
    Desk(desk.commands + [Command(scope, payload, key, status)],
         if key.Some? then desk.keys[KeyName(scope, key.value) := KeyRow(payload, response)] else desk.keys)
  }

  // ---------- Manual retries ----------

  datatype RetryOutcome = RetryOutcome(job: Option<Job>, desk: Desk, answer: Answer)

  predicate GivesReason(payload: Payload) {
    payload.reason.Some? && !Blank(payload.reason.value)
  }

  function RefusalFor(verdict: ManualVerdict): Refusal {
    if verdict == RetryLimitExhausted then LimitExhausted else NotRetryable
  }

  /** `accept_manual_retry_command` */
  function HandleRetry(p: Policy, id: JobId, job: Option<Job>, desk: Desk,
                       payload: Payload, key: Option<string>, now: Time): RetryOutcome
  {
    var known := AnswerFromKey(desk, RetryOf(id), payload, key);
    if !GivesReason(payload) then RetryOutcome(job, desk, Refused(ReasonRequired))
    else if known.Some? then RetryOutcome(job, desk, known.value)
    else if job.None? then RetryOutcome(job, desk, Refused(NotFound))
    else
      var r := ManualRetry(job.value, p, now);
      if r.verdict != ManualAccepted then RetryOutcome(job, desk, Refused(RefusalFor(r.verdict)))
      else RetryOutcome(Some(r.job), Recorded(desk, RetryOf(id), payload, key, CommandSucceeded, now),
                        Accepted(Response(|desk.commands|, now)))
  }

  // ---------- Lifecycle commands ----------

  datatype LifecycleOutcome = LifecycleOutcome(desk: Desk, answer: Answer)

  /** `_request_lifecycle_command`: starting asks for a green status of the saved preview. */
  function HandleLifecycle(action: LifecycleAction, id: WatcherId, watcher: Option<WatcherRecord>, desk: Desk,
                           payload: Payload, key: Option<string>, now: Time): LifecycleOutcome
  {
    var known := AnswerFromKey(desk, LifecycleOf(action, id), payload, key);
    if known.Some? then LifecycleOutcome(desk, known.value)
    else if watcher.None? then LifecycleOutcome(desk, Refused(NotFound))
    else if watcher.value.state !in AllowedStates(action) then LifecycleOutcome(desk, Refused(StateConflict))
    else if action == StartWatcher && SavedStatus(watcher.value.rows, watcher.value.destinations) != Green then
      LifecycleOutcome(desk, Refused(RouteNotGreen))
    else LifecycleOutcome(Recorded(desk, LifecycleOf(action, id), payload, key, CommandAccepted, now),
                          Accepted(Response(|desk.commands|, now)))
  }

  // ---------- Runs ----------

  datatype World = World(jobs: map<JobId, Job>, watchers: map<WatcherId, WatcherRecord>, desk: Desk)

  datatype Request = Request(scope: Scope, payload: Payload, key: Option<string>, now: Time)

  datatype Served = Served(world: World, answer: Answer)

  function Get<K, V>(m: map<K, V>, k: K): Option<V> {
    if k in m then Some(m[k]) else None
  }

  function Serve(p: Policy, w: World, r: Request): Served {
    match r.scope
    case RetryOf(id) =>
      var o := HandleRetry(p, id, Get(w.jobs, id), w.desk, r.payload, r.key, r.now);
      Served(w.(jobs := if o.job.Some? then w.jobs[id := o.job.value] else w.jobs, desk := o.desk), o.answer)
    case LifecycleOf(action, id) =>
      var o := HandleLifecycle(action, id, Get(w.watchers, id), w.desk, r.payload, r.key, r.now);
      Served(w.(desk := o.desk), o.answer)
  }

  /** Requests, with anything else happening to jobs and watchers in between. */
  datatype Happening = Asked(request: Request)
                     | Elsewhere(jobs: map<JobId, Job>, watchers: map<WatcherId, WatcherRecord>)

  function Happens(p: Policy, w: World, h: Happening): World {
    match h
    case Asked(r) => Serve(p, w, r).world
    case Elsewhere(jobs, watchers) => World(jobs, watchers, w.desk)
  }

  function After(p: Policy, w: World, happenings: seq<Happening>): World {
    if happenings == [] then w
    else Happens(p, After(p, w, happenings[..|happenings| - 1]), happenings[|happenings| - 1])
  }

  /** Every key row belongs to the command it names, and every command with a client's key is named by that key. */
  ghost predicate DeskSound(desk: Desk) {
    && (forall name | name in desk.keys ::
          var row := desk.keys[name];
          row.response.command < |desk.commands|
          && var c := desk.commands[row.response.command];
             c.scope == name.scope && c.key == Some(name.key) && c.payload == row.payload)
    && (forall i | 0 <= i < |desk.commands| && desk.commands[i].key.Some? ::
          var name := KeyName(desk.commands[i].scope, desk.commands[i].key.value);
          name in desk.keys && desk.keys[name].response.command == i)
  }

  /** The desk after a request: as before, or with one command recorded, under a key that was free. */
  ghost predicate DeskStep(before: Desk, r: Request, after: Desk, answer: Answer) {
    if answer.Accepted?
    then (r.key.Some? ==> KeyName(r.scope, r.key.value) !in before.keys)
         && answer.response == Response(|before.commands|, r.now)
         && exists status :: after == Recorded(before, r.scope, r.payload, r.key, status, r.now)
    else after == before
  }

  lemma ServeSteps(p: Policy, w: World, r: Request)
    ensures DeskStep(w.desk, r, Serve(p, w, r).world.desk, Serve(p, w, r).answer)
  {
  }

  lemma StepSound(before: Desk, r: Request, after: Desk, answer: Answer)
    requires DeskSound(before) && DeskStep(before, r, after, answer)
    ensures DeskSound(after)
  {
  }

  lemma {:induction false} AfterSound(p: Policy, w: World, happenings: seq<Happening>)
    requires DeskSound(w.desk)
    ensures DeskSound(After(p, w, happenings).desk)
  {
    if happenings != [] {
      var n := |happenings| - 1;
      AfterSound(p, w, happenings[..n]);
      var before := After(p, w, happenings[..n]);
      if happenings[n].Asked? {
        var r := happenings[n].request;
        ServeSteps(p, before, r);
        StepSound(before.desk, r, Serve(p, before, r).world.desk, Serve(p, before, r).answer);
      }
    }
  }

  const EMPTY_DESK := Desk([], map[])

  /** Whatever is asked and whatever else happens: a key a client sent owns at most one command of its scope. */
  lemma OneCommandPerKey(p: Policy, w: World, happenings: seq<Happening>, a: CommandId, b: CommandId)
    requires w.desk == EMPTY_DESK
    requires var commands := After(p, w, happenings).desk.commands;
             && a < |commands| && b < |commands| && commands[a].key.Some?
             && commands[a].key == commands[b].key && commands[a].scope == commands[b].scope
    ensures a == b
  {
    AfterSound(p, w, happenings);
  }

  /** A key row, once written, is never changed. */
  lemma {:induction false} KeysStay(p: Policy, w: World, happenings: seq<Happening>, name: KeyName)
    requires name in w.desk.keys
    ensures var later := After(p, w, happenings).desk; name in later.keys && later.keys[name] == w.desk.keys[name]
  {
    if happenings != [] {
      var n := |happenings| - 1;
      KeysStay(p, w, happenings[..n], name);
      if happenings[n].Asked? {
        ServeSteps(p, After(p, w, happenings[..n]), happenings[n].request);
      }
    }
  }

  /** A request that is not accepted changes nothing at all. */
  lemma OnlyAcceptedRequestsChange(p: Policy, w: World, r: Request)
    ensures !Serve(p, w, r).answer.Accepted? ==> Serve(p, w, r).world == w
  {
    if r.scope.RetryOf? && r.scope.job in w.jobs {
      assert w.jobs[r.scope.job := w.jobs[r.scope.job]] == w.jobs;
    }
  }

  /**
   After a request with a key was accepted, and after anything that happens then: the same payload under the same key
   gets the first response again, another payload is refused, and neither changes anything.
   */
  lemma AcceptedKeyIsAnswered(p: Policy, w: World, r: Request, happenings: seq<Happening>, again: Request)
    requires Serve(p, w, r).answer.Accepted? && r.key.Some?
    requires again.scope == r.scope && again.key == r.key
    ensures var later := After(p, Serve(p, w, r).world, happenings);
            && Serve(p, later, again).world == later
            && (again.payload == r.payload ==>
              Serve(p, later, again).answer == Replayed(Serve(p, w, r).answer.response))
            && (again.payload != r.payload ==>
                  Serve(p, later, again).answer
                  == Refused(if again.scope.RetryOf? && !GivesReason(again.payload) then ReasonRequired
                             else KeyConflict))
  {
    var name := KeyName(r.scope, r.key.value);
    ServeSteps(p, w, r);
    KeysStay(p, Serve(p, w, r).world, happenings, name);
    OnlyAcceptedRequestsChange(p, After(p, Serve(p, w, r).world, happenings), again);
  }

  /** The rows saved with a watcher are those of its folders, whose ids are keys and whose tags are normalized. */
  ghost predicate PreviewSaved(watcher: WatcherRecord, upper: UpperCase) {
    && watcher.rows == PreviewOf(watcher.sources, watcher.destinations).rows
    && DistinctIds(watcher.sources) && DistinctIds(watcher.destinations)
    && AllNormalized(watcher.sources, upper) && AllNormalized(watcher.destinations, upper)
  }

  /**
   A watcher that a start request was newly accepted for has a destination to match each source and a source for each
   destination; and while no destination is disabled, every source has a delivery target.
   */
  lemma StartedWatcherDelivers(p: Policy, w: World, r: Request, upper: UpperCase)
    requires r.scope.LifecycleOf? && r.scope.action == StartWatcher && Serve(p, w, r).answer.Accepted?
    requires r.scope.watcher in w.watchers && PreviewSaved(w.watchers[r.scope.watcher], upper)
    ensures var sources, destinations := w.watchers[r.scope.watcher].sources, w.watchers[r.scope.watcher].destinations;
            && destinations != []
            && (forall i | 0 <= i < |sources| :: MatchesSome(sources[i], destinations))
            && (forall k | 0 <= k < |destinations| :: MatchedBySome(sources, destinations[k]))
            && ((forall k | 0 <= k < |destinations| :: destinations[k].enabled) ==>
                  forall i | 0 <= i < |sources| :: HasTarget(sources[i], destinations, upper))
  {
    var watcher := w.watchers[r.scope.watcher];
    assert PreviewOf(watcher.sources, watcher.destinations).status == Green by {
      SavedStatusAgrees(watcher.sources, watcher.destinations);
    }
    GreenMeans(watcher.sources, watcher.destinations);
    if forall k | 0 <= k < |watcher.destinations| :: watcher.destinations[k].enabled {
      forall i | 0 <= i < |watcher.sources| ensures HasTarget(watcher.sources[i], watcher.destinations, upper) {
        GreenDelivers(watcher.sources, watcher.destinations, upper, i);
      }
    }
  }

  /** The delivery worker finds somewhere to deliver what comes from the source. */
  ghost predicate HasTarget(source: Folder, destinations: seq<Folder>, upper: UpperCase) {
    var r := DeliveryTargets(source.tags, Enabled(destinations), upper);
    r.Resolved? && r.targets != []
  }

  // ---------- How a request is answered, case by case ----------

  /** The states from which a watcher can be started, paused, resumed and stopped. */
  ghost predicate CanBe(action: LifecycleAction, state: WatcherState) {
    match state
    case WatcherCreated => action == StartWatcher || action == StopWatcher
    case WatcherActive => action == PauseWatcher || action == StopWatcher
    case WatcherPaused => action == ResumeWatcher || action == StopWatcher
    case WatcherStopping => false
    case WatcherStopped => action == StartWatcher
    case WatcherError => action == StartWatcher || action == StopWatcher
  }

  /** The command is recorded last, and under the client's key if there is one. */
  ghost predicate IsRecorded(before: Desk, r: Request, status: CommandStatus, after: Desk) {
    && after.commands == before.commands + [Command(r.scope, r.payload, r.key, status)]
    && (r.key == None ==> after.keys == before.keys)
    && (r.key != None ==>
          var name := KeyName(r.scope, r.key.value);
          && after.keys.Keys == before.keys.Keys + {name}
          && after.keys[name] == KeyRow(r.payload, Response(|before.commands|, r.now))
          && forall other | other in before.keys && other != name :: after.keys[other] == before.keys[other])
  }

  /** Nothing is recorded yet under the request's key. */
  ghost predicate IsNew(w: World, r: Request) {
    r.key == None || KeyName(r.scope, r.key.value) !in w.desk.keys
  }

  /** A lifecycle request under a new key is refused for the watcher, its state or its preview, or accepted. */
  lemma LifecycleIsDecided(p: Policy, w: World, r: Request)
    requires r.scope.LifecycleOf? && IsNew(w, r)
    ensures var s, id, action := Serve(p, w, r), r.scope.watcher, r.scope.action;
            if id !in w.watchers then s == Served(w, Refused(NotFound))
            else
              var watcher := w.watchers[id];
              if !CanBe(action, watcher.state) then s == Served(w, Refused(StateConflict))
              else if action == StartWatcher && SavedStatus(watcher.rows, watcher.destinations) != Green then
                s == Served(w, Refused(RouteNotGreen))
              else
                && s.answer == Accepted(Response(|w.desk.commands|, r.now)) && s.world == w.(desk := s.world.desk)
                && IsRecorded(w.desk, r, CommandAccepted, s.world.desk)
  {
  }

  /** Some character of the reason is no white space. */
  ghost predicate SaysSomething(payload: Payload) {
    && payload.reason != None
    && exists i | 0 <= i < |payload.reason.value| :: !IsSpace(payload.reason.value[i])
  }

  lemma ReasonMeans(payload: Payload)
    ensures GivesReason(payload) <==> SaysSomething(payload)
  {
    if payload.reason.Some? {
      var s := payload.reason.value;
      var left, right := StripMeans(s);
      var middle := Strip(s);
      if middle != "" {
        assert s[|left|] == middle[0];
      } else {
        assert s == left + right;
      }
    }
  }

  /** A retry request under a new key: refused for its reason, its job or the job's attempts, or accepted and done. */
  lemma RetryRequestIsDecided(p: Policy, w: World, r: Request)
    requires r.scope.RetryOf? && IsNew(w, r)
    ensures var s, id := Serve(p, w, r), r.scope.job;
            if !SaysSomething(r.payload) then s == Served(w, Refused(ReasonRequired))
            else if id !in w.jobs then s == Served(w, Refused(NotFound))
            else
              var retried := ManualRetry(w.jobs[id], p, r.now);
              match retried.verdict
              case JobNotRetryable => s == Served(w, Refused(NotRetryable))
              case RetryLimitExhausted => s == Served(w, Refused(LimitExhausted))
              case ManualAccepted =>
                && s.answer == Accepted(Response(|w.desk.commands|, r.now))
                && s.world == w.(jobs := w.jobs[id := retried.job], desk := s.world.desk)
                && IsRecorded(w.desk, r, CommandSucceeded, s.world.desk)
  {
    ReasonMeans(r.payload);
    if r.scope.job in w.jobs {
      assert w.jobs[r.scope.job := w.jobs[r.scope.job]] == w.jobs;
    }
  }
}
