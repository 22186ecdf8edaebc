/** Polling: files are observed until stable, then registered once each, and suppressed as duplicates ever after. */
module WatcherPoll {
  import opened Basics
  import opened JobModel
  import opened JobSteps
  import opened DedupKey
  import opened PathPolicy

  datatype SnapshotKey = SnapshotKey(source: string, locator: string)

  datatype Snapshot = Snapshot(path: string, size: nat, modified: int, seenAt: Time)

  /** One file found in a source folder, its digest when it is read, and the clock readings around it. */
  datatype Child = Child(
    name: string, path: string, size: nat, modified: int, digest: string, seenAt: Time, checkedAt: Time, at: Time)
  {
    /** A file name holds no slash. */
    predicate Valid() {
      IsDigest(digest) && '/' !in name
    }

    function Snap(): Snapshot {
      Snapshot(path, size, modified, seenAt)
    }
  }

  predicate AllValid(children: seq<Child>) {
    forall i | 0 <= i < |children| :: children[i].Valid()
  }

  /** An enabled source of the watcher: what the path policy and the route matching say of it, and its files by name. */
  datatype Scan = Scan(
    watcher: string, source: string, root: string, shown: string, green: bool, routed: bool, children: seq<Child>)
  {
    predicate Valid() {
      IsUuid(watcher) && IsUuid(source) && AllValid(children)
    }

    function KeyFor(c: Child): SnapshotKey {
      SnapshotKey(source, StripSlashes(root) + "/" + c.name)
    }

    function IdentityOf(c: Child): FileIdentity {
      FileIdentity(watcher, source, StripSlashes(shown) + "/" + c.name, c.size, c.digest)
    }
  }

  datatype Outcome = Unstable | RegisteredAs(file: nat) | SuppressedAs(file: nat)

  /** One file as it was found in a scan, and what became of it. */
  datatype Observation = Observation(scan: Scan, child: Child, outcome: Outcome)
  {
    function Key(): SnapshotKey {
      scan.KeyFor(child)
    }

    function Identity(): FileIdentity {
      scan.IdentityOf(child)
    }
  }

  /** A file record, with the key it is found by. */
  datatype FileRecord = FileRecord(identity: FileIdentity, key: string)

  datatype JobRow = JobRow(file: nat, job: Job)

  datatype Duplicate = Duplicate(existingJob: nat, identity: FileIdentity, observedAt: Time)

  /** File and job ids are positions. `log` records what happened to each observation; no service reads it. */
  datatype State = State(
    snapshots: map<SnapshotKey, Snapshot>, files: seq<FileRecord>, jobs: seq<JobRow>, duplicates: seq<Duplicate>,
    log: seq<Observation>)

  /** `is_file_stable` */
  predicate IsStable(previous: Option<Snapshot>, current: Snapshot, now: Time, window: real) {
    && previous.Some?
    && previous.value.path == current.path
    && previous.value.size == current.size && previous.value.modified == current.modified
    && now - previous.value.seenAt >= window
  }

  function Previous(s: State, key: SnapshotKey): Option<Snapshot> {
    if key in s.snapshots then Some(s.snapshots[key]) else None
  }

  /** `find_by_deduplication_key` */
  function FindFile(files: seq<FileRecord>, key: string): Option<nat> {
    if files == [] then None
    else
      var earlier := FindFile(files[..|files| - 1], key);
      if earlier.Some? then earlier else if files[|files| - 1].key == key then Some(|files| - 1) else None
  }

  function FindJob(jobs: seq<JobRow>, file: nat): Option<nat> {
    if jobs == [] then None
    else
      var earlier := FindJob(jobs[..|jobs| - 1], file);
      if earlier.Some? then earlier else if jobs[|jobs| - 1].file == file then Some(|jobs| - 1) else None
  }

  /** One file of a scanned source. */
  function Observe(s: State, scan: Scan, c: Child, window: real): State {
    var key, id := scan.KeyFor(c), scan.IdentityOf(c);
    if !IsStable(Previous(s, key), c.Snap(), c.checkedAt, window) then
      s.(snapshots := s.snapshots[key := c.Snap()],
         log := s.log + [Observation(scan, c, Unstable)])
    else
      var existing := FindFile(s.files, id.Key());
      if existing.Some? then
        var job := FindJob(s.jobs, existing.value);
        s.(snapshots := s.snapshots - {key},
           duplicates := s.duplicates + if job.Some? then [Duplicate(job.value, id, c.at)] else [],
           log := s.log + [Observation(scan, c, SuppressedAs(existing.value))])
      else
        s.(snapshots := s.snapshots - {key},
           files := s.files + [FileRecord(id, id.Key())],
           jobs := s.jobs + [JobRow(|s.files|, Register(true, c.at))],
           log := s.log + [Observation(scan, c, RegisteredAs(|s.files|))])
  }

  function ObserveAll(s: State, scan: Scan, children: seq<Child>, window: real): State {
    if children == [] then s
    else Observe(ObserveAll(s, scan, children[..|children| - 1], window), scan, children[|children| - 1], window)
  }

  lemma ObserveOneMore(s: State, scan: Scan, i: nat, window: real)
    requires i < |scan.children|
    ensures ObserveAll(s, scan, scan.children[..i + 1], window)
            == Observe(ObserveAll(s, scan, scan.children[..i], window), scan, scan.children[i], window)
  {
    assert scan.children[..i + 1][..i] == scan.children[..i];
  }

  predicate Scanned(scan: Scan) {
    scan.green && scan.routed
  }

  /** The sources of an active watcher in turn; those refused by the path policy or routed nowhere are skipped. */
  function Poll(s: State, scans: seq<Scan>, window: real): State {
    if scans == [] then s
    else
      var before, last := Poll(s, scans[..|scans| - 1], window), scans[|scans| - 1];
      if Scanned(last) then ObserveAll(before, last, last.children, window) else before
  }

  /** Any polls of any watchers, one after the other. */
  function Polls(s: State, polls: seq<seq<Scan>>, window: real): State {
    if polls == [] then s else Poll(Polls(s, polls[..|polls| - 1], window), polls[|polls| - 1], window)
  }

  const EMPTY := State(map[], [], [], [], [])

  ghost predicate ValidScans(scans: seq<Scan>) {
    forall i | 0 <= i < |scans| :: scans[i].Valid()
  }

  ghost predicate ValidPolls(polls: seq<seq<Scan>>) {
    forall i | 0 <= i < |polls| :: ValidScans(polls[i])
  }

  // ---------- What every poll keeps ----------

  /** Every file record has a key of its own, and its one job in the same position. */
  ghost predicate FilesSound(s: State) {
    && |s.jobs| == |s.files|
    && (forall i | 0 <= i < |s.files| :: s.files[i].identity.Valid() && s.files[i].key == s.files[i].identity.Key())
    && (forall i, k | 0 <= i < k < |s.files| :: s.files[i].key != s.files[k].key)
    && (forall i | 0 <= i < |s.jobs| :: s.jobs[i].file == i)
  }

  /** Every duplicate points at the job of the file it repeats. */
  ghost predicate DuplicatesSound(s: State) {
    forall i | 0 <= i < |s.duplicates| ::
      s.duplicates[i].existingJob < |s.files|
        && s.files[s.duplicates[i].existingJob].identity == s.duplicates[i].identity
  }

  /** The last observation of a key. */
  function LastOf(log: seq<Observation>, key: SnapshotKey): Option<Observation> {
    if log == [] then None
    else if log[|log| - 1].Key() == key then Some(log[|log| - 1])
    else LastOf(log[..|log| - 1], key)
  }

  /** The observation the next one of this key is compared with: the last one, unless that ended in a registration. */
  function Waiting(log: seq<Observation>, key: SnapshotKey): Option<Snapshot> {
    var last := LastOf(log, key);
    if last.Some? && last.value.outcome == Unstable then Some(last.value.child.Snap()) else None
  }

  /** The snapshots kept are the last observations, as far as those were unstable. */
  ghost predicate SnapshotsSound(s: State) {
    forall key :: Previous(s, key) == Waiting(s.log, key)
  }

  /** Every observation ended as the one it was compared with called for. */
  ghost predicate LogSound(log: seq<Observation>, window: real) {
    forall k | 0 <= k < |log| :: EndedRight(log, k, window)
  }

  predicate EndedRight(log: seq<Observation>, k: nat, window: real)
    requires k < |log|
  {
    log[k].outcome != Unstable <==>
    IsStable(Waiting(log[..k], log[k].Key()), log[k].child.Snap(), log[k].child.checkedAt, window)
  }

  /** What the log says of the files: who registered each, and who was found to be one of them. */
  ghost predicate FilesLogged(s: State) {
    && (forall k | 0 <= k < |s.log| && s.log[k].outcome.RegisteredAs? :: RegistrationLogged(s, k))
    && (forall k | 0 <= k < |s.log| && s.log[k].outcome.SuppressedAs? :: SuppressionLogged(s, k))
    && (forall f: nat | f < |s.files| :: HasRegistration(s.log, f))
  }

  ghost predicate RegistrationLogged(s: State, k: nat)
    requires k < |s.log| && s.log[k].outcome.RegisteredAs?
  {
    var f := s.log[k].outcome.file;
    && f < |s.files| && s.files[f].identity == s.log[k].Identity()
    && f < |s.jobs| && s.jobs[f] == JobRow(f, Register(true, s.log[k].child.at))
    && forall m | 0 <= m < k && s.log[m].outcome.RegisteredAs? :: s.log[m].outcome.file < f
  }

  ghost predicate SuppressionLogged(s: State, k: nat)
    requires k < |s.log| && s.log[k].outcome.SuppressedAs?
  {
    var f := s.log[k].outcome.file;
    && f < |s.files| && s.files[f].identity == s.log[k].Identity()
    && HasRegistration(s.log[..k], f)
  }

  ghost predicate HasRegistration(log: seq<Observation>, f: nat) {
    exists k | 0 <= k < |log| :: log[k].outcome == RegisteredAs(f)
  }

  /** Each duplicate row was written for an observation that was suppressed. */
  ghost predicate DuplicatesLogged(s: State) {
    forall i | 0 <= i < |s.duplicates| :: DuplicateLogged(s.log, s.duplicates[i])
  }

  ghost predicate DuplicateLogged(log: seq<Observation>, d: Duplicate) {
    exists k | 0 <= k < |log| ::
      && log[k].outcome == SuppressedAs(d.existingJob) && log[k].Identity() == d.identity
      && log[k].child.at == d.observedAt
  }

  ghost predicate Sound(s: State, window: real) {
    && FilesSound(s) && DuplicatesSound(s) && SnapshotsSound(s) && LogSound(s.log, window)
    && FilesLogged(s) && DuplicatesLogged(s)
  }

  lemma {:induction false} FindFileFinds(files: seq<FileRecord>, key: string)
    ensures var r := FindFile(files, key);
            && (r.Some? ==> r.value < |files| && files[r.value].key == key)
            && (r.None? ==> forall i | 0 <= i < |files| :: files[i].key != key)
  {
    if files != [] {
      FindFileFinds(files[..|files| - 1], key);
    }
  }

  lemma {:induction false} FindJobFinds(jobs: seq<JobRow>, file: nat)
    requires file < |jobs| && forall i | 0 <= i < |jobs| :: jobs[i].file == i
    ensures FindJob(jobs, file) == Some(file)
  {
    var n := |jobs| - 1;
    if file < n {
      FindJobFinds(jobs[..n], file);
    } else {
      NoJobYet(jobs[..n], file);
    }
  }

  lemma {:induction false} NoJobYet(jobs: seq<JobRow>, file: nat)
    requires forall i | 0 <= i < |jobs| :: jobs[i].file != file
    ensures FindJob(jobs, file) == None
  {
    if jobs != [] {
      NoJobYet(jobs[..|jobs| - 1], file);
    }
  }

  lemma LastOfOneMore(log: seq<Observation>, o: Observation, key: SnapshotKey)
    ensures LastOf(log + [o], key) == if o.Key() == key then Some(o) else LastOf(log, key)
  {
    assert (log + [o])[..|log|] == log;
  }

  lemma ObserveKeepsSnapshots(s: State, scan: Scan, c: Child, window: real)
    requires SnapshotsSound(s)
    ensures SnapshotsSound(Observe(s, scan, c, window))
  {
    var t := Observe(s, scan, c, window);
    forall key ensures Previous(t, key) == Waiting(t.log, key) {
      LastOfOneMore(s.log, t.log[|s.log|], key);
      assert Previous(s, key) == Waiting(s.log, key);
    }
  }

  lemma ObserveKeepsLog(s: State, scan: Scan, c: Child, window: real)
    requires SnapshotsSound(s) && LogSound(s.log, window)
    ensures LogSound(Observe(s, scan, c, window).log, window)
  {
    var log := Observe(s, scan, c, window).log;
    assert |log| == |s.log| + 1 && log[..|s.log|] == s.log;
    assert Previous(s, scan.KeyFor(c)) == Waiting(s.log, scan.KeyFor(c));
    forall k | 0 <= k < |s.log| ensures EndedRight(log, k, window) {
      assert log[..k] == s.log[..k];
      assert EndedRight(s.log, k, window);
    }
    assert EndedRight(log, |s.log|, window);
  }

  lemma ObserveKeepsFiles(s: State, scan: Scan, c: Child, window: real)
    requires FilesSound(s) && DuplicatesSound(s) && scan.Valid() && c.Valid()
    ensures FilesSound(Observe(s, scan, c, window)) && DuplicatesSound(Observe(s, scan, c, window))
  {
    var id := scan.IdentityOf(c);
    FindFileFinds(s.files, id.Key());
    var existing := FindFile(s.files, id.Key());
    if existing.Some? {
      FindJobFinds(s.jobs, existing.value);
      KeyIsInjective(s.files[existing.value].identity, id);
    }
  }

  lemma RegistrationGrows(log: seq<Observation>, o: Observation, f: nat)
    ensures HasRegistration(log + [o], f) <==> HasRegistration(log, f) || o.outcome == RegisteredAs(f)
  {
    if k :| 0 <= k < |log| && log[k].outcome == RegisteredAs(f) {
      assert (log + [o])[k] == log[k];
    }
    assert (log + [o])[|log|] == o;
  }

  lemma ObserveKeepsRegistrations(s: State, scan: Scan, c: Child, window: real)
    requires FilesSound(s) && FilesLogged(s) && scan.Valid() && c.Valid()
    ensures var t := Observe(s, scan, c, window);
            && (forall k | 0 <= k < |t.log| && t.log[k].outcome.RegisteredAs? :: RegistrationLogged(t, k))
            && (forall f: nat | f < |t.files| :: HasRegistration(t.log, f))
  {
    var t, n := Observe(s, scan, c, window), |s.log|;
    assert t.log == s.log + [t.log[n]];
    ObservedFile(s, scan, c, window);
    forall k | 0 <= k < |t.log| && t.log[k].outcome.RegisteredAs? ensures RegistrationLogged(t, k) {
      if k < n {
        assert RegistrationLogged(s, k);
      }
      forall m | 0 <= m < k && t.log[m].outcome.RegisteredAs? ensures t.log[m].outcome.file < t.log[k].outcome.file {
        assert RegistrationLogged(s, m);
      }
    }
    forall f: nat | f < |t.files| ensures HasRegistration(t.log, f) {
      RegistrationGrows(s.log, t.log[n], f);
    }
  }

  lemma ObserveKeepsSuppressions(s: State, scan: Scan, c: Child, window: real)
    requires FilesSound(s) && FilesLogged(s) && scan.Valid() && c.Valid()
    ensures var t := Observe(s, scan, c, window);
            forall k | 0 <= k < |t.log| && t.log[k].outcome.SuppressedAs? :: SuppressionLogged(t, k)
  {
    var t, n := Observe(s, scan, c, window), |s.log|;
    assert t.log == s.log + [t.log[n]];
    ObservedFile(s, scan, c, window);
    forall k | 0 <= k < |t.log| && t.log[k].outcome.SuppressedAs? ensures SuppressionLogged(t, k) {
      assert t.log[..k] == s.log[..k];
      if k < n {
        assert SuppressionLogged(s, k);
      } else {
        assert s.log[..n] == s.log;
      }
    }
  }

  lemma ObserveKeepsFilesLogged(s: State, scan: Scan, c: Child, window: real)
    requires FilesSound(s) && FilesLogged(s) && scan.Valid() && c.Valid()
    ensures FilesLogged(Observe(s, scan, c, window))
  {
    ObserveKeepsRegistrations(s, scan, c, window);
    ObserveKeepsSuppressions(s, scan, c, window);
  }

  /** The file an observation is registered as is new, and the one it is suppressed as has its identity. */
  lemma ObservedFile(s: State, scan: Scan, c: Child, window: real)
    requires FilesSound(s) && scan.Valid() && c.Valid()
    ensures var t := Observe(s, scan, c, window);
            var o := t.log[|s.log|];
            && o.scan == scan && o.child == c
            && (o.outcome == Unstable ==> t.files == s.files && t.jobs == s.jobs)
            && (o.outcome.RegisteredAs? ==>
                  && o.outcome.file == |s.files| && t.files == s.files + [FileRecord(o.Identity(), o.Identity().Key())]
                  && t.jobs == s.jobs + [JobRow(|s.files|, Register(true, c.at))])
            && (o.outcome.SuppressedAs? ==>
                  && o.outcome.file < |s.files| && t.files == s.files && t.jobs == s.jobs
                  && s.files[o.outcome.file].identity == o.Identity())
  {
    var id := scan.IdentityOf(c);
    FindFileFinds(s.files, id.Key());
    if FindFile(s.files, id.Key()).Some? {
      KeyIsInjective(s.files[FindFile(s.files, id.Key()).value].identity, id);
    }
  }

  lemma ObserveKeepsDuplicatesLogged(s: State, scan: Scan, c: Child, window: real)
    requires FilesSound(s) && DuplicatesLogged(s)
    ensures DuplicatesLogged(Observe(s, scan, c, window))
  {
    var t, id := Observe(s, scan, c, window), scan.IdentityOf(c);
    FindFileFinds(s.files, id.Key());
    if FindFile(s.files, id.Key()).Some? {
      FindJobFinds(s.jobs, FindFile(s.files, id.Key()).value);
    }
    forall i | 0 <= i < |t.duplicates| ensures DuplicateLogged(t.log, t.duplicates[i]) {
      if i < |s.duplicates| {
        assert DuplicateLogged(s.log, s.duplicates[i]);
        var k :| 0 <= k < |s.log| && s.log[k].outcome == SuppressedAs(s.duplicates[i].existingJob)
                 && s.log[k].Identity() == s.duplicates[i].identity && s.log[k].child.at == s.duplicates[i].observedAt;
        assert t.log[k] == s.log[k];
      } else {
        assert t.log[|s.log|].outcome == SuppressedAs(t.duplicates[i].existingJob);
      }
    }
  }

  lemma ObserveSound(s: State, scan: Scan, c: Child, window: real)
    requires Sound(s, window) && scan.Valid() && c.Valid()
    ensures Sound(Observe(s, scan, c, window), window)
  {
    ObserveKeepsSnapshots(s, scan, c, window);
    ObserveKeepsLog(s, scan, c, window);
    ObserveKeepsFiles(s, scan, c, window);
    ObserveKeepsFilesLogged(s, scan, c, window);
    ObserveKeepsDuplicatesLogged(s, scan, c, window);
  }

  lemma {:induction false} ObserveAllSound(s: State, scan: Scan, children: seq<Child>, window: real)
    requires Sound(s, window) && scan.Valid() && AllValid(children)
    ensures Sound(ObserveAll(s, scan, children, window), window)
  {
    if children != [] {
      var n := |children| - 1;
      ObserveAllSound(s, scan, children[..n], window);
      ObserveSound(ObserveAll(s, scan, children[..n], window), scan, children[n], window);
    }
  }

  lemma {:induction false} PollSound(s: State, scans: seq<Scan>, window: real)
    requires Sound(s, window) && ValidScans(scans)
    ensures Sound(Poll(s, scans, window), window)
  {
    if scans != [] {
      var n := |scans| - 1;
      PollSound(s, scans[..n], window);
      if Scanned(scans[n]) {
        ObserveAllSound(Poll(s, scans[..n], window), scans[n], scans[n].children, window);
      }
    }
  }

  lemma {:induction false} PollsSound(s: State, polls: seq<seq<Scan>>, window: real)
    requires Sound(s, window) && ValidPolls(polls)
    ensures Sound(Polls(s, polls, window), window)
  {
    if polls != [] {
      var n := |polls| - 1;
      PollsSound(s, polls[..n], window);
      PollSound(Polls(s, polls[..n], window), polls[n], window);
    }
  }

  /** What any polls write to the log. */
  function LogOf(polls: seq<seq<Scan>>, window: real): seq<Observation> {
    Polls(EMPTY, polls, window).log
  }

  // ---------- Counting observations ----------

  function CountUnstable(log: seq<Observation>): nat {
    if log == [] then 0
    else CountUnstable(log[..|log| - 1]) + if log[|log| - 1].outcome == Unstable then 1 else 0
  }

  /** Every observation is counted once: as unstable, as a new file, or as a duplicate. */
  lemma ObservationCounts(s: State, scan: Scan, c: Child, window: real)
    requires FilesSound(s)
    ensures var t := Observe(s, scan, c, window);
            && |t.log| == |s.log| + 1
            && var outcome := t.log[|s.log|].outcome;
               && CountUnstable(t.log) == CountUnstable(s.log) + (if outcome == Unstable then 1 else 0)
               && |t.files| == |s.files| + (if outcome.RegisteredAs? then 1 else 0)
               && |t.duplicates| == |s.duplicates| + (if outcome.SuppressedAs? then 1 else 0)
  {
    var t := Observe(s, scan, c, window);
    assert t.log[..|s.log|] == s.log;
    FindFileFinds(s.files, scan.IdentityOf(c).Key());
    var existing := FindFile(s.files, scan.IdentityOf(c).Key());
    if existing.Some? {
      FindJobFinds(s.jobs, existing.value);
    }
  }
}
