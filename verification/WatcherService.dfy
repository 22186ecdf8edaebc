/** The watcher service and its repositories of files and jobs, as one poll changes them. */
module WatcherService {
  import opened Basics
  import opened JobModel
  import opened JobSteps
  import opened JobStore
  import opened DedupKey
  import opened WatcherPoll

  method CreateDetected(at: Time) returns (job: JobRecord)
    ensures fresh(job) && job.Valid() && job.Value() == DetectedJob(true, at)
  {
    job := new JobRecord(Detected, true);
    job.AppendStateHistory(None, Detected, JobModel.Service.WatcherService, FileDetected, at);
  }

  method AnnounceRegistration(job: JobRecord, at: Time)
    requires job.Valid()
    modifies job`events
    ensures job.Valid() && job.Value() == Announce(old(job.Value()), at)
  {
    job.EnqueueEvent(FileDetectedEvent, 0, at);
    job.EnqueueEvent(FileStableEvent, 0, at);
    job.EnqueueEvent(JobRegisteredEvent, 0, at);
  }

  /** The rows that registering a stable file writes for its job, in order. */
  method RegisterJob(at: Time) returns (job: JobRecord)
    ensures fresh(job) && job.Valid() && job.Value() == Register(true, at)
  {
    job := CreateDetected(at);
    job.Advance(Detected, Stabilizing, None, None, JobModel.Service.WatcherService, FileStable, at);
    job.Advance(Stabilizing, Registered, None, None, JobModel.Service.WatcherService, JobRegistered, at);
    AnnounceRegistration(job, at);
  }

  datatype PollOnceResult = PollOnceResult(
    scannedSources: nat, observedFiles: nat, stabilizedFiles: nat, jobsRegistered: nat, duplicatesSuppressed: nat,
    skippedSources: nat)

  class Watcher {
    const stabilitySeconds: real
    var snapshots: map<SnapshotKey, Snapshot>
    var files: seq<FileRecord>
    var jobs: seq<JobRow>
    var duplicates: seq<Duplicate>
    ghost var log: seq<Observation>

    ghost function Value(): State
      reads this
    {
      State(snapshots, files, jobs, duplicates, log)
    }

    constructor (stabilitySeconds: real)
      ensures Value() == WatcherPoll.EMPTY && this.stabilitySeconds == stabilitySeconds
    {
      this.stabilitySeconds := stabilitySeconds;
      snapshots, files, jobs, duplicates, log := map[], [], [], [], [];
    }

    /** `poll_once`. Every observed file is unstable, registered, or suppressed as a duplicate. */
    method PollOnce(active: bool, scans: seq<Scan>) returns (r: PollOnceResult)
      requires Sound(Value(), stabilitySeconds) && ValidScans(scans)
      modifies this
      ensures Sound(Value(), stabilitySeconds)
      ensures Value() == if active then Poll(old(Value()), scans, stabilitySeconds) else old(Value())
      ensures r.jobsRegistered == r.stabilizedFiles == |files| - |old(files)| == |jobs| - |old(jobs)|
      ensures r.duplicatesSuppressed == |duplicates| - |old(duplicates)|
      ensures r.observedFiles == |log| - |old(log)|
      ensures r.observedFiles
              == (CountUnstable(log) - CountUnstable(old(log))) + r.jobsRegistered + r.duplicatesSuppressed
      ensures r.scannedSources + r.skippedSources == if active then |scans| else 0
    {
      if !active {
        return PollOnceResult(0, 0, 0, 0, 0, 0);
      }
      ghost var start := Value();
      var scanned, observed, registered, suppressed, skipped := 0, 0, 0, 0, 0;
      for i := 0 to |scans|
        invariant Value() == Poll(start, scans[..i], stabilitySeconds) && Sound(Value(), stabilitySeconds)
        invariant registered == |files| - |start.files| && suppressed == |duplicates| - |start.duplicates|
        invariant observed == |log| - |start.log|
        invariant observed == CountUnstable(log) - CountUnstable(start.log) + registered + suppressed
        invariant scanned + skipped == i
      {
        assert scans[..i + 1][..i] == scans[..i];
        var scan := scans[i];
        if !scan.green || !scan.routed {
          skipped := skipped + 1;
          continue;
        }
        scanned := scanned + 1;
        var o, n, d := ScanSource(scan);
        observed, registered, suppressed := observed + o, registered + n, suppressed + d;
      }
      assert scans[..|scans|] == scans;
      r := PollOnceResult(scanned, observed, registered, registered, suppressed, skipped);
    }

    /** The files of one source in turn. */
    method ScanSource(scan: Scan) returns (observed: nat, registered: nat, suppressed: nat)
      requires Sound(Value(), stabilitySeconds) && scan.Valid()
      modifies this
      ensures Sound(Value(), stabilitySeconds)
      ensures Value() == ObserveAll(old(Value()), scan, scan.children, stabilitySeconds)
      ensures registered == |files| - |old(files)| && suppressed == |duplicates| - |old(duplicates)|
      ensures observed == |log| - |old(log)|
      ensures observed == CountUnstable(log) - CountUnstable(old(log)) + registered + suppressed
    {
      ghost var start := Value();
      observed, registered, suppressed := 0, 0, 0;
      for i := 0 to |scan.children|
        invariant Value() == ObserveAll(start, scan, scan.children[..i], stabilitySeconds)
                  && Sound(Value(), stabilitySeconds)
        invariant registered == |files| - |start.files| && suppressed == |duplicates| - |start.duplicates|
        invariant observed == |log| - |start.log|
        invariant observed == CountUnstable(log) - CountUnstable(start.log) + registered + suppressed
      {
        ObserveOneMore(start, scan, i, stabilitySeconds);
        var c := scan.children[i];
        observed := observed + 1;
        var outcome := ObserveNext(scan, c);
        match outcome {
          case RegisteredAs(_) => registered := registered + 1;
          case SuppressedAs(_) => suppressed := suppressed + 1;
          case Unstable =>
        }
      }
      assert scan.children[..|scan.children|] == scan.children;
    }

    /** One file, with what it adds to the counters. */
    method ObserveNext(scan: Scan, c: Child) returns (outcome: Outcome)
      requires Sound(Value(), stabilitySeconds) && scan.Valid() && c.Valid()
      modifies this
      ensures Sound(Value(), stabilitySeconds) && Value() == Observe(old(Value()), scan, c, stabilitySeconds)
      ensures |log| == |old(log)| + 1
      ensures |files| == |old(files)| + if outcome.RegisteredAs? then 1 else 0
      ensures |duplicates| == |old(duplicates)| + if outcome.SuppressedAs? then 1 else 0
      ensures CountUnstable(log) == CountUnstable(old(log)) + if outcome == Unstable then 1 else 0
    {
      ObserveSound(Value(), scan, c, stabilitySeconds);
      ObservationCounts(Value(), scan, c, stabilitySeconds);
      outcome := ObserveFile(scan, c);
    }

    /** One file: remembered while unstable, and forgotten once registered or suppressed. */
    method ObserveFile(scan: Scan, c: Child) returns (outcome: Outcome)
      requires FilesSound(Value())
      modifies this
      ensures Value() == Observe(old(Value()), scan, c, stabilitySeconds)
      ensures |log| == |old(log)| + 1 && outcome == log[|old(log)|].outcome
    {
      var key := scan.KeyFor(c);
      var previous := if key in snapshots then Some(snapshots[key]) else None;
      if !IsStable(previous, c.Snap(), c.checkedAt, stabilitySeconds) {
        snapshots := snapshots[key := c.Snap()];
        log := log + [Observation(scan, c, Unstable)];
        return Unstable;
      }
      var id := scan.IdentityOf(c);
      var existing, job := CheckDuplicate(id.Key());
      if existing.Some? {
        FindFileFinds(files, id.Key());
        FindJobFinds(jobs, existing.value);
        if job.Some? {
          duplicates := duplicates + [Duplicate(job.value, id, c.at)];
        }
        outcome := SuppressedAs(existing.value);
      } else {
        outcome := RegisteredAs(|files|);
        RegisterFile(id, c.at);
      }
      snapshots := snapshots - {key};
      log := log + [Observation(scan, c, outcome)];
    }

    /** The file record and its registered job. */
    method RegisterFile(id: FileIdentity, at: Time)
      modifies this`files, this`jobs
      ensures files == old(files) + [FileRecord(id, id.Key())]
      ensures jobs == old(jobs) + [JobRow(|old(files)|, Register(true, at))]
    {
      files := files + [FileRecord(id, id.Key())];
      var registered := RegisterJob(at);
      jobs := jobs + [JobRow(|files| - 1, registered.Value())];
    }

    /** `check_duplicate`: the file with this key, and the first job that belongs to it. */
    method CheckDuplicate(key: string) returns (file: Option<nat>, job: Option<nat>)
      ensures file == FindFile(files, key)
      ensures job == if file.Some? then FindJob(jobs, file.value) else None
    {
      file, job := FindFile(files, key), None;
      if file.None? {
        return;
      }
      var i := 0;
      while i < |jobs|
        invariant 0 <= i <= |jobs| && FindJob(jobs[..i], file.value) == None
      {
        assert jobs[..i + 1][..i] == jobs[..i];
        if jobs[i].file == file.value {
          job := Some(i);
          FirstJobStays(jobs, i + 1, file.value);
          break;
        }
        i := i + 1;
      }
      assert jobs[..|jobs|] == jobs;
    }
  }

  lemma {:induction false} FirstJobStays(jobs: seq<JobRow>, n: nat, file: nat)
    requires n <= |jobs| && FindJob(jobs[..n], file).Some?
    ensures FindJob(jobs, file) == FindJob(jobs[..n], file)
  {
    if n == |jobs| {
      assert jobs[..n] == jobs;
    } else {
      var m := |jobs| - 1;
      assert jobs[..m][..n] == jobs[..n];
      FirstJobStays(jobs[..m], n, file);
    }
  }
}
