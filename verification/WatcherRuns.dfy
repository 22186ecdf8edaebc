/**
 What any polls do to the files they find, told of the files themselves: where each was found, its name, size, digest
 and times. No name of two files is ever confused, each file gets one job, and only a file that kept still gets one.
 */
module WatcherRuns {
  import opened Basics
  import opened JobModel
  import opened JobSteps
  import opened DedupKey
  import opened PathPolicy
  import opened WatcherPoll

  // ---------- Which files are looked at ----------

  datatype Sighting = Sighting(scan: Scan, child: Child)

  function ScanSightings(scan: Scan, children: seq<Child>): seq<Sighting> {
    if children == [] then []
    else ScanSightings(scan, children[..|children| - 1]) + [Sighting(scan, children[|children| - 1])]
  }

  /** Every file of every source the path policy allows and a destination matches, in turn, and no other. */
  function PollSightings(scans: seq<Scan>): seq<Sighting> {
    if scans == [] then []
    else
      var last := scans[|scans| - 1];
      PollSightings(scans[..|scans| - 1]) + if last.green && last.routed then ScanSightings(last, last.children) else []
  }

  function Sightings(polls: seq<seq<Scan>>): seq<Sighting> {
    if polls == [] then [] else Sightings(polls[..|polls| - 1]) + PollSightings(polls[|polls| - 1])
  }

  function Seen(log: seq<Observation>): seq<Sighting> {
    seq(|log|, i requires 0 <= i < |log| => Sighting(log[i].scan, log[i].child))
  }

  lemma {:induction false} ScanIsSeen(s: State, scan: Scan, children: seq<Child>, window: real)
    ensures Seen(ObserveAll(s, scan, children, window).log) == Seen(s.log) + ScanSightings(scan, children)
  {
    if children != [] {
      var n := |children| - 1;
      ScanIsSeen(s, scan, children[..n], window);
      var before, after := ObserveAll(s, scan, children[..n], window), ObserveAll(s, scan, children, window);
      assert Seen(after.log) == Seen(before.log) + [Sighting(scan, children[n])];
    }
  }

  lemma {:induction false} PollIsSeen(s: State, scans: seq<Scan>, window: real)
    ensures Seen(Poll(s, scans, window).log) == Seen(s.log) + PollSightings(scans)
  {
    if scans != [] {
      var n := |scans| - 1;
      PollIsSeen(s, scans[..n], window);
      ScanIsSeen(Poll(s, scans[..n], window), scans[n], scans[n].children, window);
    }
  }

  /** The log has one entry for each file looked at, in order. */
  lemma {:induction false} EverySightingIsLogged(polls: seq<seq<Scan>>, window: real)
    ensures Seen(LogOf(polls, window)) == Sightings(polls)
  {
    if polls != [] {
      var n := |polls| - 1;
      EverySightingIsLogged(polls[..n], window);
      PollIsSeen(Polls(EMPTY, polls[..n], window), polls[n], window);
    }
  }

  ghost predicate ValidSightings(seen: seq<Sighting>) {
    forall i | 0 <= i < |seen| :: seen[i].scan.Valid() && seen[i].child.Valid()
  }

  lemma {:induction false} ScanSightingsValid(scan: Scan, children: seq<Child>)
    requires scan.Valid() && AllValid(children)
    ensures ValidSightings(ScanSightings(scan, children))
  {
    if children != [] {
      ScanSightingsValid(scan, children[..|children| - 1]);
    }
  }

  lemma {:induction false} PollSightingsValid(scans: seq<Scan>)
    requires ValidScans(scans)
    ensures ValidSightings(PollSightings(scans))
  {
    if scans != [] {
      var n := |scans| - 1;
      PollSightingsValid(scans[..n]);
      assert scans[n].Valid();
      ScanSightingsValid(scans[n], scans[n].children);
    }
  }

  lemma {:induction false} SightingsValid(polls: seq<seq<Scan>>)
    requires ValidPolls(polls)
    ensures ValidSightings(Sightings(polls))
  {
    if polls != [] {
      SightingsValid(polls[..|polls| - 1]);
      PollSightingsValid(polls[|polls| - 1]);
    }
  }

  lemma LoggedIsValid(polls: seq<seq<Scan>>, window: real, k: nat)
    requires ValidPolls(polls) && k < |LogOf(polls, window)|
    ensures LogOf(polls, window)[k].scan.Valid() && LogOf(polls, window)[k].child.Valid()
  {
    EverySightingIsLogged(polls, window);
    SightingsValid(polls);
    assert Seen(LogOf(polls, window))[k] == Sightings(polls)[k];
  }

  // ---------- When two files are the same ----------

  /** A folder's path without its last slashes. */
  ghost predicate SameFolder(a: string, b: string) {
    StripSlashes(a) == StripSlashes(b)
  }

  /** Found at the same place: whatever was compared there before is what comes before it. */
  ghost predicate SamePlace(a: Observation, b: Observation) {
    a.scan.source == b.scan.source && SameFolder(a.scan.root, b.scan.root) && a.child.name == b.child.name
  }

  /** The same file to a watcher: found in the same source under the same name, with the same contents. */
  ghost predicate SameFile(a: Observation, b: Observation) {
    && a.scan.watcher == b.scan.watcher && a.scan.source == b.scan.source && SameFolder(a.scan.shown, b.scan.shown)
    && a.child.name == b.child.name && a.child.size == b.child.size && a.child.digest == b.child.digest
  }

  lemma NameStartsLate(a: string, m: string, b: string, n: string)
    requires '/' !in m && a + "/" + m == b + "/" + n
    ensures |b| <= |a|
  {
    var s := a + "/" + m;
    assert s[|b|] == '/';
    assert forall i | |a| < i < |s| :: s[i] == m[i - |a| - 1];
  }

  /** A name without slashes is what follows the last slash of a path. */
  lemma LastName(a: string, m: string, b: string, n: string)
    requires '/' !in m && '/' !in n
    ensures a + "/" + m == b + "/" + n <==> a == b && m == n
  {
    var s, t := a + "/" + m, b + "/" + n;
    if s == t {
      NameStartsLate(a, m, b, n);
      NameStartsLate(b, n, a, m);
      assert a == s[..|a|] && b == t[..|b|];
      assert m == s[|a| + 1..] && n == t[|b| + 1..];
    }
  }

  lemma PlacesAreKept(a: Observation, b: Observation)
    requires a.child.Valid() && b.child.Valid()
    ensures a.Key() == b.Key() <==> SamePlace(a, b)
  {
    LastName(StripSlashes(a.scan.root), a.child.name, StripSlashes(b.scan.root), b.child.name);
  }

  lemma FilesAreKept(a: Observation, b: Observation)
    requires a.child.Valid() && b.child.Valid()
    ensures a.Identity() == b.Identity() <==> SameFile(a, b)
  {
    LastName(StripSlashes(a.scan.shown), a.child.name, StripSlashes(b.scan.shown), b.child.name);
  }

  /** In one scan, two names are two places and two files, whatever the files hold. */
  lemma NamesAreKept(scan: Scan, c: Child, d: Child)
    requires c.Valid() && d.Valid() && c.name != d.name
    ensures scan.KeyFor(c) != scan.KeyFor(d) && scan.IdentityOf(c) != scan.IdentityOf(d)
  {
    PlacesAreKept(Observation(scan, c, Unstable), Observation(scan, d, Unstable));
    FilesAreKept(Observation(scan, c, Unstable), Observation(scan, d, Unstable));
  }

  // ---------- One job for each file ----------

  lemma IdentitiesDecide(polls: seq<seq<Scan>>, window: real, i: nat, k: nat)
    requires ValidPolls(polls) && i < |LogOf(polls, window)| && k < |LogOf(polls, window)|
    ensures var log := LogOf(polls, window); log[i].Identity() == log[k].Identity() <==> SameFile(log[i], log[k])
  {
    LoggedIsValid(polls, window, i);
    LoggedIsValid(polls, window, k);
    FilesAreKept(LogOf(polls, window)[i], LogOf(polls, window)[k]);
  }

  /** Over any polls: no file is registered twice, and the job of each was registered when its file was found. */
  lemma OneJobPerFile(polls: seq<seq<Scan>>, window: real, i: nat, k: nat)
    requires ValidPolls(polls) && i < |LogOf(polls, window)| && k < |LogOf(polls, window)|
    requires LogOf(polls, window)[i].outcome.RegisteredAs? && LogOf(polls, window)[k].outcome.RegisteredAs?
    ensures var s := Polls(EMPTY, polls, window);
            var f := s.log[k].outcome.file;
            && (SameFile(s.log[i], s.log[k]) <==> i == k) && (s.log[i].outcome.file == f <==> i == k)
            && |s.jobs| == |s.files| && f < |s.jobs| && s.jobs[f] == JobRow(f, Register(true, s.log[k].child.at))
  {
    var s := Polls(EMPTY, polls, window);
    PollsSound(EMPTY, polls, window);
    IdentitiesDecide(polls, window, i, k);
    assert RegistrationLogged(s, i) && RegistrationLogged(s, k);
  }

  /** Over any polls: there is a job for each file that was registered, and for nothing else. */
  lemma JobsAreRegistrations(polls: seq<seq<Scan>>, window: real, f: nat) returns (k: nat)
    requires ValidPolls(polls) && f < |Polls(EMPTY, polls, window).jobs|
    ensures k < |LogOf(polls, window)| && LogOf(polls, window)[k].outcome == RegisteredAs(f)
  {
    PollsSound(EMPTY, polls, window);
    assert HasRegistration(LogOf(polls, window), f);
    k :| 0 <= k < |LogOf(polls, window)| && LogOf(polls, window)[k].outcome == RegisteredAs(f);
  }

  /** The same file was registered before. */
  ghost predicate KnownBefore(log: seq<Observation>, k: nat, f: nat)
    requires k < |log|
  {
    exists i | 0 <= i < k :: log[i].outcome == RegisteredAs(f) && SameFile(log[i], log[k])
  }

  /** Over any polls: a file is suppressed as a duplicate only of itself, registered before. */
  lemma SuppressedIsKnown(polls: seq<seq<Scan>>, window: real, k: nat)
    requires ValidPolls(polls) && k < |LogOf(polls, window)| && LogOf(polls, window)[k].outcome.SuppressedAs?
    ensures KnownBefore(LogOf(polls, window), k, LogOf(polls, window)[k].outcome.file)
  {
    var s := Polls(EMPTY, polls, window);
    PollsSound(EMPTY, polls, window);
    assert SuppressionLogged(s, k);
    var f := s.log[k].outcome.file;
    var i :| 0 <= i < |s.log[..k]| && s.log[..k][i].outcome == RegisteredAs(f);
    assert s.log[i].outcome == RegisteredAs(f) && RegistrationLogged(s, i);
    IdentitiesDecide(polls, window, i, k);
  }

  /** Over any polls: a file that kept still is registered exactly if it was not before, and otherwise suppressed. */
  lemma RegisteredIffNew(polls: seq<seq<Scan>>, window: real, k: nat)
    requires ValidPolls(polls) && k < |LogOf(polls, window)| && LogOf(polls, window)[k].outcome != Unstable
    ensures LogOf(polls, window)[k].outcome.RegisteredAs? <==> forall f: nat :: !KnownBefore(LogOf(polls, window), k, f)
  {
    var log := LogOf(polls, window);
    if log[k].outcome.SuppressedAs? {
      SuppressedIsKnown(polls, window, k);
    } else if f: nat :| KnownBefore(log, k, f) {
      var i :| 0 <= i < k && log[i].outcome == RegisteredAs(f) && SameFile(log[i], log[k]);
      OneJobPerFile(polls, window, i, k);
    }
  }

  /** Over any polls: every duplicate row tells when a file was found again, and names the job of that very file. */
  lemma DuplicatesPointAtTheJob(polls: seq<seq<Scan>>, window: real, d: nat) returns (i: nat, k: nat)
    requires ValidPolls(polls) && d < |Polls(EMPTY, polls, window).duplicates|
    ensures var s := Polls(EMPTY, polls, window);
            var job := s.duplicates[d].existingJob;
            && i < k < |s.log| && s.log[i].outcome == RegisteredAs(job) && s.log[k].outcome == SuppressedAs(job)
            && SameFile(s.log[i], s.log[k]) && s.duplicates[d].observedAt == s.log[k].child.at
            && job < |s.jobs| && s.jobs[job].file == job
  {
    var s := Polls(EMPTY, polls, window);
    PollsSound(EMPTY, polls, window);
    var row := s.duplicates[d];
    assert DuplicateLogged(s.log, row);
    k :| 0 <= k < |s.log| && s.log[k].outcome == SuppressedAs(row.existingJob) && s.log[k].child.at == row.observedAt;
    SuppressedIsKnown(polls, window, k);
    i :| 0 <= i < k && s.log[i].outcome == RegisteredAs(row.existingJob) && SameFile(s.log[i], s.log[k]);
  }

  // ---------- When a file is registered ----------

  /** Observation `i` is the last one before `k` at the same place. */
  ghost predicate ComesBefore(log: seq<Observation>, i: nat, k: nat) {
    && i < k < |log| && SamePlace(log[i], log[k])
    && forall m | i < m < k :: !SamePlace(log[m], log[k])
  }

  /** Unchanged in path, size and modification time, and checked at least the window after it was taken. */
  ghost predicate KeptStill(a: Child, b: Child, window: real) {
    a.path == b.path && a.size == b.size && a.modified == b.modified && b.checkedAt - a.seenAt >= window
  }

  ghost predicate ValidLog(log: seq<Observation>) {
    forall k | 0 <= k < |log| :: log[k].child.Valid()
  }

  lemma {:induction false} LastAtPlace(log: seq<Observation>, k: nat, n: nat) returns (i: nat)
    requires ValidLog(log) && n <= k < |log|
    ensures var last := LastOf(log[..n], log[k].Key());
            if last == None then forall m | 0 <= m < n :: !SamePlace(log[m], log[k])
            else
              && i < n && last == Some(log[i]) && SamePlace(log[i], log[k])
              && forall m | i < m < n :: !SamePlace(log[m], log[k])
  {
    i := 0;
    if n > 0 {
      PlacesAreKept(log[n - 1], log[k]);
      assert log[..n][..n - 1] == log[..n - 1];
      if log[n - 1].Key() == log[k].Key() {
        i := n - 1;
      } else {
        i := LastAtPlace(log, k, n - 1);
      }
    }
  }

  lemma LogIsValid(polls: seq<seq<Scan>>, window: real)
    requires ValidPolls(polls)
    ensures ValidLog(LogOf(polls, window))
  {
    forall k | 0 <= k < |LogOf(polls, window)| ensures LogOf(polls, window)[k].child.Valid() {
      LoggedIsValid(polls, window, k);
    }
  }

  /** Some observation before it at the same place was the last one, and the file kept still since. */
  ghost predicate StillSinceLast(log: seq<Observation>, k: nat, window: real) {
    exists i: nat :: ComesBefore(log, i, k) && KeptStill(log[i].child, log[k].child, window)
  }

  ghost predicate StillSinceUnstable(log: seq<Observation>, k: nat, window: real) {
    exists i: nat ::
      ComesBefore(log, i, k) && log[i].outcome == Unstable && KeptStill(log[i].child, log[k].child, window)
  }

  /**
   Every observation of any polls: it was registered or suppressed exactly when the last one at the same place was
   unstable, showed the same path, size and modification time, and was taken at least the window before.
   */
  lemma RegisteredIffStable(polls: seq<seq<Scan>>, window: real, k: nat)
    requires ValidPolls(polls) && k < |LogOf(polls, window)|
    ensures LogOf(polls, window)[k].outcome != Unstable <==> StillSinceUnstable(LogOf(polls, window), k, window)
  {
    var log := LogOf(polls, window);
    PollsSound(EMPTY, polls, window);
    LogIsValid(polls, window);
    assert EndedRight(log, k, window);
    var last := LastAtPlace(log, k, k);
    if LastOf(log[..k], log[k].Key()).Some? {
      assert ComesBefore(log, last, k);
      OnlyOneComesBefore(log, k, last);
    }
  }

  lemma OnlyOneComesBefore(log: seq<Observation>, k: nat, i: nat)
    requires ComesBefore(log, i, k)
    ensures forall m: nat :: ComesBefore(log, m, k) ==> m == i
  {
    forall m: nat | ComesBefore(log, m, k) ensures m == i {
    }
  }

  /** Some observation at this place, from `k` on back, was registered or suppressed. */
  ghost predicate EverRegistered(log: seq<Observation>, at: Observation) {
    exists k | 0 <= k < |log| :: SamePlace(log[k], at) && log[k].outcome != Unstable
  }

  /** Two consecutive observations of the place showed the same file, the second checked late enough after the first. */
  ghost predicate EverStable(log: seq<Observation>, at: Observation, window: real) {
    exists k | 0 <= k < |log| :: SamePlace(log[k], at) && StillSinceLast(log, k, window)
  }

  /** Over any polls, among any other files: a file is registered exactly if two consecutive observations say so. */
  lemma RegisteredIffEverStable(polls: seq<seq<Scan>>, window: real, at: Observation)
    requires ValidPolls(polls)
    ensures EverRegistered(LogOf(polls, window), at) <==> EverStable(LogOf(polls, window), at, window)
  {
    var log := LogOf(polls, window);
    if k :| 0 <= k < |log| && SamePlace(log[k], at) && log[k].outcome != Unstable {
      RegisteredIffStable(polls, window, k);
      var i: nat :|
        ComesBefore(log, i, k) && log[i].outcome == Unstable && KeptStill(log[i].child, log[k].child, window);
      assert StillSinceLast(log, k, window);
    }
    if k :| 0 <= k < |log| && SamePlace(log[k], at) && StillSinceLast(log, k, window) {
      var i: nat :| ComesBefore(log, i, k) && KeptStill(log[i].child, log[k].child, window);
      RegisteredIffStable(polls, window, k);
      if log[i].outcome == Unstable {
        assert StillSinceUnstable(log, k, window);
      } else {
        assert SamePlace(log[i], at);
      }
    }
  }

  /** Each observation of the place is checked less than the window after the one before it was taken. */
  ghost predicate Hurried(log: seq<Observation>, at: Observation, window: real) {
    forall i: nat, k: nat | ComesBefore(log, i, k) && SamePlace(log[k], at) ::
      log[k].child.checkedAt - log[i].child.seenAt < window
  }

  /**
   Every unstable observation replaces the one before it, so a file that is polled more often than the window is
   never registered, however long it stays unchanged and whatever else is polled.
   */
  lemma HurriedPollsNeverRegister(polls: seq<seq<Scan>>, window: real, at: Observation)
    requires ValidPolls(polls) && Hurried(LogOf(polls, window), at, window)
    ensures !EverRegistered(LogOf(polls, window), at)
  {
    RegisteredIffEverStable(polls, window, at);
    var log := LogOf(polls, window);
    forall k | 0 <= k < |log| && SamePlace(log[k], at) ensures !StillSinceLast(log, k, window) {
    }
  }
}
