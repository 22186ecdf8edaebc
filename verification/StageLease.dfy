/**
 Stage ownership: the claim rows, and the protocol of workers that claim, renew and release them while
 leases expire. A claim row names its owner only by service, and taking over an ended lease reuses the row,
 so nothing in a row tells two workers of one service apart.
 */
module StageLease {
  import opened Basics
  import opened JobModel

  type WorkerId = nat

  datatype ClaimKey = ClaimKey(job: nat, stage: Stage, attempt: int)

  datatype ClaimStatus = ClaimActive | ClaimReleased | ClaimExpired

  datatype Claim = Claim(
    owner: Service, leaseEnd: Time, status: ClaimStatus, releasedAt: Option<Time>, recoveredAt: Option<Time>)

  type ClaimRows = map<ClaimKey, Claim>

  /** The claim is refused: the row is active and its lease has not ended. */
  predicate Blocked(rows: ClaimRows, key: ClaimKey, now: Time) {
    key in rows && rows[key].status == ClaimActive && rows[key].leaseEnd > now
  }

  function Claimed(rows: ClaimRows, key: ClaimKey, owner: Service, leaseEnd: Time, now: Time): ClaimRows {
    if key !in rows then rows[key := Claim(owner, leaseEnd, ClaimActive, None, None)]
    else rows[key := rows[key].(owner := owner, leaseEnd := leaseEnd, status := ClaimActive,
                                recoveredAt := Some(now), releasedAt := None)]
  }

  function Renewed(rows: ClaimRows, key: ClaimKey, leaseEnd: Time): ClaimRows
    requires key in rows
  {
    rows[key := rows[key].(leaseEnd := leaseEnd)]
  }

  function Released(rows: ClaimRows, key: ClaimKey, at: Time): ClaimRows
    requires key in rows
  {
    rows[key := rows[key].(status := ClaimReleased, releasedAt := Some(at))]
  }

  predicate Lapsed(c: Claim, asOf: Time) {
    c.status == ClaimActive && c.leaseEnd < asOf
  }

  function Expired(rows: ClaimRows, asOf: Time): ClaimRows {
    map key | key in rows :: if Lapsed(rows[key], asOf) then rows[key].(status := ClaimExpired) else rows[key]
  }

  /** The claim table after one stage call: taken and given back if the call did its work, and otherwise as before. */
  function RowsAfter(rows: ClaimRows, key: ClaimKey, owner: Service, worked: bool, leaseEnd: Time,
                     claimedAt: Time, releasedAt: Time): ClaimRows
  {
    if worked then Released(Claimed(rows, key, owner, leaseEnd, claimedAt), key, releasedAt) else rows
  }

  /** The claim table. Its unique key (job, stage, attempt) stands in for the claim id, which never changes. */
  class StageClaimRepository {
    var rows: ClaimRows

    constructor ()
      ensures rows == map[]
    {
      rows := map[];
    }

    /** `ok` is false where an active lease of the key has not ended, which raises an error. */
    method ClaimStage(key: ClaimKey, owner: Service, leaseEnd: Time, now: Time) returns (ok: bool)
      modifies this
      ensures ok == !Blocked(old(rows), key, now)
      ensures rows == if ok then Claimed(old(rows), key, owner, leaseEnd, now) else old(rows)
    {
      if key !in rows {
        rows := rows[key := Claim(owner, leaseEnd, ClaimActive, None, None)];
        return true;
      }
      var existing := rows[key];
      if existing.status == ClaimActive && existing.leaseEnd > now {
        return false;
      }
      existing := existing.(owner := owner);
      existing := existing.(leaseEnd := leaseEnd);
      existing := existing.(status := ClaimActive);
      existing := existing.(recoveredAt := Some(now));
      existing := existing.(releasedAt := None);
      rows := rows[key := existing];
      return true;
    }

    method RenewClaim(key: ClaimKey, leaseEnd: Time) returns (found: bool)
      modifies this
      ensures found == (key in old(rows))
      ensures rows == if found then Renewed(old(rows), key, leaseEnd) else old(rows)
    {
      found := key in rows;
      if found {
        rows := rows[key := rows[key].(leaseEnd := leaseEnd)];
      }
    }

    method ReleaseStage(key: ClaimKey, at: Time) returns (found: bool)
      modifies this
      ensures found == (key in old(rows))
      ensures rows == if found then Released(old(rows), key, at) else old(rows)
    {
      found := key in rows;
      if found {
        rows := rows[key := rows[key].(status := ClaimReleased, releasedAt := Some(at))];
      }
    }

    /** Returns how many claims it expired. */
    method ExpireClaims(asOf: Time) returns (expired: nat)
      modifies this
      ensures rows == Expired(old(rows), asOf)
      ensures expired == |set key | key in old(rows) && Lapsed(old(rows)[key], asOf)|
    {
      var lapsed := set key | key in rows && Lapsed(rows[key], asOf);
      expired := |lapsed|;
      rows := map key | key in rows :: if key in lapsed then rows[key].(status := ClaimExpired) else rows[key];
    }
  }

  // ---------- The protocol ----------

  /** What one worker believes it holds, and until when. */
  datatype Holding = Holding(worker: WorkerId, key: ClaimKey)

  /** `taker` remembers who claimed or renewed a key last; no service reads it. */
  datatype System = System(rows: ClaimRows, now: Time, ends: map<Holding, Time>, taker: map<ClaimKey, WorkerId>)

  datatype Action =
    | Take(worker: WorkerId, key: ClaimKey, owner: Service, leaseEnd: Time)
    | Renew(worker: WorkerId, key: ClaimKey, leaseEnd: Time)
    | Release(worker: WorkerId, key: ClaimKey)
    | Expire(asOf: Time)
    | Tick(now: Time)

  predicate Holds(s: System, worker: WorkerId, key: ClaimKey) {
    Holding(worker, key) in s.ends
  }

  /** The worker holds the stage and its own lease has not ended. */
  predicate Live(s: System, worker: WorkerId, key: ClaimKey) {
    Holds(s, worker, key) && s.now < s.ends[Holding(worker, key)]
  }

  /** Only a worker that took a claim can name it, so renewing and releasing without one does nothing. */
  function Act(s: System, a: Action): System {
    match a
    case Take(worker, key, owner, leaseEnd) =>
      if Blocked(s.rows, key, s.now) then s
      else s.(rows := Claimed(s.rows, key, owner, leaseEnd, s.now),
              ends := s.ends[Holding(worker, key) := leaseEnd], taker := s.taker[key := worker])
    case Renew(worker, key, leaseEnd) =>
      if !Holds(s, worker, key) || key !in s.rows then s
      else s.(rows := Renewed(s.rows, key, leaseEnd), ends := s.ends[Holding(worker, key) := leaseEnd],
              taker := s.taker[key := worker])
    case Release(worker, key) =>
      if !Holds(s, worker, key) || key !in s.rows then s
      else s.(rows := Released(s.rows, key, s.now), ends := s.ends - {Holding(worker, key)})
    case Expire(asOf) => s.(rows := Expired(s.rows, asOf))
    case Tick(now) => s.(now := now)
  }

  /** Nobody acts on a lease of its own that has ended, nobody expires ahead of time, and time does not go back. */
  predicate Timely(s: System, a: Action) {
    match a
    case Take(_, _, _, _) => true
    case Renew(worker, key, _) => Live(s, worker, key)
    case Release(worker, key) => Live(s, worker, key)
    case Expire(asOf) => asOf <= s.now
    case Tick(now) => s.now <= now
  }

  function Acts(s: System, actions: seq<Action>): System {
    if actions == [] then s
    else Act(Acts(s, actions[..|actions| - 1]), actions[|actions| - 1])
  }

  predicate AllTimely(s: System, actions: seq<Action>) {
    actions == [] || (var n := |actions| - 1;
                      AllTimely(s, actions[..n]) && Timely(Acts(s, actions[..n]), actions[n]))
  }

  function Start(now: Time): System {
    System(map[], now, map[], map[])
  }

  /** No two workers hold one stage. */
  ghost predicate Exclusive(s: System) {
    forall a, b, key | Live(s, a, key) && Live(s, b, key) :: a == b
  }

  /** No two workers hold one stage, and the next claim, whoever makes it, does not change that. */
  ghost predicate SafelyExclusive(s: System) {
    Exclusive(s) && forall worker, key, owner, leaseEnd :: Exclusive(Act(s, Take(worker, key, owner, leaseEnd)))
  }

  /** The holding is that of its row's last taker, and the row is active. */
  predicate IsCurrent(s: System, h: Holding) {
    && h.key in s.rows && s.rows[h.key].status == ClaimActive
    && h.key in s.taker && s.taker[h.key] == h.worker
  }

  /** A live worker's lease is the one in the row; and an active row's is the one its last taker holds. */
  ghost predicate LeasesMatchRows(s: System) {
    && (forall h | h in s.ends :: h.key in s.rows && h.key in s.taker)
    && (forall h | h in s.ends && s.now < s.ends[h] :: IsCurrent(s, h))
    && (forall key | key in s.rows && s.rows[key].status == ClaimActive ::
          key in s.taker && Holding(s.taker[key], key) in s.ends
          && s.ends[Holding(s.taker[key], key)] == s.rows[key].leaseEnd)
  }

  /** Some worker holds the stage. */
  ghost predicate IsHeld(s: System, key: ClaimKey) {
    exists worker :: Live(s, worker, key)
  }

  /**
   The actions that do no harm. Renewing or releasing late is harmless while nobody else holds the stage, where
   renewing must not pretend to hold a row that is no longer active; expiring ahead of time is, while it ends no
   lease that is still held; turning the clock back is, while it revives no holding that has been replaced.
   */
  ghost predicate Harmless(s: System, a: Action) {
    match a
    case Take(_, _, _, _) => true
    case Renew(worker, key, leaseEnd) =>
      || !Holds(s, worker, key) || Live(s, worker, key)
      || (!IsHeld(s, key) && (leaseEnd <= s.now || (key in s.rows && s.rows[key].status == ClaimActive)))
    case Release(worker, key) => !Holds(s, worker, key) || Live(s, worker, key) || !IsHeld(s, key)
    case Expire(asOf) => forall h | h in s.ends && s.now < s.ends[h] :: asOf <= s.ends[h]
    case Tick(now) => forall h | h in s.ends && now < s.ends[h] :: IsCurrent(s, h)
  }

  /** Timely actions are harmless. */
  lemma TimelyIsHarmless(s: System, a: Action)
    requires LeasesMatchRows(s) && Timely(s, a)
    ensures Harmless(s, a)
  {
  }

  lemma MatchedIsSafe(s: System)
    requires LeasesMatchRows(s)
    ensures SafelyExclusive(s)
  {
    LiveIsTaker(s);
    forall worker, key, owner, leaseEnd ensures Exclusive(Act(s, Take(worker, key, owner, leaseEnd))) {
      ActKeepsLeases(s, Take(worker, key, owner, leaseEnd));
      LiveIsTaker(Act(s, Take(worker, key, owner, leaseEnd)));
    }
  }

  lemma LiveIsTaker(s: System)
    requires LeasesMatchRows(s)
    ensures Exclusive(s)
    ensures forall worker, key | Live(s, worker, key) :: IsCurrent(s, Holding(worker, key))
  {
    forall worker, key | Live(s, worker, key) ensures IsCurrent(s, Holding(worker, key)) {
      assert Holding(worker, key) in s.ends;
    }
  }

  lemma TakeKeepsLeases(s: System, a: Action)
    requires LeasesMatchRows(s) && a.Take?
    ensures LeasesMatchRows(Act(s, a))
  {
    var t := Act(s, a);
    if !Blocked(s.rows, a.key, s.now) {
      forall h | h in t.ends && t.now < t.ends[h] ensures IsCurrent(t, h) {
        assert h.worker == a.worker && h.key == a.key ==> h == Holding(a.worker, a.key);
        if h != Holding(a.worker, a.key) {
          assert IsCurrent(s, h);
        }
      }
    }
  }

  lemma RenewKeepsLeases(s: System, a: Action)
    requires LeasesMatchRows(s) && a.Renew? && Harmless(s, a)
    ensures LeasesMatchRows(Act(s, a))
  {
    var t := Act(s, a);
    if Holds(s, a.worker, a.key) {
      forall h | h in t.ends && t.now < t.ends[h] ensures IsCurrent(t, h) {
        if h == Holding(a.worker, a.key) {
          if Live(s, a.worker, a.key) {
            assert IsCurrent(s, h);
          }
        } else {
          assert IsCurrent(s, h) && Live(s, h.worker, h.key);
          if Live(s, a.worker, a.key) {
            assert IsCurrent(s, Holding(a.worker, a.key));
          }
        }
      }
    }
  }

  lemma ReleaseKeepsLeases(s: System, a: Action)
    requires LeasesMatchRows(s) && a.Release? && Harmless(s, a)
    ensures LeasesMatchRows(Act(s, a))
  {
    var t := Act(s, a);
    if Holds(s, a.worker, a.key) {
      forall h | h in t.ends && t.now < t.ends[h] ensures IsCurrent(t, h) {
        assert IsCurrent(s, h) && Live(s, h.worker, h.key);
        if Live(s, a.worker, a.key) {
          assert IsCurrent(s, Holding(a.worker, a.key));
        }
      }
    }
  }

  lemma ExpireKeepsLeases(s: System, a: Action)
    requires LeasesMatchRows(s) && a.Expire? && Harmless(s, a)
    ensures LeasesMatchRows(Act(s, a))
  {
    var t := Act(s, a);
    forall h | h in t.ends && t.now < t.ends[h] ensures IsCurrent(t, h) {
      assert IsCurrent(s, h);
      assert !Lapsed(s.rows[h.key], a.asOf);
    }
  }

  lemma ActKeepsLeases(s: System, a: Action)
    requires LeasesMatchRows(s) && Harmless(s, a)
    ensures LeasesMatchRows(Act(s, a))
  {
    match a
    case Take(_, _, _, _) => TakeKeepsLeases(s, a);
    case Renew(_, _, _) => RenewKeepsLeases(s, a);
    case Release(_, _) => ReleaseKeepsLeases(s, a);
    case Expire(_) => ExpireKeepsLeases(s, a);
    case Tick(_) =>
  }

  // ---------- Harmful actions ----------

  /** Two workers hold the stage, or the next one to ask would be the second. */
  ghost predicate Broken(s: System, key: ClaimKey, a: WorkerId, b: WorkerId) {
    a != b && Live(s, a, key) && (Live(s, b, key) || !Blocked(s.rows, key, s.now))
  }

  lemma BrokenIsUnsafe(s: System, key: ClaimKey, a: WorkerId, b: WorkerId)
    requires Broken(s, key, a, b)
    ensures !SafelyExclusive(s)
  {
    if !Live(s, b, key) {
      var t := Act(s, Take(b, key, ProcessorService, s.now + 1.0));
      assert Live(t, a, key) && Live(t, b, key);
      assert !Exclusive(t);
    }
  }

  /** Every action that is not harmless breaks exclusion, at once or with the next claim. */
  lemma HarmBreaks(s: System, a: Action)
    requires LeasesMatchRows(s) && !Harmless(s, a)
    ensures !SafelyExclusive(Act(s, a))
  {
    var t := Act(s, a);
    match a {
      case Renew(worker, key, leaseEnd) =>
        if IsHeld(s, key) {
          var u: WorkerId :| Live(s, u, key);
          assert Holding(u, key) in s.ends;
          BrokenIsUnsafe(t, key, u, worker);
        } else {
          assert Holding(worker, key) in s.ends;
          BrokenIsUnsafe(t, key, worker, worker + 1);
        }
      case Release(worker, key) =>
        var u: WorkerId :| Live(s, u, key);
        BrokenIsUnsafe(t, key, u, u + 1);
      case Expire(asOf) =>
        var h :| h in s.ends && s.now < s.ends[h] < asOf;
        assert IsCurrent(s, h);
        assert Lapsed(s.rows[h.key], asOf);
        BrokenIsUnsafe(t, h.key, h.worker, h.worker + 1);
      case Tick(now) =>
        var h :| h in s.ends && now < s.ends[h] && !IsCurrent(s, h);
        RevivedBreaks(s, now, h);
    }
  }

  lemma RevivedBreaks(s: System, now: Time, h: Holding)
    requires LeasesMatchRows(s) && h in s.ends && now < s.ends[h] && !IsCurrent(s, h)
    ensures !SafelyExclusive(Act(s, Tick(now)))
  {
    var t, key := Act(s, Tick(now)), h.key;
    if Blocked(t.rows, key, now) {
      BrokenIsUnsafe(t, key, h.worker, s.taker[key]);
    } else {
      BrokenIsUnsafe(t, key, h.worker, h.worker + 1);
    }
  }

  /** Exclusion survives an action, and the claim after it, exactly when the action is harmless. */
  lemma ExclusionIffHarmless(s: System, a: Action)
    requires LeasesMatchRows(s)
    ensures SafelyExclusive(Act(s, a)) <==> Harmless(s, a)
  {
    if Harmless(s, a) {
      ActKeepsLeases(s, a);
      MatchedIsSafe(Act(s, a));
    } else {
      HarmBreaks(s, a);
    }
  }

  // ---------- Runs ----------

  ghost predicate AllHarmless(s: System, actions: seq<Action>) {
    actions == [] || (var n := |actions| - 1;
                      AllHarmless(s, actions[..n]) && Harmless(Acts(s, actions[..n]), actions[n]))
  }

  lemma {:induction false} ActsKeepLeases(s: System, actions: seq<Action>)
    requires LeasesMatchRows(s) && AllHarmless(s, actions)
    ensures LeasesMatchRows(Acts(s, actions))
  {
    if actions != [] {
      var n := |actions| - 1;
      ActsKeepLeases(s, actions[..n]);
      ActKeepsLeases(Acts(s, actions[..n]), actions[n]);
    }
  }

  lemma {:induction false} TimelyRunsAreHarmless(s: System, actions: seq<Action>)
    requires LeasesMatchRows(s) && AllTimely(s, actions)
    ensures AllHarmless(s, actions)
  {
    if actions != [] {
      var n := |actions| - 1;
      TimelyRunsAreHarmless(s, actions[..n]);
      ActsKeepLeases(s, actions[..n]);
      TimelyIsHarmless(Acts(s, actions[..n]), actions[n]);
    }
  }

  /** Every state of the run, up to its end, is safely exclusive. */
  ghost predicate AlwaysSafe(s: System, actions: seq<Action>) {
    SafelyExclusive(Acts(s, actions)) && (actions == [] || AlwaysSafe(s, actions[..|actions| - 1]))
  }

  lemma {:induction false} SafeRunsAreHarmless(s: System, actions: seq<Action>)
    requires LeasesMatchRows(s)
    ensures AlwaysSafe(s, actions) <==> AllHarmless(s, actions)
  {
    if actions == [] {
      MatchedIsSafe(s);
    } else {
      var n := |actions| - 1;
      SafeRunsAreHarmless(s, actions[..n]);
      if AllHarmless(s, actions[..n]) {
        ActsKeepLeases(s, actions[..n]);
        ExclusionIffHarmless(Acts(s, actions[..n]), actions[n]);
      }
    }
  }

  /**
   The exact condition: at every point of a run at most one worker holds each stage, and the next claim keeps it so,
   if and only if every action of the run was harmless when it was taken.
   */
  lemma SafeIffHarmless(start: Time, actions: seq<Action>)
    ensures AlwaysSafe(Start(start), actions) <==> AllHarmless(Start(start), actions)
  {
    SafeRunsAreHarmless(Start(start), actions);
  }

  /** At most one worker holds a given (job, stage, attempt), in every state of every harmless run. */
  lemma AtMostOneLiveHolder(start: Time, actions: seq<Action>, key: ClaimKey, a: WorkerId, b: WorkerId)
    requires AllHarmless(Start(start), actions)
    requires Live(Acts(Start(start), actions), a, key) && Live(Acts(Start(start), actions), b, key)
    ensures a == b
  {
    ActsKeepLeases(Start(start), actions);
    LiveIsTaker(Acts(Start(start), actions));
  }

  /** On every harmless run a claim is refused exactly while some worker holds the stage. */
  lemma RefusedIffHeld(start: Time, actions: seq<Action>, key: ClaimKey)
    requires AllHarmless(Start(start), actions)
    ensures var s := Acts(Start(start), actions); Blocked(s.rows, key, s.now) <==> IsHeld(s, key)
  {
    var s := Acts(Start(start), actions);
    ActsKeepLeases(Start(start), actions);
    LiveIsTaker(s);
    if Blocked(s.rows, key, s.now) {
      assert Live(s, s.taker[key], key);
    }
  }

  /** Nobody acting on a lease of its own that has ended, no expiry ahead of time and no clock going back is enough. */
  lemma TimelyRunsExclude(start: Time, actions: seq<Action>)
    requires AllTimely(Start(start), actions)
    ensures AllHarmless(Start(start), actions) && AlwaysSafe(Start(start), actions)
  {
    TimelyRunsAreHarmless(Start(start), actions);
    SafeIffHarmless(start, actions);
  }

  // ---------- What the rows say ----------

  /** A claim is new, or says when it was taken over; renewing and releasing change what they say and no more. */
  lemma RowsAreDecided(rows: ClaimRows, key: ClaimKey, owner: Service, leaseEnd: Time, now: Time)
    ensures var claimed := Claimed(rows, key, owner, leaseEnd, now);
            && claimed.Keys == rows.Keys + {key} && (forall k | k in rows && k != key :: claimed[k] == rows[k])
            && claimed[key] == Claim(owner, leaseEnd, ClaimActive, None, if key in rows then Some(now) else None)
    ensures key in rows ==>
              && Renewed(rows, key, leaseEnd)[key] == rows[key].(leaseEnd := leaseEnd)
              && Released(rows, key, now)[key] == rows[key].(status := ClaimReleased, releasedAt := Some(now))
              && Renewed(rows, key, leaseEnd).Keys == Released(rows, key, now).Keys == rows.Keys
              && forall k | k in rows && k != key ::
                   Renewed(rows, key, leaseEnd)[k] == Released(rows, key, now)[k] == rows[k]
    ensures Blocked(rows, key, now) <==> key in rows && rows[key].status == ClaimActive && now < rows[key].leaseEnd
  {
  }

  /** Expiring ends the active claims whose lease ended before the time, and changes nothing else. */
  lemma ExpiryIsDecided(rows: ClaimRows, asOf: Time)
    ensures Expired(rows, asOf).Keys == rows.Keys
    ensures forall k | k in rows ::
              Expired(rows, asOf)[k]
              == if rows[k].status == ClaimActive && rows[k].leaseEnd < asOf then rows[k].(status := ClaimExpired)
                 else rows[k]
  {
  }

  /** A call that did its work gives its claim back, so that the next one is not refused; another leaves all claims. */
  lemma ClaimIsGivenBack(rows: ClaimRows, key: ClaimKey, owner: Service, worked: bool, leaseEnd: Time,
                         claimedAt: Time, releasedAt: Time, now: Time)
    ensures var after := RowsAfter(rows, key, owner, worked, leaseEnd, claimedAt, releasedAt);
            if worked then
              && key in after && after[key].releasedAt == Some(releasedAt) && !Blocked(after, key, now)
              && forall k | k in rows && k != key :: k in after && after[k] == rows[k]
            else after == rows
  {
  }

  // ---------- Harmful actions do occur ----------

  const KEY := ClaimKey(0, ProcessingStage, 1)

  ghost predicate BothLive(s: System, a: WorkerId, b: WorkerId) {
    Live(s, a, KEY) && Live(s, b, KEY)
  }

  /** Worker 0's lease ended at 1 and worker 1 took the stage over, until 9. */
  function TakenOver(): System {
    System(map[KEY := Claim(ProcessorService, 9.0, ClaimActive, None, Some(1.0))], 1.0,
           map[Holding(0, KEY) := 1.0, Holding(1, KEY) := 9.0], map[KEY := 1])
  }

  lemma ActsMore(s: System, actions: seq<Action>, action: Action)
    ensures Acts(s, actions + [action]) == Act(Acts(s, actions), action)
    ensures AllTimely(s, actions + [action]) <==> AllTimely(s, actions) && Timely(Acts(s, actions), action)
  {
    assert (actions + [action])[..|actions|] == actions;
  }

  lemma TakenOverIsReachable()
    ensures var actions := [Take(0, KEY, ProcessorService, 1.0), Tick(1.0), Take(1, KEY, ProcessorService, 9.0)];
            AllTimely(Start(0.0), actions) && Acts(Start(0.0), actions) == TakenOver()
  {
    var s0 := Start(0.0);
    var a0, a1, a2 := Take(0, KEY, ProcessorService, 1.0), Tick(1.0), Take(1, KEY, ProcessorService, 9.0);
    ActsMore(s0, [], a0);
    ActsMore(s0, [a0], a1);
    ActsMore(s0, [a0, a1], a2);
    assert [] + [a0] == [a0] && [a0] + [a1] == [a0, a1] && [a0, a1] + [a2] == [a0, a1, a2];
  }

  /**
   Timely actions reach a state in which one untimely action of any of the four kinds lets two workers hold the
   stage: releasing late or expiring ahead of time by letting worker 2 in, renewing late or turning the clock back at
   once.
   */
  lemma HarmfulActionsOccur()
    ensures var actions := [Take(0, KEY, ProcessorService, 1.0), Tick(1.0), Take(1, KEY, ProcessorService, 9.0)];
            AllTimely(Start(0.0), actions) && Acts(Start(0.0), actions) == TakenOver()
    ensures var s := TakenOver();
            && BothLive(Act(Act(s, Release(0, KEY)), Take(2, KEY, ProcessorService, 9.0)), 1, 2)
            && BothLive(Act(Act(s, Expire(10.0)), Take(2, KEY, ProcessorService, 9.0)), 1, 2)
            && BothLive(Act(s, Renew(0, KEY, 9.0)), 0, 1)
            && BothLive(Act(s, Tick(0.5)), 0, 1)
  {
    TakenOverIsReachable();
    HarmFromTakenOver();
  }

  lemma HarmFromTakenOver()
    ensures var s := TakenOver();
            && BothLive(Act(Act(s, Release(0, KEY)), Take(2, KEY, ProcessorService, 9.0)), 1, 2)
            && BothLive(Act(Act(s, Expire(10.0)), Take(2, KEY, ProcessorService, 9.0)), 1, 2)
            && BothLive(Act(s, Renew(0, KEY, 9.0)), 0, 1)
            && BothLive(Act(s, Tick(0.5)), 0, 1)
  {
    var expired := Act(TakenOver(), Expire(10.0));
    assert !Blocked(expired.rows, KEY, expired.now);
  }
}
