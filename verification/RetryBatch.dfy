/** One pass of the retry scheduler over the schedules that are due. */
module RetryBatch {
  import opened Basics
  import opened JobModel
  import opened JobSteps
  import opened Outcomes

  datatype ScheduleKey = ScheduleKey(job: JobId, position: nat)

  type Jobs = map<JobId, Job>

  predicate IsDueIn(jobs: Jobs, key: ScheduleKey, asOf: Time) {
    key.job in jobs && key.position < |jobs[key.job].schedules| && IsDue(jobs[key.job].schedules[key.position], asOf)
  }

  function DueAt(jobs: Jobs, key: ScheduleKey): Time
    requires key.job in jobs && key.position < |jobs[key.job].schedules|
  {
    jobs[key.job].schedules[key.position].dueAt
  }

  /**
   A batch the query may return: due schedules, none twice, the earliest first, and no later one while an
   earlier one is left out. Ties are broken by random identifiers, so several batches can satisfy this.
   */
  ghost predicate DueBatch(jobs: Jobs, batch: seq<ScheduleKey>, asOf: Time, limit: nat) {
    && |batch| <= limit
    && (forall i | 0 <= i < |batch| :: IsDueIn(jobs, batch[i], asOf))
    && Distinct(batch)
    && (forall i, k | 0 <= i < k < |batch| :: DueAt(jobs, batch[i]) <= DueAt(jobs, batch[k]))
    && (forall key | IsDueIn(jobs, key, asOf) && key !in batch ::
          |batch| == limit && forall i | 0 <= i < |batch| :: DueAt(jobs, batch[i]) <= DueAt(jobs, key))
  }

  /** The stored jobs before each schedule of the batch and after the last, and the verdict on each schedule. */
  datatype Pass = Pass(states: seq<Jobs>, verdicts: seq<DueVerdict>)

  /** Each schedule of the batch was released in turn, at the time the clock showed then. */
  ghost predicate IsPass(pass: Pass, batch: seq<ScheduleKey>, clock: seq<Time>) {
    && |pass.states| == |batch| + 1 && |pass.verdicts| == |batch| == |clock|
    && forall i {:trigger pass.verdicts[i]} | 0 <= i < |batch| ::
         ReleasesOne(pass.states[i], batch[i], clock[i], pass.states[i + 1], pass.verdicts[i])
  }

  ghost predicate ReleasesOne(before: Jobs, key: ScheduleKey, now: Time, after: Jobs, verdict: DueVerdict) {
    && key.job in before
    && var r := ReleaseRetry(before[key.job], key.position, now);
       after == before[key.job := r.job] && verdict == r.verdict
  }

  function CountOf(verdicts: seq<DueVerdict>, v: DueVerdict): nat {
    if verdicts == [] then 0
    else CountOf(verdicts[..|verdicts| - 1], v) + if verdicts[|verdicts| - 1] == v then 1 else 0
  }

  /** Every schedule scanned is counted under exactly one verdict. */
  lemma {:induction false} CountsAddUp(verdicts: seq<DueVerdict>)
    ensures CountOf(verdicts, DueAttempted) + CountOf(verdicts, DueExhausted) + CountOf(verdicts, DueSkipped)
            + CountOf(verdicts, DueFailed) == |verdicts|
  {
    if verdicts != [] {
      CountsAddUp(verdicts[..|verdicts| - 1]);
    }
  }

  /** What releasing schedule `k` of a job leaves, whatever the verdict. */
  ghost predicate Releases(before: Job, k: nat, now: Time, after: Job, verdict: DueVerdict) {
    && |after.schedules| == |before.schedules|
    && (forall i | 0 <= i < |before.schedules| && i != k :: after.schedules[i] == before.schedules[i])
    && (verdict == DueSkipped <==> !(k < |before.schedules| && IsDue(before.schedules[k], now)))
    && (verdict != DueSkipped ==> after.schedules[k].status != Open)
    && (verdict == DueAttempted ==> before.state == RetryPending)
    && (after.state == RetryPending ==> before.state == RetryPending && verdict != DueAttempted)
  }

  lemma ReleaseReleases(j: Job, k: nat, now: Time)
    ensures Releases(j, k, now, ReleaseRetry(j, k, now).job, ReleaseRetry(j, k, now).verdict)
  {
  }

  /** The same of a whole step: only the named job changes, and that one as `Releases` says. */
  ghost predicate StepEffect(before: Jobs, key: ScheduleKey, now: Time, after: Jobs, verdict: DueVerdict) {
    && key.job in before && after.Keys == before.Keys
    && (forall id | id in before && id != key.job :: after[id] == before[id])
    && Releases(before[key.job], key.position, now, after[key.job], verdict)
  }

  ghost predicate HasEffects(pass: Pass, batch: seq<ScheduleKey>, clock: seq<Time>) {
    && |pass.states| == |batch| + 1 && |pass.verdicts| == |batch| == |clock|
    && forall i | 0 <= i < |batch| ::
      StepEffect(pass.states[i], batch[i], clock[i], pass.states[i + 1], pass.verdicts[i])
  }

  lemma PassHasEffects(pass: Pass, batch: seq<ScheduleKey>, clock: seq<Time>)
    requires IsPass(pass, batch, clock)
    ensures HasEffects(pass, batch, clock)
  {
    forall i | 0 <= i < |batch|
      ensures StepEffect(pass.states[i], batch[i], clock[i], pass.states[i + 1], pass.verdicts[i])
    {
      assert ReleasesOne(pass.states[i], batch[i], clock[i], pass.states[i + 1], pass.verdicts[i]);
      ReleaseReleases(pass.states[i][batch[i].job], batch[i].position, clock[i]);
    }
  }

  /** A job that does not wait for a retry does not start to, up to any later point of the pass. */
  lemma {:induction false} StaysOutOfWaiting(pass: Pass, batch: seq<ScheduleKey>, clock: seq<Time>, id: JobId, i: nat,
                                             k: nat)
    requires HasEffects(pass, batch, clock) && i <= k <= |batch|
    requires id in pass.states[i] && pass.states[i][id].state != RetryPending
    ensures id in pass.states[k] && pass.states[k][id].state != RetryPending
    decreases k - i
  {
    if i < k {
      StaysOutOfWaiting(pass, batch, clock, id, i, k - 1);
      assert StepEffect(pass.states[k - 1], batch[k - 1], clock[k - 1], pass.states[k], pass.verdicts[k - 1]);
    }
  }

  /**
   In one pass at most one schedule of a job is released: each later schedule of that job is failed, exhausted
   or skipped, whatever the two schedules say.
   */
  lemma OneReleasePerJob(pass: Pass, batch: seq<ScheduleKey>, clock: seq<Time>, i: nat, k: nat)
    requires IsPass(pass, batch, clock) && i < k < |batch| && batch[i].job == batch[k].job
    requires pass.verdicts[i] == DueAttempted
    ensures pass.verdicts[k] != DueAttempted
  {
    PassHasEffects(pass, batch, clock);
    assert StepEffect(pass.states[i], batch[i], clock[i], pass.states[i + 1], pass.verdicts[i]);
    StaysOutOfWaiting(pass, batch, clock, batch[i].job, i + 1, k);
    assert StepEffect(pass.states[k], batch[k], clock[k], pass.states[k + 1], pass.verdicts[k]);
  }

  /** The schedule at `key`, if there is one. */
  function ScheduleAt(jobs: Jobs, key: ScheduleKey): Option<Schedule> {
    if key.job in jobs && key.position < |jobs[key.job].schedules|
    then Some(jobs[key.job].schedules[key.position]) else None
  }

  /** A schedule none of the steps from `i` up to `k` names stays as it was. */
  lemma {:induction false} OtherSchedulesStay(pass: Pass, batch: seq<ScheduleKey>, clock: seq<Time>, key: ScheduleKey,
                                              i: nat, k: nat)
    requires HasEffects(pass, batch, clock) && i <= k <= |batch|
    requires forall m | i <= m < k :: batch[m] != key
    ensures ScheduleAt(pass.states[k], key) == ScheduleAt(pass.states[i], key)
    decreases k - i
  {
    if i < k {
      OtherSchedulesStay(pass, batch, clock, key, i, k - 1);
      assert StepEffect(pass.states[k - 1], batch[k - 1], clock[k - 1], pass.states[k], pass.verdicts[k - 1]);
    }
  }

  /** Unless the clock goes back behind the query, a pass skips nothing: it closes every schedule of its batch. */
  lemma PassClosesItsBatch(pass: Pass, batch: seq<ScheduleKey>, clock: seq<Time>, asOf: Time, limit: nat, i: nat)
    requires IsPass(pass, batch, clock) && DueBatch(pass.states[0], batch, asOf, limit)
    requires forall k | 0 <= k < |clock| :: asOf <= clock[k]
    requires i < |batch|
    ensures pass.verdicts[i] != DueSkipped
    ensures var closed := ScheduleAt(pass.states[|batch|], batch[i]); closed.Some? && closed.value.status != Open
  {
    PassHasEffects(pass, batch, clock);
    assert IsDueIn(pass.states[0], batch[i], asOf);
    OtherSchedulesStay(pass, batch, clock, batch[i], 0, i);
    assert StepEffect(pass.states[i], batch[i], clock[i], pass.states[i + 1], pass.verdicts[i]);
    OtherSchedulesStay(pass, batch, clock, batch[i], i + 1, |batch|);
  }

  /** After a pass whose batch was not cut short by the limit, no schedule that was due is left open. */
  lemma UnlimitedPassLeavesNothingDue(pass: Pass, batch: seq<ScheduleKey>, clock: seq<Time>, asOf: Time, limit: nat,
                                      key: ScheduleKey)
    requires IsPass(pass, batch, clock) && DueBatch(pass.states[0], batch, asOf, limit) && |batch| < limit
    requires forall k | 0 <= k < |clock| :: asOf <= clock[k]
    ensures !IsDueIn(pass.states[|batch|], key, asOf)
  {
    PassHasEffects(pass, batch, clock);
    if key in batch {
      var i :| 0 <= i < |batch| && batch[i] == key;
      PassClosesItsBatch(pass, batch, clock, asOf, limit, i);
    } else {
      OtherSchedulesStay(pass, batch, clock, key, 0, |batch|);
    }
  }

  /**
   A pass releases nothing before its time, even if the clock goes back behind the query: a schedule it does not skip
   was open when its turn came, and due by the clock then, at the very time it was due when the pass began.
   */
  lemma NothingIsReleasedEarly(pass: Pass, batch: seq<ScheduleKey>, clock: seq<Time>, i: nat)
    requires IsPass(pass, batch, clock) && Distinct(batch) && i < |batch| && pass.verdicts[i] != DueSkipped
    ensures var before, atStart := ScheduleAt(pass.states[i], batch[i]), ScheduleAt(pass.states[0], batch[i]);
            && before.Some? && before.value.status == Open && before.value.dueAt <= clock[i] && atStart == before
  {
    PassHasEffects(pass, batch, clock);
    OtherSchedulesStay(pass, batch, clock, batch[i], 0, i);
    assert ReleasesOne(pass.states[i], batch[i], clock[i], pass.states[i + 1], pass.verdicts[i]);
    ReleaseIsDecided(pass.states[i][batch[i].job], batch[i].position, clock[i]);
  }
}
