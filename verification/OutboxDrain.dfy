/**
 A dispatcher that is run often enough finishes every row, in a number of rounds that depends on the batch limit only.
 */
module OutboxDrain {
  import opened Basics
  import opened Outbox
  import opened OutboxRuns

  function UnfinishedBefore(rows: seq<OutboxRow>, i: nat): nat
    requires i <= |rows|
  {
    if i == 0 then 0 else UnfinishedBefore(rows, i - 1) + if Unfinished(rows[i - 1]) then 1 else 0
  }

  function Backlog(rows: seq<OutboxRow>): nat {
    UnfinishedBefore(rows, |rows|)
  }

  ghost predicate RowsOk(rows: seq<OutboxRow>) {
    forall i | 0 <= i < |rows| :: RowOk(rows[i])
  }

  /** Every unfinished row may be tried at `asOf`. */
  ghost predicate AllDue(rows: seq<OutboxRow>, asOf: Time) {
    forall i | 0 <= i < |rows| && Unfinished(rows[i]) :: Due(rows[i], asOf)
  }

  lemma {:induction false} DueIsUnfinished(rows: seq<OutboxRow>, i: nat, asOf: Time)
    requires i <= |rows| && AllDue(rows, asOf)
    ensures DueBefore(rows, i, asOf) == UnfinishedBefore(rows, i)
  {
    if i > 0 {
      DueIsUnfinished(rows, i - 1, asOf);
    }
  }

  /** What a round does when everything unfinished is due: the first `limit` unfinished rows are tried. */
  lemma RoundOnBacklog(s: State, limit: nat, asOf: Time, results: nat -> Publication, i: nat)
    requires i < |s.rows| && AllDue(s.rows, asOf)
    ensures Round(s, limit, asOf, results).rows[i]
            == if Unfinished(s.rows[i]) && UnfinishedBefore(s.rows, i) < limit
               then PublishRow(s.rows[i], results(i), asOf) else s.rows[i]
  {
    RoundRows(s, limit, asOf, results, i);
    DueIsUnfinished(s.rows, i, asOf);
  }

  lemma RoundKeepsRowsOk(s: State, limit: nat, asOf: Time, results: nat -> Publication)
    requires RowsOk(s.rows)
    ensures RowsOk(Round(s, limit, asOf, results).rows)
  {
    var t := Round(s, limit, asOf, results);
    forall i | 0 <= i < |t.rows| ensures RowOk(t.rows[i]) {
      RoundRows(s, limit, asOf, results, i);
      assert RowOk(s.rows[i]);
    }
  }

  /** A failed row waits one or two seconds, so two seconds after a round every unfinished row is due again. */
  lemma RoundKeepsAllDue(s: State, limit: nat, asOf: Time, results: nat -> Publication, next: Time)
    requires RowsOk(s.rows) && AllDue(s.rows, asOf) && next >= asOf + 2.0
    ensures AllDue(Round(s, limit, asOf, results).rows, next)
  {
    var t := Round(s, limit, asOf, results);
    forall i | 0 <= i < |t.rows| && Unfinished(t.rows[i]) ensures Due(t.rows[i], next) {
      RoundRows(s, limit, asOf, results, i);
      assert RowOk(s.rows[i]);
    }
  }

  /** Finished rows stay finished, so no row's place among the unfinished ones gets worse. */
  lemma {:induction false} RoundMovesUp(s: State, limit: nat, asOf: Time, results: nat -> Publication, i: nat)
    requires i <= |s.rows|
    ensures UnfinishedBefore(Round(s, limit, asOf, results).rows, i) <= UnfinishedBefore(s.rows, i)
  {
    if i > 0 {
      RoundMovesUp(s, limit, asOf, results, i - 1);
      RoundRows(s, limit, asOf, results, i - 1);
    }
  }

  /** One row of the front `limit`: tried in this round, unless it was finished before. */
  ghost predicate Tried(before: OutboxRow, after: OutboxRow) {
    !Unfinished(after) || (Unfinished(before) && after.attempts == before.attempts + 1)
  }

  lemma FrontRowIsTried(s: State, limit: nat, asOf: Time, results: nat -> Publication, i: nat)
    requires i < |s.rows| && AllDue(s.rows, asOf) && UnfinishedBefore(s.rows, i) < limit
    ensures Tried(s.rows[i], Round(s, limit, asOf, results).rows[i])
  {
    RoundOnBacklog(s, limit, asOf, results, i);
  }

  // ---------- Rounds at least two seconds apart ----------

  datatype Tick = Tick(asOf: Time, results: nat -> Publication)

  function Rounds(s: State, limit: nat, ticks: seq<Tick>): (t: State)
    ensures |t.rows| == |s.rows|
  {
    if ticks == [] then s
    else
      var n := |ticks| - 1;
      Round(Rounds(s, limit, ticks[..n]), limit, ticks[n].asOf, ticks[n].results)
  }

  ghost predicate Spaced(ticks: seq<Tick>) {
    forall i | 0 <= i < |ticks| - 1 :: ticks[i + 1].asOf >= ticks[i].asOf + 2.0
  }

  /** Rounds keep the rows consistent, and everything unfinished due by the next round. */
  lemma {:induction false} RoundsKeepDue(s: State, limit: nat, ticks: seq<Tick>, next: Time)
    requires RowsOk(s.rows) && Spaced(ticks)
    requires AllDue(s.rows, if ticks == [] then next else ticks[0].asOf)
    requires ticks != [] ==> next >= ticks[|ticks| - 1].asOf + 2.0
    ensures RowsOk(Rounds(s, limit, ticks).rows) && AllDue(Rounds(s, limit, ticks).rows, next)
  {
    if ticks != [] {
      var n := |ticks| - 1;
      RoundsKeepDue(s, limit, ticks[..n], ticks[n].asOf);
      var before := Rounds(s, limit, ticks[..n]);
      RoundKeepsRowsOk(before, limit, ticks[n].asOf, ticks[n].results);
      RoundKeepsAllDue(before, limit, ticks[n].asOf, ticks[n].results, next);
    }
  }

  /** A row that starts among the first `limit` unfinished ones is finished after three rounds. */
  lemma FrontRowIsFinished(s: State, limit: nat, a: Tick, b: Tick, c: Tick, i: nat)
    requires RowsOk(s.rows) && AllDue(s.rows, a.asOf) && b.asOf >= a.asOf + 2.0 && c.asOf >= b.asOf + 2.0
    requires i < |s.rows| && UnfinishedBefore(s.rows, i) < limit
    ensures !Unfinished(ThreeRounds(s, limit, a, b, c).rows[i])
  {
    var s1 := Round(s, limit, a.asOf, a.results);
    var s2 := Round(s1, limit, b.asOf, b.results);
    var s3 := Round(s2, limit, c.asOf, c.results);
    RoundKeepsRowsOk(s, limit, a.asOf, a.results);
    RoundKeepsRowsOk(s1, limit, b.asOf, b.results);
    RoundKeepsRowsOk(s2, limit, c.asOf, c.results);
    RoundKeepsAllDue(s, limit, a.asOf, a.results, b.asOf);
    RoundKeepsAllDue(s1, limit, b.asOf, b.results, c.asOf);
    RoundMovesUp(s, limit, a.asOf, a.results, i);
    RoundMovesUp(s1, limit, b.asOf, b.results, i);
    FrontRowIsTried(s, limit, a.asOf, a.results, i);
    FrontRowIsTried(s1, limit, b.asOf, b.results, i);
    FrontRowIsTried(s2, limit, c.asOf, c.results, i);
    assert RowOk(s3.rows[i]);
  }

  function ThreeRounds(s: State, limit: nat, a: Tick, b: Tick, c: Tick): (t: State)
    ensures |t.rows| == |s.rows|
  {
    var s1 := Round(s, limit, a.asOf, a.results);
    var s2 := Round(s1, limit, b.asOf, b.results);
    Round(s2, limit, c.asOf, c.results)
  }

  lemma BackRowsOnlyFinish(s: State, limit: nat, a: Tick, b: Tick, c: Tick, i: nat)
    requires i < |s.rows| && Unfinished(ThreeRounds(s, limit, a, b, c).rows[i])
    ensures Unfinished(s.rows[i])
  {
    var s1 := Round(s, limit, a.asOf, a.results);
    var s2 := Round(s1, limit, b.asOf, b.results);
    RoundRows(s, limit, a.asOf, a.results, i);
    RoundRows(s1, limit, b.asOf, b.results, i);
    RoundRows(s2, limit, c.asOf, c.results, i);
  }

  function Less(a: nat, b: nat): nat {
    if a <= b then 0 else a - b
  }

  /** Three rounds take a whole batch off the backlog. */
  lemma {:induction false} ThreeRoundsClearABatch(s: State, limit: nat, a: Tick, b: Tick, c: Tick, i: nat)
    requires RowsOk(s.rows) && AllDue(s.rows, a.asOf) && b.asOf >= a.asOf + 2.0 && c.asOf >= b.asOf + 2.0
    requires i <= |s.rows|
    ensures UnfinishedBefore(ThreeRounds(s, limit, a, b, c).rows, i) <= Less(UnfinishedBefore(s.rows, i), limit)
  {
    if i > 0 {
      ThreeRoundsClearABatch(s, limit, a, b, c, i - 1);
      if Unfinished(ThreeRounds(s, limit, a, b, c).rows[i - 1]) {
        BackRowsOnlyFinish(s, limit, a, b, c, i - 1);
        if UnfinishedBefore(s.rows, i - 1) < limit {
          FrontRowIsFinished(s, limit, a, b, c, i - 1);
        }
      }
    }
  }

  lemma OnceMore(n: nat, limit: nat)
    ensures (n + 1) * limit == n * limit + limit
  {
  }

  /** The last three rounds of a run, after the rows have come through the rest of it. */
  lemma LastBatch(s: State, limit: nat, ticks: seq<Tick>, n: nat)
    requires RowsOk(s.rows) && Spaced(ticks) && |ticks| == n + 3 && AllDue(s.rows, ticks[0].asOf)
    ensures Backlog(Rounds(s, limit, ticks).rows) <= Less(Backlog(Rounds(s, limit, ticks[..n]).rows), limit)
  {
    var a, b, c := ticks[n], ticks[n + 1], ticks[n + 2];
    if n > 0 {
      assert ticks[n - 1 + 1].asOf >= ticks[n - 1].asOf + 2.0;
    }
    RoundsKeepDue(s, limit, ticks[..n], a.asOf);
    assert ticks[n + 1 + 1].asOf >= ticks[n + 1].asOf + 2.0;
    ThreeRoundsClearABatch(Rounds(s, limit, ticks[..n]), limit, a, b, c, |s.rows|);
    LastThree(s, limit, ticks, n);
  }

  /** After three rounds a batch, or more, the backlog is gone but for what the batches did not cover. */
  lemma {:induction false} BacklogShrinks(s: State, limit: nat, ticks: seq<Tick>, batches: nat)
    requires RowsOk(s.rows) && Spaced(ticks) && |ticks| >= 3 * batches
    requires ticks != [] ==> AllDue(s.rows, ticks[0].asOf)
    ensures Backlog(Rounds(s, limit, ticks).rows) <= Less(Backlog(s.rows), batches * limit)
  {
    if |ticks| > 3 * batches {
      var n := |ticks| - 1;
      BacklogShrinks(s, limit, ticks[..n], batches);
      RoundMovesUp(Rounds(s, limit, ticks[..n]), limit, ticks[n].asOf, ticks[n].results, |s.rows|);
    } else if batches > 0 {
      var n := |ticks| - 3;
      BacklogShrinks(s, limit, ticks[..n], batches - 1);
      LastBatch(s, limit, ticks, n);
      OnceMore(batches - 1, limit);
    }
  }

  lemma LastThree(s: State, limit: nat, ticks: seq<Tick>, n: nat)
    requires |ticks| == n + 3
    ensures Rounds(s, limit, ticks)
            == ThreeRounds(Rounds(s, limit, ticks[..n]), limit, ticks[n], ticks[n + 1], ticks[n + 2])
  {
    var s0 := Rounds(s, limit, ticks[..n]);
    var s1 := Round(s0, limit, ticks[n].asOf, ticks[n].results);
    assert Rounds(s, limit, ticks[..n + 1]) == s1 by { assert ticks[..n + 1][..n] == ticks[..n]; }
    assert Rounds(s, limit, ticks[..n + 2]) == Round(s1, limit, ticks[n + 1].asOf, ticks[n + 1].results) by {
      assert ticks[..n + 2][..n + 1] == ticks[..n + 1];
    }
  }

  /** The number of batches of at most `limit` rows that hold `rows` rows. */
  function Batches(rows: nat, limit: nat): nat
    requires limit >= 1
  {
    (rows + limit - 1) / limit
  }

  lemma BatchesCover(rows: nat, limit: nat)
    requires limit >= 1
    ensures Batches(rows, limit) * limit >= rows
  {
    var q := Batches(rows, limit);
    assert (rows + limit - 1) == q * limit + (rows + limit - 1) % limit;
  }

  lemma {:induction false} NoBacklogMeansFinished(rows: seq<OutboxRow>, n: nat, i: nat)
    requires i < n <= |rows| && UnfinishedBefore(rows, n) == 0
    ensures !Unfinished(rows[i])
  {
    if i < n - 1 {
      NoBacklogMeansFinished(rows, n - 1, i);
    }
  }

  /**
   From any backlog of due rows, and without new ones: after 3 * ceil(backlog / limit) rounds or more, at least two
   seconds apart, every row is published or dead-lettered, whatever the stream client does.
   */
  lemma BacklogDrains(s: State, limit: nat, ticks: seq<Tick>)
    requires limit >= 1 && RowsOk(s.rows) && Spaced(ticks)
    requires |ticks| >= 3 * Batches(Backlog(s.rows), limit)
    requires ticks != [] ==> AllDue(s.rows, ticks[0].asOf)
    ensures forall i | 0 <= i < |s.rows| :: Rounds(s, limit, ticks).rows[i].status in {Published, DeadLettered}
  {
    BatchesCover(Backlog(s.rows), limit);
    BacklogShrinks(s, limit, ticks, Batches(Backlog(s.rows), limit));
    var rows := Rounds(s, limit, ticks).rows;
    forall i | 0 <= i < |rows| ensures !Unfinished(rows[i]) {
      NoBacklogMeansFinished(rows, |rows|, i);
    }
  }

  // ---------- The bound cannot be improved ----------

  /** The stream client is down throughout: nothing gets published. */
  ghost predicate AlwaysRaises(ticks: seq<Tick>) {
    forall k | 0 <= k < |ticks| :: forall i: nat :: ticks[k].results(i).Raised?
  }

  ghost predicate AllPending(rows: seq<OutboxRow>) {
    forall i | 0 <= i < |rows| :: rows[i].status == Pending
  }

  /** Rows are given up on up to `front`, were tried `tries` times in the batch from there on, and are new behind it. */
  ghost predicate Staircase(rows: seq<OutboxRow>, front: nat, limit: nat, tries: nat) {
    && (forall i | 0 <= i < front && i < |rows| :: rows[i].status == DeadLettered)
    && (forall i | front <= i < front + limit && i < |rows| :: Unfinished(rows[i]) && rows[i].attempts == tries)
    && (forall i | front + limit <= i < |rows| :: Unfinished(rows[i]) && rows[i].attempts == 0)
  }

  lemma {:induction false} UnfinishedOnStairs(rows: seq<OutboxRow>, front: nat, limit: nat, tries: nat, i: nat)
    requires Staircase(rows, front, limit, tries) && i <= |rows|
    ensures UnfinishedBefore(rows, i) == Less(i, front)
  {
    if i > 0 {
      UnfinishedOnStairs(rows, front, limit, tries, i - 1);
    }
  }

  /** A round in which every try fails is one more try for the front batch, and the third one gives up on it. */
  lemma RoundOnStairs(s: State, front: nat, limit: nat, tries: nat, tick: Tick)
    requires Staircase(s.rows, front, limit, tries) && tries <= 2 && AllDue(s.rows, tick.asOf)
    requires forall i: nat :: tick.results(i).Raised?
    ensures var rows := Round(s, limit, tick.asOf, tick.results).rows;
            if tries < 2 then Staircase(rows, front, limit, tries + 1) else Staircase(rows, front + limit, limit, 0)
  {
    var rows := Round(s, limit, tick.asOf, tick.results).rows;
    forall i | 0 <= i < |rows|
      ensures rows[i] == if front <= i < front + limit then FailRow(s.rows[i], tick.asOf) else s.rows[i]
    {
      RoundOnBacklog(s, limit, tick.asOf, tick.results, i);
      UnfinishedOnStairs(s.rows, front, limit, tries, i);
      assert tick.results(i).Raised?;
    }
  }

  /** How far the front has come after some rounds: a whole batch with every third. */
  function Front(rounds: nat, limit: nat): nat {
    if rounds < 3 then 0 else Front(rounds - 3, limit) + limit
  }

  lemma {:induction false} FrontIsAProduct(rounds: nat, limit: nat)
    ensures Front(rounds, limit) == rounds / 3 * limit
  {
    if rounds >= 3 {
      FrontIsAProduct(rounds - 3, limit);
      OnceMore((rounds - 3) / 3, limit);
    }
  }

  lemma FrontOnceMore(rounds: nat, limit: nat)
    ensures Front(rounds + 1, limit) == Front(rounds, limit) + if rounds % 3 == 2 then limit else 0
  {
    FrontIsAProduct(rounds, limit);
    FrontIsAProduct(rounds + 1, limit);
    OnceMore(rounds / 3, limit);
  }

  /** The rows after some rounds that all failed. */
  ghost predicate StairsAfter(rounds: nat, rows: seq<OutboxRow>, limit: nat) {
    Staircase(rows, Front(rounds, limit), limit, rounds % 3)
  }

  lemma PendingRowsAreNew(rows: seq<OutboxRow>, limit: nat)
    requires RowsOk(rows) && AllPending(rows)
    ensures StairsAfter(0, rows, limit)
  {
    forall i | 0 <= i < |rows| ensures Unfinished(rows[i]) && rows[i].attempts == 0 {
      assert RowOk(rows[i]);
    }
  }

  lemma OneMoreStep(s: State, rounds: nat, limit: nat, tick: Tick)
    requires StairsAfter(rounds, s.rows, limit) && AllDue(s.rows, tick.asOf)
    requires forall i: nat :: tick.results(i).Raised?
    ensures StairsAfter(rounds + 1, Round(s, limit, tick.asOf, tick.results).rows, limit)
  {
    FrontOnceMore(rounds, limit);
    RoundOnStairs(s, Front(rounds, limit), limit, rounds % 3, tick);
  }

  lemma {:induction false} RoundsMakeStairs(s: State, limit: nat, ticks: seq<Tick>)
    requires RowsOk(s.rows) && AllPending(s.rows) && Spaced(ticks) && AlwaysRaises(ticks)
    ensures StairsAfter(|ticks|, Rounds(s, limit, ticks).rows, limit)
  {
    if ticks == [] {
      PendingRowsAreNew(s.rows, limit);
    } else {
      var n := |ticks| - 1;
      RoundsMakeStairs(s, limit, ticks[..n]);
      StairsAreDue(s, limit, ticks);
      assert forall i: nat :: ticks[n].results(i).Raised?;
      OneMoreStep(Rounds(s, limit, ticks[..n]), n, limit, ticks[n]);
    }
  }

  lemma StairsAreDue(s: State, limit: nat, ticks: seq<Tick>)
    requires RowsOk(s.rows) && AllPending(s.rows) && Spaced(ticks) && ticks != []
    ensures var n := |ticks| - 1; AllDue(Rounds(s, limit, ticks[..n]).rows, ticks[n].asOf)
  {
    var n := |ticks| - 1;
    forall i | 0 <= i < |s.rows| ensures Due(s.rows[i], ticks[0].asOf) {
      assert RowOk(s.rows[i]);
    }
    if n > 0 {
      assert ticks[n - 1 + 1].asOf >= ticks[n - 1].asOf + 2.0;
    }
    RoundsKeepDue(s, limit, ticks[..n], ticks[n].asOf);
  }

  lemma {:induction false} FewerBatches(low: nat, high: nat, limit: nat)
    requires low <= high
    ensures low * limit <= high * limit
  {
    if low < high {
      FewerBatches(low, high - 1, limit);
      OnceMore(high - 1, limit);
    }
  }

  /** One batch less does not cover the rows. */
  lemma BatchesAreNeeded(rows: nat, limit: nat)
    requires limit >= 1 && Batches(rows, limit) >= 1
    ensures (Batches(rows, limit) - 1) * limit < rows
  {
    var q := Batches(rows, limit);
    assert rows + limit - 1 == q * limit + (rows + limit - 1) % limit;
    OnceMore(q - 1, limit);
  }

  lemma FrontIsInside(rounds: nat, rows: nat, limit: nat)
    requires limit >= 1 && rounds < 3 * Batches(rows, limit)
    ensures Front(rounds, limit) < rows
  {
    FrontIsAProduct(rounds, limit);
    BatchesAreNeeded(rows, limit);
    FewerBatches(rounds / 3, Batches(rows, limit) - 1, limit);
  }

  /** While the client is down, any fewer rounds over pending rows leave one unfinished. */
  lemma FewerRoundsDoNotSuffice(s: State, limit: nat, ticks: seq<Tick>)
    requires limit >= 1 && RowsOk(s.rows) && AllPending(s.rows) && Spaced(ticks) && AlwaysRaises(ticks)
    requires |ticks| < 3 * Batches(|s.rows|, limit)
    ensures exists i | 0 <= i < |s.rows| :: Unfinished(Rounds(s, limit, ticks).rows[i])
  {
    RoundsMakeStairs(s, limit, ticks);
    FrontIsInside(|ticks|, |s.rows|, limit);
    assert Unfinished(Rounds(s, limit, ticks).rows[Front(|ticks|, limit)]);
  }

  // ---------- No try before its time ----------

  /** Every round is before the time the row waits for. */
  ghost predicate AllBefore(ticks: seq<Tick>, at: Time) {
    forall k | 0 <= k < |ticks| :: ticks[k].asOf < at
  }

  lemma {:induction false} WaitingRowsWait(s: State, limit: nat, ticks: seq<Tick>, i: nat)
    requires i < |s.rows| && s.rows[i].nextAt.Some? && AllBefore(ticks, s.rows[i].nextAt.value)
    ensures Rounds(s, limit, ticks).rows[i] == s.rows[i]
  {
    if ticks != [] {
      var n := |ticks| - 1;
      WaitingRowsWait(s, limit, ticks[..n], i);
      RoundIsDecided(Rounds(s, limit, ticks[..n]), limit, ticks[n].asOf, ticks[n].results, i);
    }
  }

  /** However often the dispatcher runs: a row that failed for the n-th time is left alone for n seconds. */
  lemma FailedRowsWait(s: State, limit: nat, i: nat, deadLetterSent: bool, failedAt: Time, ticks: seq<Tick>)
    requires i < |s.rows| && s.rows[i].attempts < 2
    requires AllBefore(ticks, failedAt + (s.rows[i].attempts + 1) as real)
    ensures var failed := PublishOne(s, i, Raised(deadLetterSent), failedAt);
            && failed.rows[i].status == PublishFailed
            && Rounds(failed, limit, ticks).rows[i] == failed.rows[i]
  {
    PublicationIsDecided(s, i, Raised(deadLetterSent), failedAt);
    WaitingRowsWait(PublishOne(s, i, Raised(deadLetterSent), failedAt), limit, ticks, i);
  }
}
