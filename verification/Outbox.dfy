/**
 The transactional outbox and its dispatcher, on values: rows in the order of the dispatcher's query, the
 lifecycle stream and the dead-letter stream. A publication that raises appends nothing.
 */
module Outbox {
  import opened Basics

  type EventId = nat

  const MAX_PUBLISH_ATTEMPTS: nat := 3

  datatype OutboxStatus = Pending | Published | PublishFailed | DeadLettered

  datatype OutboxRow = OutboxRow(
    id: nat, event: EventId, occurredAt: Time, status: OutboxStatus, attempts: nat, nextAt: Option<Time>)

  /** What the stream client does with one record, and with its dead letter should there be one. */
  datatype Publication = Sent | Raised(deadLetterSent: bool)

  datatype State = State(rows: seq<OutboxRow>, stream: seq<EventId>, deadLetters: seq<EventId>)

  predicate Unfinished(row: OutboxRow) {
    row.status == Pending || row.status == PublishFailed
  }

  /** `list_pending_events` selects the row. */
  predicate Due(row: OutboxRow, asOf: Time) {
    Unfinished(row) && (row.nextAt.Some? ==> row.nextAt.value <= asOf)
  }

  /** ORDER BY occurred_at, outbox_id */
  predicate Before(a: OutboxRow, b: OutboxRow) {
    a.occurredAt < b.occurredAt || (a.occurredAt == b.occurredAt && a.id < b.id)
  }

  function Insert(rows: seq<OutboxRow>, row: OutboxRow): seq<OutboxRow> {
    if rows == [] || !Before(row, rows[|rows| - 1]) then rows + [row]
    else Insert(rows[..|rows| - 1], row) + [rows[|rows| - 1]]
  }

  function Events(rows: seq<OutboxRow>): seq<EventId> {
    seq(|rows|, i requires 0 <= i < |rows| => rows[i].event)
  }

  /** `enqueue_event`; a violated unique key on the event id leaves nothing behind. */
  function Enqueue(s: State, id: nat, event: EventId, occurredAt: Time): State {
    if event in Events(s.rows) then s
    else s.(rows := Insert(s.rows, OutboxRow(id, event, occurredAt, Pending, 0, None)))
  }

  /** The first `limit` due rows, by position. */
  function Picked(rows: seq<OutboxRow>, asOf: Time, limit: nat): seq<nat> {
    if rows == [] then []
    else
      var n := |rows| - 1;
      var earlier := Picked(rows[..n], asOf, limit);
      if |earlier| < limit && Due(rows[n], asOf) then earlier + [n] else earlier
  }

  /** One failed publication: tried again after as many seconds as there were failures, or given up on. */
  function FailRow(row: OutboxRow, asOf: Time): OutboxRow {
    var failures := row.attempts + 1;
    if failures >= MAX_PUBLISH_ATTEMPTS then row.(status := DeadLettered, attempts := failures, nextAt := None)
    else row.(status := PublishFailed, attempts := failures, nextAt := Some(asOf + failures as real))
  }

  function PublishRow(row: OutboxRow, p: Publication, asOf: Time): OutboxRow {
    if p.Sent? then row.(status := Published, nextAt := None) else FailRow(row, asOf)
  }

  /** `_publish_record` */
  function PublishOne(s: State, i: nat, p: Publication, asOf: Time): State
    requires i < |s.rows|
  {
    var row := PublishRow(s.rows[i], p, asOf);
    State(s.rows[i := row],
          if p.Sent? then s.stream + [row.event] else s.stream,
          if row.status == DeadLettered && p.Raised? && p.deadLetterSent then s.deadLetters + [row.event]
          else s.deadLetters)
  }

  predicate InRange(picked: seq<nat>, n: nat) {
    forall k | 0 <= k < |picked| :: picked[k] < n
  }

  /** Each picked row in turn; `results` tells what the client does at each position. */
  function PublishAll(s: State, picked: seq<nat>, results: nat -> Publication, asOf: Time): (t: State)
    requires InRange(picked, |s.rows|)
    ensures |t.rows| == |s.rows|
  {
    if picked == [] then s
    else
      var n := |picked| - 1;
      PublishOne(PublishAll(s, picked[..n], results, asOf), picked[n], results(picked[n]), asOf)
  }

  lemma {:induction false} PickedInRange(rows: seq<OutboxRow>, asOf: Time, limit: nat)
    ensures InRange(Picked(rows, asOf, limit), |rows|)
  {
    if rows != [] {
      PickedInRange(rows[..|rows| - 1], asOf, limit);
    }
  }

  /** `publish_due_events`: the batch is chosen before its first record is published. */
  function Round(s: State, limit: nat, asOf: Time, results: nat -> Publication): (t: State)
    ensures |t.rows| == |s.rows|
  {
    PickedInRange(s.rows, asOf, limit);
    PublishAll(s, Picked(s.rows, asOf, limit), results, asOf)
  }

  // ---------- Which rows a round picks ----------

  function DueBefore(rows: seq<OutboxRow>, i: nat, asOf: Time): nat
    requires i <= |rows|
  {
    if i == 0 then 0 else DueBefore(rows, i - 1, asOf) + if Due(rows[i - 1], asOf) then 1 else 0
  }

  function Least(a: nat, b: nat): nat {
    if a <= b then a else b
  }

  ghost predicate Ascending(picked: seq<nat>) {
    forall a, b | 0 <= a < b < |picked| :: picked[a] < picked[b]
  }

  /** The picks among the first `n` rows. */
  ghost predicate PicksUpTo(picked: seq<nat>, rows: seq<OutboxRow>, n: nat, asOf: Time, limit: nat)
    requires n <= |rows|
  {
    && Ascending(picked) && InRange(picked, n)
    && |picked| == Least(limit, DueBefore(rows, n, asOf))
    && forall i: nat :: i in picked <==> i < n && Due(rows[i], asOf) && DueBefore(rows, i, asOf) < limit
  }

  lemma OneMorePick(picked: seq<nat>, rows: seq<OutboxRow>, n: nat, asOf: Time, limit: nat)
    requires n < |rows| && PicksUpTo(picked, rows, n, asOf, limit)
    ensures PicksUpTo(if |picked| < limit && Due(rows[n], asOf) then picked + [n] else picked, rows, n + 1, asOf, limit)
  {
    assert |picked| < limit <==> DueBefore(rows, n, asOf) < limit;
  }

  lemma {:induction false} PickedUpTo(rows: seq<OutboxRow>, n: nat, asOf: Time, limit: nat)
    requires n <= |rows|
    ensures PicksUpTo(Picked(rows[..n], asOf, limit), rows, n, asOf, limit)
  {
    if n > 0 {
      PickedUpTo(rows, n - 1, asOf, limit);
      assert rows[..n][..n - 1] == rows[..n - 1];
      OneMorePick(Picked(rows[..n - 1], asOf, limit), rows, n - 1, asOf, limit);
    }
  }

  /** A row is picked exactly when it is due and fewer than `limit` rows before it are. */
  lemma PickedExactly(rows: seq<OutboxRow>, asOf: Time, limit: nat)
    ensures var picked := Picked(rows, asOf, limit);
            && Ascending(picked) && InRange(picked, |rows|)
            && |picked| == Least(limit, DueBefore(rows, |rows|, asOf))
            && forall i: nat :: i in picked <==> i < |rows| && Due(rows[i], asOf) && DueBefore(rows, i, asOf) < limit
  {
    PickedUpTo(rows, |rows|, asOf, limit);
    assert rows[..|rows|] == rows;
  }

  /** What a round does to each row. */
  lemma {:induction false} PublishAllRows(s: State, picked: seq<nat>, results: nat -> Publication, asOf: Time, i: nat)
    requires InRange(picked, |s.rows|) && Ascending(picked) && i < |s.rows|
    ensures PublishAll(s, picked, results, asOf).rows[i]
            == if i in picked then PublishRow(s.rows[i], results(i), asOf) else s.rows[i]
  {
    if picked != [] {
      PublishAllRows(s, picked[..|picked| - 1], results, asOf, i);
    }
  }

  lemma RoundRows(s: State, limit: nat, asOf: Time, results: nat -> Publication, i: nat)
    requires i < |s.rows|
    ensures Round(s, limit, asOf, results).rows[i]
            == if Due(s.rows[i], asOf) && DueBefore(s.rows, i, asOf) < limit
               then PublishRow(s.rows[i], results(i), asOf) else s.rows[i]
  {
    PickedExactly(s.rows, asOf, limit);
    PublishAllRows(s, Picked(s.rows, asOf, limit), results, asOf, i);
  }
}
