/** What holds of the outbox after any enqueues and dispatcher rounds, in any order. */
module OutboxRuns {
  import opened Basics
  import opened Outbox

  function Occurrences(stream: seq<EventId>, event: EventId): nat {
    if stream == [] then 0
    else Occurrences(stream[..|stream| - 1], event) + if stream[|stream| - 1] == event then 1 else 0
  }

  /** The row's failures, and when it may be tried again, fit its status. */
  predicate RowOk(row: OutboxRow) {
    match row.status
    case Pending => row.attempts == 0 && row.nextAt == None
    case PublishFailed => 1 <= row.attempts <= 2 && row.nextAt.Some?
    case Published => row.attempts <= 2 && row.nextAt == None
    case DeadLettered => row.attempts == 3 && row.nextAt == None
  }

  /** The row's event is on the stream once, exactly if published, and on the dead-letter stream only if given up on. */
  predicate StreamsOk(row: OutboxRow, stream: seq<EventId>, deadLetters: seq<EventId>) {
    && Occurrences(stream, row.event) == (if row.status == Published then 1 else 0)
    && Occurrences(deadLetters, row.event) <= (if row.status == DeadLettered then 1 else 0)
  }

  ghost predicate Sound(s: State) {
    && (forall i | 0 <= i < |s.rows| :: RowOk(s.rows[i]) && StreamsOk(s.rows[i], s.stream, s.deadLetters))
    && Distinct(Events(s.rows))
    && (forall e | e in s.stream || e in s.deadLetters :: e in Events(s.rows))
  }

  lemma OneMoreOccurrence(stream: seq<EventId>, event: EventId, other: EventId)
    ensures Occurrences(stream + [event], other) == Occurrences(stream, other) + if other == event then 1 else 0
  {
    assert (stream + [event])[..|stream|] == stream;
  }

  lemma {:induction false} AbsentDoesNotOccur(stream: seq<EventId>, event: EventId)
    requires event !in stream
    ensures Occurrences(stream, event) == 0
  {
    if stream != [] {
      AbsentDoesNotOccur(stream[..|stream| - 1], event);
    }
  }

  /** Publishing row `i` leaves the streams of every other row's event alone. */
  lemma PublishOneStreams(s: State, i: nat, p: Publication, asOf: Time, other: EventId)
    requires i < |s.rows|
    ensures var t, row := PublishOne(s, i, p, asOf), PublishRow(s.rows[i], p, asOf);
            && Occurrences(t.stream, other)
               == Occurrences(s.stream, other) + (if p.Sent? && other == s.rows[i].event then 1 else 0)
            && Occurrences(t.deadLetters, other)
               == Occurrences(s.deadLetters, other)
                  + (if p.Raised? && p.deadLetterSent && row.status == DeadLettered && other == s.rows[i].event then 1
                     else 0)
  {
    OneMoreOccurrence(s.stream, s.rows[i].event, other);
    OneMoreOccurrence(s.deadLetters, s.rows[i].event, other);
  }

  lemma PublishOneSound(s: State, i: nat, p: Publication, asOf: Time)
    requires Sound(s) && i < |s.rows| && Unfinished(s.rows[i])
    ensures Sound(PublishOne(s, i, p, asOf))
  {
    var t := PublishOne(s, i, p, asOf);
    PublishOneEvents(s, i, p, asOf);
    forall k | 0 <= k < |t.rows| ensures RowOk(t.rows[k]) && StreamsOk(t.rows[k], t.stream, t.deadLetters) {
      assert Events(s.rows)[k] == s.rows[k].event && Events(s.rows)[i] == s.rows[i].event;
      PublishOneRow(s, i, p, asOf, k);
    }
  }

  lemma PublishOneEvents(s: State, i: nat, p: Publication, asOf: Time)
    requires i < |s.rows| && forall e | e in s.stream || e in s.deadLetters :: e in Events(s.rows)
    ensures var t := PublishOne(s, i, p, asOf);
            Events(t.rows) == Events(s.rows) && forall e | e in t.stream || e in t.deadLetters :: e in Events(t.rows)
  {
    assert Events(PublishOne(s, i, p, asOf).rows) == Events(s.rows);
    assert s.rows[i].event == Events(s.rows)[i];
  }

  lemma PublishOneRow(s: State, i: nat, p: Publication, asOf: Time, k: nat)
    requires i < |s.rows| && k < |s.rows| && Unfinished(s.rows[i]) && RowOk(s.rows[i]) && RowOk(s.rows[k])
    requires StreamsOk(s.rows[k], s.stream, s.deadLetters) && (k != i ==> s.rows[k].event != s.rows[i].event)
    ensures var t := PublishOne(s, i, p, asOf);
            RowOk(t.rows[k]) && StreamsOk(t.rows[k], t.stream, t.deadLetters)
  {
    PublishOneStreams(s, i, p, asOf, s.rows[k].event);
  }

  lemma {:induction false} PublishAllSound(s: State, picked: seq<nat>, results: nat -> Publication, asOf: Time)
    requires Sound(s) && InRange(picked, |s.rows|) && Ascending(picked)
    requires forall k | 0 <= k < |picked| :: Unfinished(s.rows[picked[k]])
    ensures Sound(PublishAll(s, picked, results, asOf))
  {
    if picked != [] {
      var n := |picked| - 1;
      PublishAllSound(s, picked[..n], results, asOf);
      PublishAllRows(s, picked[..n], results, asOf, picked[n]);
      PublishOneSound(PublishAll(s, picked[..n], results, asOf), picked[n], results(picked[n]), asOf);
    }
  }

  lemma RoundSound(s: State, limit: nat, asOf: Time, results: nat -> Publication)
    requires Sound(s)
    ensures Sound(Round(s, limit, asOf, results))
  {
    PickedExactly(s.rows, asOf, limit);
    var picked := Picked(s.rows, asOf, limit);
    forall k | 0 <= k < |picked| ensures Unfinished(s.rows[picked[k]]) {
      assert picked[k] in picked;
    }
    PublishAllSound(s, picked, results, asOf);
  }

  /** Where the row goes. */
  function Place(rows: seq<OutboxRow>, row: OutboxRow): (i: nat)
    ensures i <= |rows|
  {
    if rows == [] || !Before(row, rows[|rows| - 1]) then |rows| else Place(rows[..|rows| - 1], row)
  }

  lemma {:induction false} InsertAtPlace(rows: seq<OutboxRow>, row: OutboxRow)
    ensures var i := Place(rows, row); Insert(rows, row) == rows[..i] + [row] + rows[i..]
  {
    if rows != [] && Before(row, rows[|rows| - 1]) {
      var n := |rows| - 1;
      InsertAtPlace(rows[..n], row);
      var i := Place(rows, row);
      assert rows[..n][..i] == rows[..i];
      assert rows[..n][i..] + [rows[n]] == rows[i..];
    }
  }

  ghost predicate Ordered(rows: seq<OutboxRow>) {
    forall i, k | 0 <= i < k < |rows| :: !Before(rows[k], rows[i])
  }

  /** The stored order is the order of the query, whenever rows are enqueued in it. */
  lemma {:induction false} InsertKeepsOrder(rows: seq<OutboxRow>, row: OutboxRow)
    requires Ordered(rows)
    ensures Ordered(Insert(rows, row))
    ensures forall r :: r in Insert(rows, row) <==> r == row || r in rows
  {
    if rows != [] && Before(row, rows[|rows| - 1]) {
      var n := |rows| - 1;
      InsertKeepsOrder(rows[..n], row);
      var grown := Insert(rows, row);
      assert rows == rows[..n] + [rows[n]];
      forall i, k | 0 <= i < k < |grown| ensures !Before(grown[k], grown[i]) {
        assert grown[i] in grown[..|grown| - 1];
        assert grown[..|grown| - 1] == Insert(rows[..n], row);
      }
    }
  }

  lemma InsertEvents(rows: seq<OutboxRow>, row: OutboxRow)
    requires Distinct(Events(rows)) && row.event !in Events(rows)
    ensures var grown := Insert(rows, row);
            && Distinct(Events(grown)) && row.event in Events(grown)
            && (forall e | e in Events(rows) :: e in Events(grown))
  {
    var i := Place(rows, row);
    InsertAtPlace(rows, row);
    var earlier, later := Events(rows[..i]), Events(rows[i..]);
    assert Events(rows) == earlier + later;
    assert Events(Insert(rows, row)) == earlier + [row.event] + later;
    StaysDistinct(earlier, row.event, later);
  }

  lemma StaysDistinct<T>(before: seq<T>, x: T, after: seq<T>)
    requires Distinct(before + after) && x !in before + after
    ensures Distinct(before + [x] + after)
  {
    var xs, all, n := before + after, before + [x] + after, |before|;
    forall i, k | 0 <= i < k < |all| ensures all[i] != all[k] {
      assert i != n ==> all[i] == xs[if i < n then i else i - 1];
      assert k != n ==> all[k] == xs[if k < n then k else k - 1];
    }
  }

  lemma EnqueueSound(s: State, id: nat, event: EventId, occurredAt: Time)
    requires Sound(s)
    ensures Sound(Enqueue(s, id, event, occurredAt))
  {
    if event !in Events(s.rows) {
      var row := OutboxRow(id, event, occurredAt, Pending, 0, None);
      var i, t := Place(s.rows, row), Enqueue(s, id, event, occurredAt);
      InsertAtPlace(s.rows, row);
      InsertEvents(s.rows, row);
      AbsentDoesNotOccur(s.stream, event);
      AbsentDoesNotOccur(s.deadLetters, event);
      forall k | 0 <= k < |t.rows| ensures RowOk(t.rows[k]) && StreamsOk(t.rows[k], t.stream, t.deadLetters) {
        assert t.rows[k] == if k < i then s.rows[k] else if k == i then row else s.rows[k - 1];
      }
    }
  }

  lemma RoundKeepsOrder(s: State, limit: nat, asOf: Time, results: nat -> Publication)
    requires Ordered(s.rows)
    ensures Ordered(Round(s, limit, asOf, results).rows)
  {
    var t := Round(s, limit, asOf, results);
    forall i, k | 0 <= i < k < |t.rows| ensures !Before(t.rows[k], t.rows[i]) {
      RoundRows(s, limit, asOf, results, i);
      RoundRows(s, limit, asOf, results, k);
    }
  }

  datatype Op = OpEnqueue(id: nat, event: EventId, occurredAt: Time)
              | OpRound(limit: nat, asOf: Time, results: nat -> Publication)

  function Do(s: State, op: Op): State {
    match op
    case OpEnqueue(id, event, occurredAt) => Enqueue(s, id, event, occurredAt)
    case OpRound(limit, asOf, results) => Round(s, limit, asOf, results)
  }

  function DoAll(s: State, ops: seq<Op>): State {
    if ops == [] then s else Do(DoAll(s, ops[..|ops| - 1]), ops[|ops| - 1])
  }

  const EMPTY := State([], [], [])

  lemma {:induction false} OpsSound(s: State, ops: seq<Op>)
    requires Sound(s) && Ordered(s.rows)
    ensures Sound(DoAll(s, ops)) && Ordered(DoAll(s, ops).rows)
  {
    if ops != [] {
      var n := |ops| - 1;
      OpsSound(s, ops[..n]);
      var before := DoAll(s, ops[..n]);
      match ops[n]
      case OpEnqueue(id, event, occurredAt) =>
        EnqueueSound(before, id, event, occurredAt);
        InsertKeepsOrder(before.rows, OutboxRow(id, event, occurredAt, Pending, 0, None));
      case OpRound(limit, asOf, results) =>
        RoundSound(before, limit, asOf, results);
        RoundKeepsOrder(before, limit, asOf, results);
    }
  }

  /**
   On every run: pending rows have no failure, failed ones 1 or 2 and a time to try again, dead-lettered ones
   exactly 3; a row's event is on the stream exactly once if and only if the row is published; and the rows are
   in the order of the query.
   */
  lemma OutboxIsSound(ops: seq<Op>)
    ensures Sound(DoAll(EMPTY, ops)) && Ordered(DoAll(EMPTY, ops).rows)
  {
    OpsSound(EMPTY, ops);
  }

  /** How often a row has been tried. */
  function Tries(row: OutboxRow): nat {
    row.attempts + if row.status == Published then 1 else 0
  }

  /** On every run no row has been tried more than three times, and the third try is its last. */
  lemma TriedAtMostThreeTimes(ops: seq<Op>, i: nat)
    requires i < |DoAll(EMPTY, ops).rows|
    ensures var row := DoAll(EMPTY, ops).rows[i];
            Tries(row) <= MAX_PUBLISH_ATTEMPTS && (Tries(row) == MAX_PUBLISH_ATTEMPTS ==> !Unfinished(row))
  {
    OutboxIsSound(ops);
    assert RowOk(DoAll(EMPTY, ops).rows[i]);
  }

  /** A round tries every row it picks once, and leaves finished rows exactly as they are. */
  lemma RoundTriesOnce(s: State, limit: nat, asOf: Time, results: nat -> Publication, i: nat)
    requires i < |s.rows|
    ensures var before, after := s.rows[i], Round(s, limit, asOf, results).rows[i];
            && (!Unfinished(before) ==> after == before)
            && (Unfinished(before) ==>
                  Tries(after)
                  == Tries(before) + if Due(before, asOf) && DueBefore(s.rows, i, asOf) < limit then 1 else 0)
  {
    RoundRows(s, limit, asOf, results, i);
  }

  // ---------- One publication, one enqueue, one round, in terms of the rows alone ----------

  /**
   A record that is sent is published and on the stream. After its first and second failure it waits as many seconds as
   it has failed; after the third it is given up on, and is on the dead-letter stream if that could be written to.
   */
  lemma PublicationIsDecided(s: State, i: nat, p: Publication, asOf: Time)
    requires i < |s.rows|
    ensures var row, n, t := s.rows[i], s.rows[i].attempts + 1, PublishOne(s, i, p, asOf);
            t == match p
              case Sent =>
                s.(rows := s.rows[i := row.(status := Published, nextAt := None)], stream := s.stream + [row.event])
              case Raised(deadLetterSent) =>
                if n == 1 || n == 2 then
                  s.(rows :=
                       s.rows[i := row.(status := PublishFailed, attempts := n, nextAt := Some(asOf + n as real))])
                else
                  s.(rows := s.rows[i := row.(status := DeadLettered, attempts := n, nextAt := None)],
                     deadLetters := s.deadLetters + if deadLetterSent then [row.event] else [])
  {
  }

  /** Row `a` comes before row `b` in the dispatcher's query. */
  predicate Earlier(a: OutboxRow, b: OutboxRow) {
    a.occurredAt < b.occurredAt || (a.occurredAt == b.occurredAt && a.id < b.id)
  }

  /** A new event becomes a pending row in its place in time, and nothing else changes; a known one changes nothing. */
  lemma EnqueueIsDecided(s: State, id: nat, event: EventId, occurredAt: Time) returns (k: nat)
    requires Ordered(s.rows)
    ensures var t, row := Enqueue(s, id, event, occurredAt), OutboxRow(id, event, occurredAt, Pending, 0, None);
            if exists i | 0 <= i < |s.rows| :: s.rows[i].event == event then t == s
            else
              && k <= |s.rows| && t == s.(rows := s.rows[..k] + [row] + s.rows[k..])
              && (forall i | 0 <= i < k :: !Earlier(row, s.rows[i]))
              && (forall i | k <= i < |s.rows| :: !Earlier(s.rows[i], row))
  {
    var row := OutboxRow(id, event, occurredAt, Pending, 0, None);
    k := Place(s.rows, row);
    if i :| 0 <= i < |s.rows| && s.rows[i].event == event {
      assert Events(s.rows)[i] == event;
    }
    InsertAtPlace(s.rows, row);
    PlaceIsRight(s.rows, row);
  }

  lemma {:induction false} PlaceIsRight(rows: seq<OutboxRow>, row: OutboxRow)
    requires Ordered(rows)
    ensures var k := Place(rows, row);
            && (forall i | 0 <= i < k :: !Earlier(row, rows[i]))
            && (forall i | k <= i < |rows| :: !Earlier(rows[i], row))
  {
    if rows != [] {
      var n := |rows| - 1;
      PlaceIsRight(rows[..n], row);
      forall i | 0 <= i < n ensures !Before(rows[n], rows[i]) {
      }
    }
  }

  /** On every run the rows are in the order of the query. */
  lemma RowsAreInOrder(ops: seq<Op>, i: nat, k: nat)
    requires i < k < |DoAll(EMPTY, ops).rows|
    ensures !Earlier(DoAll(EMPTY, ops).rows[k], DoAll(EMPTY, ops).rows[i])
  {
    OutboxIsSound(ops);
  }

  /** A row that a dispatcher may try at that time: not finished, and not told to wait for longer. */
  predicate IsReady(row: OutboxRow, asOf: Time) {
    && (row.status == Pending || row.status == PublishFailed)
    && (row.nextAt == None || row.nextAt.value <= asOf)
  }

  function ReadyRows(rows: seq<OutboxRow>, asOf: Time): nat {
    if rows == [] then 0
    else ReadyRows(rows[..|rows| - 1], asOf) + if IsReady(rows[|rows| - 1], asOf) then 1 else 0
  }

  lemma {:induction false} ReadyIsDue(rows: seq<OutboxRow>, n: nat, asOf: Time)
    requires n <= |rows|
    ensures ReadyRows(rows[..n], asOf) == DueBefore(rows, n, asOf)
  {
    if n > 0 {
      ReadyIsDue(rows, n - 1, asOf);
      assert rows[..n][..n - 1] == rows[..n - 1];
    }
  }

  /** A round tries exactly the rows that are ready and have fewer than `limit` ready rows before them, and no other. */
  lemma RoundIsDecided(s: State, limit: nat, asOf: Time, results: nat -> Publication, i: nat)
    requires i < |s.rows|
    ensures var before, after := s.rows[i], Round(s, limit, asOf, results).rows[i];
            if IsReady(before, asOf) && ReadyRows(s.rows[..i], asOf) < limit
            then after == PublishOne(s, i, results(i), asOf).rows[i]
            else after == before
  {
    RoundRows(s, limit, asOf, results, i);
    ReadyIsDue(s.rows, i, asOf);
  }
}
