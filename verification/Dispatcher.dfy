/** The outbox table, the stream client and the dispatcher as they change their rows and streams. */
module Dispatcher {
  import opened Basics
  import opened Outbox

  class EventOutboxRepository {
    var rows: seq<OutboxRow>

    constructor ()
      ensures rows == []
    {
      rows := [];
    }

    /** Rows are kept in the order of `list_pending_events`. `ok` is false where the unique event id is violated. */
    method EnqueueEvent(id: nat, event: EventId, occurredAt: Time) returns (ok: bool)
      modifies this
      ensures ok == (event !in Events(old(rows)))
      ensures rows == if ok then Insert(old(rows), OutboxRow(id, event, occurredAt, Pending, 0, None)) else old(rows)
    {
      ok := event !in Events(rows);
      if !ok {
        return;
      }
      var row := OutboxRow(id, event, occurredAt, Pending, 0, None);
      var i := |rows|;
      assert rows[..i] == rows;
      while i > 0 && Before(row, rows[i - 1])
        invariant 0 <= i <= |rows| && rows == old(rows)
        invariant Insert(rows, row) == Insert(rows[..i], row) + rows[i..]
      {
        i := i - 1;
        assert rows[..i + 1][..i] == rows[..i];
        assert [rows[i]] + rows[i + 1..] == rows[i..];
      }
      rows := rows[..i] + [row] + rows[i..];
    }

    /** `claim_due_events`, by position. */
    method ClaimDueEvents(asOf: Time, limit: nat) returns (picked: seq<nat>)
      ensures picked == Picked(rows, asOf, limit)
    {
      picked := [];
      for i := 0 to |rows|
        invariant picked == Picked(rows[..i], asOf, limit)
      {
        assert rows[..i + 1][..i] == rows[..i];
        if |picked| < limit && Due(rows[i], asOf) {
          picked := picked + [i];
        }
      }
      assert rows[..|rows|] == rows;
    }

    method MarkDispatched(i: nat)
      requires i < |rows|
      modifies this
      ensures rows == old(rows)[i := old(rows)[i].(status := Published, nextAt := None)]
    {
      rows := rows[i := rows[i].(status := Published, nextAt := None)];
    }

    method MarkPublishFailed(i: nat, nextAt: Time)
      requires i < |rows|
      modifies this
      ensures rows == old(rows)[i := old(rows)[i].(
                        status := PublishFailed, nextAt := Some(nextAt), attempts := old(rows)[i].attempts + 1)]
    {
      rows := rows[i := rows[i].(status := PublishFailed, nextAt := Some(nextAt), attempts := rows[i].attempts + 1)];
    }

    method MarkDeadLetter(i: nat)
      requires i < |rows|
      modifies this
      ensures rows == old(rows)[i := old(rows)[i].(
                        status := DeadLettered, nextAt := None, attempts := old(rows)[i].attempts + 1)]
    {
      rows := rows[i := rows[i].(status := DeadLettered, nextAt := None, attempts := rows[i].attempts + 1)];
    }
  }

  /** The two streams; whether a call raises is decided from outside. */
  class RedisStreamClient {
    var stream: seq<EventId>
    var deadLetters: seq<EventId>

    constructor ()
      ensures stream == [] && deadLetters == []
    {
      stream, deadLetters := [], [];
    }

    method PublishEvent(event: EventId, raises: bool) returns (ok: bool)
      modifies this`stream
      ensures ok == !raises && stream == if ok then old(stream) + [event] else old(stream)
    {
      ok := !raises;
      if ok {
        stream := stream + [event];
      }
    }

    method PublishDeadLetter(event: EventId, raises: bool) returns (ok: bool)
      modifies this`deadLetters
      ensures ok == !raises && deadLetters == if ok then old(deadLetters) + [event] else old(deadLetters)
    {
      ok := !raises;
      if ok {
        deadLetters := deadLetters + [event];
      }
    }
  }

  class EventDispatcher {
    const repository: EventOutboxRepository
    const client: RedisStreamClient

    constructor (repository: EventOutboxRepository, client: RedisStreamClient)
      ensures this.repository == repository && this.client == client
    {
      this.repository, this.client := repository, client;
    }

    function Value(): State
      reads repository, client
    {
      State(repository.rows, client.stream, client.deadLetters)
    }

    /** The batch is claimed before its first record is published; each record then succeeds or fails by itself. */
    method PublishDueEvents(limit: nat, asOf: Time, results: nat -> Publication)
      modifies repository, client
      ensures Value() == Round(old(Value()), limit, asOf, results)
    {
      ghost var start := Value();
      PickedInRange(repository.rows, asOf, limit);
      var picked := repository.ClaimDueEvents(asOf, limit);
      for k := 0 to |picked|
        invariant |repository.rows| == |start.rows| && InRange(picked[..k], |start.rows|)
        invariant Value() == PublishAll(start, picked[..k], results, asOf)
      {
        PublishRecord(picked[k], results(picked[k]), asOf);
        assert picked[..k + 1][..k] == picked[..k];
      }
      assert picked[..|picked|] == picked;
    }

    method PublishRecord(i: nat, p: Publication, asOf: Time)
      requires i < |repository.rows|
      modifies repository, client
      ensures Value() == PublishOne(old(Value()), i, p, asOf)
    {
      var ok := client.PublishEvent(repository.rows[i].event, p.Raised?);
      if ok {
        repository.MarkDispatched(i);
      } else {
        MarkPublishFailure(i, p.deadLetterSent, asOf);
      }
    }

    method MarkPublishFailure(i: nat, deadLetterSent: bool, asOf: Time)
      requires i < |repository.rows|
      modifies repository, client
      ensures Value() == PublishOne(old(Value()), i, Raised(deadLetterSent), asOf)
    {
      var nextAttempt := repository.rows[i].attempts + 1;
      if nextAttempt >= MAX_PUBLISH_ATTEMPTS {
        DeadLetterRecord(i, deadLetterSent);
      } else {
        repository.MarkPublishFailed(i, asOf + nextAttempt as real);
      }
    }

    /** The row is given up on whether or not its dead letter gets through. */
    method DeadLetterRecord(i: nat, sent: bool)
      requires i < |repository.rows|
      modifies repository, client
      ensures repository.rows == old(repository.rows)[i := old(repository.rows)[i].(
                                   status := DeadLettered, nextAt := None,
                                   attempts := old(repository.rows)[i].attempts + 1)]
      ensures client.stream == old(client.stream)
      ensures client.deadLetters == old(client.deadLetters) + if sent then [old(repository.rows)[i].event] else []
    {
      repository.MarkDeadLetter(i);
      var ok := client.PublishDeadLetter(repository.rows[i].event, !sent);
    }
  }
}
