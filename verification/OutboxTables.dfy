/** The outbox row, its retry schedule, and the order the outbox is read in. */
module OutboxTables {
  import opened Options
  import opened OrdersContracts

  const SECOND: int := 1_000_000

  /** Rows looked at per poll. */
  const BATCH_SIZE: nat := 50

  /** The wait after each failed delivery. The sixth failure dead-letters the row. */
  const RETRY_DELAYS: seq<int> := [1 * SECOND, 5 * SECOND, 30 * SECOND, 120 * SECOND, 600 * SECOND]

  /** A payload column: text the event type's decoder accepts, or text it does not. */
  datatype Payload = Readable(event: InvoiceFinalized) | Unreadable

  /** The columns of an outbox row that never change. */
  datatype Message = Message(eventType: EventType, payload: Payload, occurredAt: Instant)

  /**
   The columns of an outbox row that delivery updates. `failures` is an auxiliary
   column: the times of the failed deliveries since the row was published or last
   sent back by a person. No step reads it.
   */
  datatype Row = Row(
    attempts: int,
    nextAttemptAt: Instant,
    processedAt: Option<Instant>,
    deadLetteredAt: Option<Instant>,
    failures: seq<Instant>)

  function NewRow(dueAt: Instant): Row {
    Row(0, dueAt, None, None, [])
  }

  /** `record_failure`: the next attempt after the schedule's delay, or the dead letter. */
  function Failed(row: Row, now: Instant): Row
  {
    var attempts := row.attempts + 1;
    if 0 <= attempts - 1 < |RETRY_DELAYS|
    then row.(attempts := attempts, nextAttemptAt := now + RETRY_DELAYS[attempts - 1], failures := row.failures + [now])
    else row.(attempts := attempts, deadLetteredAt := Some(now), failures := row.failures + [now])
  }

  function Processed(row: Row, now: Instant): Row {
    row.(processedAt := Some(now))
  }

  /** `DeadLetters::retry`, on a dead-lettered row. */
  function SentBack(row: Row, now: Instant): Row {
    row.(attempts := 0, deadLetteredAt := None, nextAttemptAt := now, failures := [])
  }

  predicate Pending(row: Row) {
    row.processedAt == None && row.deadLetteredAt == None
  }

  predicate Due(row: Row, now: Instant) {
    Pending(row) && row.nextAttemptAt <= now
  }

  /** `ORDER BY "OccurredAt", "Id"`. */
  predicate Before(messages: map<EventId, Message>, a: EventId, b: EventId)
    requires a in messages && b in messages
  {
    messages[a].occurredAt < messages[b].occurredAt
    || (messages[a].occurredAt == messages[b].occurredAt && a < b)
  }

  /** `ids` is what the query `… ORDER BY "OccurredAt", "Id" LIMIT 50` returns over `rows`. */
  predicate IsFirstBatch(messages: map<EventId, Message>, rows: set<EventId>, ids: seq<EventId>)
    requires rows <= messages.Keys
  {
    && |ids| <= BATCH_SIZE
    && (forall i :: 0 <= i < |ids| ==> ids[i] in rows)
    && (forall i, j :: 0 <= i < j < |ids| ==> Before(messages, ids[i], ids[j]))
    && (forall id :: id in rows && id !in ids ==>
          |ids| == BATCH_SIZE && forall i :: 0 <= i < |ids| ==> Before(messages, ids[i], id))
  }

  /** The earliest fifty of the rows by their columns, in order, or all of them when there are fewer. */
  ghost predicate EarliestFifty(messages: map<EventId, Message>, rows: set<EventId>, ids: seq<EventId>)
  {
    && |ids| <= 50
    && (forall i :: 0 <= i < |ids| ==> ids[i] in rows && ids[i] in messages)
    && (forall i, j :: 0 <= i < j < |ids| ==>
          messages[ids[i]].occurredAt < messages[ids[j]].occurredAt
          || (messages[ids[i]].occurredAt == messages[ids[j]].occurredAt && ids[i] < ids[j]))
    && (forall id, i :: id in rows && id in messages && id !in ids && 0 <= i < |ids| ==>
          messages[ids[i]].occurredAt < messages[id].occurredAt
          || (messages[ids[i]].occurredAt == messages[id].occurredAt && ids[i] < id))
    && (|ids| < 50 ==> forall id :: id in rows ==> id in ids)
  }

  lemma FirstBatchIsEarliest(messages: map<EventId, Message>, rows: set<EventId>, ids: seq<EventId>)
    requires rows <= messages.Keys && IsFirstBatch(messages, rows, ids)
    ensures EarliestFifty(messages, rows, ids)
  {
    forall i, j | 0 <= i < j < |ids| ensures Before(messages, ids[i], ids[j]) {
    }
    forall id, i | id in rows && id !in ids && 0 <= i < |ids| ensures Before(messages, ids[i], id) {
    }
  }

  /** The query, run: repeatedly the first of the rows not taken yet. */
  method SelectFirst(messages: map<EventId, Message>, rows: set<EventId>) returns (ids: seq<EventId>)
    requires rows <= messages.Keys
    ensures IsFirstBatch(messages, rows, ids)
    ensures |ids| == if |rows| < BATCH_SIZE then |rows| else BATCH_SIZE
  {
    ids := [];
    var left := rows;
    while left != {} && |ids| < BATCH_SIZE
      invariant left <= rows
      invariant |ids| <= BATCH_SIZE
      invariant |ids| + |left| == |rows|
      invariant forall i :: 0 <= i < |ids| ==> ids[i] in rows && ids[i] !in left
      invariant forall id :: id in rows ==> id in left || id in ids
      invariant forall i, j :: 0 <= i < j < |ids| ==> Before(messages, ids[i], ids[j])
      invariant forall i, id :: 0 <= i < |ids| && id in left ==> Before(messages, ids[i], id)
      decreases left
    {
      var first := FirstOf(messages, left);
      ids := ids + [first];
      left := left - {first};
    }
  }

  method AnyOf<T>(s: set<T>) returns (x: T)
    requires s != {}
    ensures x in s
  {
    x :| x in s;
  }

  method FirstOf(messages: map<EventId, Message>, rows: set<EventId>) returns (first: EventId)
    requires rows != {} && rows <= messages.Keys
    ensures first in rows
    ensures forall id :: id in rows && id != first ==> Before(messages, first, id)
  {
    first := AnyOf(rows);
    var rest := rows - {first};
    while rest != {}
      invariant rest <= rows && first in rows && first !in rest
      invariant forall id :: id in rows && id != first && id !in rest ==> Before(messages, first, id)
      decreases rest
    {
      var next := AnyOf(rest);
      rest := rest - {next};
      if Before(messages, next, first) {
        first := next;
      }
    }
  }

  // ------------------------------------------------------------------
  // The retry machine of one row
  // ------------------------------------------------------------------

  /** The times recorded so far respect the schedule. */
  ghost predicate OnSchedule(failures: seq<Instant>)
  {
    && |failures| <= |RETRY_DELAYS| + 1
    && forall i :: 0 <= i < |failures| - 1 ==> failures[i + 1] >= failures[i] + RETRY_DELAYS[i]
  }

  /**
   What every committed row satisfies: attempts stay in 0..6 and count the failures
   of this retry cycle, a row is dead exactly at the sixth, a processed row is not
   dead, and a waiting row is not due before its last failure's delay has passed.
   */
  ghost predicate RowInvariant(row: Row)
  {
    && 0 <= row.attempts <= |RETRY_DELAYS| + 1
    && row.attempts == |row.failures|
    && (row.deadLetteredAt.Some? <==> row.attempts == |RETRY_DELAYS| + 1)
    && (row.processedAt.Some? ==> row.deadLetteredAt == None)
    && OnSchedule(row.failures)
    && (Pending(row) && row.attempts > 0 ==>
          row.nextAttemptAt >= row.failures[row.attempts - 1] + RETRY_DELAYS[row.attempts - 1])
  }

  /** A delivery that fails when the row was due keeps the row on its schedule. */
  lemma FailedKeepsInvariant(row: Row, now: Instant)
    requires RowInvariant(row) && Due(row, now)
    ensures RowInvariant(Failed(row, now))
    ensures Failed(row, now).deadLetteredAt.Some? <==> row.attempts == |RETRY_DELAYS|
    ensures !Due(Failed(row, now), now)
  {
    var after := Failed(row, now);
    assert row.attempts <= |RETRY_DELAYS|;
    forall i | 0 <= i < |after.failures| - 1
      ensures after.failures[i + 1] >= after.failures[i] + RETRY_DELAYS[i]
    {
      if i < |row.failures| - 1 {
        assert after.failures[i] == row.failures[i] && after.failures[i + 1] == row.failures[i + 1];
      }
    }
  }

  /** A dead row's sixth failure came at least 756 seconds after its first. */
  lemma DeadNotBefore756Seconds(row: Row)
    requires RowInvariant(row) && row.deadLetteredAt.Some?
    ensures |row.failures| == 6
    ensures row.failures[5] - row.failures[0] >= 756 * SECOND
  {
    var f := row.failures;
    assert f[1] >= f[0] + RETRY_DELAYS[0];
    assert f[2] >= f[1] + RETRY_DELAYS[1];
    assert f[3] >= f[2] + RETRY_DELAYS[2];
    assert f[4] >= f[3] + RETRY_DELAYS[3];
    assert f[5] >= f[4] + RETRY_DELAYS[4];
  }
}
