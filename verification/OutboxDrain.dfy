/** Progress: what a committed batch uses up, and why the go-again-at-once loop ends. */
module OutboxDrain {
  import opened FiniteSets
  import opened OrdersContracts
  import opened OutboxTables
  import opened OutboxSystem
  import opened OutboxInvariants
  import opened OutboxDelivery
  import opened OutboxVerdicts
  import opened FiniteSums

  // ------------------------------------------------------------------
  // Every committed batch uses up attempts
  // ------------------------------------------------------------------

  function AttemptsLeft(rows: map<EventId, Row>, id: EventId): int
  {
    if id in rows && Pending(rows[id]) then |RETRY_DELAYS| + 1 - rows[id].attempts else 0
  }

  /** The sum over pending rows of the deliveries each may still fail. */
  ghost function Work(rows: map<EventId, Row>): int
  {
    Sum(rows.Keys, (id: EventId) => AttemptsLeft(rows, id))
  }

  function ToSet<T>(xs: seq<T>): set<T> {
    set x | x in xs
  }

  lemma {:induction false} DistinctSize<T>(xs: seq<T>)
    requires forall i, j :: 0 <= i < j < |xs| ==> xs[i] != xs[j]
    ensures |ToSet(xs)| == |xs|
  {
    if xs != [] {
      var last, rest := xs[|xs| - 1], xs[..|xs| - 1];
      DistinctSize(rest);
      assert xs == rest + [last];
      assert ToSet(xs) == ToSet(rest) + {last};
      assert last !in rest;
    }
  }

  lemma CommitUsesAttempt(s: System, b: Batch, id: EventId)
    requires Structure(s) && RowsSound(s) && BatchShape(s, b) && UpdatesSound(s, b) && b.at == |b.ids|
    requires id in s.rows
    ensures AttemptsLeft(Updated(s.rows, b.updates), id) + (if id in b.ids then 1 else 0) <= AttemptsLeft(s.rows, id)
  {
    assert b.ids[..b.at] == b.ids;
    if id in b.ids {
      var i :| 0 <= i < |b.ids| && b.ids[i] == id;
      assert Due(s.rows[b.ids[i]], s.now);
      assert RowInvariant(s.rows[id]) && IsVerdict(s.rows[id], b.updates[id]);
    }
  }

  /** A committed batch lowers the work left by at least one per row it looked at. */
  lemma CommitLowersWork(host: Host, s: System, d: int)
    requires Structure(s) && RowsSound(s) && Enabled(host, s, Commit(d))
    ensures 0 <= Work(Apply(host, s, Commit(d)).rows) <= Work(s.rows) - |s.batches[d].ids|
  {
    var t := Apply(host, s, Commit(d));
    var b := s.batches[d];
    var before := (id: EventId) => AttemptsLeft(s.rows, id);
    var after := (id: EventId) => AttemptsLeft(t.rows, id);
    var used := (id: EventId) => if id in b.ids then 1 else 0;
    var both := (id: EventId) => AttemptsLeft(t.rows, id) + if id in b.ids then 1 else 0;
    assert t.rows.Keys == s.rows.Keys;
    forall id | id in s.rows.Keys ensures both(id) <= before(id) {
      CommitUsesAttempt(s, b, id);
    }
    SumMonotone(s.rows.Keys, both, before);
    SumAdd(s.rows.Keys, after, used, both);
    BatchSize(s, b);
    SumRestrict(s.rows.Keys, ToSet(b.ids), used);
    SumOfOnes(ToSet(b.ids), used);
    CommitKeepsRows(host, s, d);
    WorkNonNegative(t);
  }

  lemma BatchSize(s: System, b: Batch)
    requires BatchShape(s, b)
    ensures |ToSet(b.ids)| == |b.ids| && ToSet(b.ids) <= s.rows.Keys
  {
    DistinctSize(b.ids);
    forall id | id in ToSet(b.ids) ensures id in s.rows {
      var i :| 0 <= i < |b.ids| && b.ids[i] == id;
    }
  }

  lemma WorkNonNegative(s: System)
    requires RowsSound(s)
    ensures Work(s.rows) >= 0
  {
    var left := (id: EventId) => AttemptsLeft(s.rows, id);
    forall id | id in s.rows.Keys ensures 0 <= left(id) {
      assert RowInvariant(s.rows[id]);
    }
    SumZero(s.rows.Keys, (id: EventId) => 0);
    SumMonotone(s.rows.Keys, (id: EventId) => 0, left);
  }

  // ------------------------------------------------------------------
  // So a run commits only so many
  // ------------------------------------------------------------------

  /** The steps that give the dispatchers work: a row published, or a dead letter sent back. */
  predicate AddsWork(step: Step) {
    step.Finalize? || step.Publish? || step.SendBack?
  }

  function Additions(trace: seq<Step>): nat {
    if trace == [] then 0 else (if AddsWork(trace[0]) then 1 else 0) + Additions(trace[1..])
  }

  /** How many rows the batches committed along a run looked at. */
  function RowsCommitted(host: Host, s: System, trace: seq<Step>): nat
    requires Legal(host, s, trace)
    decreases |trace|
  {
    if trace == [] then 0
    else (if trace[0].Commit? then |s.batches[trace[0].d].ids| else 0)
         + RowsCommitted(host, Apply(host, s, trace[0]), trace[1..])
  }

  /** How many of those batches were not empty. */
  function BatchesCommitted(host: Host, s: System, trace: seq<Step>): nat
    requires Legal(host, s, trace)
    decreases |trace|
  {
    if trace == [] then 0
    else (if trace[0].Commit? && s.batches[trace[0].d].ids != [] then 1 else 0)
         + BatchesCommitted(host, Apply(host, s, trace[0]), trace[1..])
  }

  /** Writing one row changes the work left by that row's attempts alone. */
  lemma WorkOfOneRow(rows: map<EventId, Row>, id: EventId, row: Row)
    ensures Work(rows[id := row]) == Work(rows) - AttemptsLeft(rows, id) + AttemptsLeft(rows[id := row], id)
  {
    var after := rows[id := row];
    var was := (i: EventId) => AttemptsLeft(rows, i);
    var now := (i: EventId) => AttemptsLeft(after, i);
    var others := rows.Keys - {id};
    assert after.Keys == others + {id};
    SumInsert(others, id, now);
    SumCongruent(others, was, now);
    if id in rows {
      SumRemove(rows.Keys, id, was);
    } else {
      assert others == rows.Keys;
    }
  }

  lemma AddedWork(host: Host, s: System, step: Step)
    requires RowsSound(s) && Enabled(host, s, step) && AddsWork(step)
    ensures Work(Apply(host, s, step).rows) <= Work(s.rows) + |RETRY_DELAYS| + 1
  {
    var t := Apply(host, s, step);
    var id := if step.Finalize? then step.eventId else if step.Publish? then step.id else step.letter;
    assert t.rows == s.rows[id := t.rows[id]];
    WorkOfOneRow(s.rows, id, t.rows[id]);
  }

  lemma SameRows(host: Host, s: System, step: Step)
    requires Enabled(host, s, step) && !AddsWork(step) && !step.Commit?
    ensures Apply(host, s, step).rows == s.rows
  {
    if IsQuiet(step) {
      QuietStep(host, s, step);
    }
  }

  lemma StepUsesWork(host: Host, s: System, step: Step)
    requires Structure(s) && RowsSound(s) && Enabled(host, s, step)
    ensures Work(Apply(host, s, step).rows) + (if step.Commit? then |s.batches[step.d].ids| else 0)
         <= Work(s.rows) + (if AddsWork(step) then |RETRY_DELAYS| + 1 else 0)
  {
    if step.Commit? {
      CommitLowersWork(host, s, step.d);
    } else if AddsWork(step) {
      AddedWork(host, s, step);
    } else {
      SameRows(host, s, step);
    }
  }

  /**
   Over every run, the rows that committed batches looked at, and the work still left, come to no
   more than the work there was and six deliveries for each row published or sent back. Without
   either, a run holds at most `Work(s.rows)` committed non-empty batches.
   */
  lemma {:induction false} RunUsesWork(host: Host, s: System, trace: seq<Step>)
    requires Structure(s) && RowsSound(s) && Legal(host, s, trace)
    ensures BatchesCommitted(host, s, trace) <= RowsCommitted(host, s, trace)
    ensures RowsCommitted(host, s, trace) + Work(Run(host, s, trace).rows)
         <= Work(s.rows) + (|RETRY_DELAYS| + 1) * Additions(trace)
    ensures Work(Run(host, s, trace).rows) >= 0
    decreases |trace|
  {
    if trace == [] {
      WorkNonNegative(s);
    } else {
      StepUsesWork(host, s, trace[0]);
      StructureKept(host, s, trace[0]);
      RowsSoundKept(host, s, trace[0]);
      RunUsesWork(host, Apply(host, s, trace[0]), trace[1..]);
    }
  }

  // ------------------------------------------------------------------
  // With the clock held still, a batch takes exactly min(50, due) rows out of the due set
  // ------------------------------------------------------------------

  lemma BatchTakesMin(messages: map<EventId, Message>, rows: set<EventId>, ids: seq<EventId>)
    requires rows <= messages.Keys && IsFirstBatch(messages, rows, ids)
    ensures |ToSet(ids)| == |ids| && ToSet(ids) <= rows
    ensures |ids| == if |rows| < BATCH_SIZE then |rows| else BATCH_SIZE
  {
    forall i, j | 0 <= i < j < |ids| ensures ids[i] != ids[j] {
      assert Before(messages, ids[i], ids[j]);
    }
    DistinctSize(ids);
    forall id | id in ToSet(ids) ensures id in rows {
      var i :| 0 <= i < |ids| && ids[i] == id;
    }
    SubsetSize(ToSet(ids), rows);
    if |ids| < BATCH_SIZE {
      forall id | id in rows ensures id in ToSet(ids) {
      }
      assert ToSet(ids) == rows;
    }
  }

  /** One dispatcher's moves inside its batch. */
  predicate InsideBatch(step: Step, d: int)
  {
    (step.RunHandler? && step.d == d) || (step.Settle? && step.d == d)
  }

  /** `s` is `start` with the batch `b` of `d` under way and the clock where it was. */
  ghost predicate UnderWay(start: System, s: System, d: int, ids: seq<EventId>)
  {
    && s.now == start.now && s.messages == start.messages && s.rows == start.rows
    && d in s.batches && s.batches == start.batches[d := s.batches[d]] && s.batches[d].ids == ids
    && (forall id :: id in s.batches[d].updates ==>
          id in s.rows
          && (s.batches[d].updates[id] == Failed(s.rows[id], s.now)
              || s.batches[d].updates[id] == Processed(s.rows[id], s.now)))
  }

  lemma {:induction false} StaysUnderWay(
    host: Host, start: System, s: System, d: int, ids: seq<EventId>, trace: seq<Step>)
    requires Structure(s) && RowsSound(s) && UnderWay(start, s, d, ids) && Legal(host, s, trace)
    requires forall step :: step in trace ==> InsideBatch(step, d)
    ensures Structure(Run(host, s, trace)) && RowsSound(Run(host, s, trace))
    ensures UnderWay(start, Run(host, s, trace), d, ids)
    decreases |trace|
  {
    if trace != [] {
      assert trace[0] in trace;
      StructureKept(host, s, trace[0]);
      RowsSoundKept(host, s, trace[0]);
      OneMoveUnderWay(host, start, s, d, ids, trace[0]);
      StaysUnderWay(host, start, Apply(host, s, trace[0]), d, ids, trace[1..]);
    }
  }

  lemma OneMoveUnderWay(host: Host, start: System, s: System, d: int, ids: seq<EventId>, step: Step)
    requires UnderWay(start, s, d, ids) && Enabled(host, s, step) && InsideBatch(step, d)
    ensures UnderWay(start, Apply(host, s, step), d, ids)
  {
    var t := Apply(host, s, step);
    assert t.batches == start.batches[d := t.batches[d]];
  }

  /** A row a still-clock batch has ruled on is not due any more. */
  lemma RuledOutOfDue(s: System, d: int, id: EventId)
    requires Structure(s) && RowsSound(s) && d in s.batches && id in s.batches[d].updates
    requires s.batches[d].updates[id] == Failed(s.rows[id], s.now)
          || s.batches[d].updates[id] == Processed(s.rows[id], s.now)
    ensures !Due(s.batches[d].updates[id], s.now)
  {
    assert id in s.batches[d].ids[..s.batches[d].at];
    LockedRowIsDue(s, d, id);
    FailedKeepsInvariant(s.rows[id], s.now);
  }

  lemma CommittedBatchLeavesDue(host: Host, start: System, s: System, d: int, ids: seq<EventId>)
    requires Structure(s) && RowsSound(s) && UnderWay(start, s, d, ids) && d !in start.batches
    requires Enabled(host, s, Commit(d))
    requires IsFirstBatch(start.messages, Deliverable(start), ids)
    ensures Deliverable(Apply(host, s, Commit(d))) == Deliverable(start) - ToSet(ids)
  {
    var t := Apply(host, s, Commit(d));
    var b := s.batches[d];
    assert b.ids[..b.at] == ids;
    assert t.batches == start.batches;
    forall id | id in t.rows
      ensures Due(t.rows[id], t.now) <==> Due(start.rows[id], start.now) && id !in ids
    {
      if id in ids {
        assert id in b.updates;
        RuledOutOfDue(s, d, id);
      }
    }
  }

  /**
   With the clock held still and nothing published, a batch that commits removes exactly
   min(50, due) rows from the due set, whether its handlers succeeded or failed.
   */
  lemma BatchDrains(host: Host, s: System, d: int, ids: seq<EventId>, moves: seq<Step>)
    requires Structure(s) && RowsSound(s)
    requires Enabled(host, s, Begin(d, ids))
    requires forall step :: step in moves ==> InsideBatch(step, d)
    requires Legal(host, Apply(host, s, Begin(d, ids)), moves)
    requires Enabled(host, Run(host, Apply(host, s, Begin(d, ids)), moves), Commit(d))
    ensures var t := Apply(host, Run(host, Apply(host, s, Begin(d, ids)), moves), Commit(d));
            && Deliverable(t) == Deliverable(s) - ToSet(ids)
            && |ids| == (if |Deliverable(s)| < BATCH_SIZE then |Deliverable(s)| else BATCH_SIZE)
            && |Deliverable(t)| == |Deliverable(s)| - |ids|
  {
    var begun := Apply(host, s, Begin(d, ids));
    StructureKept(host, s, Begin(d, ids));
    RowsSoundKept(host, s, Begin(d, ids));
    assert UnderWay(s, begun, d, ids);
    StaysUnderWay(host, s, begun, d, ids, moves);
    CommittedBatchLeavesDue(host, s, Run(host, begun, moves), d, ids);
    BatchTakesMin(s.messages, Deliverable(s), ids);
  }

  lemma CommittedTables(host: Host, start: System, s: System, d: int, ids: seq<EventId>)
    requires Structure(s) && UnderWay(start, s, d, ids) && Enabled(host, s, Commit(d))
    ensures var t := Apply(host, s, Commit(d));
            && t.now == start.now && t.messages == start.messages && t.rows.Keys == start.rows.Keys
            && forall id :: id in start.rows && id !in ids ==> t.rows[id] == start.rows[id]
  {
    var b := s.batches[d];
    assert b.ids[..b.at] == ids;
  }

  /** A batch that took its rows out of the due set and left the others alone has drained them. */
  lemma DrainedByBatch(host: Host, s: System, t: System, d: int, ids: seq<EventId>, moves: seq<Step>)
    requires BatchRuled(host, s, t, d, ids, moves)
    requires t.now == s.now && t.messages == s.messages && t.rows.Keys == s.rows.Keys
    requires forall id :: id in s.rows && id !in ids ==> t.rows[id] == s.rows[id]
    requires Deliverable(t) == Deliverable(s) - ToSet(ids) && forall id :: id in ids ==> id in Deliverable(s)
    ensures Drained(host, s, t, d, moves)
  {
    forall id | id in s.rows && (id in Deliverable(t) || id !in Deliverable(s)) ensures t.rows[id] == s.rows[id] {
      assert id in ids ==> id in ToSet(ids) && id in Deliverable(s);
    }
    forall id | id in Deliverable(s) && id !in Deliverable(t)
      ensures Published(s.rows[id], t.rows[id], s.now, s.now) || FailedAgain(s.rows[id], t.rows[id], s.now, s.now)
      ensures RunHandler(d, false) !in moves ==>
                Ruled(Reachable(host, s.messages[id]), s.rows[id], t.rows[id], s.now, s.now)
    {
      assert id in ToSet(ids);
      var i :| 0 <= i < |ids| && ids[i] == id;
      RuledAtStillClock(host, s, t, d, ids, moves, i);
    }
  }

  /** A batch that has the database to itself and commits: its rows have their verdicts, and no other row changed. */
  lemma CommittedAlone(host: Host, s: System, d: int, ids: seq<EventId>, moves: seq<Step>)
    requires Structure(s) && RowsSound(s)
    requires Enabled(host, s, Begin(d, ids))
    requires forall step :: step in moves ==> InsideBatch(step, d)
    requires Legal(host, Apply(host, s, Begin(d, ids)), moves)
    requires Enabled(host, Run(host, Apply(host, s, Begin(d, ids)), moves), Commit(d))
    ensures Drained(host, s, Apply(host, Run(host, Apply(host, s, Begin(d, ids)), moves), Commit(d)), d, moves)
  {
    var begun := Apply(host, s, Begin(d, ids));
    var u := Run(host, begun, moves);
    var t := Apply(host, u, Commit(d));
    BatchDrains(host, s, d, ids, moves);
    BatchVerdicts(host, s, d, ids, moves);
    StructureKept(host, s, Begin(d, ids));
    RowsSoundKept(host, s, Begin(d, ids));
    StaysUnderWay(host, s, begun, d, ids, moves);
    CommittedTables(host, s, u, d, ids);
    DrainedByBatch(host, s, t, d, ids, moves);
  }

  lemma RuledAtStillClock(
    host: Host, s: System, t: System, d: int, ids: seq<EventId>, moves: seq<Step>, i: nat)
    requires BatchRuled(host, s, t, d, ids, moves) && t.now == s.now && i < |ids|
    ensures var id := ids[i];
            && id in s.rows && id in t.rows && id in s.messages
            && (Published(s.rows[id], t.rows[id], s.now, s.now) || FailedAgain(s.rows[id], t.rows[id], s.now, s.now))
            && (RunHandler(d, false) !in moves ==>
                  Ruled(Reachable(host, s.messages[id]), s.rows[id], t.rows[id], s.now, s.now))
  {
    if RunHandler(d, false) !in moves {
      NoneAnsweredFalse(moves, d, i);
    }
  }

  lemma AbortedTables(host: Host, start: System, s: System, d: int, ids: seq<EventId>)
    requires UnderWay(start, s, d, ids) && d !in start.batches
    ensures var t := Apply(host, s, Abort(d));
            t.now == start.now && t.messages == start.messages && t.rows == start.rows && t.batches == start.batches
  {
    assert Apply(host, s, Abort(d)).batches == start.batches;
  }

  lemma NothingDrained(host: Host, s: System, t: System, d: int, moves: seq<Step>)
    requires t.now == s.now && t.messages == s.messages && t.rows == s.rows && t.batches == s.batches
    ensures Drained(host, s, t, d, moves)
  {
  }

  /** One that aborts leaves every row as it was. */
  lemma AbortedAlone(host: Host, s: System, d: int, ids: seq<EventId>, moves: seq<Step>)
    requires Structure(s) && RowsSound(s)
    requires Enabled(host, s, Begin(d, ids))
    requires forall step :: step in moves ==> InsideBatch(step, d)
    requires Legal(host, Apply(host, s, Begin(d, ids)), moves)
    requires Enabled(host, Run(host, Apply(host, s, Begin(d, ids)), moves), Abort(d))
    ensures Drained(host, s, Apply(host, Run(host, Apply(host, s, Begin(d, ids)), moves), Abort(d)), d, moves)
  {
    var begun := Apply(host, s, Begin(d, ids));
    StructureKept(host, s, Begin(d, ids));
    RowsSoundKept(host, s, Begin(d, ids));
    StaysUnderWay(host, s, begun, d, ids, moves);
    AbortedTables(host, s, Run(host, begun, moves), d, ids);
    NothingDrained(host, s, Apply(host, Run(host, begun, moves), Abort(d)), d, moves);
  }
}
