/** At-least-once delivery: the retry machine over runs, no event lost, and draining. */
module OutboxDelivery {
  import opened Options
  import opened OrdersContracts
  import opened OutboxTables
  import opened OutboxSystem
  import opened OutboxInvariants

  // ------------------------------------------------------------------
  // The retry machine, over runs
  // ------------------------------------------------------------------

  /** An uncommitted row update is one delivery's verdict on the committed row. */
  ghost predicate IsVerdict(row: Row, update: Row)
  {
    (exists t :: update == Failed(row, t)) || (exists t :: update == Processed(row, t))
  }

  ghost predicate UpdatesSound(s: System, b: Batch)
  {
    forall id :: id in b.updates && id in s.rows ==> RowInvariant(b.updates[id]) && IsVerdict(s.rows[id], b.updates[id])
  }

  ghost predicate RowsSound(s: System)
  {
    && (forall id :: id in s.rows ==> RowInvariant(s.rows[id]))
    && (forall d :: d in s.batches ==> UpdatesSound(s, s.batches[d]))
  }

  lemma RowsSoundFrame(s: System, t: System)
    requires Structure(s) && RowsSound(s)
    requires forall id :: id in t.rows ==> RowInvariant(t.rows[id])
    requires forall d :: d in t.batches ==> d in s.batches && t.batches[d] == s.batches[d]
    requires forall d, id :: d in t.batches && id in s.batches[d].ids ==> id in t.rows && t.rows[id] == s.rows[id]
    ensures RowsSound(t)
  {
    forall d | d in t.batches ensures UpdatesSound(t, t.batches[d]) {
      var b := s.batches[d];
      forall id | id in b.updates ensures id in s.rows && t.rows[id] == s.rows[id] {
        assert id in b.ids[..b.at];
        assert id in b.ids;
        LockedRowIsDue(s, d, id);
      }
    }
  }

  lemma SettleKeepsRows(host: Host, s: System, d: int)
    requires Structure(s) && RowsSound(s) && Enabled(host, s, Settle(d))
    ensures RowsSound(Apply(host, s, Settle(d)))
  {
    var b := s.batches[d];
    var row := s.rows[b.ids[b.at]];
    LockedRowIsDue(s, d, b.ids[b.at]);
    FailedKeepsInvariant(row, s.now);
    assert IsVerdict(row, Failed(row, s.now)) && IsVerdict(row, Processed(row, s.now));
    var t := Apply(host, s, Settle(d));
    forall e | e in t.batches ensures UpdatesSound(t, t.batches[e]) {
      assert UpdatesSound(s, s.batches[e]);
    }
  }

  lemma CommitKeepsRows(host: Host, s: System, d: int)
    requires Structure(s) && RowsSound(s) && Enabled(host, s, Commit(d))
    ensures RowsSound(Apply(host, s, Commit(d)))
  {
    var t := Apply(host, s, Commit(d));
    var b := s.batches[d];
    assert UpdatesSound(s, b);
    forall id | id in b.updates ensures id in b.ids {
      assert id in b.ids[..b.at];
    }
    forall e, id | e in t.batches && id in s.batches[e].ids
      ensures id in t.rows && t.rows[id] == s.rows[id]
    {
      LockedRowIsDue(s, e, id);
      assert id !in b.ids;
    }
    RowsSoundFrame(s, t);
  }

  lemma SendBackKeepsRows(host: Host, s: System, letter: EventId)
    requires Structure(s) && RowsSound(s) && Enabled(host, s, SendBack(letter))
    ensures RowsSound(Apply(host, s, SendBack(letter)))
  {
    var t := Apply(host, s, SendBack(letter));
    forall e, id | e in t.batches && id in s.batches[e].ids
      ensures id in t.rows && t.rows[id] == s.rows[id]
    {
      LockedRowIsDue(s, e, id);
    }
    RowsSoundFrame(s, t);
  }

  lemma PublishedRowIsSound(dueAt: Instant)
    ensures RowInvariant(NewRow(dueAt))
  {
  }

  /** A step that adds at most new rows and moves no batch's verdicts. */
  lemma RowsKeptKeepsSound(s: System, t: System)
    requires Structure(s) && RowsSound(s)
    requires forall id :: id in t.rows ==>
               if id in s.rows then t.rows[id] == s.rows[id] else exists due :: t.rows[id] == NewRow(due)
    requires s.rows.Keys <= t.rows.Keys
    requires forall d :: d in t.batches ==>
               if d in s.batches then t.batches[d].updates == s.batches[d].updates else t.batches[d].updates == map[]
    ensures RowsSound(t)
  {
    forall id | id in t.rows ensures RowInvariant(t.rows[id]) {
      if id !in s.rows {
        var due :| t.rows[id] == NewRow(due);
        PublishedRowIsSound(due);
      }
    }
    forall d | d in t.batches ensures UpdatesSound(t, t.batches[d]) {
      if d in s.batches {
        var b := s.batches[d];
        forall id | id in b.updates ensures id in s.rows {
          assert id in b.ids[..b.at];
          LockedRowIsDue(s, d, id);
        }
      }
    }
  }

  lemma RowsSoundKept(host: Host, s: System, step: Step)
    requires Structure(s) && RowsSound(s) && Enabled(host, s, step)
    ensures RowsSound(Apply(host, s, step))
  {
    match step
    case Settle(d) => SettleKeepsRows(host, s, d);
    case Commit(d) => CommitKeepsRows(host, s, d);
    case SendBack(letter) => SendBackKeepsRows(host, s, letter);
    case Finalize(_, _, _, _) => OtherStepKeepsRows(host, s, step);
    case Publish(_, _, _) => OtherStepKeepsRows(host, s, step);
    case Begin(_, _) => BatchStepKeepsRows(host, s, step);
    case RunHandler(_, _) => BatchStepKeepsRows(host, s, step);
    case _ =>
      QuietStep(host, s, step);
      RowsKeptKeepsSound(s, Apply(host, s, step));
  }

  lemma OtherStepKeepsRows(host: Host, s: System, step: Step)
    requires Structure(s) && RowsSound(s) && Enabled(host, s, step) && (step.Finalize? || step.Publish?)
    ensures RowsSound(Apply(host, s, step))
  {
    RowsKeptKeepsSound(s, Apply(host, s, step));
  }

  lemma BatchStepKeepsRows(host: Host, s: System, step: Step)
    requires Structure(s) && RowsSound(s) && Enabled(host, s, step) && (step.Begin? || step.RunHandler?)
    ensures RowsSound(Apply(host, s, step))
  {
    RowsKeptKeepsSound(s, Apply(host, s, step));
  }

  /**
   After every run, including dead letters sent back: attempts stay in 0..6, a row is dead
   exactly at the sixth failure, never both dead and processed, and on schedule.
   */
  lemma {:induction false} RetryMachineAlways(host: Host, s: System, trace: seq<Step>)
    requires Structure(s) && RowsSound(s) && Legal(host, s, trace)
    ensures Structure(Run(host, s, trace)) && RowsSound(Run(host, s, trace))
    decreases |trace|
  {
    if trace != [] {
      StructureKept(host, s, trace[0]);
      RowsSoundKept(host, s, trace[0]);
      RetryMachineAlways(host, Apply(host, s, trace[0]), trace[1..]);
    }
  }

  /** In every reachable state a dead row took at least 756 seconds to die. */
  lemma DeathTakes756Seconds(host: Host, s: System, trace: seq<Step>, id: EventId)
    requires Structure(s) && RowsSound(s) && Legal(host, s, trace)
    requires id in Run(host, s, trace).rows && Run(host, s, trace).rows[id].deadLetteredAt.Some?
    ensures var failures := Run(host, s, trace).rows[id].failures;
            |failures| == 6 && failures[5] - failures[0] >= 756 * SECOND
  {
    RetryMachineAlways(host, s, trace);
    DeadNotBefore756Seconds(Run(host, s, trace).rows[id]);
  }

  /** No step touches a processed row again. */
  lemma ProcessedIsTerminal(host: Host, s: System, step: Step, id: EventId)
    requires Structure(s) && RowsSound(s) && Enabled(host, s, step)
    requires id in s.rows && s.rows[id].processedAt.Some?
    ensures id in Apply(host, s, step).rows && Apply(host, s, step).rows[id] == s.rows[id]
  {
    assert RowInvariant(s.rows[id]);
    if step.Commit? {
      var b := s.batches[step.d];
      if id in b.updates {
        assert id in b.ids[..b.at];
        LockedRowIsDue(s, step.d, id);
      }
    }
  }

  /** Once processed, a row is never delivered, retried or dead again: no run changes it. */
  lemma {:induction false} ProcessedForGood(host: Host, s: System, trace: seq<Step>, id: EventId)
    requires Structure(s) && RowsSound(s) && Legal(host, s, trace)
    requires id in s.rows && s.rows[id].processedAt.Some?
    ensures id in Run(host, s, trace).rows && Run(host, s, trace).rows[id] == s.rows[id]
    decreases |trace|
  {
    if trace != [] {
      ProcessedIsTerminal(host, s, trace[0], id);
      StructureKept(host, s, trace[0]);
      RowsSoundKept(host, s, trace[0]);
      ProcessedForGood(host, Apply(host, s, trace[0]), trace[1..], id);
    }
  }

  lemma InitiallySound(s: System)
    requires Initial(s)
    ensures Structure(s) && RowsSound(s)
  {
  }

  // ------------------------------------------------------------------
  // No lost event
  // ------------------------------------------------------------------

  /** The first `count` handlers subscribed to the row's type hold it in their inboxes. */
  ghost predicate HandledBy(host: Host, s: System, id: EventId, count: nat)
  {
    && id in s.messages
    && count <= |Handlers(host, s.messages[id].eventType)|
    && forall j :: 0 <= j < count ==>
         var sub := Handlers(host, s.messages[id].eventType)[j];
         InboxEntry(sub.moduleKey, id, sub.handlerName) in s.inbox
  }

  /** The row's event was decoded and every subscribed handler holds it in its inbox. */
  ghost predicate Handled(host: Host, s: System, id: EventId)
  {
    && id in s.messages && Decodes(host, s.messages[id])
    && HandledBy(host, s, id, |Handlers(host, s.messages[id].eventType)|)
  }

  ghost predicate BatchHonest(host: Host, s: System, b: Batch)
  {
    && (forall id :: id in b.updates && b.updates[id].processedAt.Some? ==> Handled(host, s, id))
    && (b.at < |b.ids| && !b.failed && b.ids[b.at] in s.messages && Decodes(host, s.messages[b.ids[b.at]]) ==>
          HandledBy(host, s, b.ids[b.at], b.sub))
  }

  ghost predicate NothingLost(host: Host, s: System)
  {
    && (forall id :: id in s.rows && s.rows[id].processedAt.Some? ==> Handled(host, s, id))
    && (forall d :: d in s.batches ==> BatchHonest(host, s, s.batches[d]))
  }

  /** What was handled stays handled: inboxes and the outbox only grow. */
  ghost predicate Grows(s: System, t: System)
  {
    && s.inbox <= t.inbox
    && forall id :: id in s.messages ==> id in t.messages && t.messages[id] == s.messages[id]
  }

  lemma EveryStepGrows(host: Host, s: System, step: Step)
    requires Enabled(host, s, step)
    ensures Grows(s, Apply(host, s, step))
  {
  }

  lemma HandledGrows(host: Host, s: System, t: System, id: EventId, count: nat)
    requires Grows(s, t)
    ensures HandledBy(host, s, id, count) ==> HandledBy(host, t, id, count)
    ensures Handled(host, s, id) ==> Handled(host, t, id)
  {
  }

  lemma BatchHonestFrame(host: Host, s: System, t: System, b: Batch)
    requires Structure(s) && Grows(s, t) && BatchHonest(host, s, b)
    requires BatchShape(s, b)
    ensures BatchHonest(host, t, b)
  {
    forall id | id in b.updates && b.updates[id].processedAt.Some? ensures Handled(host, t, id) {
      HandledGrows(host, s, t, id, 0);
    }
    if b.at < |b.ids| {
      assert b.ids[b.at] in s.rows;
      HandledGrows(host, s, t, b.ids[b.at], b.sub);
    }
  }

  lemma RunHandlerLosesNothing(host: Host, s: System, d: int, ok: bool)
    requires Structure(s) && NothingLost(host, s) && Enabled(host, s, RunHandler(d, ok))
    ensures BatchHonest(host, Apply(host, s, RunHandler(d, ok)), Apply(host, s, RunHandler(d, ok)).batches[d])
  {
    var t := Apply(host, s, RunHandler(d, ok));
    var b, c := s.batches[d], t.batches[d];
    EveryStepGrows(host, s, RunHandler(d, ok));
    BatchHonestFrame(host, s, t, b);
    var id := b.ids[b.at];
    if !c.failed {
      var sub := Handlers(host, s.messages[id].eventType)[b.sub];
      assert InboxEntry(sub.moduleKey, id, sub.handlerName) in t.inbox;
      assert HandledBy(host, t, id, b.sub);
      assert HandledBy(host, t, id, b.sub + 1);
    }
  }

  lemma SettleLosesNothing(host: Host, s: System, d: int)
    requires Structure(s) && RowsSound(s) && NothingLost(host, s) && Enabled(host, s, Settle(d))
    ensures BatchHonest(host, Apply(host, s, Settle(d)), Apply(host, s, Settle(d)).batches[d])
  {
    var t := Apply(host, s, Settle(d));
    var b, c := s.batches[d], t.batches[d];
    var id := b.ids[b.at];
    LockedRowIsDue(s, d, id);
    EveryStepGrows(host, s, Settle(d));
    forall k | k in c.updates && c.updates[k].processedAt.Some? ensures Handled(host, t, k) {
      if k == id {
        assert Handled(host, s, id);
      } else {
        assert k in b.updates;
      }
      HandledGrows(host, s, t, k, 0);
    }
  }

  lemma CommitLosesNothing(host: Host, s: System, d: int)
    requires Structure(s) && NothingLost(host, s) && Enabled(host, s, Commit(d))
    ensures forall id :: id in Apply(host, s, Commit(d)).rows && Apply(host, s, Commit(d)).rows[id].processedAt.Some?
              ==> Handled(host, Apply(host, s, Commit(d)), id)
  {
    var t := Apply(host, s, Commit(d));
    assert BatchHonest(host, s, s.batches[d]);
    EveryStepGrows(host, s, Commit(d));
    forall id | id in t.rows && t.rows[id].processedAt.Some? ensures Handled(host, t, id) {
      HandledGrows(host, s, t, id, 0);
    }
  }

  lemma CommittedRowsStayHandled(host: Host, s: System, step: Step)
    requires Structure(s) && NothingLost(host, s) && Enabled(host, s, step) && !step.Commit?
    ensures forall id :: id in Apply(host, s, step).rows && Apply(host, s, step).rows[id].processedAt.Some?
              ==> Handled(host, Apply(host, s, step), id)
  {
    var t := Apply(host, s, step);
    EveryStepGrows(host, s, step);
    forall id | id in t.rows && t.rows[id].processedAt.Some? ensures Handled(host, t, id) {
      assert id in s.rows && s.rows[id].processedAt.Some?;
      HandledGrows(host, s, t, id, 0);
    }
  }

  lemma NothingLostKept(host: Host, s: System, step: Step)
    requires Structure(s) && RowsSound(s) && NothingLost(host, s) && Enabled(host, s, step)
    ensures NothingLost(host, Apply(host, s, step))
  {
    var t := Apply(host, s, step);
    if step.Commit? {
      CommitLosesNothing(host, s, step.d);
    } else {
      CommittedRowsStayHandled(host, s, step);
    }
    EveryStepGrows(host, s, step);
    forall e | e in t.batches ensures BatchHonest(host, t, t.batches[e]) {
      if step.RunHandler? && e == step.d {
        RunHandlerLosesNothing(host, s, e, step.ok);
      } else if step.Settle? && e == step.d {
        SettleLosesNothing(host, s, e);
      } else if e in s.batches {
        BatchHonestFrame(host, s, t, s.batches[e]);
      }
    }
  }

  /** After every run, a row committed as processed is in the inbox of every handler subscribed to its type. */
  lemma {:induction false} NothingLostAlways(host: Host, s: System, trace: seq<Step>)
    requires Structure(s) && RowsSound(s) && NothingLost(host, s) && Legal(host, s, trace)
    ensures NothingLost(host, Run(host, s, trace))
    decreases |trace|
  {
    if trace != [] {
      StructureKept(host, s, trace[0]);
      RowsSoundKept(host, s, trace[0]);
      NothingLostKept(host, s, trace[0]);
      NothingLostAlways(host, Apply(host, s, trace[0]), trace[1..]);
    }
  }

  // ------------------------------------------------------------------
  // A batch that aborts
  // ------------------------------------------------------------------

  /** Nobody but its own batch changes a locked row. */
  lemma LockedRowStays(host: Host, s: System, step: Step, d: int, id: EventId)
    requires Structure(s) && Enabled(host, s, step) && d in s.batches && id in s.batches[d].ids && step != Commit(d)
    ensures id in Apply(host, s, step).rows && Apply(host, s, step).rows[id] == s.rows[id]
  {
    LockedRowIsDue(s, d, id);
    if IsQuiet(step) {
      QuietStep(host, s, step);
    } else if step.Commit? {
      var e := step.d;
      assert id !in s.batches[e].ids;
      assert forall i :: i in s.batches[e].updates ==> i in s.batches[e].ids[..s.batches[e].at];
    }
  }

  lemma BatchStays(host: Host, s: System, step: Step, d: int)
    requires Enabled(host, s, step) && d in s.batches && step != Commit(d) && step != Abort(d)
    ensures d in Apply(host, s, step).batches && Apply(host, s, step).batches[d].ids == s.batches[d].ids
    ensures s.now <= Apply(host, s, step).now
  {
    if IsQuiet(step) && !step.Abort? {
      FeedAndTickKeepBatches(host, s, step);
    } else if step.Commit? || step.Abort? {
      OtherBatchStays(host, s, step, d);
    }
  }

  lemma FeedAndTickKeepBatches(host: Host, s: System, step: Step)
    requires Enabled(host, s, step) && IsQuiet(step) && !step.Abort?
    ensures Apply(host, s, step).batches == s.batches && s.now <= Apply(host, s, step).now
  {
    if step.FeedRun? {
      FeedRunKeepsBatches(host, s, step.ok);
    }
  }

  lemma FeedRunKeepsBatches(host: Host, s: System, ok: bool)
    requires Enabled(host, s, FeedRun(ok))
    ensures AfterFeedRun(host, s, ok).batches == s.batches && AfterFeedRun(host, s, ok).now == s.now
  {
  }

  lemma OtherBatchStays(host: Host, s: System, step: Step, d: int)
    requires Enabled(host, s, step) && (step.Commit? || step.Abort?) && step.d != d && d in s.batches
    ensures d in Apply(host, s, step).batches && Apply(host, s, step).batches[d] == s.batches[d]
    ensures s.now <= Apply(host, s, step).now
  {
  }

  /** The batch holds its rows as they were when it began. */
  ghost predicate Holding(before: System, s: System, d: int, ids: seq<EventId>)
  {
    && d in s.batches && s.batches[d].ids == ids && before.now <= s.now
    && forall id :: id in ids ==> id in before.rows && id in s.rows && s.rows[id] == before.rows[id]
  }

  lemma {:induction false} StillHolding(
    host: Host, before: System, s: System, d: int, ids: seq<EventId>, moves: seq<Step>)
    requires Structure(s) && Holding(before, s, d, ids) && Legal(host, s, moves)
    requires Commit(d) !in moves && Abort(d) !in moves
    ensures Structure(Run(host, s, moves)) && Holding(before, Run(host, s, moves), d, ids)
    ensures Grows(s, Run(host, s, moves))
    decreases |moves|
  {
    if moves != [] {
      var step := moves[0];
      var t := Apply(host, s, step);
      assert step in moves;
      StructureKept(host, s, step);
      EveryStepGrows(host, s, step);
      BatchStays(host, s, step, d);
      forall id | id in ids ensures id in t.rows && t.rows[id] == s.rows[id] {
        LockedRowStays(host, s, step, d, id);
      }
      StillHolding(host, before, t, d, ids, moves[1..]);
    }
  }

  /**
   A batch that aborts, however far it got and whatever everybody else did meanwhile, leaves
   every one of its rows as it was before the batch began and deliverable at once, while what
   its handlers committed to their inboxes stays.
   */
  lemma AbortedBatchIsRedelivered(host: Host, s: System, d: int, ids: seq<EventId>, moves: seq<Step>)
    requires Structure(s) && Enabled(host, s, Begin(d, ids))
    requires Legal(host, Apply(host, s, Begin(d, ids)), moves) && Commit(d) !in moves && Abort(d) !in moves
    ensures var u := Run(host, Apply(host, s, Begin(d, ids)), moves);
            && Enabled(host, u, Abort(d))
            && var t := Apply(host, u, Abort(d));
            && (forall id :: id in ids ==> id in t.rows && t.rows[id] == s.rows[id] && id in Deliverable(t))
            && t.inbox == u.inbox && t.sales == u.sales && t.purchases == u.purchases && Grows(s, t)
  {
    var begun := Apply(host, s, Begin(d, ids));
    StructureKept(host, s, Begin(d, ids));
    forall id | id in ids ensures id in s.rows {
      assert id in Deliverable(s);
    }
    StillHolding(host, s, begun, d, ids, moves);
    var u := Run(host, begun, moves);
    var t := Apply(host, u, Abort(d));
    forall id | id in ids ensures id in Deliverable(t) {
      LockedRowIsDue(u, d, id);
      assert forall e :: e in t.batches ==> id !in t.batches[e].ids;
    }
  }

  /** A handler that holds an event's inbox entry is never affected by that event again. */
  lemma {:induction false} HandledOnce(
    host: Host, s: System, trace: seq<Step>, entry: InboxEntry, event: InvoiceFinalized)
    requires Legal(host, s, trace) && entry in s.inbox
    ensures entry in Run(host, s, trace).inbox
    ensures InboxRun(Run(host, s, trace), entry, event) == Run(host, s, trace)
    decreases |trace|
  {
    if trace != [] {
      EveryStepGrows(host, s, trace[0]);
      HandledOnce(host, Apply(host, s, trace[0]), trace[1..], entry, event);
    }
  }
}
