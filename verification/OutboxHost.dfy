/**
 The code that drives the outbox: `finalize_invoice`, `inbox::run`, the dispatcher's
 `process_batch` and its polling, dead-letter retry, and the feed's `process_batch`.

 The fields are the tables. Between any two of a caller's own actions everybody else
 may act (`Others`). Each action records the step of the system it is, so that what is
 proved of every run holds of whatever these methods do, amid any interference.
 */
module OutboxHost {
  import opened Options
  import opened OrdersContracts
  import opened OrdersInvoices
  import opened OutboxTables
  import opened OutboxSystem
  import opened OutboxInvariants
  import opened OutboxDelivery
  import opened OutboxVerdicts
  import opened OutboxDrain
  import opened OutboxFeed
  import opened OutboxExactlyOnce
  import CatalogEvents
  import AdminEvents

  datatype FinalizeOutcome = NowFinalized | NotFound | AlreadyFinalized

  /** What `inbox::run` reports. */
  datatype InboxOutcome = Applied | HandledBefore | RunFailed

  lemma MessageStays(
    messages: map<EventId, Message>, rows: map<EventId, Row>,
    messages': map<EventId, Message>, rows': map<EventId, Row>, id: EventId)
    requires TablesGrow(messages, rows, messages', rows') && id in messages
    ensures id in messages' && messages'[id] == messages[id]
  {
  }

  lemma MessagesStay(
    messages: map<EventId, Message>, rows: map<EventId, Row>,
    messages': map<EventId, Message>, rows': map<EventId, Row>, ids: seq<EventId>)
    requires TablesGrow(messages, rows, messages', rows') && forall i :: 0 <= i < |ids| ==> ids[i] in messages
    ensures forall i :: 0 <= i < |ids| ==> ids[i] in messages' && messages'[ids[i]] == messages[ids[i]]
  {
    forall i | 0 <= i < |ids| ensures ids[i] in messages' && messages'[ids[i]] == messages[ids[i]] {
      MessageStays(messages, rows, messages', rows', ids[i]);
    }
  }

  /** Each of the rows that is a finalized invoice is in the inbox of every handler of Catalog's. */
  ghost predicate Over(host: Host, inbox: set<InboxEntry>, messages: map<EventId, Message>, ids: seq<EventId>) {
    forall i :: 0 <= i < |ids| ==> ids[i] in messages && HandedOver(host, inbox, messages[ids[i]], ids[i])
  }

  lemma OverStays(
    host: Host, inbox: set<InboxEntry>, messages: map<EventId, Message>,
    inbox': set<InboxEntry>, messages': map<EventId, Message>, ids: seq<EventId>)
    requires Over(host, inbox, messages, ids) && inbox <= inbox'
    requires forall i :: 0 <= i < |ids| ==>
               ids[i] in messages' && (ids[i] in messages ==> messages'[ids[i]] == messages[ids[i]])
    ensures Over(host, inbox', messages', ids)
  {
  }

  lemma OverOneMore(
    host: Host, inbox: set<InboxEntry>, messages: map<EventId, Message>,
    inbox': set<InboxEntry>, messages': map<EventId, Message>, ids: seq<EventId>, n: nat)
    requires n < |ids| && Over(host, inbox, messages, ids[..n]) && inbox <= inbox'
    requires forall i :: 0 <= i < |ids| ==>
               ids[i] in messages' && (ids[i] in messages ==> messages'[ids[i]] == messages[ids[i]])
    requires HandedOver(host, inbox', messages'[ids[n]], ids[n])
    ensures Over(host, inbox', messages', ids[..n + 1])
  {
    forall i | 0 <= i < n + 1 ensures HandedOver(host, inbox', messages'[ids[i]], ids[i]) {
      if i < n {
        assert ids[..n][i] == ids[i];
        assert HandedOver(host, inbox, messages[ids[i]], ids[i]);
      }
    }
  }

  datatype Actor = Dispatcher(d: int) | TheFeed

  /** The step is a move of `actor`. */
  predicate Owned(step: Step, actor: Actor)
  {
    match step
    case Begin(e, _) => actor == Dispatcher(e)
    case RunHandler(e, _) => actor == Dispatcher(e)
    case Settle(e) => actor == Dispatcher(e)
    case Commit(e) => actor == Dispatcher(e)
    case Abort(e) => actor == Dispatcher(e)
    case FeedSelect(_) => actor == TheFeed
    case FeedRun(_) => actor == TheFeed
    case FeedAdvance => actor == TheFeed
    case FeedStop => actor == TheFeed
    case _ => false
  }

  /** The actor's own progress is as it left it: a dispatcher's batch, or the feed's walk and cursor. */
  ghost predicate Undisturbed(s: System, t: System, actor: Actor)
  {
    match actor
    case Dispatcher(d) =>
      (d in t.batches <==> d in s.batches) && (d in s.batches ==> t.batches[d] == s.batches[d])
    case TheFeed => t.walk == s.walk && t.cursor == s.cursor
  }

  /** Outbox rows are only ever added, and their immutable columns stay. */
  ghost predicate TablesGrow(
    messages: map<EventId, Message>, rows: map<EventId, Row>,
    messages': map<EventId, Message>, rows': map<EventId, Row>)
  {
    && (forall id :: id in messages ==> id in messages' && messages'[id] == messages[id])
    && (forall id :: id in rows ==> id in rows')
  }

  lemma RowStays(
    messages: map<EventId, Message>, rows: map<EventId, Row>,
    messages': map<EventId, Message>, rows': map<EventId, Row>, id: EventId)
    requires TablesGrow(messages, rows, messages', rows') && id in messages && id in rows
    ensures id in messages' && messages'[id] == messages[id] && id in rows'
  {
  }

  lemma FeedRunStaysEnabled(host: Host, s: System, t: System, ok: bool)
    requires Enabled(host, s, FeedRun(ok)) && Undisturbed(s, t, TheFeed)
    requires TablesGrow(s.messages, s.rows, t.messages, t.rows)
    ensures Enabled(host, t, FeedRun(ok))
  {
    MessageStays(s.messages, s.rows, t.messages, t.rows, s.walk.ids[s.walk.at]);
  }

  lemma FeedRunResult(host: Host, s: System, ok: bool)
    requires Enabled(host, s, FeedRun(ok))
    ensures var t := Apply(host, s, FeedRun(ok));
            && t.messages == s.messages && t.rows == s.rows && t.cursor == s.cursor
            && t.walk == if ok then s.walk.(sub := s.walk.sub + 1) else Idle
  {
  }

  /** Nobody else touches an actor's progress, and the outbox only grows. */
  lemma OthersDisturbNothing(host: Host, s: System, step: Step, actor: Actor)
    requires Enabled(host, s, step) && !Owned(step, actor)
    ensures var t := Apply(host, s, step);
            && Undisturbed(s, t, actor) && s.inbox <= t.inbox
            && TablesGrow(s.messages, s.rows, t.messages, t.rows)
  {
    EveryStepGrows(host, s, step);
    match step
    case Begin(e, _) =>
    case RunHandler(e, _) =>
    case Settle(e) =>
    case Commit(e) =>
    case Abort(e) =>
    case _ =>
  }

  /** A batch's part of the record, whoever acted in between, is one run of it from where it began. */
  lemma BatchOfRecord(
    host: Host, start: System, past: seq<Step>, d: int, ids: seq<EventId>, moves: seq<Step>, last: Step,
    trace: seq<Step>)
    requires Initial(start) && Legal(host, start, trace)
    requires trace == past + [Begin(d, ids)] + moves + [last]
    ensures Legal(host, start, past)
    ensures var s := Run(host, start, past);
            && Structure(s) && RowsSound(s) && Enabled(host, s, Begin(d, ids))
            && var begun := Apply(host, s, Begin(d, ids));
               && Legal(host, begun, moves) && Enabled(host, Run(host, begun, moves), last)
               && Run(host, start, trace) == Apply(host, Run(host, begun, moves), last)
  {
    var rest := [Begin(d, ids)] + (moves + [last]);
    assert trace == past + rest;
    RunSplit(host, start, past, rest);
    InitiallySound(start);
    RetryMachineAlways(host, start, past);
    var s := Run(host, start, past);
    assert rest[1..] == moves + [last];
    RunSplit(host, Apply(host, s, Begin(d, ids)), moves, [last]);
    RunOne(host, Run(host, Apply(host, s, Begin(d, ids)), moves), last);
  }

  /** A batch that met no interference drains what was due when it began. */
  lemma BatchAlone(
    host: Host, start: System, past: seq<Step>, d: int, ids: seq<EventId>, moves: seq<Step>, last: Step,
    trace: seq<Step>)
    requires Initial(start) && Legal(host, start, trace) && trace == past + [Begin(d, ids)] + moves + [last]
    requires (forall step :: step in moves ==> InsideBatch(step, d)) && (last == Commit(d) || last == Abort(d))
    ensures Legal(host, start, past)
    ensures var s, t := Run(host, start, past), Run(host, start, trace);
            && Drained(host, s, t, d, [Begin(d, ids)] + moves + [last])
            && (last == Commit(d) ==>
                  && |ids| == (if |Deliverable(s)| < BATCH_SIZE then |Deliverable(s)| else BATCH_SIZE)
                  && |Deliverable(t)| == |Deliverable(s)| - |ids|)
  {
    BatchOfRecord(host, start, past, d, ids, moves, last, trace);
    var s := Run(host, start, past);
    if last == Commit(d) {
      BatchDrains(host, s, d, ids, moves);
      CommittedAlone(host, s, d, ids, moves);
    } else {
      AbortedAlone(host, s, d, ids, moves);
    }
    DrainedBesides(host, s, Run(host, start, trace), d, moves, [Begin(d, ids)] + moves + [last]);
  }

  class Platform {
    const host: Host
    const salesTable: CatalogEvents.TrackSalesTable
    const purchaseTable: AdminEvents.PurchaseSummaryTable
    var now: Instant
    var invoices: map<int, Invoice>
    var lines: seq<InvoiceLine>
    var messages: map<EventId, Message>
    var rows: map<EventId, Row>
    var inbox: set<InboxEntry>
    var batches: map<int, Batch>
    var cursor: Cursor
    var walk: Walk
    ghost var start: System
    ghost var trace: seq<Step>

    function State(): System
      reads this, salesTable, purchaseTable
    {
      System(now, invoices, lines, messages, rows, inbox, salesTable.rows, purchaseTable.rows, batches, cursor, walk)
    }

    /** The tables are where the recorded steps lead from where the platform started. */
    ghost predicate Valid()
      reads this, salesTable, purchaseTable
    {
      Initial(start) && Legal(host, start, trace) && Run(host, start, trace) == State()
    }

    constructor (host: Host, now: Instant, invoices: map<int, Invoice>, lines: seq<InvoiceLine>)
      ensures Valid() && Initial(State()) && trace == []
      ensures State().invoices == invoices && State().lines == lines && this.host == host
      ensures fresh(salesTable) && fresh(purchaseTable)
    {
      this.host := host;
      var sales := new CatalogEvents.TrackSalesTable();
      var purchases := new AdminEvents.PurchaseSummaryTable();
      salesTable, purchaseTable := sales, purchases;
      this.now, this.invoices, this.lines := now, invoices, lines;
      messages, rows, inbox, batches, cursor, walk := map[], map[], {}, map[], Beginning, Idle;
      start := System(now, invoices, lines, map[], map[], {}, map[], map[], map[], Beginning, Idle);
      trace := [];
    }

    /** Notes the step that led from `before` to the tables as they are. */
    ghost method Record(step: Step, before: System)
      requires Initial(start) && Legal(host, start, trace) && Run(host, start, trace) == before
      requires Enabled(host, before, step) && Apply(host, before, step) == State()
      modifies this`trace
      ensures Valid() && trace == old(trace) + [step]
    {
      RunOne(host, before, step);
      RunAppend(host, start, trace, [step]);
      trace := trace + [step];
    }

    /** Anybody but `me` takes any number of steps. */
    method Others(me: Actor) returns (ghost moves: seq<Step>)
      requires Valid()
      modifies this, salesTable, purchaseTable
      ensures Valid() && start == old(start) && trace == old(trace) + moves
      ensures forall step :: step in moves ==> !Owned(step, me)
      ensures Undisturbed(old(State()), State(), me)
      ensures old(inbox) <= inbox
      ensures TablesGrow(old(messages), old(rows), messages, rows)
    {
      moves := [];
      var count: nat := *;
      while count > 0
        invariant Valid() && start == old(start) && trace == old(trace) + moves
        invariant forall step :: step in moves ==> !Owned(step, me)
        invariant Undisturbed(old(State()), State(), me)
        invariant old(inbox) <= inbox
        invariant TablesGrow(old(messages), old(rows), messages, rows)
      {
        var step: Step := *;
        if Enabled(host, State(), step) && !Owned(step, me) {
          OthersDisturbNothing(host, State(), step, me);
          Perform(step);
          moves := moves + [step];
        }
        count := count - 1;
      }
    }

    method Perform(step: Step)
      requires Valid() && Enabled(host, State(), step)
      modifies this, salesTable, purchaseTable
      ensures Valid() && start == old(start) && trace == old(trace) + [step]
      ensures State() == Apply(host, old(State()), step)
    {
      var next := Apply(host, State(), step);
      Become(next);
      Record(step, old(State()));
    }

    method Become(s: System)
      modifies this`now, this`invoices, this`lines, this`messages, this`rows,
               this`inbox, this`batches, this`cursor, this`walk,
               salesTable, purchaseTable
      ensures State() == s
    {
      now, invoices, lines, messages, rows := s.now, s.invoices, s.lines, s.messages, s.rows;
      inbox, batches, cursor, walk := s.inbox, s.batches, s.cursor, s.walk;
      salesTable.rows := s.sales;
      purchaseTable.rows := s.purchases;
    }

    /** `Others`, unless `me` has the database to itself. */
    method Interfere(me: Actor, alone: bool) returns (ghost moves: seq<Step>)
      requires Valid()
      modifies this, salesTable, purchaseTable
      ensures Valid() && start == old(start) && trace == old(trace) + moves
      ensures forall step :: step in moves ==> !Owned(step, me)
      ensures alone ==> moves == [] && State() == old(State())
      ensures Undisturbed(old(State()), State(), me)
      ensures old(inbox) <= inbox
      ensures TablesGrow(old(messages), old(rows), messages, rows)
    {
      moves := [];
      if !alone {
        moves := Others(me);
      }
    }

    // ----------------------------------------------------------------
    // Orders
    // ----------------------------------------------------------------

    /** Finalizes an invoice and publishes its event in one transaction. */
    method FinalizeInvoice(invoiceId: int, eventId: EventId) returns (outcome: FinalizeOutcome)
      requires Valid()
      requires eventId !in messages && eventId !in rows
      modifies this
      ensures Valid() && start == old(start)
      ensures outcome == NotFound <==> invoiceId !in old(invoices)
      ensures outcome == AlreadyFinalized
              <==> invoiceId in old(invoices) && old(invoices)[invoiceId].status == Finalized
      ensures outcome == NowFinalized ==>
                trace == old(trace) + [Finalize(invoiceId, eventId, now, now)]
                && rows == old(rows)[eventId := Row(0, now, None, None, [])]
                && invoices == old(invoices)[invoiceId := old(invoices)[invoiceId].(status := Finalized)]
      ensures outcome == NowFinalized ==>
                var invoice := old(invoices)[invoiceId];
                var event := InvoiceFinalized(eventId, now, invoiceId, invoice.customerId, invoice.invoiceDate,
                                              invoice.total, EventLines(lines, invoiceId));
                messages == old(messages)[eventId := Message(InvoiceFinalizedType, Readable(event), now)]
      ensures outcome != NowFinalized ==> State() == old(State()) && trace == old(trace)
    {
      if invoiceId !in invoices {
        return NotFound;
      }
      var invoice := invoices[invoiceId];
      if invoice.status == Finalized {
        return AlreadyFinalized;
      }
      var event := InvoiceFinalized(eventId, now, invoiceId, invoice.customerId, invoice.invoiceDate, invoice.total,
                                    EventLines(lines, invoiceId));
      invoices := invoices[invoiceId := invoice.(status := Finalized)];
      messages := messages[eventId := Message(InvoiceFinalizedType, Readable(event), event.occurredAt)];
      rows := rows[eventId := Row(0, now, None, None, [])];
      Record(Finalize(invoiceId, eventId, now, now), old(State()));
      return NowFinalized;
    }

    /** Sends one dead letter back for delivery. `false` when no dead letter has that id. */
    method RetryDeadLetter(id: EventId) returns (updated: bool)
      requires Valid()
      modifies this
      ensures Valid() && start == old(start)
      ensures updated <==> id in old(rows) && old(rows)[id].deadLetteredAt.Some?
      ensures updated ==> trace == old(trace) + [SendBack(id)]
                          && rows == old(rows)[id := Row(0, now, old(rows)[id].processedAt, None, [])]
      ensures !updated ==> State() == old(State()) && trace == old(trace)
    {
      updated := id in rows && rows[id].deadLetteredAt.Some?;
      if updated {
        rows := rows[id := rows[id].(attempts := 0, deadLetteredAt := None, nextAttemptAt := now, failures := [])];
        Record(SendBack(id), old(State()));
      }
    }

    // ----------------------------------------------------------------
    // The inbox guard
    // ----------------------------------------------------------------

    /** Applies an event at most once per handler. `ok` is whether the handler and the database succeed. */
    method RunInbox(entry: InboxEntry, event: InvoiceFinalized, ok: bool) returns (outcome: InboxOutcome)
      modifies this`inbox, salesTable, purchaseTable
      ensures outcome == RunFailed <==> !ok
      ensures ok ==> (outcome == HandledBefore <==> entry in old(inbox))
      ensures State() == if ok then InboxRun(old(State()), entry, event) else old(State())
      ensures inbox == if ok then old(inbox) + {entry} else old(inbox)
      ensures outcome != Applied ==>
                salesTable.rows == old(salesTable.rows) && purchaseTable.rows == old(purchaseTable.rows)
    {
      if !ok {
        return RunFailed;
      }
      if entry in inbox {
        return HandledBefore;
      }
      inbox := inbox + {entry};
      if entry.handlerName == CatalogHandler {
        salesTable.Handle(event);
      } else if entry.handlerName == AdminHandler {
        purchaseTable.Handle(event);
      }
      return Applied;
    }

    // ----------------------------------------------------------------
    // The dispatcher
    // ----------------------------------------------------------------

    /** One subscription of one row: no database, a failing run, or a run that succeeds. */
    method RunSubscription(d: int, ok: bool)
      requires Valid() && Enabled(host, State(), RunHandler(d, ok))
      modifies this, salesTable, purchaseTable
      ensures Valid() && start == old(start) && trace == old(trace) + [RunHandler(d, ok)]
      ensures State() == Apply(host, old(State()), RunHandler(d, ok))
      ensures var b := old(batches)[d];
              var id := b.ids[b.at];
              var handler := Handlers(host, old(messages)[id].eventType)[b.sub];
              var done := ok && handler.moduleKey in host.databases;
              && inbox == old(inbox) + (if done then {InboxEntry(handler.moduleKey, id, handler.handlerName)} else {})
              && batches == old(batches)[d := b.(sub := b.sub + 1, failed := b.failed || !done)]
    {
      var b := batches[d];
      var id := b.ids[b.at];
      var message := messages[id];
      var subscription := Handlers(host, message.eventType)[b.sub];
      var failed := b.failed;
      if subscription.moduleKey !in host.databases {
        failed := true;
      } else {
        var entry := InboxEntry(subscription.moduleKey, id, subscription.handlerName);
        var outcome := RunInbox(entry, message.payload.event, ok);
        if outcome == RunFailed {
          failed := true;
        }
      }
      batches := batches[d := b.(sub := b.sub + 1, failed := failed)];
      assert State() == AfterHandler(host, old(State()), d, ok);
      Record(RunHandler(d, ok), old(State()));
    }

    /** One handler of the batch's current row, after whatever the others do first. */
    method DeliverTurn(d: int, alone: bool) returns (ghost moves: seq<Step>)
      requires Valid() && Enabled(host, State(), RunHandler(d, true)) && Enabled(host, State(), RunHandler(d, false))
      modifies this, salesTable, purchaseTable
      ensures Valid() && start == old(start) && trace == old(trace) + moves
      ensures forall step :: step in moves ==> InsideBatch(step, d) || (!alone && !Owned(step, Dispatcher(d)))
      ensures d in batches
      ensures batches[d] == old(batches[d]).(sub := old(batches[d]).sub + 1, failed := batches[d].failed)
      ensures TablesGrow(old(messages), old(rows), messages, rows)
    {
      ghost var was, had := messages, rows;
      ghost var id := batches[d].ids[batches[d].at];
      ghost var others := Interfere(Dispatcher(d), alone);
      RowStays(was, had, messages, rows, id);
      var ok: bool := *;
      RunSubscription(d, ok);
      moves := others + [RunHandler(d, ok)];
    }

    /** Hands the current row to every subscribed handler, reporting whether any delivery failed. */
    method Deliver(d: int, alone: bool) returns (failed: bool, ghost moves: seq<Step>)
      requires Valid() && InBatch(State(), d) && batches[d].sub == 0 && !batches[d].failed
      modifies this, salesTable, purchaseTable
      ensures Valid() && start == old(start) && trace == old(trace) + moves
      ensures forall step :: step in moves ==> InsideBatch(step, d) || (!alone && !Owned(step, Dispatcher(d)))
      ensures Enabled(host, State(), Settle(d))
      ensures batches[d].ids == old(batches[d].ids) && batches[d].at == old(batches[d].at)
      ensures batches[d].updates == old(batches[d].updates)
      ensures TablesGrow(old(messages), old(rows), messages, rows)
      ensures failed == (batches[d].failed || !Decodes(host, messages[batches[d].ids[batches[d].at]]))
    {
      moves := [];
      var b := batches[d];
      var message := messages[b.ids[b.at]];
      if !Decodes(host, message) {
        return true, moves;
      }
      var subscriptions := Handlers(host, message.eventType);
      for i := 0 to |subscriptions|
        invariant Valid() && start == old(start) && trace == old(trace) + moves
        invariant forall step :: step in moves ==> InsideBatch(step, d) || (!alone && !Owned(step, Dispatcher(d)))
        invariant InBatch(State(), d) && batches[d] == b.(sub := i, failed := batches[d].failed)
        invariant messages[b.ids[b.at]] == message
        invariant TablesGrow(old(messages), old(rows), messages, rows)
      {
        ghost var was, had := messages, rows;
        ghost var turn := DeliverTurn(d, alone);
        RowStays(was, had, messages, rows, b.ids[b.at]);
        moves := moves + turn;
      }
      failed := batches[d].failed;
    }

    /** `record_failure`. */
    method RecordFailure(row: Row) returns (after: Row)
      ensures after == Failed(row, now)
      ensures FailedAgain(row, after, now, now)
    {
      VerdictColumns(row, now);
      var attempts := row.attempts + 1;
      if 0 <= attempts - 1 < |RETRY_DELAYS| {
        var next := now + RETRY_DELAYS[attempts - 1];
        after := row.(attempts := attempts, nextAttemptAt := next, failures := row.failures + [now]);
      } else {
        after := row.(attempts := attempts, deadLetteredAt := Some(now), failures := row.failures + [now]);
      }
    }

    /** Writes one row's verdict into the batch's transaction. */
    method SettleRow(d: int, failed: bool)
      requires Valid() && Enabled(host, State(), Settle(d))
      requires failed == (batches[d].failed || !Decodes(host, messages[batches[d].ids[batches[d].at]]))
      modifies this
      ensures Valid() && start == old(start) && trace == old(trace) + [Settle(d)]
      ensures State() == Apply(host, old(State()), Settle(d))
    {
      var b := batches[d];
      var id := b.ids[b.at];
      var row := rows[id];
      if failed {
        row := RecordFailure(row);
      } else {
        row := row.(processedAt := Some(now));
      }
      batches := batches[d := Batch(b.ids, b.at + 1, 0, false, b.updates[id := row])];
      Record(Settle(d), old(State()));
    }

    /** `SELECT … FOR UPDATE SKIP LOCKED`. */
    method LockBatch(d: int) returns (ids: seq<EventId>)
      requires Valid() && d !in batches
      modifies this
      ensures Valid() && start == old(start) && trace == old(trace) + [Begin(d, ids)]
      ensures Enabled(host, old(State()), Begin(d, ids)) && State() == Apply(host, old(State()), Begin(d, ids))
      ensures forall i :: 0 <= i < |ids| ==> ids[i] in messages && ids[i] in rows
    {
      ids := SelectFirst(messages, Deliverable(State()));
      batches := batches[d := Batch(ids, 0, 0, false, map[])];
      Record(Begin(d, ids), old(State()));
    }

    method CommitBatch(d: int)
      requires Valid() && Enabled(host, State(), Commit(d))
      modifies this
      ensures Valid() && start == old(start) && trace == old(trace) + [Commit(d)]
      ensures State() == Apply(host, old(State()), Commit(d))
    {
      var updates := batches[d].updates;
      rows := map id | id in rows :: if id in updates then updates[id] else rows[id];
      batches := batches - {d};
      Record(Commit(d), old(State()));
    }

    /** The transaction dropped: the batch's own updates are gone, what handlers committed is not. */
    method Rollback(d: int)
      requires Valid() && d in batches
      modifies this
      ensures Valid() && start == old(start) && trace == old(trace) + [Abort(d)]
      ensures State() == Apply(host, old(State()), Abort(d))
    {
      batches := batches - {d};
      Record(Abort(d), old(State()));
    }

    /** The batch's rows, one after another, until the database refuses. */
    method DeliverRows(d: int, alone: bool) returns (refused: bool, ghost moves: seq<Step>)
      requires Valid() && d in batches && batches[d] == Batch(batches[d].ids, 0, 0, false, map[])
      requires forall i :: 0 <= i < |batches[d].ids| ==> batches[d].ids[i] in messages && batches[d].ids[i] in rows
      modifies this, salesTable, purchaseTable
      ensures Valid() && start == old(start) && trace == old(trace) + moves
      ensures forall step :: step in moves ==> InsideBatch(step, d) || (!alone && !Owned(step, Dispatcher(d)))
      ensures d in batches && batches[d].ids == old(batches)[d].ids
      ensures !refused ==> Enabled(host, State(), Commit(d))
    {
      var ids := batches[d].ids;
      moves := [];
      for at := 0 to |ids|
        invariant Valid() && start == old(start) && trace == old(trace) + moves
        invariant forall step :: step in moves ==> InsideBatch(step, d) || (!alone && !Owned(step, Dispatcher(d)))
        invariant d in batches && batches[d].ids == ids && batches[d].at == at
        invariant batches[d].sub == 0 && !batches[d].failed
        invariant forall i :: 0 <= i < |ids| ==> ids[i] in messages && ids[i] in rows
      {
        refused := *;
        if refused {
          return true, moves;
        }
        ghost var was, had := messages, rows;
        var failed, delivery := Deliver(d, alone);
        forall i | 0 <= i < |ids| ensures ids[i] in messages && ids[i] in rows {
          RowStays(was, had, messages, rows, ids[i]);
        }
        SettleRow(d, failed);
        moves := moves + delivery + [Settle(d)];
      }
      refused := *;
    }

    /**
     The batch that began after the steps `past` took the earliest fifty of the rows then waiting and
     left each of them as its delivery went: processed, or failed once more.
     */
    ghost predicate Settlement(past: seq<Step>, d: int, ids: seq<EventId>, moves: seq<Step>)
      reads this, salesTable, purchaseTable
    {
      && Legal(host, start, past)
      && var s := Run(host, start, past);
         EarliestFifty(s.messages, WaitingRows(s), ids) && BatchRuled(host, s, State(), d, ids, moves)
    }

    /** The batch that began after the steps `past` took the same rows and left each as it was. */
    ghost predicate Untaken(past: seq<Step>, ids: seq<EventId>)
      reads this, salesTable, purchaseTable
    {
      && Legal(host, start, past)
      && var s := Run(host, start, past);
         && EarliestFifty(s.messages, WaitingRows(s), ids)
         && forall id :: id in ids ==> id in s.rows && id in rows && rows[id] == s.rows[id]
    }

    lemma AbortedUntaken(past: seq<Step>, d: int, ids: seq<EventId>, moves: seq<Step>)
      requires Valid() && trace == past + [Begin(d, ids)] + moves + [Abort(d)]
      requires Commit(d) !in moves && Abort(d) !in moves
      ensures Untaken(past, ids)
    {
      BatchOfRecord(host, start, past, d, ids, moves, Abort(d), trace);
      BatchTakesEarliest(host, Run(host, start, past), d, ids);
      forall id | id in ids ensures id in Run(host, start, past).rows {
        assert id in Deliverable(Run(host, start, past));
      }
      AbortedBatchIsRedelivered(host, Run(host, start, past), d, ids, moves);
    }

    lemma CommittedSettlement(past: seq<Step>, d: int, ids: seq<EventId>, moves: seq<Step>)
      requires Valid() && trace == past + [Begin(d, ids)] + moves + [Commit(d)]
      requires Commit(d) !in moves && Abort(d) !in moves
      ensures Settlement(past, d, ids, moves)
    {
      BatchOfRecord(host, start, past, d, ids, moves, Commit(d), trace);
      BatchTakesEarliest(host, Run(host, start, past), d, ids);
      BatchVerdicts(host, Run(host, start, past), d, ids, moves);
    }

    /** The batch under way, from the locks to the last row delivered or the refusal. */
    method LockAndDeliver(d: int, alone: bool)
      returns (count: nat, refused: bool, ghost ids: seq<EventId>, ghost before: seq<Step>, ghost moves: seq<Step>)
      requires Valid() && d !in batches
      modifies this, salesTable, purchaseTable
      ensures Valid() && start == old(start) && d in batches
      ensures trace == old(trace) + before + [Begin(d, ids)] + moves
      ensures forall step :: step in before ==> !Owned(step, Dispatcher(d))
      ensures forall step :: step in moves ==> InsideBatch(step, d) || (!alone && !Owned(step, Dispatcher(d)))
      ensures alone ==> before == []
      ensures count == |ids|
      ensures !refused ==> Enabled(host, State(), Commit(d))
    {
      before := Interfere(Dispatcher(d), alone);
      var locked := LockBatch(d);
      ids, count := locked, |locked|;
      refused, moves := DeliverRows(d, alone);
    }

    /**
     Delivers one batch. `None` is the database refusing at any point, which drops the
     batch's own updates; otherwise the number of rows looked at. `ids` are those rows.
     */
    method ProcessBatch(d: int, alone: bool)
      returns (handled: Option<nat>, ghost ids: seq<EventId>, ghost before: seq<Step>, ghost moves: seq<Step>)
      requires Valid() && d !in batches
      modifies this, salesTable, purchaseTable
      ensures Valid() && start == old(start) && d !in batches
      ensures trace == old(trace) + before + [Begin(d, ids)] + moves + [if handled.Some? then Commit(d) else Abort(d)]
      ensures forall step :: step in before ==> !Owned(step, Dispatcher(d))
      ensures forall step :: step in moves ==> InsideBatch(step, d) || (!alone && !Owned(step, Dispatcher(d)))
      ensures alone ==> before == []
      ensures handled.Some? ==> handled.value == |ids|
      ensures handled.Some? ==> Settlement(old(trace) + before, d, ids, moves)
      ensures handled.None? ==> Untaken(old(trace) + before, ids)
    {
      var count, refused, locked, earlier, delivery := LockAndDeliver(d, alone);
      ids, before, moves := locked, earlier, delivery;
      if refused {
        Rollback(d);
        handled := None;
        AbortedUntaken(old(trace) + before, d, ids, moves);
      } else {
        CommitBatch(d);
        handled := Some(count);
        CommittedSettlement(old(trace) + before, d, ids, moves);
      }
    }

    /** One batch of a dispatcher that has the database to itself. `None` when the database refuses it. */
    method PollOnce(d: int) returns (handled: Option<nat>, ghost steps: seq<Step>)
      requires Valid() && d !in batches
      modifies this, salesTable, purchaseTable
      ensures Valid() && start == old(start) && d !in batches
      ensures trace == old(trace) + steps && steps != []
      ensures handled.None? ==> steps[|steps| - 1] == Abort(d)
      ensures var due := |old(Deliverable(State()))|;
              handled.Some? ==>
                && handled.value == (if due < BATCH_SIZE then due else BATCH_SIZE)
                && |Deliverable(State())| == due - handled.value
      ensures Drained(host, old(State()), State(), d, steps)
    {
      var settled, ids, before, moves := ProcessBatch(d, true);
      ghost var last := if settled.Some? then Commit(d) else Abort(d);
      steps := [Begin(d, ids)] + moves + [last];
      BatchAlone(host, start, old(trace), d, ids, moves, last, trace);
      handled := settled;
    }

    /**
     The poll loop's burst: while batches come back full it goes again at once. With the clock still
     and nobody publishing it ends. Unless the database refused, nothing is left due, and if no handler
     failed every row that was due is processed, but for those no delivery can succeed for.
     */
    method PollUntilIdle(d: int) returns (complete: bool, ghost steps: seq<Step>)
      requires Valid() && d !in batches
      modifies this, salesTable, purchaseTable
      ensures Valid() && start == old(start) && d !in batches && trace == old(trace) + steps
      ensures complete ==> Deliverable(State()) == {}
      ensures !complete ==> steps != [] && steps[|steps| - 1] == Abort(d)
      ensures Drained(host, old(State()), State(), d, steps)
      ensures complete && RunHandler(d, false) !in steps ==>
                forall id :: id in old(Deliverable(State())) ==>
                  Ruled(Reachable(host, messages[id]), old(rows)[id], rows[id], now, now)
    {
      complete, steps := false, [];
      var again := true;
      ghost var s := State();
      while again
        invariant Valid() && start == old(start) && d !in batches && trace == old(trace) + steps
        invariant Drained(host, s, State(), d, steps)
        invariant again ==> !complete
        invariant !again && !complete ==> steps != [] && steps[|steps| - 1] == Abort(d)
        invariant complete ==> |Deliverable(State())| == 0
        decreases again, |Deliverable(State())|
      {
        ghost var t := State();
        var handled, batch := PollOnce(d);
        DrainedFurther(host, s, t, State(), d, steps, batch);
        steps := steps + batch;
        complete := handled.Some? && handled.value < BATCH_SIZE;
        again := handled.Some? && !complete;
      }
    }

    // ----------------------------------------------------------------
    // The catalog-host feed
    // ----------------------------------------------------------------

    /** The feed's query: the first rows past the cursor and outside the settle window. */
    method SelectSettled() returns (found: seq<EventId>)
      requires Valid() && walk == Idle
      modifies this
      ensures Valid() && start == old(start) && trace == old(trace) + [FeedSelect(found)]
      ensures Enabled(host, old(State()), FeedSelect(found))
      ensures State() == Apply(host, old(State()), FeedSelect(found))
      ensures forall i :: 0 <= i < |found| ==> found[i] in messages
    {
      found := SelectFirst(messages, Settled(host, State()));
      walk := Walking(found, 0, 0, now - host.settle);
      Record(FeedSelect(found), old(State()));
    }

    /** One of Catalog's handlers, through Catalog's inbox; a failure ends the walk. */
    method RunFeedHandler(ok: bool)
      requires Valid() && Enabled(host, State(), FeedRun(ok))
      modifies this, salesTable, purchaseTable
      ensures Valid() && start == old(start) && trace == old(trace) + [FeedRun(ok)]
      ensures State() == Apply(host, old(State()), FeedRun(ok))
      ensures var w := old(walk);
              var id := w.ids[w.at];
              var handler := FeedHandlers(host, old(messages)[id].eventType)[w.sub];
              && inbox == old(inbox) + (if ok then {InboxEntry(Catalog, id, handler.handlerName)} else {})
              && walk == if ok then w.(sub := w.sub + 1) else Idle
    {
      var id := walk.ids[walk.at];
      var message := messages[id];
      var subscription := FeedHandlers(host, message.eventType)[walk.sub];
      var outcome := RunInbox(InboxEntry(Catalog, id, subscription.handlerName), message.payload.event, ok);
      walk := if outcome == RunFailed then Idle else walk.(sub := walk.sub + 1);
      Record(FeedRun(ok), old(State()));
    }

    /** The cursor moves in a statement of its own, after the inbox transactions. */
    method AdvanceCursor()
      requires Valid() && Enabled(host, State(), FeedAdvance)
      modifies this
      ensures Valid() && start == old(start) && trace == old(trace) + [FeedAdvance]
      ensures State() == Apply(host, old(State()), FeedAdvance)
    {
      var id := walk.ids[walk.at];
      cursor := At(messages[id].occurredAt, id);
      walk := walk.(at := walk.at + 1, sub := 0);
      Record(FeedAdvance, old(State()));
    }

    /** The walk ends: nothing left, an unreadable payload, a failure, or the process dying. */
    method StopWalk()
      requires Valid() && walk.Walking?
      modifies this
      ensures Valid() && start == old(start) && trace == old(trace) + [FeedStop]
      ensures State() == old(State()).(walk := Idle)
    {
      walk := Idle;
      Record(FeedStop, old(State()));
    }

    /**
     The last step ended the walk at its row `at`: a handler of that row failed, or Catalog handles
     the row and its payload cannot be read.
     */
    ghost predicate StoppedAt(ids: seq<EventId>, at: nat)
      reads this
    {
      trace != []
      && var n := |trace| - 1;
         && Legal(host, start, trace[..n])
         && var s := Run(host, start, trace[..n]);
         && OnWalk(s) && s.walk.ids == ids && s.walk.at == at
         && (trace[n] == FeedRun(false)
             || (trace[n] == FeedStop && !Passable(host, s.messages[ids[at]])))
    }

    /** Hands the walk's current row to Catalog's handlers. `false` stops the batch before the cursor moves. */
    method DeliverToCatalog(alone: bool) returns (passed: bool, ghost moves: seq<Step>)
      requires Valid() && OnWalk(State()) && walk.sub == 0
      modifies this, salesTable, purchaseTable
      ensures Valid() && start == old(start) && trace == old(trace) + moves
      ensures TablesGrow(old(messages), old(rows), messages, rows) && cursor == old(cursor)
      ensures passed ==> Enabled(host, State(), FeedAdvance) && walk == old(walk).(sub := walk.sub)
      ensures old(inbox) <= inbox
      ensures passed ==> var id := walk.ids[walk.at]; HandedOver(host, inbox, messages[id], id)
      ensures !passed ==> walk == Idle
      ensures !passed ==> StoppedAt(old(walk).ids, old(walk).at)
    {
      moves := [];
      var id := walk.ids[walk.at];
      var message := messages[id];
      ghost var w := walk;
      if !FeedDelivers(host, message) {
        AllHandedOver(host, inbox, message, id);
        return true, moves;
      }
      if message.payload == Unreadable {
        ghost var before := trace;
        StopWalk();
        assert trace[..|trace| - 1] == before;
        return false, [FeedStop];
      }
      passed, moves := RunFeedHandlers(alone);
    }

    /** One handler of the walk's current row, after whatever the others do first. */
    method FeedTurn(alone: bool) returns (ok: bool, ghost moves: seq<Step>)
      requires Valid() && Enabled(host, State(), FeedRun(true)) && Enabled(host, State(), FeedRun(false))
      modifies this, salesTable, purchaseTable
      ensures Valid() && start == old(start) && trace == old(trace) + moves
      ensures TablesGrow(old(messages), old(rows), messages, rows) && cursor == old(cursor)
      ensures walk == if ok then old(walk).(sub := old(walk).sub + 1) else Idle
      ensures old(inbox) <= inbox
      ensures var id := old(walk).ids[old(walk).at];
              ok ==> InboxEntry(Catalog, id, FeedHandlers(host, old(messages)[id].eventType)[old(walk).sub].handlerName)
                     in inbox
      ensures !ok ==> StoppedAt(old(walk).ids, old(walk).at)
    {
      ghost var before := State();
      ghost var others := Interfere(TheFeed, alone);
      ok := *;
      ghost var now := State();
      FeedRunStaysEnabled(host, before, now, ok);
      FeedRunResult(host, now, ok);
      ghost var past := trace;
      RunFeedHandler(ok);
      assert trace[..|trace| - 1] == past;
      moves := others + [FeedRun(ok)];
    }

    method RunFeedHandlers(alone: bool) returns (passed: bool, ghost moves: seq<Step>)
      requires Valid() && OnWalk(State()) && walk.sub == 0
      requires FeedDelivers(host, messages[walk.ids[walk.at]]) && messages[walk.ids[walk.at]].payload.Readable?
      modifies this, salesTable, purchaseTable
      ensures Valid() && start == old(start) && trace == old(trace) + moves
      ensures TablesGrow(old(messages), old(rows), messages, rows) && cursor == old(cursor)
      ensures passed ==> Enabled(host, State(), FeedAdvance) && walk == old(walk).(sub := walk.sub)
      ensures old(inbox) <= inbox
      ensures passed ==> var id := walk.ids[walk.at]; HandedOver(host, inbox, messages[id], id)
      ensures !passed ==> walk == Idle
      ensures !passed ==> StoppedAt(old(walk).ids, old(walk).at)
    {
      moves := [];
      ghost var w := walk;
      var id := walk.ids[walk.at];
      var message := messages[id];
      ghost var handlers := FeedHandlers(host, message.eventType);
      var count := |FeedHandlers(host, message.eventType)|;
      for i := 0 to count
        invariant Valid() && start == old(start) && trace == old(trace) + moves
        invariant TablesGrow(old(messages), old(rows), messages, rows) && cursor == old(cursor)
        invariant walk == w.(sub := i) && id in messages && messages[id] == message
        invariant old(inbox) <= inbox
        invariant forall j :: 0 <= j < i ==> InboxEntry(Catalog, id, handlers[j].handlerName) in inbox
      {
        ghost var was, had := messages, rows;
        var ok, turn := FeedTurn(alone);
        MessageStays(was, had, messages, rows, id);
        moves := moves + turn;
        if !ok {
          return false, moves;
        }
      }
      AllHandedOver(host, inbox, message, id);
      passed := true;
    }

    /** Delivers the walk's current row and moves the cursor onto it. */
    method PassRow(alone: bool) returns (passed: bool, ghost moves: seq<Step>)
      requires Valid() && OnWalk(State()) && walk.sub == 0
      modifies this, salesTable, purchaseTable
      ensures Valid() && start == old(start) && trace == old(trace) + moves
      ensures TablesGrow(old(messages), old(rows), messages, rows)
      ensures passed ==> walk == old(walk).(at := old(walk.at) + 1)
      ensures old(inbox) <= inbox
      ensures passed ==> var id := old(walk).ids[old(walk).at];
                         && id in messages && cursor == At(messages[id].occurredAt, id)
                         && HandedOver(host, inbox, messages[id], id)
      ensures !passed ==> walk == Idle && cursor == old(cursor)
      ensures !passed ==> StoppedAt(old(walk).ids, old(walk).at)
    {
      passed, moves := DeliverToCatalog(alone);
      if passed {
        AdvanceCursor();
        moves := moves + [FeedAdvance];
      }
    }

    /** Each of the rows is in Catalog's inbox if it is Catalog's to handle. */
    ghost predicate AllOver(ids: seq<EventId>)
      reads this
    {
      Over(host, inbox, messages, ids)
    }

    /** The rows of the walk, one after another, until one does not pass. */
    method WalkRows(alone: bool) returns (moved: nat, ghost moves: seq<Step>)
      requires Valid() && walk.Walking? && walk.at == 0 && walk.sub == 0
      requires forall i :: 0 <= i < |walk.ids| ==> walk.ids[i] in messages
      modifies this, salesTable, purchaseTable
      ensures Valid() && start == old(start) && trace == old(trace) + moves
      ensures walk == Idle && moved <= |old(walk).ids|
      ensures moved < |old(walk).ids| ==> StoppedAt(old(walk).ids, moved)
      ensures moved == 0 ==> cursor == old(cursor)
      ensures moved > 0 ==> var id := old(walk).ids[moved - 1];
                            id in messages && cursor == At(messages[id].occurredAt, id)
      ensures AllOver(old(walk).ids[..moved])
    {
      ghost var w := walk;
      var ids := walk.ids;
      moved, moves := 0, [];
      while moved < |ids|
        invariant Valid() && start == old(start) && trace == old(trace) + moves
        invariant moved <= |ids| && walk == w.(at := moved)
        invariant forall i :: 0 <= i < |ids| ==> ids[i] in messages
        invariant AllOver(ids[..moved])
        invariant moved == 0 ==> cursor == old(cursor)
        invariant moved > 0 ==> cursor == At(messages[ids[moved - 1]].occurredAt, ids[moved - 1])
      {
        ghost var was, had, held := messages, rows, inbox;
        var passed, delivery := PassRow(alone);
        moves := moves + delivery;
        MessagesStay(was, had, messages, rows, ids);
        if !passed {
          OverStays(host, held, was, inbox, messages, ids[..moved]);
          return;
        }
        OverOneMore(host, held, was, inbox, messages, ids, moved);
        moved := moved + 1;
      }
      StopWalk();
      moves := moves + [FeedStop];
    }

    /** What the query finds, walked. */
    method WalkSettled(alone: bool) returns (moved: nat, ghost found: seq<EventId>, ghost moves: seq<Step>)
      requires Valid() && walk == Idle
      modifies this, salesTable, purchaseTable
      ensures Valid() && start == old(start) && trace == old(trace) + [FeedSelect(found)] + moves
      ensures walk == Idle && moved <= |found|
      ensures moved < |found| ==> StoppedAt(found, moved)
      ensures moved == 0 ==> cursor == old(cursor)
      ensures moved > 0 ==>
                found[moved - 1] in messages && cursor == At(messages[found[moved - 1]].occurredAt, found[moved - 1])
      ensures AllOver(found[..moved])
    {
      var selected := SelectSettled();
      moved, moves := WalkRows(alone);
      found := selected;
    }

    /** The query made after the steps `past` found the earliest fifty of the rows then unread. */
    ghost predicate FoundAfter(past: seq<Step>, found: seq<EventId>)
      reads this
    {
      && Legal(host, start, past)
      && var s := Run(host, start, past);
         EarliestFifty(s.messages, UnreadRows(host, s), found)
    }

    lemma FoundOfRecord(past: seq<Step>, found: seq<EventId>, moves: seq<Step>)
      requires Valid() && trace == past + [FeedSelect(found)] + moves
      ensures FoundAfter(past, found)
    {
      assert trace == past + ([FeedSelect(found)] + moves);
      RunSplit(host, start, past, [FeedSelect(found)] + moves);
      var s := Run(host, start, past);
      SettledAreUnread(host, s);
      FirstBatchIsEarliest(s.messages, Settled(host, s), found);
    }

    /**
     One batch of the feed, returning how many rows the cursor moved past, of the rows `found` after
     the steps `before` of the others.
     */
    method FeedBatch(alone: bool)
      returns (moved: nat, ghost found: seq<EventId>, ghost before: seq<Step>, ghost moves: seq<Step>)
      requires Valid() && walk == Idle
      modifies this, salesTable, purchaseTable
      ensures Valid() && start == old(start) && trace == old(trace) + before + [FeedSelect(found)] + moves
      ensures alone ==> before == []
      ensures FoundAfter(old(trace) + before, found)
      ensures walk == Idle && moved <= |found|
      ensures moved < |found| ==> StoppedAt(found, moved)
      ensures moved == 0 ==> cursor == old(cursor)
      ensures moved > 0 ==>
                found[moved - 1] in messages && cursor == At(messages[found[moved - 1]].occurredAt, found[moved - 1])
      ensures AllOver(found[..moved])
    {
      before := Interfere(TheFeed, alone);
      moved, found, moves := WalkSettled(alone);
      FoundOfRecord(old(trace) + before, found, moves);
    }
  }

  /**
   Whatever sequence of these methods ran on a fresh platform, however the others interfered:
   the exactly-once effect, the retry machine and the delivery guarantee all hold of the tables.
   */
  lemma PlatformGuarantees(platform: Platform)
    requires platform.Valid() && Composed(platform.host)
    ensures Structure(platform.State()) && RowsSound(platform.State())
    ensures ExactlyOnce(platform.State())
    ensures NothingLost(platform.host, platform.State())
  {
    InitiallySound(platform.start);
    InitiallyExact(platform.start);
    RetryMachineAlways(platform.host, platform.start, platform.trace);
    ExactlyOnceAlways(platform.host, platform.start, platform.trace);
    NothingLostAlways(platform.host, platform.start, platform.trace);
  }
}
