/**
 The outbox, its dispatchers, the inboxes, the two read models and the
 catalog-host feed, as one system of atomic steps.

 A step is what one committed transaction or one in-memory move does: several
 dispatchers and the feed interleave freely between steps, and a batch's row
 updates stay private to it until it commits.
 */
module OutboxSystem {
  import opened Options
  import opened OrdersContracts
  import opened OrdersInvoices
  import opened OutboxTables
  import opened Selections
  import CatalogEvents
  import AdminEvents

  datatype ModuleKey = Catalog | Administration | OtherModule(name: string)

  datatype HandlerName = CatalogHandler | AdminHandler | OtherHandler(name: string)

  datatype Subscription = Subscription(eventType: EventType, moduleKey: ModuleKey, handlerName: HandlerName)

  /** What the hosts are composed of, fixed for a run. */
  datatype Host = Host(
    subscriptions: seq<Subscription>,
    databases: set<ModuleKey>,
    decoders: set<EventType>,
    settle: int)

  /** A row of an inbox: the module whose schema holds it, and its primary key. */
  datatype InboxEntry = InboxEntry(moduleKey: ModuleKey, eventId: EventId, handlerName: HandlerName)

  /**
   One dispatcher's open batch: the rows it locked, how far delivery has come
   (row `at`, its handler number `sub`, whether one of its handlers failed), and
   the row updates its transaction has not committed yet.
   */
  datatype Batch = Batch(ids: seq<EventId>, at: nat, sub: nat, failed: bool, updates: map<EventId, Row>)

  datatype Cursor = Beginning | At(occurredAt: Instant, id: EventId)

  /** The feed between polls, or walking the rows its query returned. */
  datatype Walk = Idle | Walking(ids: seq<EventId>, at: nat, sub: nat, settled: Instant)

  datatype System = System(
    now: Instant,
    invoices: map<int, Invoice>,
    lines: seq<InvoiceLine>,
    messages: map<EventId, Message>,
    rows: map<EventId, Row>,
    inbox: set<InboxEntry>,
    sales: CatalogEvents.SalesTable,
    purchases: AdminEvents.SummaryTable,
    batches: map<int, Batch>,
    cursor: Cursor,
    walk: Walk)

  // ------------------------------------------------------------------
  // Subscriptions
  // ------------------------------------------------------------------

  /** Of the subscriptions, those to an event type, or those of a module. */
  datatype Selector = ToEvent(eventType: EventType) | OfModule(moduleKey: ModuleKey)
  {
    predicate Keeps(s: Subscription) {
      match this
      case ToEvent(eventType) => s.eventType == eventType
      case OfModule(moduleKey) => s.moduleKey == moduleKey
    }
  }

  function Selected(subscriptions: seq<Subscription>, selector: Selector): (found: seq<Subscription>)
    ensures forall s :: s in found <==> s in subscriptions && selector.Keeps(s)
  {
    if subscriptions == [] then []
    else
      var n := |subscriptions| - 1;
      assert subscriptions == subscriptions[..n] + [subscriptions[n]];
      Selected(subscriptions[..n], selector) + if selector.Keeps(subscriptions[n]) then [subscriptions[n]] else []
  }

  /** The filter takes exactly the positions that match, in order: nothing is doubled, dropped or moved. */
  lemma {:induction false} SelectedInOrder(subscriptions: seq<Subscription>, selector: Selector) returns (at: seq<nat>)
    ensures Picked(subscriptions, s => selector.Keeps(s), s => s, Selected(subscriptions, selector), at)
  {
    at := SelectedBy(subscriptions, selector, s => selector.Keeps(s), s => s);
  }

  lemma {:induction false} SelectedBy(
    subscriptions: seq<Subscription>, selector: Selector,
    keeps: Subscription -> bool, same: Subscription -> Subscription) returns (at: seq<nat>)
    requires forall s :: keeps(s) == selector.Keeps(s) && same(s) == s
    ensures Picked(subscriptions, keeps, same, Selected(subscriptions, selector), at)
  {
    at := [];
    if subscriptions != [] {
      var n := |subscriptions| - 1;
      var before := SelectedBy(subscriptions[..n], selector, keeps, same);
      var found := Selected(subscriptions[..n], selector);
      if selector.Keeps(subscriptions[n]) {
        PickedLast(subscriptions, keeps, same, found, before);
        at := before + [n];
      } else {
        PassedOver(subscriptions, keeps, same, found, before);
        at := before;
      }
    }
  }

  /** The subscriptions to an event type, in registration order. */
  function ForEvent(subscriptions: seq<Subscription>, eventType: EventType): (found: seq<Subscription>)
    ensures forall s :: s in found <==> s in subscriptions && s.eventType == eventType
  {
    Selected(subscriptions, ToEvent(eventType))
  }

  /** The subscriptions one module registered, in registration order. */
  function ForModule(subscriptions: seq<Subscription>, moduleKey: ModuleKey): (found: seq<Subscription>)
    ensures forall s :: s in found <==> s in subscriptions && s.moduleKey == moduleKey
  {
    Selected(subscriptions, OfModule(moduleKey))
  }

  function Handlers(host: Host, eventType: EventType): seq<Subscription> {
    ForEvent(host.subscriptions, eventType)
  }

  function FeedHandlers(host: Host, eventType: EventType): seq<Subscription> {
    ForEvent(ForModule(host.subscriptions, Catalog), eventType)
  }

  /** The dispatcher has a decoder for the type, and the payload decodes. */
  predicate Decodes(host: Host, message: Message) {
    message.eventType in host.decoders && message.payload.Readable?
  }

  /** The feed hands the row to Catalog rather than passing over it. */
  predicate FeedDelivers(host: Host, message: Message) {
    message.eventType == InvoiceFinalizedType && FeedHandlers(host, message.eventType) != []
  }

  /** Each handler is registered under its own module, for the one event it handles. */
  ghost predicate Composed(host: Host)
  {
    forall s :: s in host.subscriptions ==>
      && (s.handlerName == CatalogHandler ==> s.moduleKey == Catalog && s.eventType == InvoiceFinalizedType)
      && (s.handlerName == AdminHandler ==> s.moduleKey == Administration && s.eventType == InvoiceFinalizedType)
  }

  // ------------------------------------------------------------------
  // What a query sees
  // ------------------------------------------------------------------

  function LockedBy(batches: map<int, Batch>): set<EventId> {
    set d, id | d in batches && id in batches[d].ids :: id
  }

  /** The rows `SELECT … FOR UPDATE SKIP LOCKED` looks at. */
  function Deliverable(s: System): set<EventId>
  {
    set id | id in s.rows && id in s.messages && Due(s.rows[id], s.now) && id !in LockedBy(s.batches)
  }

  predicate Past(cursor: Cursor, occurredAt: Instant, id: EventId)
  {
    match cursor
    case Beginning => true
    case At(o, i) => o < occurredAt || (o == occurredAt && i < id)
  }

  /** The rows past the feed's cursor and outside the settle window. */
  function Settled(host: Host, s: System): set<EventId>
  {
    set id | id in s.messages
             && Past(s.cursor, s.messages[id].occurredAt, id)
             && s.messages[id].occurredAt <= s.now - host.settle
  }

  // ------------------------------------------------------------------
  // Steps
  // ------------------------------------------------------------------

  datatype Step =
    | Tick(to: Instant)
      // Orders finalizes a draft invoice: one transaction.
    | Finalize(invoiceId: int, eventId: EventId, occurredAt: Instant, dueAt: Instant)
      // Some other writer of the outbox table, of any event type.
    | Publish(id: EventId, message: Message, dueAt: Instant)
      // A dispatcher's batch.
    | Begin(d: int, ids: seq<EventId>)
    | RunHandler(d: int, ok: bool)
    | Settle(d: int)
    | Commit(d: int)
    | Abort(d: int)
      // A person sends a dead letter back.
    | SendBack(letter: EventId)
      // The catalog-host feed.
    | FeedSelect(found: seq<EventId>)
    | FeedRun(ok: bool)
    | FeedAdvance
    | FeedStop

  predicate InBatch(s: System, d: int) {
    d in s.batches
    && var b := s.batches[d];
       b.at < |b.ids| && b.ids[b.at] in s.messages && b.ids[b.at] in s.rows
  }

  predicate OnWalk(s: System) {
    s.walk.Walking? && s.walk.at < |s.walk.ids| && s.walk.ids[s.walk.at] in s.messages
  }

  predicate Enabled(host: Host, s: System, step: Step)
  {
    match step
    case Tick(to) => s.now <= to
    case Finalize(invoiceId, eventId, occurredAt, dueAt) =>
      && invoiceId in s.invoices && s.invoices[invoiceId].status == Draft
      && eventId !in s.messages && eventId !in s.rows
      && occurredAt <= dueAt <= s.now
    case Publish(id, message, dueAt) =>
      && id !in s.messages && id !in s.rows
      && message.occurredAt <= s.now && dueAt <= s.now
    case Begin(d, ids) => d !in s.batches && IsFirstBatch(s.messages, Deliverable(s), ids)
    case RunHandler(d, ok) =>
      InBatch(s, d)
      && var b := s.batches[d]; var message := s.messages[b.ids[b.at]];
         Decodes(host, message) && b.sub < |Handlers(host, message.eventType)|
    case Settle(d) =>
      InBatch(s, d)
      && var b := s.batches[d]; var message := s.messages[b.ids[b.at]];
         (Decodes(host, message) ==> b.sub == |Handlers(host, message.eventType)|)
    case Commit(d) => d in s.batches && s.batches[d].at == |s.batches[d].ids|
    case Abort(d) => d in s.batches
    case SendBack(letter) => letter in s.rows && s.rows[letter].deadLetteredAt.Some?
    case FeedSelect(found) => s.walk.Idle? && IsFirstBatch(s.messages, Settled(host, s), found)
    case FeedRun(ok) =>
      OnWalk(s)
      && var message := s.messages[s.walk.ids[s.walk.at]];
         FeedDelivers(host, message) && message.payload.Readable?
         && s.walk.sub < |FeedHandlers(host, message.eventType)|
    case FeedAdvance =>
      OnWalk(s)
      && var message := s.messages[s.walk.ids[s.walk.at]];
         (FeedDelivers(host, message) ==>
            message.payload.Readable? && s.walk.sub == |FeedHandlers(host, message.eventType)|)
    case FeedStop => s.walk.Walking?
  }

  /** `inbox::run` that commits: a no-op when the entry exists, else the entry and the handler's writes together. */
  function InboxRun(s: System, entry: InboxEntry, event: InvoiceFinalized): System
  {
    if entry in s.inbox then s
    else s.(inbox := s.inbox + {entry},
            sales := if entry.handlerName == CatalogHandler then CatalogEvents.ApplySales(s.sales, event) else s.sales,
            purchases := if entry.handlerName == AdminHandler then AdminEvents.ApplyPurchase(s.purchases, event)
                         else s.purchases)
  }

  /** What one handler's run leaves behind: nothing, when its module has no database or the run fails. */
  function HandlerRun(host: Host, s: System, subscription: Subscription, id: EventId, event: InvoiceFinalized, ok: bool)
    : System
  {
    if ok && subscription.moduleKey in host.databases
    then InboxRun(s, InboxEntry(subscription.moduleKey, id, subscription.handlerName), event)
    else s
  }

  function AfterHandler(host: Host, s: System, d: int, ok: bool): System
    requires Enabled(host, s, RunHandler(d, ok))
  {
    var b := s.batches[d];
    var id := b.ids[b.at];
    var message := s.messages[id];
    var subscription := Handlers(host, message.eventType)[b.sub];
    var failed := !ok || subscription.moduleKey !in host.databases;
    HandlerRun(host, s, subscription, id, message.payload.event, ok)
      .(batches := s.batches[d := b.(sub := b.sub + 1, failed := b.failed || failed)])
  }

  function AfterSettle(host: Host, s: System, d: int): System
    requires Enabled(host, s, Settle(d))
  {
    var b := s.batches[d];
    var id := b.ids[b.at];
    var failed := b.failed || !Decodes(host, s.messages[id]);
    var row := if failed then Failed(s.rows[id], s.now) else Processed(s.rows[id], s.now);
    s.(batches := s.batches[d := Batch(b.ids, b.at + 1, 0, false, b.updates[id := row])])
  }

  function Updated(rows: map<EventId, Row>, updates: map<EventId, Row>): map<EventId, Row>
  {
    map id | id in rows :: if id in updates then updates[id] else rows[id]
  }

  function AfterFeedRun(host: Host, s: System, ok: bool): System
    requires Enabled(host, s, FeedRun(ok))
  {
    var w := s.walk;
    var id := w.ids[w.at];
    var message := s.messages[id];
    var subscription := FeedHandlers(host, message.eventType)[w.sub];
    if ok
    then InboxRun(s, InboxEntry(Catalog, id, subscription.handlerName), message.payload.event)
           .(walk := w.(sub := w.sub + 1))
    else s.(walk := Idle)
  }

  function Apply(host: Host, s: System, step: Step): System
    requires Enabled(host, s, step)
  {
    match step
    case Tick(to) => s.(now := to)
    case Finalize(invoiceId, eventId, occurredAt, dueAt) =>
      s.(invoices := s.invoices[invoiceId := s.invoices[invoiceId].(status := Finalized)],
         messages := s.messages[eventId :=
           Message(InvoiceFinalizedType, Readable(EventFor(s.invoices, s.lines, invoiceId, eventId, occurredAt)),
                   occurredAt)],
         rows := s.rows[eventId := NewRow(dueAt)])
    case Publish(id, message, dueAt) =>
      s.(messages := s.messages[id := message], rows := s.rows[id := NewRow(dueAt)])
    case Begin(d, ids) => s.(batches := s.batches[d := Batch(ids, 0, 0, false, map[])])
    case RunHandler(d, ok) => AfterHandler(host, s, d, ok)
    case Settle(d) => AfterSettle(host, s, d)
    case Commit(d) => s.(rows := Updated(s.rows, s.batches[d].updates), batches := s.batches - {d})
    case Abort(d) => s.(batches := s.batches - {d})
    case SendBack(letter) => s.(rows := s.rows[letter := SentBack(s.rows[letter], s.now)])
    case FeedSelect(found) => s.(walk := Walking(found, 0, 0, s.now - host.settle))
    case FeedRun(ok) => AfterFeedRun(host, s, ok)
    case FeedAdvance =>
      var id := s.walk.ids[s.walk.at];
      s.(cursor := At(s.messages[id].occurredAt, id), walk := s.walk.(at := s.walk.at + 1, sub := 0))
    case FeedStop => s.(walk := Idle)
  }

  /** The steps that write neither Orders' tables nor a batch in progress. */
  predicate IsQuiet(step: Step) {
    step.Tick? || step.Abort? || step.FeedSelect? || step.FeedRun? || step.FeedAdvance? || step.FeedStop?
  }

  /** `t` differs from `s` in no table of Orders' and in no batch it still has. */
  predicate OrdersAlike(s: System, t: System) {
    && t.messages == s.messages && t.rows == s.rows && t.invoices == s.invoices && t.lines == s.lines
    && s.now <= t.now
    && (forall d :: d in t.batches ==> d in s.batches && t.batches[d] == s.batches[d])
  }

  lemma FeedRunIsQuiet(host: Host, s: System, ok: bool)
    requires Enabled(host, s, FeedRun(ok))
    ensures OrdersAlike(s, AfterFeedRun(host, s, ok))
  {
  }

  lemma QuietStep(host: Host, s: System, step: Step)
    requires Enabled(host, s, step) && IsQuiet(step)
    ensures OrdersAlike(s, Apply(host, s, step))
  {
    if step.FeedRun? {
      FeedRunIsQuiet(host, s, step.ok);
    }
  }

  // ------------------------------------------------------------------
  // Runs
  // ------------------------------------------------------------------

  predicate Legal(host: Host, s: System, trace: seq<Step>)
    decreases |trace|
  {
    trace == [] || (Enabled(host, s, trace[0]) && Legal(host, Apply(host, s, trace[0]), trace[1..]))
  }

  function Run(host: Host, s: System, trace: seq<Step>): System
    requires Legal(host, s, trace)
    decreases |trace|
  {
    if trace == [] then s else Run(host, Apply(host, s, trace[0]), trace[1..])
  }

  /** Nothing published and nothing handled yet; Orders' tables hold anything. */
  ghost predicate Initial(s: System)
  {
    && s.messages == map[] && s.rows == map[] && s.inbox == {} && s.sales == map[] && s.purchases == map[]
    && s.batches == map[] && s.cursor == Beginning && s.walk == Idle
  }

  /** Runs compose. */
  lemma {:induction false} RunAppend(host: Host, s: System, first: seq<Step>, second: seq<Step>)
    requires Legal(host, s, first) && Legal(host, Run(host, s, first), second)
    ensures Legal(host, s, first + second)
    ensures Run(host, s, first + second) == Run(host, Run(host, s, first), second)
    decreases |first|
  {
    if first == [] {
      assert first + second == second;
    } else {
      assert (first + second)[0] == first[0] && (first + second)[1..] == first[1..] + second;
      RunAppend(host, Apply(host, s, first[0]), first[1..], second);
    }
  }

  /** Runs come apart where they were joined. */
  lemma {:induction false} RunSplit(host: Host, s: System, first: seq<Step>, second: seq<Step>)
    requires Legal(host, s, first + second)
    ensures Legal(host, s, first) && Legal(host, Run(host, s, first), second)
    ensures Run(host, s, first + second) == Run(host, Run(host, s, first), second)
    decreases |first|
  {
    if first == [] {
      assert first + second == second;
    } else {
      assert (first + second)[0] == first[0] && (first + second)[1..] == first[1..] + second;
      RunSplit(host, Apply(host, s, first[0]), first[1..], second);
    }
  }

  lemma RunOne(host: Host, s: System, step: Step)
    requires Enabled(host, s, step)
    ensures Legal(host, s, [step]) && Run(host, s, [step]) == Apply(host, s, step)
  {
    assert [step][1..] == [];
    assert Legal(host, Apply(host, s, step), []);
  }
}
