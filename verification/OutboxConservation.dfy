/** From finalized invoices to read models: nothing is lost, added or counted twice on the way. */
module OutboxConservation {
  import opened Options
  import opened OrdersContracts
  import opened OrdersInvoices
  import opened OutboxTables
  import opened OutboxSystem
  import opened OutboxInvariants
  import opened OutboxExactlyOnce
  import opened OutboxDelivery
  import opened FiniteSums
  import CatalogEvents
  import AdminEvents

  /** The invoice an outbox row announces. */
  function InvoiceOf(messages: map<EventId, Message>, id: EventId): int
    requires id in messages && messages[id].payload.Readable?
  {
    messages[id].payload.event.invoiceId
  }

  ghost predicate RowAnnounces(s: System, id: EventId)
    requires id in s.messages
  {
    && s.messages[id].payload.Readable? && s.messages[id].eventType == InvoiceFinalizedType
    && InvoiceOf(s.messages, id) in FinalizedIds(s.invoices)
    && s.messages[id].payload.event
       == EventFor(s.invoices, s.lines, InvoiceOf(s.messages, id), id, s.messages[id].occurredAt)
  }

  /** Outbox rows and finalized invoices are in bijection, each row holding its invoice's event. */
  ghost predicate OutboxMatchesInvoices(s: System)
  {
    && (forall id :: id in s.messages ==> RowAnnounces(s, id))
    && (forall a, b ::
          a in s.messages && b in s.messages && InvoiceOf(s.messages, a) == InvoiceOf(s.messages, b) ==> a == b)
    && (forall i :: i in FinalizedIds(s.invoices) ==> exists id :: id in s.messages && InvoiceOf(s.messages, id) == i)
  }

  lemma DraftsMatchEmptyOutbox(s: System)
    requires Initial(s) && forall i :: i in s.invoices ==> s.invoices[i].status == Draft
    ensures OutboxMatchesInvoices(s)
  {
  }

  lemma FinalizeMatches(host: Host, s: System, step: Step)
    requires OutboxMatchesInvoices(s) && step.Finalize? && Enabled(host, s, step)
    ensures OutboxMatchesInvoices(Apply(host, s, step))
  {
    var t := Apply(host, s, step);
    assert FinalizedIds(t.invoices) == FinalizedIds(s.invoices) + {step.invoiceId};
    forall id | id in t.messages ensures RowAnnounces(t, id) {
      if id in s.messages {
        assert RowAnnounces(s, id);
      }
    }
    forall i | i in FinalizedIds(t.invoices)
      ensures exists id :: id in t.messages && InvoiceOf(t.messages, id) == i
    {
      if i == step.invoiceId {
        assert InvoiceOf(t.messages, step.eventId) == i;
      } else {
        var id :| id in s.messages && InvoiceOf(s.messages, id) == i;
        assert InvoiceOf(t.messages, id) == i;
      }
    }
  }

  lemma OrdersUntouched(host: Host, s: System, step: Step)
    requires Enabled(host, s, step) && !step.Publish? && !step.Finalize?
    ensures var t := Apply(host, s, step);
            t.messages == s.messages && t.invoices == s.invoices && t.lines == s.lines
  {
    if IsQuiet(step) {
      QuietStep(host, s, step);
    }
  }

  lemma MatchKept(host: Host, s: System, step: Step)
    requires OutboxMatchesInvoices(s) && Enabled(host, s, step) && !step.Publish?
    ensures OutboxMatchesInvoices(Apply(host, s, step))
  {
    if step.Finalize? {
      FinalizeMatches(host, s, step);
    } else {
      var t := Apply(host, s, step);
      OrdersUntouched(host, s, step);
      forall id | id in t.messages ensures RowAnnounces(t, id) {
        assert RowAnnounces(s, id);
      }
    }
  }

  /** The bijection holds after every run in which Orders is the outbox's only writer. */
  lemma {:induction false} MatchAlways(host: Host, s: System, trace: seq<Step>)
    requires OutboxMatchesInvoices(s) && Legal(host, s, trace)
    requires forall step :: step in trace ==> !step.Publish?
    ensures OutboxMatchesInvoices(Run(host, s, trace))
    decreases |trace|
  {
    if trace != [] {
      assert trace[0] in trace;
      MatchKept(host, s, trace[0]);
      MatchAlways(host, Apply(host, s, trace[0]), trace[1..]);
    }
  }

  // ------------------------------------------------------------------
  // Aggregates over all rows are aggregates over the finalized invoices
  // ------------------------------------------------------------------

  lemma UnitsAreInvoiced(s: System, track: int)
    requires OutboxMatchesInvoices(s)
    ensures CatalogEvents.UnitsSold(Events(s.messages), s.messages.Keys, track)
         == UnitsInvoiced(s.lines, FinalizedIds(s.invoices), track)
  {
    var events := Events(s.messages);
    var key := (id: EventId) => if id in events then events[id].invoiceId else 0;
    var perRow := (id: EventId) => CatalogEvents.UnitsIn(events, id, track);
    var perInvoice := (i: int) => CatalogEvents.UnitsOf(EventLines(s.lines, i), track);
    forall id | id in s.messages.Keys
      ensures key(id) in FinalizedIds(s.invoices) && perInvoice(key(id)) == perRow(id)
    {
      assert RowAnnounces(s, id);
    }
    forall a, b | a in s.messages.Keys && b in s.messages.Keys && key(a) == key(b) ensures a == b {
      assert RowAnnounces(s, a) && RowAnnounces(s, b);
    }
    forall i | i in FinalizedIds(s.invoices) ensures exists id :: id in s.messages.Keys && key(id) == i {
      var id :| id in s.messages && InvoiceOf(s.messages, id) == i;
      assert key(id) == i;
    }
    SumReindex(s.messages.Keys, FinalizedIds(s.invoices), key, perRow, perInvoice);
    EventsCountEveryLineOnce(s.lines, FinalizedIds(s.invoices), track);
  }

  /** The finalized invoices that bill a customer. */
  function InvoicesOf(invoices: map<int, Invoice>, customer: int): set<int>
  {
    set i | i in FinalizedIds(invoices) && invoices[i].customerId == Some(customer)
  }

  ghost function InvoicedTotal(invoices: map<int, Invoice>, ids: set<int>): int
  {
    Sum(ids, (i: int) => if i in invoices then invoices[i].total else 0)
  }

  lemma PurchasesAreInvoices(s: System, customer: int)
    requires OutboxMatchesInvoices(s)
    ensures var bought := AdminEvents.Purchases(Events(s.messages), s.messages.Keys, customer);
            && |bought| == |InvoicesOf(s.invoices, customer)|
            && AdminEvents.Spent(Events(s.messages), s.messages.Keys, customer)
               == InvoicedTotal(s.invoices, InvoicesOf(s.invoices, customer))
  {
    var events := Events(s.messages);
    var bought := AdminEvents.Purchases(events, s.messages.Keys, customer);
    var invoices := InvoicesOf(s.invoices, customer);
    var key := (id: EventId) => if id in events then events[id].invoiceId else 0;
    forall id | id in bought ensures key(id) in invoices && s.invoices[key(id)].total == events[id].total {
      assert RowAnnounces(s, id);
    }
    forall a, b | a in bought && b in bought && key(a) == key(b) ensures a == b {
      assert RowAnnounces(s, a) && RowAnnounces(s, b);
    }
    forall i | i in invoices ensures exists id :: id in bought && key(id) == i {
      var id :| id in s.messages && InvoiceOf(s.messages, id) == i;
      assert RowAnnounces(s, id);
      assert id in bought && key(id) == i;
    }
    SumReindex(bought, invoices, key, (id: EventId) => 1, (i: int) => 1);
    SumOfOnes(bought, (id: EventId) => 1);
    SumOfOnes(invoices, (i: int) => 1);
    var total := (id: EventId) => if AdminEvents.Bills(events, id, customer) then events[id].total else 0;
    SumRestrict(s.messages.Keys, bought, total);
    SumReindex(bought, invoices, key, total, (i: int) => if i in s.invoices then s.invoices[i].total else 0);
  }

  // ------------------------------------------------------------------
  // End to end
  // ------------------------------------------------------------------

  /** Both read models are subscribed to finalized invoices. */
  predicate BothSubscribed(host: Host)
  {
    && Subscription(InvoiceFinalizedType, Catalog, CatalogHandler) in host.subscriptions
    && Subscription(InvoiceFinalizedType, Administration, AdminHandler) in host.subscriptions
  }

  lemma ProcessedMeansApplied(host: Host, s: System, moduleKey: ModuleKey, handlerName: HandlerName)
    requires OutboxMatchesInvoices(s) && Structure(s) && NothingLost(host, s) && ExactlyOnce(s)
    requires Subscription(InvoiceFinalizedType, moduleKey, handlerName) in host.subscriptions
    requires forall id :: id in s.rows ==> s.rows[id].processedAt.Some?
    ensures AppliedBy(s.inbox, moduleKey, handlerName) == s.messages.Keys
  {
    forall id | id in s.messages.Keys ensures id in AppliedBy(s.inbox, moduleKey, handlerName) {
      assert id in s.rows && Handled(host, s, id) && RowAnnounces(s, id);
      var sub := Subscription(InvoiceFinalizedType, moduleKey, handlerName);
      assert sub in Handlers(host, InvoiceFinalizedType);
      var j :| 0 <= j < |Handlers(host, InvoiceFinalizedType)| && Handlers(host, InvoiceFinalizedType)[j] == sub;
      assert InboxEntry(moduleKey, id, handlerName) in s.inbox;
    }
  }

  /** What `TrackSales` would hold if it were computed from Orders' tables in one query. */
  ghost predicate SalesFromInvoices(s: System)
  {
    && (forall track :: track in s.sales <==>
          exists i :: i in FinalizedIds(s.invoices) && TrackInvoiced(s.lines, i, track))
    && (forall track :: track in s.sales ==>
          && s.sales[track].timesSold == UnitsInvoiced(s.lines, FinalizedIds(s.invoices), track)
          && s.sales[track].lastSoldAt.Some?
          && (exists i :: i in FinalizedIds(s.invoices) && TrackInvoiced(s.lines, i, track)
                          && s.invoices[i].invoiceDate == s.sales[track].lastSoldAt.value)
          && (forall i :: i in FinalizedIds(s.invoices) && TrackInvoiced(s.lines, i, track) ==>
                s.invoices[i].invoiceDate <= s.sales[track].lastSoldAt.value))
  }

  /** What `CustomerPurchaseSummary` would hold, likewise. */
  ghost predicate PurchasesFromInvoices(s: System)
  {
    && (forall customer :: customer in s.purchases <==> InvoicesOf(s.invoices, customer) != {})
    && (forall customer :: customer in s.purchases ==>
          && s.purchases[customer].totalSpent == InvoicedTotal(s.invoices, InvoicesOf(s.invoices, customer))
          && s.purchases[customer].invoiceCount == |InvoicesOf(s.invoices, customer)|
          && s.purchases[customer].lastPurchaseAt.Some?
          && (exists i :: i in InvoicesOf(s.invoices, customer)
                          && s.invoices[i].invoiceDate == s.purchases[customer].lastPurchaseAt.value)
          && (forall i :: i in InvoicesOf(s.invoices, customer) ==>
                s.invoices[i].invoiceDate <= s.purchases[customer].lastPurchaseAt.value))
  }

  lemma LatestSaleIsInvoiced(s: System, track: int)
    requires OutboxMatchesInvoices(s) && track in s.sales
    requires CatalogEvents.LatestSale(Events(s.messages), s.messages.Keys, track, s.sales[track].lastSoldAt)
    ensures exists i :: i in FinalizedIds(s.invoices) && TrackInvoiced(s.lines, i, track)
                        && s.invoices[i].invoiceDate == s.sales[track].lastSoldAt.value
    ensures forall i :: i in FinalizedIds(s.invoices) && TrackInvoiced(s.lines, i, track) ==>
              s.invoices[i].invoiceDate <= s.sales[track].lastSoldAt.value
  {
    var events, all, date := Events(s.messages), s.messages.Keys, s.sales[track].lastSoldAt.value;
    var id :| id in all && id in events && track in CatalogEvents.TracksOf(events[id].lines)
      && events[id].invoiceDate == date;
    assert RowAnnounces(s, id);
    EventLinesTracks(s.lines, InvoiceOf(s.messages, id), track);
    forall i | i in FinalizedIds(s.invoices) && TrackInvoiced(s.lines, i, track)
      ensures s.invoices[i].invoiceDate <= date
    {
      var other :| other in s.messages && InvoiceOf(s.messages, other) == i;
      assert RowAnnounces(s, other);
      EventLinesTracks(s.lines, i, track);
      assert track in CatalogEvents.TracksOf(events[other].lines);
    }
  }

  lemma SalesReachInvoices(s: System)
    requires OutboxMatchesInvoices(s)
    requires CatalogEvents.SalesAggregate(s.sales, Events(s.messages), s.messages.Keys)
    ensures SalesFromInvoices(s)
  {
    forall track
      ensures track in s.sales <==> exists i :: i in FinalizedIds(s.invoices) && TrackInvoiced(s.lines, i, track)
    {
      SoldIffInvoiced(s, track);
    }
    forall track | track in s.sales
      ensures s.sales[track].timesSold == UnitsInvoiced(s.lines, FinalizedIds(s.invoices), track)
      ensures exists i :: i in FinalizedIds(s.invoices) && TrackInvoiced(s.lines, i, track)
                          && s.invoices[i].invoiceDate == s.sales[track].lastSoldAt.value
      ensures forall i :: i in FinalizedIds(s.invoices) && TrackInvoiced(s.lines, i, track) ==>
                s.invoices[i].invoiceDate <= s.sales[track].lastSoldAt.value
    {
      UnitsAreInvoiced(s, track);
      LatestSaleIsInvoiced(s, track);
    }
  }

  lemma SoldIffInvoiced(s: System, track: int)
    requires OutboxMatchesInvoices(s)
    ensures CatalogEvents.Sold(Events(s.messages), s.messages.Keys, track)
       <==> exists i :: i in FinalizedIds(s.invoices) && TrackInvoiced(s.lines, i, track)
  {
    var events := Events(s.messages);
    if CatalogEvents.Sold(events, s.messages.Keys, track) {
      var id :| id in s.messages.Keys && id in events && track in CatalogEvents.TracksOf(events[id].lines);
      assert RowAnnounces(s, id);
      EventLinesTracks(s.lines, InvoiceOf(s.messages, id), track);
    }
    if i :| i in FinalizedIds(s.invoices) && TrackInvoiced(s.lines, i, track) {
      var id :| id in s.messages && InvoiceOf(s.messages, id) == i;
      assert RowAnnounces(s, id);
      EventLinesTracks(s.lines, i, track);
      assert track in CatalogEvents.TracksOf(events[id].lines);
    }
  }

  lemma PurchasesReachInvoices(s: System)
    requires OutboxMatchesInvoices(s)
    requires AdminEvents.PurchaseAggregate(s.purchases, Events(s.messages), s.messages.Keys)
    ensures PurchasesFromInvoices(s)
  {
    var events, all := Events(s.messages), s.messages.Keys;
    forall customer
      ensures customer in s.purchases <==> InvoicesOf(s.invoices, customer) != {}
    {
      PurchasesAreInvoices(s, customer);
    }
    forall customer | customer in s.purchases
      ensures s.purchases[customer].totalSpent == InvoicedTotal(s.invoices, InvoicesOf(s.invoices, customer))
      ensures s.purchases[customer].invoiceCount == |InvoicesOf(s.invoices, customer)|
      ensures exists i :: i in InvoicesOf(s.invoices, customer)
                          && s.invoices[i].invoiceDate == s.purchases[customer].lastPurchaseAt.value
      ensures forall i :: i in InvoicesOf(s.invoices, customer) ==>
                s.invoices[i].invoiceDate <= s.purchases[customer].lastPurchaseAt.value
    {
      PurchasesAreInvoices(s, customer);
      var date := s.purchases[customer].lastPurchaseAt;
      assert AdminEvents.LatestPurchase(events, all, customer, date);
      var id :| id in all && AdminEvents.Bills(events, id, customer) && events[id].invoiceDate == date.value;
      assert RowAnnounces(s, id);
      assert InvoiceOf(s.messages, id) in InvoicesOf(s.invoices, customer);
      forall i | i in InvoicesOf(s.invoices, customer) ensures s.invoices[i].invoiceDate <= date.value {
        var other :| other in s.messages && InvoiceOf(s.messages, other) == i;
        assert RowAnnounces(s, other);
        assert AdminEvents.Bills(events, other, customer);
      }
    }
  }

  /**
   End to end: start with every invoice a draft and nothing published, let dispatchers, retries,
   dead letters and the feed interleave in any legal way. Once every outbox row is processed, both
   read models equal the aggregates taken directly over the finalized invoices and their lines.
   */
  lemma EndToEnd(host: Host, s: System, trace: seq<Step>)
    requires Composed(host) && BothSubscribed(host)
    requires Initial(s) && forall i :: i in s.invoices ==> s.invoices[i].status == Draft
    requires Legal(host, s, trace) && forall step :: step in trace ==> !step.Publish?
    requires forall id :: id in Run(host, s, trace).rows ==> Run(host, s, trace).rows[id].processedAt.Some?
    ensures OutboxMatchesInvoices(Run(host, s, trace))
    ensures SalesFromInvoices(Run(host, s, trace))
    ensures PurchasesFromInvoices(Run(host, s, trace))
  {
    var t := Run(host, s, trace);
    DraftsMatchEmptyOutbox(s);
    InitiallyExact(s);
    InitiallySound(s);
    MatchAlways(host, s, trace);
    ExactlyOnceAlways(host, s, trace);
    RetryMachineAlways(host, s, trace);
    NothingLostAlways(host, s, trace);
    ProcessedMeansApplied(host, t, Catalog, CatalogHandler);
    ProcessedMeansApplied(host, t, Administration, AdminHandler);
    SalesReachInvoices(t);
    PurchasesReachInvoices(t);
  }
}
