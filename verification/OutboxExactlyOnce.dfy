/** Each read model is the aggregate over exactly the events its module's inbox holds. */
module OutboxExactlyOnce {
  import opened OrdersContracts
  import opened OutboxTables
  import opened OutboxSystem
  import CatalogEvents
  import AdminEvents

  /** The events the outbox holds, by row key. */
  function Events(messages: map<EventId, Message>): map<EventId, InvoiceFinalized>
  {
    map id | id in messages && messages[id].payload.Readable? :: messages[id].payload.event
  }

  /** The events one handler has applied, read off its inbox. */
  function AppliedBy(inbox: set<InboxEntry>, moduleKey: ModuleKey, handlerName: HandlerName): set<EventId>
  {
    set entry | entry in inbox && entry.moduleKey == moduleKey && entry.handlerName == handlerName :: entry.eventId
  }

  /**
   The exactly-once effect: however often rows were delivered, and by whom, the read
   models hold each event of their inbox once and no other event.
   */
  ghost predicate ExactlyOnce(s: System)
  {
    && (forall entry :: entry in s.inbox ==> entry.eventId in Events(s.messages))
    && (forall entry :: entry in s.inbox && entry.handlerName == CatalogHandler ==> entry.moduleKey == Catalog)
    && (forall entry :: entry in s.inbox && entry.handlerName == AdminHandler ==> entry.moduleKey == Administration)
    && CatalogEvents.SalesAggregate(s.sales, Events(s.messages), AppliedBy(s.inbox, Catalog, CatalogHandler))
    && AdminEvents.PurchaseAggregate(s.purchases, Events(s.messages), AppliedBy(s.inbox, Administration, AdminHandler))
  }

  lemma InitiallyExact(s: System)
    requires Initial(s)
    ensures ExactlyOnce(s)
  {
    var events := Events(s.messages);
    assert AppliedBy(s.inbox, Catalog, CatalogHandler) == {};
    assert AppliedBy(s.inbox, Administration, AdminHandler) == {};
    assert forall customer :: AdminEvents.Purchases(events, {}, customer) == {};
  }

  lemma AppliedByInsert(inbox: set<InboxEntry>, entry: InboxEntry, moduleKey: ModuleKey, handlerName: HandlerName)
    ensures AppliedBy(inbox + {entry}, moduleKey, handlerName)
         == AppliedBy(inbox, moduleKey, handlerName)
            + if entry.moduleKey == moduleKey && entry.handlerName == handlerName then {entry.eventId} else {}
    ensures entry !in inbox && entry.moduleKey == moduleKey && entry.handlerName == handlerName ==>
              entry.eventId !in AppliedBy(inbox, moduleKey, handlerName)
  {
    forall id | id in AppliedBy(inbox + {entry}, moduleKey, handlerName)
      ensures id in AppliedBy(inbox, moduleKey, handlerName)
           || (id == entry.eventId && entry.moduleKey == moduleKey && entry.handlerName == handlerName)
    {
      var e :| e in inbox + {entry} && e.moduleKey == moduleKey && e.handlerName == handlerName && e.eventId == id;
    }
    if entry.moduleKey == moduleKey && entry.handlerName == handlerName {
      assert entry in inbox + {entry};
    }
    forall id | id in AppliedBy(inbox, moduleKey, handlerName)
      ensures id in AppliedBy(inbox + {entry}, moduleKey, handlerName)
    {
      var e :| e in inbox && e.moduleKey == moduleKey && e.handlerName == handlerName && e.eventId == id;
      assert e in inbox + {entry};
    }
  }

  /**
   The at-most-once guard: however the run comes about, the aggregate survives it; a second run
   changes nothing, and a first one adds its event, which was not there, and no other.
   */
  lemma InboxRunExact(s: System, entry: InboxEntry, event: InvoiceFinalized)
    requires ExactlyOnce(s)
    requires entry.eventId in Events(s.messages) && Events(s.messages)[entry.eventId] == event
    requires entry.handlerName == CatalogHandler ==> entry.moduleKey == Catalog
    requires entry.handlerName == AdminHandler ==> entry.moduleKey == Administration
    ensures ExactlyOnce(InboxRun(s, entry, event))
    ensures entry in s.inbox ==> InboxRun(s, entry, event) == s
    ensures entry !in s.inbox ==>
              AppliedBy(InboxRun(s, entry, event).inbox, entry.moduleKey, entry.handlerName)
              == AppliedBy(s.inbox, entry.moduleKey, entry.handlerName) + {entry.eventId}
              && entry.eventId !in AppliedBy(s.inbox, entry.moduleKey, entry.handlerName)
  {
    if entry !in s.inbox {
      AppliedByInsert(s.inbox, entry, entry.moduleKey, entry.handlerName);
      var events := Events(s.messages);
      AppliedByInsert(s.inbox, entry, Catalog, CatalogHandler);
      AppliedByInsert(s.inbox, entry, Administration, AdminHandler);
      var catalog := AppliedBy(s.inbox + {entry}, Catalog, CatalogHandler);
      var admin := AppliedBy(s.inbox + {entry}, Administration, AdminHandler);
      assert entry.handlerName != CatalogHandler ==> catalog == AppliedBy(s.inbox, Catalog, CatalogHandler);
      assert entry.handlerName != AdminHandler ==> admin == AppliedBy(s.inbox, Administration, AdminHandler);
      if entry.handlerName == CatalogHandler {
        CatalogEvents.ApplySalesAggregates(
          s.sales, events, AppliedBy(s.inbox, Catalog, CatalogHandler), entry.eventId);
      }
      if entry.handlerName == AdminHandler {
        AdminEvents.ApplyPurchaseAggregates(
          s.purchases, events, AppliedBy(s.inbox, Administration, AdminHandler), entry.eventId);
      }
    }
  }

  /** Steps outside the inboxes leave the aggregates standing. */
  lemma ExactFrame(s: System, t: System)
    requires ExactlyOnce(s)
    requires t.inbox == s.inbox && t.sales == s.sales && t.purchases == s.purchases
    requires forall id :: id in s.messages ==> id in t.messages && t.messages[id] == s.messages[id]
    ensures ExactlyOnce(t)
  {
    var catalog := AppliedBy(s.inbox, Catalog, CatalogHandler);
    var admin := AppliedBy(s.inbox, Administration, AdminHandler);
    forall id | id in Events(s.messages)
      ensures id in Events(t.messages) && Events(t.messages)[id] == Events(s.messages)[id]
    {
    }
    forall id | id in catalog || id in admin ensures id in Events(s.messages) {
    }
    CatalogEvents.SalesAggregateFrame(s.sales, Events(s.messages), Events(t.messages), catalog);
    AdminEvents.PurchaseAggregateFrame(s.purchases, Events(s.messages), Events(t.messages), admin);
  }

  lemma RunHandlerExact(host: Host, s: System, d: int, ok: bool)
    requires Composed(host) && ExactlyOnce(s) && Enabled(host, s, RunHandler(d, ok))
    ensures ExactlyOnce(Apply(host, s, RunHandler(d, ok)))
  {
    var b := s.batches[d];
    var id := b.ids[b.at];
    var message := s.messages[id];
    var subscription := Handlers(host, message.eventType)[b.sub];
    assert subscription in Handlers(host, message.eventType);
    if ok && subscription.moduleKey in host.databases {
      InboxRunExact(s, InboxEntry(subscription.moduleKey, id, subscription.handlerName), message.payload.event);
    }
    ExactFrame(HandlerRun(host, s, subscription, id, message.payload.event, ok),
               Apply(host, s, RunHandler(d, ok)));
  }

  lemma FeedRunExact(host: Host, s: System, ok: bool)
    requires Composed(host) && ExactlyOnce(s) && Enabled(host, s, FeedRun(ok))
    ensures ExactlyOnce(Apply(host, s, FeedRun(ok)))
  {
    var id := s.walk.ids[s.walk.at];
    var message := s.messages[id];
    var subscription := FeedHandlers(host, message.eventType)[s.walk.sub];
    assert subscription in FeedHandlers(host, message.eventType);
    assert subscription in ForModule(host.subscriptions, Catalog);
    var entry := InboxEntry(Catalog, id, subscription.handlerName);
    if ok {
      InboxRunExact(s, entry, message.payload.event);
      ExactFrame(InboxRun(s, entry, message.payload.event), Apply(host, s, FeedRun(ok)));
    } else {
      ExactFrame(s, Apply(host, s, FeedRun(ok)));
    }
  }

  lemma ExactlyOnceKept(host: Host, s: System, step: Step)
    requires Composed(host) && ExactlyOnce(s) && Enabled(host, s, step)
    ensures ExactlyOnce(Apply(host, s, step))
  {
    match step
    case RunHandler(d, ok) => RunHandlerExact(host, s, d, ok);
    case FeedRun(ok) => FeedRunExact(host, s, ok);
    case _ => ExactFrame(s, Apply(host, s, step));
  }

  /** The exactly-once effect holds after every run, under every interleaving. */
  lemma {:induction false} ExactlyOnceAlways(host: Host, s: System, trace: seq<Step>)
    requires Composed(host) && ExactlyOnce(s) && Legal(host, s, trace)
    ensures ExactlyOnce(Run(host, s, trace))
    decreases |trace|
  {
    if trace != [] {
      ExactlyOnceKept(host, s, trace[0]);
      ExactlyOnceAlways(host, Apply(host, s, trace[0]), trace[1..]);
    }
  }
}
