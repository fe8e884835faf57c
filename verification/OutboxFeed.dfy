/** The catalog-host feed: a cursor over the outbox that never skips a row Catalog handles. */
module OutboxFeed {
  import opened OrdersContracts
  import opened OutboxTables
  import opened OutboxSystem

  /** Catalog's first `count` handlers of the row's type hold it in Catalog's inbox. */
  ghost predicate InCatalogInbox(host: Host, s: System, id: EventId, count: nat)
  {
    && id in s.messages
    && count <= |FeedHandlers(host, s.messages[id].eventType)|
    && forall j :: 0 <= j < count ==>
         InboxEntry(Catalog, id, FeedHandlers(host, s.messages[id].eventType)[j].handlerName) in s.inbox
  }

  ghost predicate FullyInCatalogInbox(host: Host, s: System, id: EventId)
  {
    id in s.messages && InCatalogInbox(host, s, id, |FeedHandlers(host, s.messages[id].eventType)|)
  }

  /** Every row at or below the cursor that Catalog handles is in Catalog's inbox. */
  ghost predicate NoneSkipped(host: Host, s: System)
  {
    forall id :: id in s.messages && !Past(s.cursor, s.messages[id].occurredAt, id)
        && FeedDelivers(host, s.messages[id])
      ==> FullyInCatalogInbox(host, s, id)
  }

  /** If the row is a finalized invoice, every handler Catalog subscribed to those holds it in Catalog's inbox. */
  ghost predicate HandedOver(host: Host, inbox: set<InboxEntry>, message: Message, id: EventId)
  {
    message.eventType == InvoiceFinalizedType ==>
      forall s :: s in host.subscriptions && s.eventType == InvoiceFinalizedType && s.moduleKey == Catalog ==>
        InboxEntry(Catalog, id, s.handlerName) in inbox
  }

  /** The cursor is on the row or has gone beyond it. */
  predicate Behind(cursor: Cursor, occurredAt: Instant, id: EventId) {
    cursor.At? && (occurredAt < cursor.occurredAt || (occurredAt == cursor.occurredAt && id <= cursor.id))
  }

  /** The first handlers of a finalized invoice having it, all of Catalog's subscriptions do. */
  lemma AllHandedOver(host: Host, inbox: set<InboxEntry>, message: Message, id: EventId)
    requires FeedDelivers(host, message) ==>
               forall j :: 0 <= j < |FeedHandlers(host, message.eventType)| ==>
                 InboxEntry(Catalog, id, FeedHandlers(host, message.eventType)[j].handlerName) in inbox
    ensures HandedOver(host, inbox, message, id)
  {
    var handlers := FeedHandlers(host, message.eventType);
    if message.eventType == InvoiceFinalizedType {
      forall s | s in host.subscriptions && s.eventType == InvoiceFinalizedType && s.moduleKey == Catalog
        ensures InboxEntry(Catalog, id, s.handlerName) in inbox
      {
        assert s in ForModule(host.subscriptions, Catalog) && s in handlers;
        var j :| 0 <= j < |handlers| && handlers[j] == s;
      }
    }
  }

  lemma HandedOverIsInInbox(host: Host, s: System, id: EventId)
    requires id in s.messages && FeedDelivers(host, s.messages[id])
    requires HandedOver(host, s.inbox, s.messages[id], id)
    ensures FullyInCatalogInbox(host, s, id)
  {
    var handlers := FeedHandlers(host, s.messages[id].eventType);
    forall j | 0 <= j < |handlers| ensures InboxEntry(Catalog, id, handlers[j].handlerName) in s.inbox {
      assert handlers[j] in handlers && handlers[j] in ForModule(host.subscriptions, Catalog);
    }
  }

  /** No row is skipped exactly when every row the cursor has reached has been handed over. */
  lemma NoneSkippedMeans(host: Host, s: System)
    ensures NoneSkipped(host, s) <==>
            forall id :: id in s.messages && Behind(s.cursor, s.messages[id].occurredAt, id) ==>
              HandedOver(host, s.inbox, s.messages[id], id)
  {
    if NoneSkipped(host, s) {
      forall id | id in s.messages && Behind(s.cursor, s.messages[id].occurredAt, id)
        ensures HandedOver(host, s.inbox, s.messages[id], id)
      {
        assert FeedDelivers(host, s.messages[id]) ==> FullyInCatalogInbox(host, s, id);
        AllHandedOver(host, s.inbox, s.messages[id], id);
      }
    } else {
      var id :| id in s.messages && !Past(s.cursor, s.messages[id].occurredAt, id)
                && FeedDelivers(host, s.messages[id]) && !FullyInCatalogInbox(host, s, id);
      if HandedOver(host, s.inbox, s.messages[id], id) {
        HandedOverIsInInbox(host, s, id);
      }
      assert Behind(s.cursor, s.messages[id].occurredAt, id);
    }
  }

  /** The rows past the cursor that occurred before the settle window, which is over for them. */
  ghost function UnreadRows(host: Host, s: System): set<EventId>
  {
    set id | id in s.messages && !Behind(s.cursor, s.messages[id].occurredAt, id)
             && s.messages[id].occurredAt + host.settle <= s.now
  }

  lemma SettledAreUnread(host: Host, s: System)
    ensures Settled(host, s) == UnreadRows(host, s)
  {
  }

  ghost predicate CursorSettled(host: Host, s: System)
  {
    s.cursor.At? ==> s.cursor.occurredAt <= s.now - host.settle
  }

  /** The rest of the walk lies past the cursor, in order and outside the settle window. */
  ghost predicate WalkOrdered(host: Host, s: System)
  {
    s.walk.Walking? ==>
      var w := s.walk;
      && w.at <= |w.ids| && w.settled <= s.now - host.settle
      && (forall j :: w.at <= j < |w.ids| ==>
            w.ids[j] in s.messages && s.messages[w.ids[j]].occurredAt <= w.settled
            && Past(s.cursor, s.messages[w.ids[j]].occurredAt, w.ids[j]))
      && (forall j, k :: w.at <= j < k < |w.ids| ==> Before(s.messages, w.ids[j], w.ids[k]))
  }

  /** The feed stops for good at a row Catalog handles and cannot read. */
  predicate Passable(host: Host, message: Message) {
    FeedDelivers(host, message) ==> message.payload.Readable?
  }

  /** The walk under way can move the cursor onto its row `j`. */
  ghost predicate InReach(host: Host, s: System, j: int)
  {
    && s.walk.Walking? && s.walk.at <= j < |s.walk.ids|
    && forall i :: s.walk.at <= i <= j ==> s.walk.ids[i] in s.messages && Passable(host, s.messages[s.walk.ids[i]])
  }

  /** What Catalog handles between the cursor and a row the walk can reach is on the walk. */
  ghost predicate NoGap(host: Host, s: System)
  {
    forall id, j ::
      (id in s.messages && FeedDelivers(host, s.messages[id]) && Past(s.cursor, s.messages[id].occurredAt, id)
       && InReach(host, s, j) && Before(s.messages, id, s.walk.ids[j]))
      ==> id in s.walk.ids[s.walk.at..j]
  }

  /** Of the walk's current row, the handlers run so far hold it. */
  ghost predicate RunSoFar(host: Host, s: System)
  {
    s.walk.Walking? && s.walk.at < |s.walk.ids| && s.walk.ids[s.walk.at] in s.messages
    && FeedDelivers(host, s.messages[s.walk.ids[s.walk.at]])
    ==> InCatalogInbox(host, s, s.walk.ids[s.walk.at], s.walk.sub)
  }

  ghost predicate WalkSound(host: Host, s: System) {
    WalkOrdered(host, s) && NoGap(host, s) && RunSoFar(host, s)
  }

  ghost predicate FeedSound(host: Host, s: System)
  {
    CursorSettled(host, s) && NoneSkipped(host, s) && WalkSound(host, s)
  }

  /** The key a publishing step adds to the outbox. */
  function PublishedKey(step: Step): (Instant, EventId)
    requires step.Finalize? || step.Publish?
  {
    if step.Finalize? then (step.occurredAt, step.eventId) else (step.message.occurredAt, step.id)
  }

  /** The row lands past the cursor, and past wherever the walk under way can still take it. */
  ghost predicate LandsAhead(host: Host, s: System, occurredAt: Instant, id: EventId)
  {
    && Past(s.cursor, occurredAt, id)
    && forall j :: InReach(host, s, j) ==>
         Past(At(s.messages[s.walk.ids[j]].occurredAt, s.walk.ids[j]), occurredAt, id)
  }

  /** A publishing step whose row Catalog handles lands it ahead. */
  ghost predicate Ahead(host: Host, s: System, step: Step)
    requires Enabled(host, s, step)
  {
    (step.Finalize? || step.Publish?) && FeedDelivers(host, Apply(host, s, step).messages[PublishedKey(step).1])
    ==> LandsAhead(host, s, PublishedKey(step).0, PublishedKey(step).1)
  }

  ghost predicate AllAhead(host: Host, s: System, trace: seq<Step>)
    requires Legal(host, s, trace)
    decreases |trace|
  {
    trace == [] || (Ahead(host, s, trace[0]) && AllAhead(host, Apply(host, s, trace[0]), trace[1..]))
  }

  /** A publishing step's row becomes visible strictly inside the settle window of its `OccurredAt`. */
  predicate Prompt(host: Host, s: System, step: Step)
  {
    match step
    case Finalize(_, _, occurredAt, _) => s.now < occurredAt + host.settle
    case Publish(_, message, _) => s.now < message.occurredAt + host.settle
    case _ => true
  }

  predicate AllPrompt(host: Host, s: System, trace: seq<Step>)
    requires Legal(host, s, trace)
    decreases |trace|
  {
    trace == [] || (Prompt(host, s, trace[0]) && AllPrompt(host, Apply(host, s, trace[0]), trace[1..]))
  }

  lemma StillInCatalogInbox(host: Host, s: System, t: System, id: EventId, count: nat)
    requires InCatalogInbox(host, s, id, count)
    requires s.inbox <= t.inbox && id in t.messages && t.messages[id] == s.messages[id]
    ensures InCatalogInbox(host, t, id, count)
  {
  }

  /** Steps that neither publish nor move the feed. */
  lemma FeedSoundFrame(host: Host, s: System, t: System)
    requires FeedSound(host, s)
    requires t.messages == s.messages && t.cursor == s.cursor && s.inbox <= t.inbox && s.now <= t.now
    requires t.walk == s.walk || t.walk == Idle
    ensures FeedSound(host, t)
  {
    forall id | id in t.messages && !Past(t.cursor, t.messages[id].occurredAt, id) && FeedDelivers(host, t.messages[id])
      ensures FullyInCatalogInbox(host, t, id)
    {
      assert FullyInCatalogInbox(host, s, id);
    }
  }

  /** `t` is `s` with one more row in the outbox. */
  ghost predicate OneRowMore(s: System, t: System, id: EventId)
  {
    && id !in s.messages && t.messages.Keys == s.messages.Keys + {id}
    && (forall i :: i in s.messages ==> t.messages[i] == s.messages[i])
    && t.cursor == s.cursor && t.walk == s.walk && t.inbox == s.inbox && t.now == s.now
  }

  /** No walk can reach the new row itself. */
  lemma SameReach(host: Host, s: System, t: System, id: EventId, j: int)
    requires WalkOrdered(host, s) && OneRowMore(s, t, id)
    ensures InReach(host, s, j) <==> InReach(host, t, j)
  {
  }

  /** A row that lands ahead, or that Catalog does not handle, disturbs neither cursor nor walk. */
  lemma RowAheadKeepsFeed(host: Host, s: System, t: System, id: EventId)
    requires FeedSound(host, s) && OneRowMore(s, t, id)
    requires FeedDelivers(host, t.messages[id]) ==> LandsAhead(host, s, t.messages[id].occurredAt, id)
    ensures FeedSound(host, t)
  {
    forall i | i in t.messages && !Past(t.cursor, t.messages[i].occurredAt, i) && FeedDelivers(host, t.messages[i])
      ensures FullyInCatalogInbox(host, t, i)
    {
      assert FullyInCatalogInbox(host, s, i);
    }
    forall i, j | i in t.messages && FeedDelivers(host, t.messages[i]) && Past(t.cursor, t.messages[i].occurredAt, i)
                  && InReach(host, t, j) && Before(t.messages, i, t.walk.ids[j])
      ensures i in t.walk.ids[t.walk.at..j]
    {
      SameReach(host, s, t, id, j);
      assert i != id;
      assert Before(s.messages, i, s.walk.ids[j]);
    }
  }

  lemma SelectKeepsFeed(host: Host, s: System, found: seq<EventId>)
    requires FeedSound(host, s) && Enabled(host, s, FeedSelect(found))
    ensures FeedSound(host, Apply(host, s, FeedSelect(found)))
  {
    var t := Apply(host, s, FeedSelect(found));
    var rows := Settled(host, s);
    assert NoneSkipped(host, t) by {
      FeedSoundFrame(host, s, s.(walk := Idle));
    }
    forall j | 0 <= j < |found| ensures found[j] in rows {
    }
    forall id, j | id in t.messages && FeedDelivers(host, t.messages[id])
        && Past(t.cursor, t.messages[id].occurredAt, id)
                   && InReach(host, t, j) && Before(t.messages, id, found[j])
      ensures id in found[0..j]
    {
      assert found[j] in rows;
      assert id in rows;
      assert id in found;
      var k :| 0 <= k < |found| && found[k] == id;
      assert k < j;
      assert found[0..j][k] == id;
    }
  }

  /** The handler run joins those that hold the walk's current row. */
  lemma FeedRunReaches(host: Host, s: System)
    requires RunSoFar(host, s) && Enabled(host, s, FeedRun(true))
    ensures RunSoFar(host, AfterFeedRun(host, s, true)) && s.inbox <= AfterFeedRun(host, s, true).inbox
  {
    var t := AfterFeedRun(host, s, true);
    var id := s.walk.ids[s.walk.at];
    StillInCatalogInbox(host, s, t, id, s.walk.sub);
    assert InCatalogInbox(host, t, id, s.walk.sub + 1);
  }

  lemma FeedRunKeepsFeed(host: Host, s: System, ok: bool)
    requires FeedSound(host, s) && Enabled(host, s, FeedRun(ok))
    ensures FeedSound(host, Apply(host, s, FeedRun(ok)))
  {
    var t := AfterFeedRun(host, s, ok);
    if ok {
      FeedRunReaches(host, s);
      FeedSoundFrame(host, s, t.(walk := s.walk));
      assert forall j :: InReach(host, t, j) <==> InReach(host, s, j);
    } else {
      FeedSoundFrame(host, s, t);
    }
  }

  /** No row Catalog handles lies strictly between the cursor and the walk's current row. */
  lemma NothingBetween(host: Host, s: System, id: EventId)
    requires WalkSound(host, s) && OnWalk(s) && id in s.messages && FeedDelivers(host, s.messages[id])
    requires Passable(host, s.messages[s.walk.ids[s.walk.at]])
    ensures Past(s.cursor, s.messages[id].occurredAt, id) ==> !Before(s.messages, id, s.walk.ids[s.walk.at])
  {
    assert InReach(host, s, s.walk.at);
    assert id !in s.walk.ids[s.walk.at..s.walk.at];
  }

  lemma AdvanceSkipsNone(host: Host, s: System)
    requires FeedSound(host, s) && Enabled(host, s, FeedAdvance)
    ensures NoneSkipped(host, Apply(host, s, FeedAdvance))
  {
    var t := Apply(host, s, FeedAdvance);
    var w := s.walk;
    var moved := w.ids[w.at];
    forall id | id in t.messages && !Past(t.cursor, t.messages[id].occurredAt, id) && FeedDelivers(host, t.messages[id])
      ensures FullyInCatalogInbox(host, t, id)
    {
      if id == moved {
        assert InCatalogInbox(host, s, id, w.sub);
        StillInCatalogInbox(host, s, t, id, w.sub);
      } else {
        NothingBetween(host, s, id);
        assert FullyInCatalogInbox(host, s, id);
      }
    }
  }

  lemma PastIsTransitive(c: Cursor, occurredAt: Instant, id: EventId, later: Instant, other: EventId)
    requires Past(c, occurredAt, id) && Past(At(occurredAt, id), later, other)
    ensures Past(c, later, other)
  {
  }

  /** Past the new cursor, no row comes before a row of the walk but the walk's own. */
  lemma AdvanceLeavesNoGap(host: Host, s: System, id: EventId, j: int)
    requires WalkSound(host, s) && OnWalk(s) && id in s.messages && FeedDelivers(host, s.messages[id])
    requires s.walk.at < j && InReach(host, s, j) && Before(s.messages, id, s.walk.ids[j])
    requires var moved := s.walk.ids[s.walk.at];
             Past(At(s.messages[moved].occurredAt, moved), s.messages[id].occurredAt, id)
    ensures id in s.walk.ids[s.walk.at + 1..j]
  {
    var w := s.walk;
    var moved := w.ids[w.at];
    assert Past(s.cursor, s.messages[moved].occurredAt, moved);
    PastIsTransitive(s.cursor, s.messages[moved].occurredAt, moved, s.messages[id].occurredAt, id);
    assert id in w.ids[w.at..j];
    assert w.ids[w.at..j] == [moved] + w.ids[w.at + 1..j];
  }

  lemma AdvanceKeepsOrder(host: Host, s: System)
    requires WalkOrdered(host, s) && Enabled(host, s, FeedAdvance)
    ensures WalkOrdered(host, Apply(host, s, FeedAdvance))
  {
    var t := Apply(host, s, FeedAdvance);
    var w := s.walk;
    forall j | t.walk.at <= j < |w.ids|
      ensures Past(t.cursor, t.messages[w.ids[j]].occurredAt, w.ids[j])
    {
      assert Before(s.messages, w.ids[w.at], w.ids[j]);
    }
  }

  lemma AdvanceKeepsFeed(host: Host, s: System)
    requires FeedSound(host, s) && Enabled(host, s, FeedAdvance)
    ensures FeedSound(host, Apply(host, s, FeedAdvance))
  {
    AdvanceSkipsNone(host, s);
    AdvanceKeepsOrder(host, s);
    var t := Apply(host, s, FeedAdvance);
    var w := s.walk;
    forall id, j | id in t.messages && FeedDelivers(host, t.messages[id])
        && Past(t.cursor, t.messages[id].occurredAt, id)
                   && InReach(host, t, j) && Before(t.messages, id, w.ids[j])
      ensures id in w.ids[t.walk.at..j]
    {
      assert InReach(host, s, j);
      AdvanceLeavesNoGap(host, s, id, j);
    }
  }

  lemma FeedSoundKept(host: Host, s: System, step: Step)
    requires FeedSound(host, s) && Enabled(host, s, step) && Ahead(host, s, step)
    ensures FeedSound(host, Apply(host, s, step))
  {
    var t := Apply(host, s, step);
    match step
    case Finalize(_, eventId, _, _) => RowAheadKeepsFeed(host, s, t, eventId);
    case Publish(id, _, _) => RowAheadKeepsFeed(host, s, t, id);
    case FeedSelect(found) => SelectKeepsFeed(host, s, found);
    case FeedRun(ok) => FeedRunKeepsFeed(host, s, ok);
    case FeedAdvance => AdvanceKeepsFeed(host, s);
    case _ => FeedSoundFrame(host, s, t);
  }

  /** The cursor has not moved back. */
  predicate NotBehind(earlier: Cursor, later: Cursor)
  {
    earlier == later || (later.At? && Past(earlier, later.occurredAt, later.id))
  }

  lemma CursorOnlyIncreases(host: Host, s: System, step: Step)
    requires FeedSound(host, s) && Enabled(host, s, step)
    ensures NotBehind(s.cursor, Apply(host, s, step).cursor)
  {
  }

  /**
   If every row Catalog handles lands ahead of the cursor and of what the walk under way can
   reach, then over every run, with handler failures and crashes anywhere, the cursor only moves
   forward and no such row is skipped.
   */
  lemma {:induction false} AheadNeverSkips(host: Host, s: System, trace: seq<Step>)
    requires FeedSound(host, s) && Legal(host, s, trace) && AllAhead(host, s, trace)
    ensures FeedSound(host, Run(host, s, trace))
    ensures NotBehind(s.cursor, Run(host, s, trace).cursor)
    decreases |trace|
  {
    if trace != [] {
      FeedSoundKept(host, s, trace[0]);
      CursorOnlyIncreases(host, s, trace[0]);
      AheadNeverSkips(host, Apply(host, s, trace[0]), trace[1..]);
    }
  }

  /** A row that becomes visible strictly inside its settle window lands ahead. */
  lemma PromptIsAhead(host: Host, s: System, step: Step)
    requires FeedSound(host, s) && Enabled(host, s, step) && Prompt(host, s, step)
    ensures Ahead(host, s, step)
  {
  }

  lemma {:induction false} AllPromptIsAhead(host: Host, s: System, trace: seq<Step>)
    requires FeedSound(host, s) && Legal(host, s, trace) && AllPrompt(host, s, trace)
    ensures AllAhead(host, s, trace)
    decreases |trace|
  {
    if trace != [] {
      PromptIsAhead(host, s, trace[0]);
      FeedSoundKept(host, s, trace[0]);
      AllPromptIsAhead(host, Apply(host, s, trace[0]), trace[1..]);
    }
  }

  /**
   If every row becomes visible strictly inside the settle window, then over every run, with
   handler failures and crashes anywhere, the cursor only moves forward and no handled row is skipped.
   */
  lemma FeedNeverSkips(host: Host, s: System, trace: seq<Step>)
    requires FeedSound(host, s) && Legal(host, s, trace) && AllPrompt(host, s, trace)
    ensures FeedSound(host, Run(host, s, trace))
    ensures NotBehind(s.cursor, Run(host, s, trace).cursor)
  {
    AllPromptIsAhead(host, s, trace);
    AheadNeverSkips(host, s, trace);
  }

  lemma InitiallyNoneSkipped(host: Host, s: System)
    requires Initial(s)
    ensures FeedSound(host, s)
  {
  }

  /** From a host with nothing published yet: no row Catalog handles is ever behind the cursor undelivered. */
  lemma FeedNeverSkipsFromTheStart(host: Host, s: System, trace: seq<Step>)
    requires Initial(s) && Legal(host, s, trace) && AllPrompt(host, s, trace)
    ensures NoneSkipped(host, Run(host, s, trace))
    ensures var t := Run(host, s, trace);
            forall id :: id in t.messages && Behind(t.cursor, t.messages[id].occurredAt, id) ==>
              HandedOver(host, t.inbox, t.messages[id], id)
  {
    InitiallyNoneSkipped(host, s);
    FeedNeverSkips(host, s, trace);
    NoneSkippedMeans(host, Run(host, s, trace));
  }
}
