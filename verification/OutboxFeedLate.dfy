/** Exactly when a row that becomes visible late is skipped by the catalog-host feed. */
module OutboxFeedLate {
  import opened Options
  import opened OrdersContracts
  import opened OutboxTables
  import opened OutboxSystem
  import opened OutboxExactlyOnce
  import opened OutboxFeed

  // ------------------------------------------------------------------
  // A row that does not land ahead
  // ------------------------------------------------------------------

  /** A row just published is in nobody's inbox. */
  lemma NewRowIsInNoInbox(host: Host, s: System, step: Step)
    requires ExactlyOnce(s) && (step.Finalize? || step.Publish?) && Enabled(host, s, step)
    ensures var t, id := Apply(host, s, step), PublishedKey(step).1;
            forall entry :: entry in t.inbox ==> entry.eventId != id
  {
    var t, id := Apply(host, s, step), PublishedKey(step).1;
    forall entry | entry in t.inbox ensures entry.eventId != id {
      assert entry.eventId in Events(s.messages);
    }
  }

  lemma InNoInboxIsNotHandled(host: Host, s: System, id: EventId)
    requires id in s.messages && FeedDelivers(host, s.messages[id])
    requires forall entry :: entry in s.inbox ==> entry.eventId != id
    ensures !FullyInCatalogInbox(host, s, id)
  {
    var first := InboxEntry(Catalog, id, FeedHandlers(host, s.messages[id].eventType)[0].handlerName);
    assert first !in s.inbox;
  }

  lemma PublishAddsRow(host: Host, s: System, step: Step)
    requires (step.Finalize? || step.Publish?) && Enabled(host, s, step)
    ensures var t, key := Apply(host, s, step), PublishedKey(step);
            OneRowMore(s, t, key.1) && t.messages[key.1].occurredAt == key.0
  {
  }

  /** On the way of a walk that can pass it, a new row is a gap. */
  lemma RowInReachIsGap(host: Host, s: System, t: System, id: EventId)
    requires FeedSound(host, s) && OneRowMore(s, t, id) && FeedDelivers(host, t.messages[id])
    requires Past(s.cursor, t.messages[id].occurredAt, id) && !LandsAhead(host, s, t.messages[id].occurredAt, id)
    ensures !NoGap(host, t)
  {
    var j :| InReach(host, s, j)
      && !Past(At(s.messages[s.walk.ids[j]].occurredAt, s.walk.ids[j]), t.messages[id].occurredAt, id);
    SameReach(host, s, t, id, j);
    assert Before(t.messages, id, t.walk.ids[j]);
    assert id !in t.walk.ids[t.walk.at..j];
  }

  /** A published row of any lag leaves the feed sound exactly when it lands ahead. */
  lemma SoundIffAhead(host: Host, s: System, step: Step)
    requires ExactlyOnce(s) && FeedSound(host, s)
    requires (step.Finalize? || step.Publish?) && Enabled(host, s, step)
    requires FeedDelivers(host, Apply(host, s, step).messages[PublishedKey(step).1])
    ensures FeedSound(host, Apply(host, s, step)) <==> LandsAhead(host, s, PublishedKey(step).0, PublishedKey(step).1)
  {
    var t := Apply(host, s, step);
    var (occurredAt, id) := PublishedKey(step);
    PublishAddsRow(host, s, step);
    if LandsAhead(host, s, occurredAt, id) {
      RowAheadKeepsFeed(host, s, t, id);
    } else if Past(s.cursor, occurredAt, id) {
      RowInReachIsGap(host, s, t, id);
    } else {
      NewRowIsInNoInbox(host, s, step);
      InNoInboxIsNotHandled(host, t, id);
    }
  }

  // ------------------------------------------------------------------
  // The rest of the walk skips it
  // ------------------------------------------------------------------

  predicate IsFeedStep(step: Step) {
    step.FeedRun? || step.FeedAdvance?
  }

  /** The feed's next move on its way: a handler of the current row, or on to the next row. */
  function NextMove(host: Host, s: System): Step
    requires OnWalk(s)
  {
    var message := s.messages[s.walk.ids[s.walk.at]];
    if FeedDelivers(host, message) && s.walk.sub < |FeedHandlers(host, message.eventType)|
    then FeedRun(true) else FeedAdvance
  }

  /** What one such move leaves alone. */
  lemma MoveOn(host: Host, s: System, j: int)
    requires InReach(host, s, j) && RunSoFar(host, s)
    ensures Enabled(host, s, NextMove(host, s))
    ensures var t := Apply(host, s, NextMove(host, s));
            && t.messages == s.messages && RunSoFar(host, t)
            && (forall entry :: entry in t.inbox ==> entry in s.inbox || entry.eventId == s.walk.ids[s.walk.at])
            && (if NextMove(host, s) == FeedAdvance
                then t.walk == s.walk.(at := s.walk.at + 1, sub := 0)
                     && t.cursor == At(s.messages[s.walk.ids[s.walk.at]].occurredAt, s.walk.ids[s.walk.at])
                else t.walk == s.walk.(sub := s.walk.sub + 1) && t.cursor == s.cursor)
  {
    var t := Apply(host, s, NextMove(host, s));
    if NextMove(host, s) == FeedRun(true) {
      FeedRunReaches(host, s);
    }
  }

  function Left(host: Host, s: System): nat
    requires OnWalk(s)
  {
    var handlers := |FeedHandlers(host, s.messages[s.walk.ids[s.walk.at]].eventType)|;
    if s.walk.sub < handlers then handlers - s.walk.sub else 0
  }

  /** Undisturbed, the walk takes the cursor onto any row in its reach, and touches no row but its own. */
  lemma {:induction false} WalkOn(host: Host, s: System, j: int, id: EventId) returns (rest: seq<Step>)
    requires InReach(host, s, j) && RunSoFar(host, s) && id !in s.walk.ids[s.walk.at..j + 1]
    requires forall entry :: entry in s.inbox ==> entry.eventId != id
    ensures Legal(host, s, rest) && forall step :: step in rest ==> IsFeedStep(step)
    ensures var u := Run(host, s, rest);
            && u.messages == s.messages && u.cursor == At(s.messages[s.walk.ids[j]].occurredAt, s.walk.ids[j])
            && (forall entry :: entry in u.inbox ==> entry.eventId != id)
    decreases j - s.walk.at, Left(host, s)
  {
    var move := NextMove(host, s);
    MoveOn(host, s, j);
    var t := Apply(host, s, move);
    assert s.walk.ids[s.walk.at] in s.walk.ids[s.walk.at..j + 1];
    if move == FeedAdvance && s.walk.at == j {
      rest := [FeedAdvance];
      RunOne(host, s, FeedAdvance);
    } else {
      assert InReach(host, t, j);
      assert t.walk.ids[t.walk.at..j + 1] <= s.walk.ids[s.walk.at..j + 1] || move == FeedAdvance;
      var more := WalkOn(host, t, j, id);
      rest := [move] + more;
      assert rest[1..] == more;
    }
  }

  lemma {:induction false} FeedStepsPublishNothing(host: Host, s: System, trace: seq<Step>)
    requires Legal(host, s, trace) && forall step :: step in trace ==> IsFeedStep(step)
    ensures AllAhead(host, s, trace)
    decreases |trace|
  {
    if trace != [] {
      assert trace[0] in trace;
      FeedStepsPublishNothing(host, Apply(host, s, trace[0]), trace[1..]);
    }
  }

  /** A row that does not land ahead is skipped at once, or by the rest of the walk under way. */
  lemma BehindIsSkipped(host: Host, s: System, step: Step) returns (rest: seq<Step>)
    requires ExactlyOnce(s) && FeedSound(host, s)
    requires (step.Finalize? || step.Publish?) && Enabled(host, s, step)
    requires FeedDelivers(host, Apply(host, s, step).messages[PublishedKey(step).1])
    requires !LandsAhead(host, s, PublishedKey(step).0, PublishedKey(step).1)
    ensures var t, key := Apply(host, s, step), PublishedKey(step);
            && Legal(host, t, rest) && AllAhead(host, t, rest) && (forall move :: move in rest ==> IsFeedStep(move))
            && var u := Run(host, t, rest);
            && key.1 in u.messages && u.messages[key.1].occurredAt == key.0 && !Past(u.cursor, key.0, key.1)
            && !FullyInCatalogInbox(host, u, key.1) && !NoneSkipped(host, u)
  {
    var t := Apply(host, s, step);
    var (occurredAt, id) := PublishedKey(step);
    NewRowIsInNoInbox(host, s, step);
    rest := [];
    if Past(s.cursor, occurredAt, id) {
      var j :| InReach(host, s, j) && !Past(At(s.messages[s.walk.ids[j]].occurredAt, s.walk.ids[j]), occurredAt, id);
      PublishAddsRow(host, s, step);
      SameReach(host, s, t, id, j);
      rest := WalkOn(host, t, j, id);
    }
    FeedStepsPublishNothing(host, t, rest);
    InNoInboxIsNotHandled(host, Run(host, t, rest), id);
  }

  /**
   The exact condition, over runs: from a sound state, a published row that Catalog handles, of
   whatever lag, puts no later state at risk exactly when it lands ahead of the cursor and of
   every row the walk under way can still reach.
   */
  lemma NeverSkippedIffAhead(host: Host, s: System, step: Step)
    requires ExactlyOnce(s) && FeedSound(host, s)
    requires (step.Finalize? || step.Publish?) && Enabled(host, s, step)
    requires FeedDelivers(host, Apply(host, s, step).messages[PublishedKey(step).1])
    ensures (forall rest :: Legal(host, Apply(host, s, step), rest) && AllAhead(host, Apply(host, s, step), rest) ==>
               NoneSkipped(host, Run(host, Apply(host, s, step), rest)))
       <==> LandsAhead(host, s, PublishedKey(step).0, PublishedKey(step).1)
  {
    var t := Apply(host, s, step);
    if LandsAhead(host, s, PublishedKey(step).0, PublishedKey(step).1) {
      SoundIffAhead(host, s, step);
      forall rest | Legal(host, t, rest) && AllAhead(host, t, rest) ensures NoneSkipped(host, Run(host, t, rest)) {
        AheadNeverSkips(host, t, rest);
      }
    } else {
      var rest := BehindIsSkipped(host, s, step);
      assert Legal(host, t, rest) && AllAhead(host, t, rest) && !NoneSkipped(host, Run(host, t, rest));
    }
  }

  // ------------------------------------------------------------------
  // For good
  // ------------------------------------------------------------------

  /** At or below the cursor, with some Catalog handler that does not hold it. */
  ghost predicate LeftBehind(host: Host, s: System, id: EventId)
  {
    && WalkOrdered(host, s) && id in s.messages && FeedDelivers(host, s.messages[id])
    && !Past(s.cursor, s.messages[id].occurredAt, id) && !FullyInCatalogInbox(host, s, id)
  }

  lemma FeedRunLeavesBehind(host: Host, s: System, ok: bool, id: EventId)
    requires LeftBehind(host, s, id) && Enabled(host, s, FeedRun(ok))
    ensures LeftBehind(host, AfterFeedRun(host, s, ok), id)
  {
    var t := AfterFeedRun(host, s, ok);
    assert s.walk.ids[s.walk.at] != id;
    forall entry | entry in t.inbox && entry.eventId == id ensures entry in s.inbox {
    }
  }

  lemma SelectKeepsOrder(host: Host, s: System, found: seq<EventId>)
    requires Enabled(host, s, FeedSelect(found))
    ensures WalkOrdered(host, Apply(host, s, FeedSelect(found)))
  {
    forall j | 0 <= j < |found| ensures found[j] in Settled(host, s) {
    }
  }

  /** A step that leaves inbox and feed alone. */
  lemma OtherStepLeavesBehind(host: Host, s: System, t: System, id: EventId)
    requires LeftBehind(host, s, id) && s.now <= t.now
    requires t.inbox == s.inbox && t.cursor == s.cursor && (t.walk == s.walk || t.walk == Idle)
    requires forall i :: i in s.messages ==> i in t.messages && t.messages[i] == s.messages[i]
    ensures LeftBehind(host, t, id)
  {
  }

  lemma OtherStepDoes(host: Host, s: System, step: Step)
    requires Enabled(host, s, step) && !step.RunHandler? && !step.FeedRun? && !step.FeedAdvance? && !step.FeedSelect?
    ensures var t := Apply(host, s, step);
            && s.now <= t.now && t.inbox == s.inbox && t.cursor == s.cursor && (t.walk == s.walk || t.walk == Idle)
            && forall i :: i in s.messages ==> i in t.messages && t.messages[i] == s.messages[i]
  {
  }

  lemma StepLeavesBehind(host: Host, s: System, step: Step, id: EventId)
    requires LeftBehind(host, s, id) && Enabled(host, s, step) && !step.RunHandler?
    ensures LeftBehind(host, Apply(host, s, step), id)
  {
    var t := Apply(host, s, step);
    if step.FeedRun? {
      FeedRunLeavesBehind(host, s, step.ok, id);
    } else if step.FeedAdvance? {
      AdvanceKeepsOrder(host, s);
    } else if step.FeedSelect? {
      SelectKeepsOrder(host, s, step.found);
    } else {
      OtherStepDoes(host, s, step);
      OtherStepLeavesBehind(host, s, t, id);
    }
  }

  /** Unless a dispatcher delivers it, a row left behind stays so over every run: the feed never comes back. */
  lemma {:induction false} LeftBehindForGood(host: Host, s: System, trace: seq<Step>, id: EventId)
    requires LeftBehind(host, s, id) && Legal(host, s, trace)
    requires forall step :: step in trace ==> !step.RunHandler?
    ensures LeftBehind(host, Run(host, s, trace), id) && !NoneSkipped(host, Run(host, s, trace))
    decreases |trace|
  {
    if trace != [] {
      assert trace[0] in trace;
      StepLeavesBehind(host, s, trace[0], id);
      LeftBehindForGood(host, Apply(host, s, trace[0]), trace[1..], id);
    }
  }

  // ------------------------------------------------------------------
  // The end of the window is too late
  // ------------------------------------------------------------------

  /** A catalog host with the given settle window. */
  function CatalogHost(settle: nat): Host {
    Host([Subscription(InvoiceFinalizedType, Catalog, CatalogHandler)], {Catalog}, {InvoiceFinalizedType}, settle)
  }

  function EmptySystem(): System {
    System(0, map[], [], map[], map[], {}, map[], map[], map[], Beginning, Idle)
  }

  function EmptyEvent(id: EventId): InvoiceFinalized {
    InvoiceFinalized(id, 0, id, None, 0, 0, [])
  }

  /** A publishing step's row becomes visible within the window, end included. */
  predicate WithinWindow(host: Host, s: System, step: Step)
  {
    match step
    case Finalize(_, _, occurredAt, _) => s.now <= occurredAt + host.settle
    case Publish(_, message, _) => s.now <= message.occurredAt + host.settle
    case _ => true
  }

  predicate AllWithin(host: Host, s: System, trace: seq<Step>)
    requires Legal(host, s, trace)
    decreases |trace|
  {
    trace == [] || (WithinWindow(host, s, trace[0]) && AllWithin(host, Apply(host, s, trace[0]), trace[1..]))
  }

  function EventRow(id: EventId): Message {
    Message(InvoiceFinalizedType, Readable(EmptyEvent(id)), 0)
  }

  /** Row 2 is published and read past; row 1, of the same instant, becomes visible as the window ends. */
  function LateTrace(settle: nat): seq<Step> {
    [Publish(2, EventRow(2), 0)] + ([Tick(settle)] + ReadTrace([Publish(1, EventRow(1), 0)]))
  }

  /** A walk over row 2 alone, and whatever follows. */
  function ReadTrace(rest: seq<Step>): seq<Step> {
    [FeedSelect([2])] + ([FeedRun(true)] + ([FeedAdvance] + rest))
  }

  lemma OneMore(host: Host, s: System, step: Step, rest: seq<Step>)
    requires Enabled(host, s, step) && WithinWindow(host, s, step)
    requires Legal(host, Apply(host, s, step), rest) && AllWithin(host, Apply(host, s, step), rest)
    ensures Legal(host, s, [step] + rest) && AllWithin(host, s, [step] + rest)
    ensures Run(host, s, [step] + rest) == Run(host, Apply(host, s, step), rest)
  {
    assert ([step] + rest)[1..] == rest;
  }

  lemma StepTo(host: Host, s: System, step: Step, t: System, rest: seq<Step>)
    requires Enabled(host, s, step) && WithinWindow(host, s, step) && Apply(host, s, step) == t
    requires Legal(host, t, rest) && AllWithin(host, t, rest)
    ensures Legal(host, s, [step] + rest) && AllWithin(host, s, [step] + rest)
    ensures Run(host, s, [step] + rest) == Run(host, t, rest)
  {
    OneMore(host, s, step, rest);
  }

  function LateHandler(): Subscription {
    Subscription(InvoiceFinalizedType, Catalog, CatalogHandler)
  }

  lemma OnlyLateHandler(settle: nat)
    ensures FeedHandlers(CatalogHost(settle), InvoiceFinalizedType) == [LateHandler()]
  {
    assert ForModule(CatalogHost(settle).subscriptions, Catalog) == [LateHandler()];
  }

  /** Row 2 published, the clock at the end of its window. */
  function RowTwoSettled(settle: nat): System {
    EmptySystem().(now := settle, messages := map[2 := EventRow(2)], rows := map[2 := NewRow(0)])
  }

  /** Row 2 delivered and the cursor on it. */
  function RowTwoRead(settle: nat): System {
    RowTwoSettled(settle).(inbox := {InboxEntry(Catalog, 2, CatalogHandler)}, cursor := At(0, 2),
                           walk := Walking([2], 1, 0, 0))
  }

  lemma RowTwoIsPublished(settle: nat)
    ensures var host, s := CatalogHost(settle), EmptySystem();
            var published := s.(messages := map[2 := EventRow(2)], rows := map[2 := NewRow(0)]);
            && Enabled(host, s, Publish(2, EventRow(2), 0)) && WithinWindow(host, s, Publish(2, EventRow(2), 0))
            && Apply(host, s, Publish(2, EventRow(2), 0)) == published
            && Enabled(host, published, Tick(settle)) && Apply(host, published, Tick(settle)) == RowTwoSettled(settle)
  {
  }

  lemma RowTwoSettles(settle: nat, rest: seq<Step>)
    requires Legal(CatalogHost(settle), RowTwoSettled(settle), rest)
    requires AllWithin(CatalogHost(settle), RowTwoSettled(settle), rest)
    ensures var host, trace := CatalogHost(settle), [Publish(2, EventRow(2), 0)] + ([Tick(settle)] + rest);
            Legal(host, EmptySystem(), trace) && AllWithin(host, EmptySystem(), trace)
            && Run(host, EmptySystem(), trace) == Run(host, RowTwoSettled(settle), rest)
  {
    var host := CatalogHost(settle);
    var published := EmptySystem().(messages := map[2 := EventRow(2)], rows := map[2 := NewRow(0)]);
    RowTwoIsPublished(settle);
    StepTo(host, published, Tick(settle), RowTwoSettled(settle), rest);
    StepTo(host, EmptySystem(), Publish(2, EventRow(2), 0), published, [Tick(settle)] + rest);
  }

  function RowTwoSelected(settle: nat): System {
    RowTwoSettled(settle).(walk := Walking([2], 0, 0, 0))
  }

  function RowTwoDelivered(settle: nat): System {
    RowTwoSelected(settle).(inbox := {InboxEntry(Catalog, 2, CatalogHandler)}, walk := Walking([2], 0, 1, 0))
  }

  lemma RowTwoIsSelected(settle: nat)
    ensures var host, s := CatalogHost(settle), RowTwoSettled(settle);
            Enabled(host, s, FeedSelect([2])) && Apply(host, s, FeedSelect([2])) == RowTwoSelected(settle)
  {
    assert Settled(CatalogHost(settle), RowTwoSettled(settle)) == {2};
  }

  lemma RowTwoMayRun(settle: nat)
    ensures Enabled(CatalogHost(settle), RowTwoSelected(settle), FeedRun(true))
  {
    OnlyLateHandler(settle);
  }

  lemma RowTwoIsDelivered(settle: nat)
    ensures var host, s := CatalogHost(settle), RowTwoSelected(settle);
            Enabled(host, s, FeedRun(true)) && Apply(host, s, FeedRun(true)) == RowTwoDelivered(settle)
  {
    RowTwoMayRun(settle);
    OnlyLateHandler(settle);
    var t := AfterFeedRun(CatalogHost(settle), RowTwoSelected(settle), true);
    assert t.inbox == {InboxEntry(Catalog, 2, CatalogHandler)} && t.sales == map[];
  }

  lemma RowTwoMayPass(settle: nat)
    ensures Enabled(CatalogHost(settle), RowTwoDelivered(settle), FeedAdvance)
  {
    OnlyLateHandler(settle);
  }

  /** An advance puts the cursor on the walk's current row. */
  lemma Advanced(host: Host, s: System)
    requires Enabled(host, s, FeedAdvance)
    ensures var id := s.walk.ids[s.walk.at];
            Apply(host, s, FeedAdvance)
            == s.(cursor := At(s.messages[id].occurredAt, id), walk := s.walk.(at := s.walk.at + 1, sub := 0))
  {
  }

  lemma RowTwoIsPassed(settle: nat)
    ensures var host, s := CatalogHost(settle), RowTwoDelivered(settle);
            Enabled(host, s, FeedAdvance) && Apply(host, s, FeedAdvance) == RowTwoRead(settle)
  {
    RowTwoMayPass(settle);
    Advanced(CatalogHost(settle), RowTwoDelivered(settle));
  }

  lemma ThenPassed(settle: nat, rest: seq<Step>)
    requires Legal(CatalogHost(settle), RowTwoRead(settle), rest)
            && AllWithin(CatalogHost(settle), RowTwoRead(settle), rest)
    ensures var host, s, trace := CatalogHost(settle), RowTwoDelivered(settle), [FeedAdvance] + rest;
            Legal(host, s, trace) && AllWithin(host, s, trace)
            && Run(host, s, trace) == Run(host, RowTwoRead(settle), rest)
  {
    RowTwoIsPassed(settle);
    StepTo(CatalogHost(settle), RowTwoDelivered(settle), FeedAdvance, RowTwoRead(settle), rest);
  }

  lemma ThenDelivered(settle: nat, rest: seq<Step>)
    requires Legal(CatalogHost(settle), RowTwoDelivered(settle), rest)
            && AllWithin(CatalogHost(settle), RowTwoDelivered(settle), rest)
    ensures var host, s, trace := CatalogHost(settle), RowTwoSelected(settle), [FeedRun(true)] + rest;
            Legal(host, s, trace) && AllWithin(host, s, trace)
            && Run(host, s, trace) == Run(host, RowTwoDelivered(settle), rest)
  {
    RowTwoIsDelivered(settle);
    StepTo(CatalogHost(settle), RowTwoSelected(settle), FeedRun(true), RowTwoDelivered(settle), rest);
  }

  lemma ThenSelected(settle: nat, rest: seq<Step>)
    requires Legal(CatalogHost(settle), RowTwoSelected(settle), rest)
            && AllWithin(CatalogHost(settle), RowTwoSelected(settle), rest)
    ensures var host, s, trace := CatalogHost(settle), RowTwoSettled(settle), [FeedSelect([2])] + rest;
            Legal(host, s, trace) && AllWithin(host, s, trace)
            && Run(host, s, trace) == Run(host, RowTwoSelected(settle), rest)
  {
    RowTwoIsSelected(settle);
    StepTo(CatalogHost(settle), RowTwoSettled(settle), FeedSelect([2]), RowTwoSelected(settle), rest);
  }

  lemma RowTwoIsRead(settle: nat, rest: seq<Step>)
    requires Legal(CatalogHost(settle), RowTwoRead(settle), rest)
    requires AllWithin(CatalogHost(settle), RowTwoRead(settle), rest)
    ensures var host, trace := CatalogHost(settle), ReadTrace(rest);
            Legal(host, RowTwoSettled(settle), trace) && AllWithin(host, RowTwoSettled(settle), trace)
            && Run(host, RowTwoSettled(settle), trace) == Run(host, RowTwoRead(settle), rest)
  {
    ThenPassed(settle, rest);
    ThenDelivered(settle, [FeedAdvance] + rest);
    ThenSelected(settle, [FeedRun(true)] + ([FeedAdvance] + rest));
  }

  lemma RowOneIsPublished(settle: nat)
    ensures var host, s, step := CatalogHost(settle), RowTwoRead(settle), Publish(1, EventRow(1), 0);
            && Enabled(host, s, step) && WithinWindow(host, s, step)
            && var t := Apply(host, s, step);
            && 1 in t.messages && t.messages[1] == EventRow(1) && t.cursor == At(0, 2)
            && (forall entry :: entry in t.inbox ==> entry.eventId != 1)
  {
  }

  lemma RowOneLandsBehind(settle: nat)
    ensures var host, s, step := CatalogHost(settle), RowTwoRead(settle), Publish(1, EventRow(1), 0);
            Enabled(host, s, step) && WithinWindow(host, s, step) && !NoneSkipped(host, Apply(host, s, step))
  {
    OnlyLateHandler(settle);
    RowOneIsPublished(settle);
    InNoInboxIsNotHandled(CatalogHost(settle),
        Apply(CatalogHost(settle), RowTwoRead(settle), Publish(1, EventRow(1), 0)), 1);
  }

  lemma RowOneIsSkipped(settle: nat)
    ensures var host, s, step := CatalogHost(settle), RowTwoRead(settle), Publish(1, EventRow(1), 0);
            Legal(host, s, [step]) && AllWithin(host, s, [step]) && !NoneSkipped(host, Run(host, s, [step]))
  {
    var host, s, step := CatalogHost(settle), RowTwoRead(settle), Publish(1, EventRow(1), 0);
    RowOneLandsBehind(settle);
    StepTo(host, s, step, Apply(host, s, step), []);
    assert [step] + [] == [step];
  }

  /**
   Becoming visible within the window, end included, is not enough: for every settle window there is
   a run that keeps to it and skips a row.
   */
  lemma WithinTheWindowIsNotEnough(settle: nat)
    ensures var host := CatalogHost(settle);
            && Legal(host, EmptySystem(), LateTrace(settle))
            && AllWithin(host, EmptySystem(), LateTrace(settle))
            && !NoneSkipped(host, Run(host, EmptySystem(), LateTrace(settle)))
  {
    var late := [Publish(1, EventRow(1), 0)];
    RowOneIsSkipped(settle);
    RowTwoIsRead(settle, late);
    RowTwoSettles(settle, ReadTrace(late));
  }
}
