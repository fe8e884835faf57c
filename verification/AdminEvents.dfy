/** Administration's reaction to `InvoiceFinalized`: what each customer has spent. */
module AdminEvents {
  import opened Options
  import opened OrdersContracts
  import opened FiniteSums
  import opened Folds

  datatype Summary = Summary(totalSpent: int, invoiceCount: int, lastPurchaseAt: Option<Instant>)

  type SummaryTable = map<int, Summary>

  /** The table after one event. An event with no customer changes nothing. */
  function ApplyPurchase(rows: SummaryTable, event: InvoiceFinalized): SummaryTable
  {
    match event.customerId
    case None => rows
    case Some(customer) =>
      rows[customer :=
        if customer in rows
        then Summary(rows[customer].totalSpent + event.total, rows[customer].invoiceCount + 1,
                     Later(rows[customer].lastPurchaseAt, event.invoiceDate))
        else Summary(event.total, 1, Some(event.invoiceDate))]
  }

  lemma PurchasesCommute(rows: SummaryTable, a: InvoiceFinalized, b: InvoiceFinalized)
    ensures ApplyPurchase(ApplyPurchase(rows, a), b) == ApplyPurchase(ApplyPurchase(rows, b), a)
  {
    if a.customerId.Some? && b.customerId.Some? {
      var ab, ba := ApplyPurchase(ApplyPurchase(rows, a), b), ApplyPurchase(ApplyPurchase(rows, b), a);
      assert ab.Keys == rows.Keys + {a.customerId.value, b.customerId.value} == ba.Keys;
      forall customer | customer in ab ensures ab[customer] == ba[customer] {
      }
    }
  }

  lemma PurchasesOrderIndependent(rows: SummaryTable, events: seq<InvoiceFinalized>, reordered: seq<InvoiceFinalized>)
    requires multiset(events) == multiset(reordered)
    ensures Fold(ApplyPurchase, rows, events) == Fold(ApplyPurchase, rows, reordered)
  {
    forall a: InvoiceFinalized, b: InvoiceFinalized, s: SummaryTable
      ensures ApplyPurchase(ApplyPurchase(s, a), b) == ApplyPurchase(ApplyPurchase(s, b), a)
    {
      PurchasesCommute(s, a, b);
    }
    FoldPermutation(ApplyPurchase, rows, events, reordered);
  }

  // ------------------------------------------------------------------
  // The table as an aggregate over a set of events
  // ------------------------------------------------------------------

  predicate Bills(events: map<EventId, InvoiceFinalized>, id: EventId, customer: int)
  {
    id in events && events[id].customerId == Some(customer)
  }

  ghost function Spent(events: map<EventId, InvoiceFinalized>, applied: set<EventId>, customer: int): int
  {
    Sum(applied, (id: EventId) => if Bills(events, id, customer) then events[id].total else 0)
  }

  /** The applied events that bill the customer. */
  function Purchases(events: map<EventId, InvoiceFinalized>, applied: set<EventId>, customer: int): set<EventId>
  {
    set id | id in applied && Bills(events, id, customer)
  }

  ghost predicate LatestPurchase(
    events: map<EventId, InvoiceFinalized>, applied: set<EventId>, customer: int, date: Option<Instant>)
  {
    && date.Some?
    && (exists id :: id in applied && Bills(events, id, customer) && events[id].invoiceDate == date.value)
    && (forall id :: id in applied && Bills(events, id, customer) ==> events[id].invoiceDate <= date.value)
  }

  /** The table holds exactly the total, the count and the latest date over the applied events. */
  ghost predicate PurchaseAggregate(rows: SummaryTable, events: map<EventId, InvoiceFinalized>, applied: set<EventId>)
  {
    && (forall customer :: customer in rows <==> Purchases(events, applied, customer) != {})
    && (forall customer :: customer in rows ==>
          rows[customer].totalSpent == Spent(events, applied, customer)
          && rows[customer].invoiceCount == |Purchases(events, applied, customer)|
          && LatestPurchase(events, applied, customer, rows[customer].lastPurchaseAt))
  }

  lemma SpentInsert(events: map<EventId, InvoiceFinalized>, applied: set<EventId>, id: EventId, customer: int)
    requires id in events && id !in applied
    ensures Spent(events, applied + {id}, customer)
         == Spent(events, applied, customer) + if Bills(events, id, customer) then events[id].total else 0
    ensures Purchases(events, applied + {id}, customer)
         == Purchases(events, applied, customer) + if Bills(events, id, customer) then {id} else {}
  {
    SumInsert(applied, id, (i: EventId) => if Bills(events, i, customer) then events[i].total else 0);
  }

  lemma SpentNothing(events: map<EventId, InvoiceFinalized>, applied: set<EventId>, customer: int)
    requires Purchases(events, applied, customer) == {}
    ensures Spent(events, applied, customer) == 0
  {
    forall id | id in applied ensures !Bills(events, id, customer) {
      assert id !in Purchases(events, applied, customer);
    }
    SumZero(applied, (i: EventId) => if Bills(events, i, customer) then events[i].total else 0);
  }

  lemma ApplyPurchaseAggregates(
    rows: SummaryTable, events: map<EventId, InvoiceFinalized>, applied: set<EventId>, id: EventId)
    requires PurchaseAggregate(rows, events, applied)
    requires id in events && id !in applied
    ensures PurchaseAggregate(ApplyPurchase(rows, events[id]), events, applied + {id})
  {
    var after, more := ApplyPurchase(rows, events[id]), applied + {id};
    forall customer
      ensures customer in after <==> Purchases(events, more, customer) != {}
      ensures customer in after ==>
        after[customer].totalSpent == Spent(events, more, customer)
        && after[customer].invoiceCount == |Purchases(events, more, customer)|
        && LatestPurchase(events, more, customer, after[customer].lastPurchaseAt)
    {
      SpentInsert(events, applied, id, customer);
      if customer !in rows {
        SpentNothing(events, applied, customer);
      }
      if customer in after {
        LatestPurchaseInsert(rows, events, applied, id, customer);
      }
    }
  }

  lemma LatestPurchaseInsert(
    rows: SummaryTable, events: map<EventId, InvoiceFinalized>, applied: set<EventId>, id: EventId, customer: int)
    requires PurchaseAggregate(rows, events, applied)
    requires id in events && id !in applied
    requires customer in ApplyPurchase(rows, events[id])
    ensures LatestPurchase(events, applied + {id}, customer, ApplyPurchase(rows, events[id])[customer].lastPurchaseAt)
  {
    var more := applied + {id};
    var date := ApplyPurchase(rows, events[id])[customer].lastPurchaseAt;
    assert id in more;
    if customer in rows && date == rows[customer].lastPurchaseAt {
      var other :| other in applied && Bills(events, other, customer) && events[other].invoiceDate == date.value;
      assert other in more;
    }
    forall other | other in more && Bills(events, other, customer)
      ensures events[other].invoiceDate <= date.value
    {
      if other != id {
        assert other in Purchases(events, applied, customer);
      }
    }
  }

  lemma PurchaseAggregateFrame(
    rows: SummaryTable, events: map<EventId, InvoiceFinalized>, more: map<EventId, InvoiceFinalized>,
    applied: set<EventId>)
    requires PurchaseAggregate(rows, events, applied)
    requires forall id :: id in applied ==> (id in more <==> id in events)
    requires forall id :: id in applied && id in events ==> more[id] == events[id]
    ensures PurchaseAggregate(rows, more, applied)
  {
    forall customer
      ensures Purchases(more, applied, customer) == Purchases(events, applied, customer)
      ensures Spent(more, applied, customer) == Spent(events, applied, customer)
      ensures customer in rows ==> LatestPurchase(more, applied, customer, rows[customer].lastPurchaseAt)
    {
      SumCongruent(applied,
                   (i: EventId) => if Bills(events, i, customer) then events[i].total else 0,
                   (i: EventId) => if Bills(more, i, customer) then more[i].total else 0);
      assert forall id :: id in applied ==> (Bills(more, id, customer) <==> Bills(events, id, customer));
    }
  }

  class PurchaseSummaryTable {
    var rows: SummaryTable

    constructor ()
      ensures rows == map[]
    {
      rows := map[];
    }

    /** Applies one event through the inbox guard's transaction. */
    method Handle(event: InvoiceFinalized)
      modifies this
      ensures rows == ApplyPurchase(old(rows), event)
    {
      if event.customerId == None {
        return;
      }
      var customer := event.customerId.value;
      if customer in rows {
        var row := rows[customer];
        var last := row.lastPurchaseAt;
        if last == None || event.invoiceDate > last.value {
          last := Some(event.invoiceDate);
        }
        rows := rows[customer := Summary(row.totalSpent + event.total, row.invoiceCount + 1, last)];
      } else {
        rows := rows[customer := Summary(event.total, 1, Some(event.invoiceDate))];
      }
    }
  }
}
