/** Orders' own tables, and the event a finalized invoice publishes. */
module OrdersInvoices {
  import opened Options
  import opened OrdersContracts
  import opened FiniteSums
  import opened Selections
  import CatalogEvents

  datatype InvoiceStatus = Draft | Finalized

  datatype Invoice = Invoice(customerId: Option<int>, invoiceDate: Instant, total: int, status: InvoiceStatus)

  /** A row of `orders."InvoiceLine"`; the table is a sequence in `"Id"` order. */
  datatype InvoiceLine = InvoiceLine(
    invoiceId: Option<int>, trackId: Option<int>, unitPrice: Option<int>, quantity: Option<int>)

  /** One event line per line of the invoice that names a track. */
  function EventLines(lines: seq<InvoiceLine>, invoiceId: int): seq<EventLine>
  {
    if lines == [] then []
    else
      var last := lines[|lines| - 1];
      EventLines(lines[..|lines| - 1], invoiceId)
      + if last.invoiceId == Some(invoiceId) && last.trackId.Some?
        then [EventLine(last.trackId.value, last.quantity.GetOr(0), last.unitPrice.GetOr(0))]
        else []
  }

  /** The line is the invoice's and names a track. */
  predicate Billed(line: InvoiceLine, invoiceId: int) {
    line.invoiceId == Some(invoiceId) && line.trackId.Some?
  }

  /** A line as the event carries it: a missing quantity or price is zero. */
  function Carried(line: InvoiceLine): EventLine {
    EventLine(if line.trackId.Some? then line.trackId.value else 0,
              if line.quantity.Some? then line.quantity.value else 0,
              if line.unitPrice.Some? then line.unitPrice.value else 0)
  }

  /**
   The event's lines are the invoice's lines that name a track, each once and in the table's order,
   with the track, quantity and price it has.
   */
  lemma EventLinesInOrder(lines: seq<InvoiceLine>, invoiceId: int) returns (at: seq<nat>)
    ensures Picked(lines, (line: InvoiceLine) => Billed(line, invoiceId), Carried, EventLines(lines, invoiceId), at)
  {
    at := EventLinesBy(lines, invoiceId, (line: InvoiceLine) => Billed(line, invoiceId));
  }

  lemma {:induction false} EventLinesBy(lines: seq<InvoiceLine>, invoiceId: int, billed: InvoiceLine -> bool)
    returns (at: seq<nat>)
    requires forall line :: billed(line) == Billed(line, invoiceId)
    ensures Picked(lines, billed, Carried, EventLines(lines, invoiceId), at)
  {
    at := [];
    if lines != [] {
      var n := |lines| - 1;
      var before := EventLinesBy(lines[..n], invoiceId, billed);
      var found := EventLines(lines[..n], invoiceId);
      if Billed(lines[n], invoiceId) {
        PickedLast(lines, billed, Carried, found, before);
        at := before + [n];
      } else {
        PassedOver(lines, billed, Carried, found, before);
        at := before;
      }
    }
  }

  /** The event `finalize_invoice` publishes for an invoice. */
  function EventFor(
    invoices: map<int, Invoice>, lines: seq<InvoiceLine>, invoiceId: int, eventId: EventId, occurredAt: Instant)
    : InvoiceFinalized
    requires invoiceId in invoices
  {
    var invoice := invoices[invoiceId];
    InvoiceFinalized(eventId, occurredAt, invoiceId, invoice.customerId, invoice.invoiceDate, invoice.total,
                     EventLines(lines, invoiceId))
  }

  function FinalizedIds(invoices: map<int, Invoice>): set<int>
  {
    set id | id in invoices && invoices[id].status == Finalized
  }

  // ------------------------------------------------------------------
  // The read models' figures, taken directly over Orders' tables
  // ------------------------------------------------------------------

  function LineUnits(line: InvoiceLine, track: int): int
  {
    if line.trackId == Some(track) then line.quantity.GetOr(0) else 0
  }

  /** `SUM(COALESCE("Quantity", 0))` over the lines of the given invoices that name the track. */
  function UnitsInvoiced(lines: seq<InvoiceLine>, invoiceIds: set<int>, track: int): int
  {
    if lines == [] then 0
    else
      var last := lines[|lines| - 1];
      UnitsInvoiced(lines[..|lines| - 1], invoiceIds, track)
      + if last.invoiceId.Some? && last.invoiceId.value in invoiceIds then LineUnits(last, track) else 0
  }

  ghost predicate TrackInvoiced(lines: seq<InvoiceLine>, invoiceId: int, track: int)
  {
    exists line :: line in lines && line.invoiceId == Some(invoiceId) && line.trackId == Some(track)
  }

  lemma {:induction false} EventLinesTracks(lines: seq<InvoiceLine>, invoiceId: int, track: int)
    ensures track in CatalogEvents.TracksOf(EventLines(lines, invoiceId)) <==> TrackInvoiced(lines, invoiceId, track)
  {
    if lines != [] {
      var last, rest := lines[|lines| - 1], lines[..|lines| - 1];
      EventLinesTracks(rest, invoiceId, track);
      assert lines == rest + [last];
      var tail := if last.invoiceId == Some(invoiceId) && last.trackId.Some?
        then [EventLine(last.trackId.value, last.quantity.GetOr(0), last.unitPrice.GetOr(0))] else [];
      assert EventLines(lines, invoiceId) == EventLines(rest, invoiceId) + tail;
      assert track in CatalogEvents.TracksOf(EventLines(lines, invoiceId)) <==>
        track in CatalogEvents.TracksOf(EventLines(rest, invoiceId)) || track in CatalogEvents.TracksOf(tail);
    }
  }

  lemma UnitsOfEventLines(lines: seq<InvoiceLine>, invoiceId: int, track: int)
    requires lines != []
    ensures var last := lines[|lines| - 1];
            CatalogEvents.UnitsOf(EventLines(lines, invoiceId), track)
            == CatalogEvents.UnitsOf(EventLines(lines[..|lines| - 1], invoiceId), track)
               + if last.invoiceId == Some(invoiceId) then LineUnits(last, track) else 0
  {
    var last, rest := lines[|lines| - 1], lines[..|lines| - 1];
    if last.invoiceId == Some(invoiceId) && last.trackId.Some? {
      CatalogEvents.UnitsOfAppend(
        EventLines(rest, invoiceId),
        EventLine(last.trackId.value, last.quantity.GetOr(0), last.unitPrice.GetOr(0)), track);
    } else {
      assert EventLines(lines, invoiceId) == EventLines(rest, invoiceId);
    }
  }

  /** Summing per event and then over events counts every line of the table exactly once. */
  lemma {:induction false} EventsCountEveryLineOnce(lines: seq<InvoiceLine>, invoiceIds: set<int>, track: int)
    ensures Sum(invoiceIds, (id: int) => CatalogEvents.UnitsOf(EventLines(lines, id), track))
         == UnitsInvoiced(lines, invoiceIds, track)
  {
    var total := (id: int) => CatalogEvents.UnitsOf(EventLines(lines, id), track);
    if lines == [] {
      SumZero(invoiceIds, total);
    } else {
      var last, rest := lines[|lines| - 1], lines[..|lines| - 1];
      var before := (id: int) => CatalogEvents.UnitsOf(EventLines(rest, id), track);
      var added := (id: int) => if last.invoiceId == Some(id) then LineUnits(last, track) else 0;
      forall id | id in invoiceIds ensures total(id) == before(id) + added(id) {
        UnitsOfEventLines(lines, id, track);
      }
      SumAdd(invoiceIds, before, added, total);
      EventsCountEveryLineOnce(rest, invoiceIds, track);
      if last.invoiceId.Some? && last.invoiceId.value in invoiceIds {
        SumRemove(invoiceIds, last.invoiceId.value, added);
        SumZero(invoiceIds - {last.invoiceId.value}, added);
      } else {
        SumZero(invoiceIds, added);
      }
    }
  }
}
