/**
 What Orders publishes. Instants are microseconds, the resolution PostgreSQL
 stores; `Decimal` amounts are integers in hundredths, as `numeric(10,2)` holds them.
 */
module OrdersContracts {
  import opened Options

  type Instant = int
  type EventId = int

  /** A persisted event type name: `Orders.Contracts.Events.InvoiceFinalized`, or any other. */
  datatype EventType = InvoiceFinalizedType | OtherType(name: string)

  datatype EventLine = EventLine(trackId: int, quantity: int, unitPrice: int)

  datatype InvoiceFinalized = InvoiceFinalized(
    eventId: EventId,
    occurredAt: Instant,
    invoiceId: int,
    customerId: Option<int>,
    invoiceDate: Instant,
    total: int,
    lines: seq<EventLine>)

  /** The later of a stored date and a new one, as the handlers' `CASE` expressions keep it. */
  function Later(stored: Option<Instant>, date: Instant): Option<Instant>
  {
    if stored == None || date > stored.value then Some(date) else stored
  }
}
