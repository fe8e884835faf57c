/** Orders' invoices, read through the module's cache and invalidated by a finalization. */
module InvoiceReads {
  import opened Options
  import opened Text
  import opened CacheKeys
  import opened CacheFacade
  import opened CachedReads
  import opened HeapTables
  import opened OrdersInvoices
  import opened Selections

  type InvoiceRow = Record<Invoice>

  /** The invoices in heap order and their lines in `"Id"` order. */
  datatype Orders = Orders(invoices: Table<Invoice>, lines: seq<InvoiceLine>)

  datatype InvoiceRead = ById(id: int) | All | ByCustomer(customerId: int)

  /** What the module's cache holds: an invoice with its lines, invoices without, or another service's value. */
  datatype Shape =
    | One(invoice: InvoiceRow, lines: seq<InvoiceLine>)
    | Many(invoices: seq<InvoiceRow>)
    | Another(text: string)

  const MODULE := "orders"
  const VERSION := "v1"
  const INVOICE_TAGS: seq<string> := ["orders:invoice", "orders:invoice:by-id"]

  function DiscriminatorOf(read: InvoiceRead): string {
    match read
    case ById(id) => Discriminator("by-id", id)
    case All => "all"
    case ByCustomer(id) => Discriminator("by-customer", id)
  }

  function KeyOf(keys: CacheKeyComposer, read: InvoiceRead): string {
    keys.Compose(MODULE, "invoice", VERSION, DiscriminatorOf(read)).Render()
  }

  function LinesOf(lines: seq<InvoiceLine>, invoiceId: int): seq<InvoiceLine> {
    if lines == [] then []
    else (if lines[0].invoiceId == Some(invoiceId) then [lines[0]] else []) + LinesOf(lines[1..], invoiceId)
  }

  function CustomersOf(invoices: Table<Invoice>, customerId: int): seq<InvoiceRow> {
    if invoices == [] then []
    else
      (if invoices[0].columns.customerId == Some(customerId) then [invoices[0]] else [])
      + CustomersOf(invoices[1..], customerId)
  }

  function LoadFrom(orders: Orders, read: InvoiceRead): Option<Shape> {
    match read
    case All => Some(Many(orders.invoices))
    case ByCustomer(id) => Some(Many(CustomersOf(orders.invoices, id)))
    case ById(id) =>
      var found := Find(orders.invoices, id);
      if found.Some? then Some(One(found.value, LinesOf(orders.lines, id))) else None
  }

  /** The customer's invoices: exactly the rows that name the customer, in the table's order. */
  lemma {:induction false} CustomersFilter(invoices: Table<Invoice>, customerId: int)
    ensures Filters(invoices, (row: InvoiceRow) => row.columns.customerId == Some(customerId),
                    CustomersOf(invoices, customerId))
  {
    if invoices == [] {
      FiltersNone((row: InvoiceRow) => row.columns.customerId == Some(customerId));
    } else {
      CustomersFilter(invoices[1..], customerId);
      FiltersBefore(invoices, (row: InvoiceRow) => row.columns.customerId == Some(customerId),
                    CustomersOf(invoices[1..], customerId));
    }
  }

  /** The invoice's lines: exactly the lines that name the invoice, in `"Id"` order. */
  lemma {:induction false} LinesFilter(lines: seq<InvoiceLine>, invoiceId: int)
    ensures Filters(lines, (line: InvoiceLine) => line.invoiceId == Some(invoiceId), LinesOf(lines, invoiceId))
  {
    if lines == [] {
      FiltersNone((line: InvoiceLine) => line.invoiceId == Some(invoiceId));
    } else {
      LinesFilter(lines[1..], invoiceId);
      FiltersBefore(lines, (line: InvoiceLine) => line.invoiceId == Some(invoiceId), LinesOf(lines[1..], invoiceId));
    }
  }

  /** What a read that does not fail answers, told from the tables' rows. */
  ghost predicate Answers(orders: Orders, read: InvoiceRead, answer: Outcome<Shape>)
  {
    match read
    case All => answer == Found(Many(orders.invoices))
    case ByCustomer(id) =>
      && answer.Found? && answer.value.Many?
      && Filters(orders.invoices, (row: InvoiceRow) => row.columns.customerId == Some(id), answer.value.invoices)
    case ById(id) =>
      if exists row :: row in orders.invoices && row.id == id then
        && answer.Found? && answer.value.One?
        && answer.value.invoice in orders.invoices && answer.value.invoice.id == id
        && Filters(orders.lines, (line: InvoiceLine) => line.invoiceId == Some(id), answer.value.lines)
      else answer == Missing
  }

  lemma LoadedAnswers(orders: Orders, read: InvoiceRead)
    ensures Answers(orders, read, var now := LoadFrom(orders, read); if now.Some? then Found(now.value) else Missing)
  {
    match read
    case All =>
    case ByCustomer(id) => CustomersFilter(orders.invoices, id);
    case ById(id) =>
      FindMeans(orders.invoices, id);
      LinesFilter(orders.lines, id);
  }

  function Fits(read: InvoiceRead, value: Shape): bool {
    if read.ById? then value.One? else value.Many?
  }

  ghost function Invoices(keys: CacheKeyComposer): Service<Orders, InvoiceRead, Shape> {
    Service(read => KeyOf(keys, read), LoadFrom, Fits, INVOICE_TAGS)
  }

  lemma DiscriminatorsDiffer(a: InvoiceRead, b: InvoiceRead)
    requires DiscriminatorOf(a) == DiscriminatorOf(b)
    ensures a == b
  {
    assert "all"[0] == 'a';
    if a.All? || b.All? {
      assert forall id :: Discriminator("by-id", id)[0] == 'b' && Discriminator("by-customer", id)[0] == 'b';
    } else {
      var p, q := if a.ById? then "by-id" else "by-customer", if b.ById? then "by-id" else "by-customer";
      var m, n := if a.ById? then a.id else a.customerId, if b.ById? then b.id else b.customerId;
      DiscriminatorInjective(p, m, q, n);
      assert "by-id" != "by-customer" by {
        assert |"by-id"| != |"by-customer"|;
      }
    }
  }

  lemma KeysDiffer(keys: CacheKeyComposer, a: InvoiceRead, b: InvoiceRead)
    requires KeyOf(keys, a) == KeyOf(keys, b)
    ensures a == b
  {
    ComposedInjective(keys, MODULE, "invoice", "invoice", VERSION, DiscriminatorOf(a), DiscriminatorOf(b));
    DiscriminatorsDiffer(a, b);
  }

  /** Not even the keys of invoice lines, whose entity's name begins with this one's. */
  lemma OtherEntitiesKeysDiffer(keys: CacheKeyComposer, entity: string, discriminator: string, read: InvoiceRead)
    requires ColonFree(entity) && Lowercase(entity) != Lowercase("invoice")
    ensures KeyOf(keys, read) != keys.Compose(MODULE, entity, VERSION, discriminator).Render()
  {
    ComposedInjective(keys, MODULE, "invoice", entity, VERSION, DiscriminatorOf(read), discriminator);
  }

  lemma InvoicesWellFormed(keys: CacheKeyComposer)
    ensures WellFormed(Invoices(keys))
  {
    var service := Invoices(keys);
    forall a: InvoiceRead, b: InvoiceRead | KeyOf(keys, a) == KeyOf(keys, b) ensures a == b {
      KeysDiffer(keys, a, b);
    }
    assert forall a, b :: service.render(a) == KeyOf(keys, a) && service.render(b) == KeyOf(keys, b);
    forall w, r | service.load(w, r).Some? ensures service.fits(r, service.load(w, r).value) {
    }
  }

  datatype Finalization = NotFound | AlreadyFinalized | NowFinalized

  /** The table after the status change, the new row version in `place`. */
  function FinalizedAt(orders: Orders, id: int, place: nat): Orders
    requires Find(orders.invoices, id).Some?
  {
    var row := Find(orders.invoices, id).value;
    orders.(invoices := Placed(Without(orders.invoices, id), Record(id, row.columns.(status := Finalized)), place))
  }

  class InvoiceStore {
    const keys: CacheKeyComposer
    const cache: Facade<Shape>
    var orders: Orders

    constructor (keys: CacheKeyComposer, cache: Facade<Shape>, orders: Orders)
      requires cache.State() == Cache(map[], map[], {}, 1)
      ensures this.keys == keys && this.cache == cache && this.orders == orders && Valid()
    {
      this.keys, this.cache, this.orders := keys, cache, orders;
    }

    ghost function Here(): Site<Orders, Shape>
      reads this, cache
    {
      Site(orders, cache.State())
    }

    ghost predicate Valid()
      reads this, cache
    {
      Indexed(cache.State()) && Coherent(Invoices(keys), Here())
    }

    /** One read through the cache: what the tables hold now, unless the query had to be made and failed. */
    method Cached(read: InvoiceRead, queryFails: bool) returns (r: Outcome<Shape>)
      requires Valid()
      modifies cache
      ensures Valid() && orders == old(orders)
      ensures r == (var now := LoadFrom(orders, read); if now.Some? then Found(now.value) else Missing)
              || (queryFails && r == Failed)
      ensures Answers(orders, read, r) || (queryFails && r == Failed)
    {
      LoadedAnswers(orders, read);
      var loaded := LoadFrom(orders, read);
      var factory := if queryFails then Failed else if loaded.Some? then Found(loaded.value) else Missing;
      InvoicesWellFormed(keys);
      ReadIsDirect(Invoices(keys), Here(), cache.enabled, read, queryFails);
      CoherentKept(Invoices(keys), Here(), cache.enabled, Read(read, queryFails));
      assert factory == Load(Invoices(keys), orders, read, queryFails);
      r := cache.TryGetOrAdd(KeyOf(keys, read), factory, v => Fits(read, v), INVOICE_TAGS);
    }

    /** The cache's side of a finalization; its transaction is the platform's. */
    method FinalizeInvoice(id: int, place: nat) returns (outcome: Finalization)
      requires Valid()
      modifies this`orders, cache
      ensures Valid()
      ensures outcome == (var found := Find(old(orders).invoices, id);
                          if found.None? then NotFound
                          else if found.value.columns.status == Finalized then AlreadyFinalized else NowFinalized)
      ensures outcome == NotFound <==> forall row :: row in old(orders).invoices ==> row.id != id
      ensures outcome == NowFinalized ==> orders == FinalizedAt(old(orders), id, place)
      ensures outcome == NowFinalized ==>
                exists row :: row in old(orders).invoices && row.id == id
                              && orders == old(orders).(invoices := orders.invoices)
                              && Replaced(old(orders).invoices, Record(id, row.columns.(status := Finalized)),
                                          orders.invoices)
      ensures outcome != NowFinalized ==> orders == old(orders) && cache.State() == old(cache.State())
    {
      var found := Find(orders.invoices, id);
      FindMeans(orders.invoices, id);
      if found.None? {
        return NotFound;
      }
      if found.value.columns.status == Finalized {
        return AlreadyFinalized;
      }
      WriteKeepsCoherent(Invoices(keys), Here(), FinalizedAt(orders, id, place), ById(id));
      UpdateReplaces(orders.invoices, Record(id, found.value.columns.(status := Finalized)), place);
      orders := FinalizedAt(orders, id, place);
      cache.RemoveByTag(INVOICE_TAGS[0]);
      cache.Remove(KeyOf(keys, ById(id)));
      return NowFinalized;
    }
  }

  /** Straight after a finalization the invoice reads as finalized, with the lines it had, and no other has changed. */
  lemma FinalizedReads(orders: Orders, id: int, place: nat, other: int)
    requires Find(orders.invoices, id).Some?
    ensures var now, was := LoadFrom(FinalizedAt(orders, id, place), ById(other)), LoadFrom(orders, ById(other));
            if other != id then now == was
            else now == Some(was.value.(invoice := Record(id, was.value.invoice.columns.(status := Finalized))))
  {
    var row := Find(orders.invoices, id).value;
    UpdateReadsBack(orders.invoices, id, row.columns.(status := Finalized), place, other);
  }
}
