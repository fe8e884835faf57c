# Models of the event, cache, limiter, configuration and bookkeeping logic

A Dafny project beside the modular monolith's Rust sources. It models five parts of the system and
proves what they promise over every input and every run. `dafny verify dfyconfig.toml` checks it.

**Events** (`Outbox*.dfy`, `OrdersInvoices.dfy`, `CatalogEvents.dfy`, `AdminEvents.dfy`). Orders
finalizes invoices and publishes in one transaction; any number of dispatchers lock, deliver, settle
and commit or abort batches; handlers commit on their own behind the inbox; a person sends dead
letters back; the catalog host's feed walks the outbox behind a cursor. `OutboxSystem` is the step
system of all of these at once, and the other modules prove its invariants. `OutboxHost.Platform` is
the same in place: the dispatcher's, the inbox's and the feed's own loops over mutable tables, with
the other actors free to step between any two statements that commit, each loop proved to be a run of
the step system.

**Cache** (`CacheFacade.dfy`, `CachedReads.dfy`, `CacheKeys.dfy`, `GenreService.dfy`,
`InvoiceReads.dfy`). The entry store may lose anything at any time and report it later, in any order.
The tag index survives that, and services that read through the cache and invalidate after each write
return what their tables hold.

**Rate limiter** (`Traffic*.dfy`). The fixed-window limiter, its sweep, and everybody waiting at it.

**Configuration** (`Config*.dfy`). Trees merged layer over layer, the environment's layer, and JSON
keys, all stated by what a path reads, and joined from files and environment to `get_string`. Where
the order in which an object gives its keys could matter, it is any order.

**Bookkeeping** (`IntegrityChecks.dfy`, `WorkQueue.dfy`, `RefreshTokens.dfy`). The integrity run over
the findings table, the bounded work queue's callers and consumer, and the single-use refresh tokens.

Instants are integers (microseconds where seconds matter), amounts are integers in hundredths, event
ids are integers in place of UUIDs, ordered as `ORDER BY` orders them, and counters are unbounded
integers. The clock never goes back.

## Where the code and its documentation differ

- `ModuleWorkQueue::count` is documented as the items waiting, not counting the one running, and the
  capacity as the most items that can wait. The count is one above the capacity exactly while the
  consumer holds an item it has received and not yet counted off, and calls already counted hold
  every place.
- The feed's settle window protects a row that becomes visible *strictly inside* the window. The query
  takes rows with `OccurredAt` up to and including now minus the window, so a row that becomes
  visible exactly at the end of its window can already be behind the cursor, or on the way of a walk
  that will not see it. The exact condition, for a row of any lag, is to land past the cursor and past
  every row the walk under way can still reach.
- `merge_layer` is described as laying layers over each other as .NET stacks flattened keys. It does
  exactly when the shapes meet; a scalar over a section, or an array over an object, replaces it.
- A limiter's window admits at most `permit_limit`, yet one window length of time can hold up to one
  less than twice as many with a queue shorter than the limit, as every shipped policy has, and twice
  as many with a queue at least as long. It can hold more than the limit at all exactly when the limit
  is above one, or is one with a queue.
- `merge_at` is described as merging objects that meet. Nested objects have by then been rewritten as
  arrays where their keys allow, and an array is not merged: it replaces or is replaced.
- A refresh token is kept under `userId:token`. Where one user's id goes on from another's past a
  colon, a key of the longer id can be read as one of the shorter. The rule that a token serves the
  user it was issued to holds exactly for tokens without a colon, and for every token on a host without
  such a pair of ids.

## Assumptions

- Dispatchers, feed and services use the tables only through the modelled steps, and a row locked by
  one batch is skipped by the others.
- Issued refresh tokens are new and have no colon in them, as random base64 has none.
- The limiter's window is longer than zero, which reading it from configuration ensures down to the
  resolution of a duration; `now` does not decrease from one decision to the next; every waiter polls
  again and none is dropped while it waits.
- Cache fills, sets, removals and service writes are single steps. A fill that overlaps
  `remove_by_tag`, and a load that began before a write and is stored after its invalidation, are not
  covered.
- Work-queue callers and the consumer interleave freely while the consumer runs.

## Model

| member | source | states |
|---|---|---|
| OutboxExactlyOnce.ExactlyOnceAlways | crates/shared-kernel/src/events/inbox.rs:29-56 | In every reachable state, through redeliveries, aborted batches, any number of dispatchers and the feed racing them, each read model is the aggregate over exactly the events its module's inbox holds for its handler |
| OutboxExactlyOnce.InboxRunExact | crates/shared-kernel/src/events/inbox.rs:37-55 | One inbox transaction keeps that: a second run of the same event and handler leaves the whole state as it is, a first one adds exactly its event, which was not there |
| OutboxConservation.EndToEnd | crates/module-orders/src/services.rs:291-341 | From all-draft invoices: finalized invoices and outbox rows are in bijection after any interleaving, and once every row is processed both read models equal the aggregates taken directly over the finalized invoices and their track-bearing lines |
| OutboxConservation.MatchAlways | crates/module-orders/src/services.rs:309-341 | The bijection between finalized invoices and rows, each row carrying its invoice's own event, over every run |
| OutboxConservation.UnitsAreInvoiced | crates/module-orders/src/services.rs:321-338 | Units per track summed over all events are the units summed over the finalized invoices' lines |
| OutboxConservation.PurchasesAreInvoices | crates/module-orders/src/services.rs:321-338 | A customer's events are as many as that customer's finalized invoices and add up to the same total |
| OrdersInvoices.EventsCountEveryLineOnce | crates/module-orders/src/services.rs:328-337 | Grouping the lines into one event per invoice counts every track-bearing line once, with `NULL` quantities as zero |
| OrdersInvoices.EventLinesTracks | crates/module-orders/src/services.rs:328-337 | An event names a track exactly when some line of its invoice does |
| OrdersInvoices.EventLinesInOrder | crates/module-orders/src/services.rs:328-337 | The event's lines are those of the invoice that name a track, each once and in the table's order, each with its track, its quantity and its price, a `NULL` one as zero |
| OutboxDelivery.NothingLostAlways | crates/shared-kernel/src/events/dispatcher.rs:189-213 | Over every run a row is committed as processed only if its payload was read and every handler subscribed to its type has its inbox entry |
| OutboxVerdicts.BatchVerdicts | crates/shared-kernel/src/events/dispatcher.rs:189-213 | Whoever acts in between, a batch that commits leaves each of its rows as its delivery went, read off the handlers' answers: processed with its attempts as they were exactly when its event decodes, every module subscribed to it has a database and every handler step at the row succeeded; otherwise one failure more. An event that decodes was handed to each of its subscriptions |
| OutboxVerdicts.VerdictsAhead | crates/shared-kernel/src/events/dispatcher.rs:189-213 | From any point of a batch on, a row not yet settled comes out as its remaining handlers answer |
| OutboxVerdicts.VerdictColumns | crates/shared-kernel/src/events/dispatcher.rs:24-30 | A success sets `ProcessedAt` and no other column; the first five failures put the next attempt 1, 5, 30, 120 and 600 seconds off and the sixth sets `DeadLetteredAt` |
| OutboxVerdicts.BatchTakesEarliest | crates/shared-kernel/src/events/dispatcher.rs:168-175 | A batch takes the earliest fifty, by `OccurredAt` and then `Id`, of the rows neither processed nor dead, due, and in no other batch, or all of them when fewer |
| OutboxDelivery.AbortedBatchIsRedelivered | crates/shared-kernel/src/events/dispatcher.rs:163-214 | A batch that aborts, however far it got and whatever everybody else did meanwhile, leaves each of its rows as it was before the batch, attempts included, and deliverable at once, while the handlers' commits stand |
| OutboxDelivery.HandledOnce | crates/shared-kernel/src/events/inbox.rs:47-50 | Once a handler holds an event's inbox entry it holds it for good, and running that event for it again changes no table, after any run |
| OutboxDelivery.RetryMachineAlways | crates/shared-kernel/src/events/dispatcher.rs:216-272 | Over all runs, dead letters sent back included: committed attempts stay in 0..6, a row is dead exactly at six, never both dead and processed, and not due before its last failure's delay |
| OutboxDelivery.DeathTakes756Seconds | crates/shared-kernel/src/events/dispatcher.rs:24-30 | Within a retry cycle the sixth committed failure comes at least 756 seconds after the first |
| OutboxDelivery.ProcessedForGood | crates/shared-kernel/src/events/dispatcher.rs:168-174 | No run of anyone changes a processed row |
| OutboxTables.SelectFirst | crates/shared-kernel/src/events/dispatcher.rs:168-175 | The locked rows are the first fifty due rows by `OccurredAt` and `Id`, and all of them when fewer |
| OutboxDrain.CommitLowersWork | crates/shared-kernel/src/events/dispatcher.rs:193-213 | Every committed non-empty batch strictly lowers the attempts left summed over the pending rows |
| OutboxDrain.RunUsesWork | crates/shared-kernel/src/events/dispatcher.rs:163-214 | Over every run the rows that committed batches looked at, and the work left, come to no more than the work at the start and six for each row published or sent back; so without either a run holds at most that many committed non-empty batches |
| OutboxDrain.BatchDrains | crates/shared-kernel/src/events/dispatcher.rs:346-372 | With the clock still and nothing published, a committed batch takes exactly min(50, due) rows out of the due set, whatever its deliveries came to |
| OutboxDrain.CommittedAlone | crates/shared-kernel/src/events/dispatcher.rs:163-214 | Alone, a committed batch changes no row but those it took out of the due set, each processed or failed once more; if no handler answered that it failed, each is processed that can be delivered at all |
| OutboxFeed.FeedNeverSkips | samples/catalog-host/src/feed.rs:147-231 | If every row becomes visible strictly inside the settle window of its `OccurredAt`, then over every run the cursor never moves back and each handled-type row at or below the cursor has all its Catalog inbox entries |
| OutboxFeed.FeedNeverSkipsFromTheStart | samples/catalog-host/src/feed.rs:128-139 | The same from a host with nothing published: every finalized invoice at or below the cursor is in the inbox of each handler that Catalog subscribed to those |
| OutboxFeed.NoneSkippedMeans | samples/catalog-host/src/feed.rs:177-229 | No row is skipped exactly when every finalized invoice the cursor has reached has the inbox entry of each of Catalog's subscriptions to those |
| OutboxFeed.AheadNeverSkips | samples/catalog-host/src/feed.rs:147-231 | If every row of a delivered type lands ahead of the cursor and of what the walk under way can still reach, the guarantee holds over every run |
| OutboxFeedLate.NeverSkippedIffAhead | samples/catalog-host/src/feed.rs:152-231 | The exact condition: a published row of a delivered type, of whatever lag, puts no later state at risk exactly when it lands past the cursor and past every row the walk under way can still reach |
| OutboxFeedLate.SoundIffAhead | samples/catalog-host/src/feed.rs:161-172 | In one step: the published row leaves the feed's invariant standing exactly when it lands ahead |
| OutboxFeedLate.BehindIsSkipped | samples/catalog-host/src/feed.rs:177-229 | Otherwise the row is behind the cursor at once, or the rest of the walk takes the cursor past it, undelivered |
| OutboxFeedLate.LeftBehindForGood | samples/catalog-host/src/feed.rs:161-172 | Over every run in which no dispatcher delivers it, a row left behind stays undelivered |
| OutboxFeedLate.WithinTheWindowIsNotEnough | samples/catalog-host/src/feed.rs:152-172 | For every settle window a run in which a row becomes visible exactly at the end of its window, and is skipped |
| OutboxInvariants.StructureKept | crates/shared-kernel/src/events/dispatcher.rs:168-175 | Every step keeps the row locks: no row in two batches, every locked row pending and due, verdicts only on rows already delivered |
| OutboxSystem.SelectedInOrder | crates/shared-kernel/src/events/mod.rs:166-192 | The filter behind `for_event` and `for_module` takes exactly the positions that match, in order and each once |
| OutboxHost.Platform.FinalizeInvoice | crates/module-orders/src/services.rs:291-341 | The status change and the outbox row together, the event with the invoice's own customer, date, total and lines; not found and already finalized change nothing |
| OutboxHost.Platform.RetryDeadLetter | crates/module-orders/src/services.rs:509-520 | Resets a dead letter, and only a dead letter |
| OutboxHost.Platform.RunInbox | crates/shared-kernel/src/events/inbox.rs:37-55 | The inbox transaction in its three outcomes: the entry joins the inbox unless the run fails, and the read models change only the first time |
| OutboxHost.Platform.Deliver | crates/shared-kernel/src/events/dispatcher.rs:275-328 | Every subscribed handler is run on its own, with others interfering in between, and the row failed if any of them did or nothing could be decoded |
| OutboxHost.Platform.RecordFailure | crates/shared-kernel/src/events/dispatcher.rs:216-256 | One failure more: the next attempt by the schedule, or the dead letter |
| OutboxHost.Platform.ProcessBatch | crates/shared-kernel/src/events/dispatcher.rs:163-214 | The batch takes the earliest fifty waiting rows. If it commits, each row came out as its delivery went: processed with its attempts unchanged exactly when its event decodes, every subscribed module has a database and every handler of it succeeded, and one failure more otherwise; if the database refuses, each row is as it was. The whole is a run of the step system, whoever acted in between |
| OutboxHost.Platform.PollUntilIdle | crates/shared-kernel/src/events/dispatcher.rs:336-374 | The go-again-at-once loop ends, with the database to itself: nothing is left due, unless the last thing that happened was the database refusing a batch. Each row that was due had one verdict and no other row changed; when no handler failed, every row that was due and can be delivered is processed, and the others failed once more |
| OutboxHost.Platform.PollOnce | crates/shared-kernel/src/events/dispatcher.rs:163-214 | A batch alone takes min(50, due) rows out of the due set, each with one verdict, and changes no other row; or it was refused and changed none |
| OutboxHost.Platform.FeedBatch | samples/catalog-host/src/feed.rs:147-231 | The batch walks the earliest fifty unread rows whose settle window is over; every finalized invoice it passed is in each of Catalog's handlers' inboxes; the cursor ends on the last row that passed, and a batch that stops short stopped at the next row, for a handler that failed or a payload that cannot be read |
| OutboxHost.Platform.WalkRows | samples/catalog-host/src/feed.rs:177-230 | The rows pass in order until one does not, each finalized invoice handed to all of Catalog's handlers before the cursor moves onto it; the walk stopped at the next because a handler of it failed or Catalog handles it and its payload cannot be read |
| OutboxHost.PlatformGuarantees | crates/shared-kernel/src/events/dispatcher.rs:163-328 | Whatever sequence of these methods ran, however the others interfered, the exactly-once, retry and delivery guarantees hold of the tables |
| CatalogEvents.SalesOrderIndependent | crates/module-catalog/src/events.rs:38-54 | Any permutation of the events leaves the same `TrackSales` |
| CatalogEvents.ApplySalesAggregates | crates/module-catalog/src/events.rs:26-54 | Applying one more event turns the aggregate over a set of events into the aggregate over the set with it |
| CatalogEvents.TrackSalesTable.GroupByTrack | crates/module-catalog/src/events.rs:26-36 | The grouping visits each track of the lines once, with the sum of its lines |
| CatalogEvents.TrackSalesTable.Handle | crates/module-catalog/src/events.rs:19-57 | The handler's loops leave the table the specification names |
| AdminEvents.PurchasesOrderIndependent | crates/module-admin/src/events.rs:30-46 | Any permutation of the events leaves the same `CustomerPurchaseSummary` |
| AdminEvents.ApplyPurchaseAggregates | crates/module-admin/src/events.rs:26-46 | Applying one more event turns the aggregate over a set of events into the aggregate over the set with it; an event without a customer changes nothing |
| AdminEvents.PurchaseSummaryTable.Handle | crates/module-admin/src/events.rs:20-50 | The handler's upsert leaves the table the specification names |
| Folds.FoldPermutation | crates/module-catalog/src/events.rs:38-54 | Updates that commute pairwise fold to one state in every order |
| CacheFacade.IndexedAlways | crates/shared-kernel/src/caching/facade.rs:46-54 | Over every run of reads, sets, removals, losses and late reports in any order: each live entry is registered under all its tags at its own generation, every other registration belongs to a removal still to be reported, no tag maps to an empty set, and an entry is newer than every removed one of its key |
| CacheFacade.RemovalAfterAnyRun | crates/shared-kernel/src/caching/facade.rs:391-404 | After any run `remove_by_tag` leaves no live entry with the tag; and once every report is delivered the index is exactly the live entries' registrations and `remove_by_tag` drops the entries carrying the tag and no others |
| CacheFacade.StoredKeepsIndexed | crates/shared-kernel/src/caching/facade.rs:321-336 | Filling or overwriting an entry keeps the index sound |
| CacheFacade.DeliveredKeepsIndexed | crates/shared-kernel/src/caching/facade.rs:458-475 | A late report forgets no registration of a newer entry |
| CacheFacade.Facade.TryGetOrAdd | crates/shared-kernel/src/caching/facade.rs:290-355 | The answer: the live value, nothing for one of another type, and the factory's own outcome when there is none or the cache is off. The state: only a value found for an absent key goes in, under its tags and as the newest, and every other key's entry stays |
| CacheFacade.Facade.Set | crates/shared-kernel/src/caching/facade.rs:358-384 | The key holds the value written, listed under its tags as the newest, the entry it had is reported, and every other key's entry stays; nothing when the cache is off |
| CacheFacade.SetIsRead | crates/shared-kernel/src/caching/facade.rs:306-315 | Over every run that does not put or remove the key, remove a tag the index lists it under, or lose it, a value set is what a later read answers, whatever that read's factory |
| CacheFacade.FillIsRead | crates/shared-kernel/src/caching/facade.rs:306-336 | So is a value that a read's factory found for a key with no entry |
| CacheFacade.StoredHolds | crates/shared-kernel/src/caching/facade.rs:358-384 | A fill or overwrite leaves exactly that: the key's new entry, its registrations, one report at most, and everything else as it was |
| CacheFacade.Facade.RemoveByTag | crates/shared-kernel/src/caching/facade.rs:396-404 | The entries listed under the tag leave, each with a report to come, the tag goes from the index, and every other entry stays |
| CacheFacade.RegisterTags | crates/shared-kernel/src/caching/facade.rs:448-455 | Afterwards the key is listed under each of the tags at its generation and all else is listed as before |
| CacheFacade.ForgetTags | crates/shared-kernel/src/caching/facade.rs:458-475 | Afterwards the key is no longer listed under the tags at that generation and all else, newer registrations included, is listed as before |
| CacheFacade.Facade.Deliver | crates/shared-kernel/src/caching/facade.rs:188-197 | The eviction listener on one report: its registrations go, no other |
| CachedReads.CachedReadsAreDirect | crates/module-admin/src/services.rs:48-99 | After any sequence of reads and writes, with losses, late reports and other services' entries anywhere, a cached read that does not fail returns what its loader returns from the current tables |
| CachedReads.CoherentAlways | crates/module-admin/src/services.rs:48-99 | Over every run each live entry under one of the service's keys carries its tags and holds what its loader would return now |
| CachedReads.WriteKeepsCoherent | crates/module-admin/src/services.rs:86-98 | After a write and its invalidation no entry under any of the service's keys is left |
| GenreService.GenreStore.GetGenreById | crates/module-admin/src/services.rs:500-515 | A row the table holds under the id now, and nothing only if it holds none |
| GenreService.GenreStore.GetAllGenres | crates/module-admin/src/services.rs:517-534 | The table now, in heap order |
| GenreService.GenreStore.CreateGenre | crates/module-admin/src/services.rs:536-553 | The row is among the table's rows and the others are as they were, and the cache stays coherent; no name, or one over 120 characters, changes nothing |
| GenreService.GenreStore.UpdateGenre | crates/module-admin/src/services.rs:557-575 | The new row is in place of the one with the id, wherever the heap puts it, and the others are as they were; the answer says whether there was one, and the cache stays coherent |
| GenreService.GenreStore.DeleteGenre | crates/module-admin/src/services.rs:579-587 | Exactly the rows with another id are left, in order; the answer says whether there was one, and the cache stays coherent |
| GenreService.GenreStore.Invalidate | crates/module-admin/src/services.rs:86-98 | Both invalidations, in order |
| GenreService.GenresWellFormed | crates/module-admin/src/services.rs:500-534 | The genre reads have distinct keys and one cached type each |
| GenreService.OtherEntitiesKeysDiffer | crates/shared-kernel/src/caching/key.rs:101-118 | No other entity's key, whatever its discriminator, is a genre's |
| HeapTables.UpdateReadsBack | crates/module-admin/src/services.rs:557-575 | An updated row reads back, and every other row as before, wherever the new row version goes |
| HeapTables.WithoutFilters | crates/module-admin/src/services.rs:579-587 | A deletion leaves each row with another id once and in order, and no other |
| InvoiceReads.InvoiceStore.Cached | crates/module-orders/src/services.rs:228-284 | What the tables hold now: by customer exactly the invoices that name the customer, in table order and each once; all of them; and by id a row with the id together with exactly the lines that name it, in `"Id"` order, or nothing if there is no such row |
| InvoiceReads.LoadedAnswers | crates/module-orders/src/services.rs:228-284 | So answers the query behind each read, told from the rows of the tables |
| InvoiceReads.InvoiceStore.FinalizeInvoice | crates/module-orders/src/services.rs:291-355 | The three outcomes; after the status change the finalized row is in place of the one with the id and the others are as they were, and the cache is still coherent |
| InvoiceReads.FinalizedReads | crates/module-orders/src/services.rs:314-318 | A finalized invoice reads as finalized with the lines it had, and no other has changed |
| InvoiceReads.InvoicesWellFormed | crates/module-orders/src/services.rs:228-284 | The three invoice reads have distinct keys and one cached type each |
| CacheKeys.RenderInjective | crates/shared-kernel/src/caching/key.rs:38-54 | Keys whose leading segments have no colon render alike exactly when they agree segment by segment |
| CacheKeys.CollidesIff | crates/shared-kernel/src/caching/key.rs:38-54 | The exact condition: a key's text is also that of a key with other, colon-free leading segments exactly when one of its own leading segments has a colon |
| CacheKeys.RenderAlike | crates/shared-kernel/src/caching/key.rs:38-54 | Any two keys render alike exactly when their texts, split again at the first eight colons, are the same segment by segment |
| CacheKeys.ComposedInjective | crates/shared-kernel/src/caching/key.rs:101-145 | One composer's keys collide only for equal entities, case aside, and equal discriminators, whatever the host's own segments hold |
| CacheKeys.ComposedText | crates/shared-kernel/src/caching/key.rs:101-145 | The text of a composed key, segment by segment: everything from the module to the partitions lowercased, an absent partition empty, the discriminator as given |
| CacheKeys.DiscriminatorInjective | crates/module-admin/src/services.rs:502-503 | `prefix:id` discriminators are read back |
| TrafficControl.SweepUnobservable | crates/shared-kernel/src/traffic_control.rs:296-319 | For every sequence of arrivals in time order the sweeping limiter answers as one that never forgets a partition |
| TrafficControl.FreshLimitersAgree | crates/shared-kernel/src/traffic_control.rs:296-319 | So do the two from the start |
| TrafficControl.RateLimiter.TryAdmit | crates/shared-kernel/src/traffic_control.rs:235-271 | The decision on the window the request meets, its own as it was before any sweep: a permit when those used and, for a newcomer, the waiters leave one, else a wait until the window reopens, else a refusal; no other window changes, and those gone had closed with nobody waiting |
| TrafficControl.RateLimiter.SweepClosedWindows | crates/shared-kernel/src/traffic_control.rs:296-304 | Exactly the closed windows without waiters go, and they are counted |
| TrafficControl.RateLimiter.SweepIfDue | crates/shared-kernel/src/traffic_control.rs:307-319 | Nothing within a window of the last sweep; otherwise exactly the closed windows without waiters go |
| TrafficQueue.SoundAlways | crates/shared-kernel/src/traffic_control.rs:252-270 | Over every run `queued` is the number of outstanding waiters, within `queue_limit`, and a newcomer was admitted only out of what the entitled waiters leave |
| TrafficQueue.WaitersGoFirst | crates/shared-kernel/src/traffic_control.rs:249-261 | A waiter that polls in a window in which its partition has admitted a newcomer is admitted |
| TrafficQueue.NobodyOvertakesAWaiter | crates/shared-kernel/src/traffic_control.rs:277-289 | Both, from an unused limiter over every run |
| TrafficBound.BoundedAlways | crates/shared-kernel/src/traffic_control.rs:238-257 | Over every run a partition's windows start at least a window length apart, `used` counts the admissions of the open one, and none admits more than `permit_limit` |
| TrafficBound.AtMostTwiceTheLimit | crates/shared-kernel/src/traffic_control.rs:238-271 | No half-open interval of one window length holds more than twice `permit_limit` admissions of a partition |
| TrafficMost.NeverMoreThanTheMost | crates/shared-kernel/src/traffic_control.rs:238-271 | For every policy: never more in one window length than the limit for a window of one instant, than one less than twice the limit when the queue is shorter than the limit, and than twice the limit otherwise |
| TrafficReach.TheMostIsReached | crates/shared-kernel/src/traffic_control.rs:238-271 | For every policy a run and an interval that hold exactly that many |
| TrafficReach.WhenTheLimitIsExceeded | crates/shared-kernel/src/traffic_control.rs:238-271 | Exactly when one window length can hold more than the limit, and exactly when it can hold twice the limit: only if the queue is at least as long as the limit |
| TrafficMost.OpenerIsAdmitted | crates/shared-kernel/src/traffic_control.rs:238-257 | With a queue shorter than the limit the request that starts a window is let in |
| ConfigMergeLaw.MergeLaw | crates/shared-kernel/src/config.rs:493-534 | Every path reads the layer's value where it has one and otherwise the base's, through objects, arrays and index maps over arrays, exactly when the shapes meet: wherever a layer's value replaces one it cannot be merged with, it covers it |
| ConfigMergeLaw.MergeReads | crates/shared-kernel/src/config.rs:496-534 | The direction a reader of configuration needs |
| ConfigMergeLaw.StackReads | crates/shared-kernel/src/config.rs:120-149 | Files, secrets and environment in turn: the last layer with a value wins |
| ConfigMergeLaw.ScalarOverSectionLoses | crates/shared-kernel/src/config.rs:532-532 | A concrete pair of layers for which the law fails |
| ConfigLayers.MergeLayer | crates/shared-kernel/src/config.rs:496-534 | The merge for every pair of trees, index keys written any way, as the order of the layer's keys makes it |
| ConfigLayers.InAnyOrder | crates/shared-kernel/src/config.rs:516-531 | With indices written as printed, every order of the keys makes the one merge the law is about |
| ConfigLayers.LaidOverElement | crates/shared-kernel/src/config.rs:519-530 | For keys written any way: each element of the array is what the keys naming its index leave of it, laid in order |
| ConfigLayers.LastKeyIsRead | crates/shared-kernel/src/config.rs:519-530 | An index named by several keys reads the scalar of the last of them |
| ConfigLayers.TwoWaysOfWritingOne | crates/shared-kernel/src/config.rs:516-531 | Of any two keys naming one index with scalars, the order decides which is read |
| ConfigLayers.MergeIndexMap | crates/shared-kernel/src/config.rs:516-531 | The loop over an index map's keys, resizing with nulls as it goes, for keys written any way |
| ConfigLayers.MergeSelf | crates/shared-kernel/src/config.rs:496-534 | Laying any tree over itself changes nothing, key by key in any order as all at once |
| ConfigTree.ValueAt | crates/shared-kernel/src/config.rs:219-232 | The walk down a path finds what the lookup finds |
| ConfigTree.LookupWalks | crates/shared-kernel/src/config.rs:219-232 | A lookup finds a value exactly when each segment of the path names, in the value before, a member of an object or an element of an array by its index |
| ConfigTree.IndexIsWritten | crates/shared-kernel/src/config.rs:225-225 | A segment reads as an index exactly when it is perhaps a plus, perhaps zeros, and the number as printed, and the number fits |
| ConfigTree.IndexRoundTrip | crates/shared-kernel/src/config.rs:225-225 | A printed index parses back to itself |
| ConfigOverride.LayerOrderIndependent | crates/shared-kernel/src/config.rs:382-391 | With prefix-free names the layer does not depend on the order of the variables |
| ConfigOverride.LayerReadsBack | crates/shared-kernel/src/config.rs:382-391 | With prefix-free names every variable reads back at its path |
| ConfigOverride.NamedVariableReads | crates/shared-kernel/src/config.rs:382-391 | What the process lists under a name is read at the parts of the name between its double underscores, in lower case |
| ConfigOverride.LayerReadsExactly | crates/shared-kernel/src/config.rs:382-391 | With canonical indices the layer's texts are the variables' and no others |
| ConfigOverride.OneVariableOverrides | crates/shared-kernel/src/config.rs:516-534 | A variable naming an existing value changes it and no other exactly when no segment reading as index zero names a member of an object that holds another value |
| ConfigOverride.VariablesOverride | crates/shared-kernel/src/config.rs:382-391 | Over a base whose indexed collections are arrays, any prefix-free variables naming existing values change those values and no others |
| ConfigOverride.ArraysAreSteady | crates/shared-kernel/src/config.rs:516-531 | So it does whenever the base's indexed collections are arrays |
| ConfigOverride.SparseMapIsLost | crates/shared-kernel/src/config.rs:527-533 | Over a sparse index map it does not: the map is replaced |
| ConfigOverride.SparseMapIsNotSteady | crates/shared-kernel/src/config.rs:527-533 | The exact condition fails of that map |
| ConfigOverride.LoadEnvironment | crates/shared-kernel/src/config.rs:382-391 | The loop over the variables builds that layer |
| ConfigEnvironment.PartsRejoin | crates/shared-kernel/src/config.rs:386-386 | A name's parts rejoin to it, none has a `__` in it, and none but the last ends where one could have started earlier |
| ConfigEnvironment.InsertsCommute | crates/shared-kernel/src/config.rs:394-417 | Writes at paths that are apart commute, over any tree |
| ConfigEnvironment.TreeReadsOnlyVariables | crates/shared-kernel/src/config.rs:394-417 | A lookup that finds text finds a variable's |
| ConfigArrays.AsIndexSequence | crates/shared-kernel/src/config.rs:442-470 | Sorting and checking positions gives an array exactly when there are keys and they are the indices below their number, and gives each value its index |
| ConfigArrays.ConversionKeepsLookups | crates/shared-kernel/src/config.rs:420-439 | Every lookup that resolved resolves to the same text after index maps become arrays |
| ConfigArrays.ConversionAddsNoLookups | crates/shared-kernel/src/config.rs:420-439 | With canonical indices no other does |
| ConfigArrays.ConversionMakesArrays | crates/shared-kernel/src/config.rs:420-439 | Wherever a tree holds an object whose keys are exactly the indices `0..n` the converted tree holds an array as long, and every other object keeps its keys |
| ConfigArrays.ConvertNumericMaps | crates/shared-kernel/src/config.rs:420-439 | The depth-first rewriting |
| ConfigJson.FileReadsBackIff | crates/shared-kernel/src/config.rs:478-491 | The exact condition: every value of a JSON file reads back at the path its keys stand for, each at a path of its own, exactly when no key of an object meets an earlier one's text except as a section meets a section; indices written as printed |
| ConfigJson.FileReadsBack | crates/shared-kernel/src/config.rs:478-491 | The direction a reader needs, for keys written any way, nested or joined by colons and in any case |
| ConfigJson.ApartFileReadsBack | crates/shared-kernel/src/config.rs:478-491 | In particular every file reads back whose keys, within each object, stand for paths that lead apart |
| ConfigJson.FileReadsExactly | crates/shared-kernel/src/config.rs:478-491 | Then the layer's texts are the file's values and no others |
| ConfigJson.LayerCanonical | crates/shared-kernel/src/config.rs:478-491 | A file whose indices are written as printed becomes a layer whose indices are |
| ConfigJson.LowercaseAllKeys | crates/shared-kernel/src/config.rs:478-491 | The loops over objects and arrays |
| ConfigJson.KeyPathMeans | crates/shared-kernel/src/config.rs:478-491 | The path a key stands for is its text in lower case, between its colons |
| ConfigMeeting.MergeAtMeets | crates/shared-kernel/src/config.rs:537-565 | `merge_at` is the meeting of the tree with the value wrapped in its path |
| ConfigMeeting.MeetingReads | crates/shared-kernel/src/config.rs:543-551 | What every path reads from two trees that meet: the later one's text, or the earlier one's where the later spares it |
| ConfigMeeting.MetReads | crates/shared-kernel/src/config.rs:482-485 | What every path reads from trees met in turn: the text of the last that has one there, if no later one has met it |
| ConfigJsonFiles.ArrayIsReplaced | crates/shared-kernel/src/config.rs:478-491 | A JSON file, for every order of its keys: a section that has become an array and a colon key that reaches into it replace each other |
| ConfigJsonFiles.ArrayFileLoses | crates/shared-kernel/src/config.rs:478-491 | So one of that file's two values is not read, whatever the order |
| ConfigJsonFiles.SectionsMeet | crates/shared-kernel/src/config.rs:478-491 | A JSON file whose keys meet in a section and keep both values in either order |
| ConfigLoad.LoadedReads | crates/shared-kernel/src/config.rs:120-149 | From files and environment to `get_string`: the variable naming the path if there is one, and otherwise the value of the last file whose keys stand for the path |
| ConfigLoad.FlagReadsAsItsWord | crates/shared-kernel/src/config.rs:206-215 | A boolean of the last file that no variable names otherwise reads as `true` or `false`, whichever it is |
| ConfigLoad.Load | crates/shared-kernel/src/config.rs:120-149 | The loading loop: each file's layer, then the environment's |
| ConfigLoad.GetString | crates/shared-kernel/src/config.rs:206-215 | At the key's path a string reads as itself, a number as its digits, a boolean as its word, and `null`, a section, an array or no value as nothing |
| ConfigLoad.EitherFormReads | crates/shared-kernel/src/config.rs:337-339 | Keys that differ only in case and in colons written as dots read the same value |
| ConfigLoad.SectionIsASegment | crates/shared-kernel/src/config.rs:337-339 | A section's name in front of a key, with a colon or a dot, is one segment more, in lower case |
| IntegrityChecks.IntegrityRunExact | crates/module-reporting/src/job.rs:110-148 | On tables that hold still the open findings of the four references are exactly the rows whose `TrackId`, `CustomerId`, `GenreId` or `MediaTypeId` is the id of no row of its target table, one each, and other checks' are as before; open after is open before plus detected minus resolved; no finding is deleted or rewritten; a second run detects and resolves nothing |
| IntegrityChecks.FindingsTable.RunChecks | crates/module-reporting/src/job.rs:110-148 | The loop over the checks: the four references' open findings are exactly the rows that dangle, no finding is deleted or rewritten, and the three counts are the findings appended, those resolved and those open |
| IntegrityChecks.FindingsTable.Detect | crates/module-reporting/src/sql.rs:139-147 | Appends findings, each reporting a source row whose reference is the id of no target row, so that every such row has an open one; and counts them |
| IntegrityChecks.FindingsTable.Resolve | crates/module-reporting/src/sql.rs:149-157 | Resolves exactly the check's open findings whose row no longer dangles, and counts them |
| IntegrityChecks.OrphansDangle | crates/module-reporting/src/sql.rs:127-133 | An id is an orphan's exactly when some row of the source table has it and names, in the check's column, a value that no row of the target table has as its id |
| IntegrityChecks.CheckedOpens | crates/module-reporting/src/sql.rs:127-157 | After one check its open findings are its orphans, and no other check's have changed |
| IntegrityChecks.ResolvedCount | crates/module-reporting/src/sql.rs:149-157 | The open count falls by the number resolved |
| WorkQueue.QueueAlways | crates/shared-kernel/src/concurrency.rs:114-204 | Under every interleaving `waiting` stays in 0..capacity + 1 and passes the capacity exactly while the consumer holds an item it has not counted off and counted calls hold every place; items are run one at a time in the order sent, and a caller's reply is what its own work came to |
| WorkQueue.CapacityPlusOneIsReached | crates/shared-kernel/src/concurrency.rs:187-188 | For every capacity some interleaving leaves `waiting` one above it |
| RefreshTokens.TokensAlways | crates/module-identity/src/tokens.rs:174-182 | Under every interleaving no refresh token is spent twice, and the tokens held with the refreshes in flight never outnumber the logins |
| RefreshTokens.OnlyIssuedUnspentTokensAreTaken | crates/module-identity/src/stores.rs:269-273 | A token that can be taken has not been spent, and was issued to that user exactly when it has no colon in it |
| RefreshTokens.TakesAnothersIffIdExtends | crates/module-identity/src/stores.rs:237-239 | The exact condition on a host's users: some run takes for a user a token issued to another exactly when another's id goes on from that user's past a colon |
| RefreshTokens.LongerIdIsMisread | crates/module-identity/src/stores.rs:237-239 | One login whose key is read two ways |
| RefreshTokens.TakenForItsOwner | crates/module-identity/src/tokens.rs:174-182 | Without such a pair of ids, what is taken for a user was issued to that user, whatever the token presented |
| RefreshTokens.PurgeUnobservable | crates/module-identity/src/stores.rs:287-321 | At times that never decrease, purging changes no answer of `take` or `validate` |
| RefreshTokens.StoredValidates | crates/module-identity/src/stores.rs:242-273 | A token stored validates for its user, whatever calls about other tokens come in between, exactly until it expires |
| RefreshTokens.KeyInjective | crates/module-identity/src/stores.rs:237-239 | Keys of tokens without a colon are as distinct as the pairs of user and token |
| RefreshTokens.RefreshTokenStore.Take | crates/module-identity/src/stores.rs:269-273 | Valid exactly when held with a deadline still to come; the store is without the token either way and otherwise as it was |
| RefreshTokens.RefreshTokenStore.StoreToken | crates/module-identity/src/stores.rs:242-248 | The expired entries go if the interval since the last purge is over, then the entry is there |
| RefreshTokens.RefreshTokenStore.PurgeExpired | crates/module-identity/src/stores.rs:287-298 | Exactly the entries whose deadline has come go, and they are counted |
| RefreshTokens.TokenService.Refresh | crates/module-identity/src/tokens.rs:174-182 | The old token is spent whatever happens; a new one is held exactly when the refresh succeeds; and then the old one was unspent, and issued to that user exactly when it has no colon or, on a host without such ids, always |

## Left out

- PostgreSQL, sqlx and SQL text: a transaction is one step and a statement is its meaning on tables.
- moka, DashMap and tokio internals: an abstract map that loses entries, atomic per-key operations, a bounded first-in-first-out channel. Single-flight coalescing belongs to moka.
- HTTP handlers, middleware, OpenAPI, health endpoints, logging and meters.
- JWT signing and validation, key fetching, random bytes: signing is a given success or failure, and a token is a given fresh text.
- Sliding and absolute lifetimes with jitter: an entry may go at any time, which covers every lifetime.
- `LastError` text and its truncation: whether a delivery failed is modelled, not what it said.
- Overflow of `i32` and `i64` columns and counters.
- Two feeds on one cursor row, and clocks that disagree between processes.
- The payload's JSON: it is readable, with its event, or it is not. The first delivery of the feed creating its cursor row is the initial state.
- Billing address columns of an invoice, which no modelled operation reads.
- The validators beyond a genre's name, the other Administration services, which have the genres' shape, and the reporting views.
- `until_next`, `parse_time_of_day`, `partition_key` and `strip_bearer`: single expressions with nothing across operations.
- Unicode lowercasing: letters A to Z only, in cache keys and configuration keys.
- A source table missing from the database, which the migrations create, reads as empty in the orphan checks.
- Stopping the work queue's consumer, and a caller racing its shutdown.
- `RateLimiter::acquire` as one asynchronous loop: its passes are the `Arrive` and `Poll` events of `TrafficQueue`, any number of requests interleaved.
- ConfigJson.FileReadsBackIff: the converse is for files whose indices are written as printed and whose arrays an index can reach; that a file reads back (ConfigJson.FileReadsBack) has neither condition.
- Configuration trees are values: the in-place writes through mutable references are functions and methods from tree to tree.
- The cached reads of invoice lines, which nothing writes.
