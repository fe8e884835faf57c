/**
 Services that read through the cache and invalidate after a write, and the one thing that
 matters about them: a cached read is a direct read.
 */
module CachedReads {
  import opened Options
  import opened CacheFacade

  /** A service's reads `R` over its tables `W`, cached as values `V`. */
  datatype Service<!W, !R, !V> = Service(
    render: R -> string, load: (W, R) -> Option<V>, fits: (R, V) -> bool, tags: seq<string>)

  datatype Site<W, V> = Site(tables: W, cache: Cache<V>)

  /** What the read would return straight from the tables. */
  function Direct<W, R, V>(service: Service<W, R, V>, tables: W, read: R): Outcome<V> {
    var loaded := service.load(tables, read);
    if loaded.Some? then Found(loaded.value) else Missing
  }

  /** What the loader comes to: a query can fail. */
  function Load<W, R, V>(service: Service<W, R, V>, tables: W, read: R, fails: bool): Outcome<V> {
    if fails then Failed else Direct(service, tables, read)
  }

  function ReadThrough<W, R, V>(service: Service<W, R, V>, s: Site<W, V>, enabled: bool, read: R, fails: bool)
    : (Cache<V>, Outcome<V>)
  {
    Fetched(s.cache, enabled, service.render(read), Load(service, s.tables, read, fails),
            v => service.fits(read, v), service.tags)
  }

  /** `invalidate`: the collection entries by tag, and one entry by key. */
  function Invalidated<W, R, V>(service: Service<W, R, V>, c: Cache<V>, read: R): Cache<V>
    requires service.tags != []
  {
    Dropped(RemovedByTag(c, service.tags[0]), {service.render(read)})
  }

  ghost predicate WellFormed<W(!new), R(!new), V(!new)>(service: Service<W, R, V>)
  {
    && service.tags != []
    && (forall a, b | service.render(a) == service.render(b) :: a == b)
    && (forall w, r | service.load(w, r).Some? :: service.fits(r, service.load(w, r).value))
  }

  /** Every live entry under one of the service's keys is tagged, and holds what its loader would return now. */
  ghost predicate Coherent<W, R(!new), V>(service: Service<W, R, V>, s: Site<W, V>)
    requires service.tags != []
  {
    forall r :: service.render(r) in s.cache.entries ==>
      var e := s.cache.entries[service.render(r)];
      e.tags == service.tags && service.load(s.tables, r) == Some(e.value)
  }

  /** A step of the service, or of anything else that uses its cache. */
  datatype Action<!W, !R, !V> =
    | Read(read: R, fails: bool)
    | Write(tables: W, read: R)
    | Around(step: Step<V>)

  /** Others put nothing under the service's keys. */
  ghost predicate Allowed<W, R(!new), V>(service: Service<W, R, V>, s: Site<W, V>, a: Action<W, R, V>)
  {
    a.Around? ==>
      && Enabled(s.cache, a.step)
      && ((a.step.Fetch? || a.step.Put?) ==> forall r: R :: service.render(r) != a.step.key)
  }

  function Act<W, R, V>(service: Service<W, R, V>, s: Site<W, V>, enabled: bool, a: Action<W, R, V>): Site<W, V>
    requires service.tags != [] && (a.Around? ==> Enabled(s.cache, a.step))
  {
    match a
    case Read(read, fails) => s.(cache := ReadThrough(service, s, enabled, read, fails).0)
    case Write(tables, read) => Site(tables, Invalidated(service, s.cache, read))
    case Around(step) => s.(cache := Next(s.cache, enabled, step))
  }

  ghost predicate AllAllowed<W, R(!new), V>(
    service: Service<W, R, V>, s: Site<W, V>, enabled: bool, actions: seq<Action<W, R, V>>)
    requires service.tags != []
    decreases |actions|
  {
    actions == []
    || (Allowed(service, s, actions[0])
       && AllAllowed(service, Act(service, s, enabled, actions[0]), enabled, actions[1..]))
  }

  ghost function ActAll<W, R(!new), V>(
    service: Service<W, R, V>, s: Site<W, V>, enabled: bool, actions: seq<Action<W, R, V>>): Site<W, V>
    requires service.tags != [] && AllAllowed(service, s, enabled, actions)
    decreases |actions|
  {
    if actions == [] then s else ActAll(service, Act(service, s, enabled, actions[0]), enabled, actions[1..])
  }

  lemma FillKeepsCoherent<W(!new), R(!new), V(!new)>(service: Service<W, R, V>, s: Site<W, V>, read: R, value: V)
    requires WellFormed(service) && Coherent(service, s) && service.load(s.tables, read) == Some(value)
    ensures Coherent(service, s.(cache := Stored(s.cache, service.render(read), value, service.tags)))
  {
  }

  lemma WriteKeepsCoherent<W, R(!new), V>(service: Service<W, R, V>, s: Site<W, V>, tables: W, read: R)
    requires service.tags != [] && Indexed(s.cache) && Coherent(service, s)
    ensures Indexed(Invalidated(service, s.cache, read))
    ensures Coherent(service, Site(tables, Invalidated(service, s.cache, read)))
    ensures forall r :: service.render(r) !in Invalidated(service, s.cache, read).entries
  {
    RemovedByTagKeepsIndexed(s.cache, service.tags[0]);
    RemoveByTagReachesAll(s.cache, service.tags[0]);
    var removed := RemovedByTag(s.cache, service.tags[0]);
    DroppedKeepsIndexed(removed, {service.render(read)});
    forall r ensures service.render(r) !in removed.entries {
      if service.render(r) in s.cache.entries {
        assert service.tags[0] in s.cache.entries[service.render(r)].tags;
      }
    }
  }

  /** A report, whosever entry it is about, leaves the entries alone. */
  lemma ReportKeepsCoherent<W, R(!new), V>(service: Service<W, R, V>, s: Site<W, V>, notice: Notice)
    requires service.tags != [] && Indexed(s.cache) && Coherent(service, s) && notice in s.cache.pending
    ensures Indexed(Delivered(s.cache, notice)) && Coherent(service, s.(cache := Delivered(s.cache, notice)))
  {
    DeliveredKeepsIndexed(s.cache, notice);
  }

  lemma AroundKeepsCoherent<W, R(!new), V>(service: Service<W, R, V>, s: Site<W, V>, enabled: bool, step: Step<V>)
    requires service.tags != [] && Coherent(service, s)
    requires Allowed(service, s, Around(step))
    ensures Coherent(service, s.(cache := Next(s.cache, enabled, step)))
  {
    var next := Next(s.cache, enabled, step);
    forall r | service.render(r) in next.entries
      ensures service.render(r) in s.cache.entries
              && next.entries[service.render(r)] == s.cache.entries[service.render(r)]
    {
    }
  }

  lemma CoherentKept<W(!new), R(!new), V(!new)>(
    service: Service<W, R, V>, s: Site<W, V>, enabled: bool, a: Action<W, R, V>)
    requires WellFormed(service) && Indexed(s.cache) && Coherent(service, s) && Allowed(service, s, a)
    ensures Indexed(Act(service, s, enabled, a).cache) && Coherent(service, Act(service, s, enabled, a))
  {
    match a
    case Read(read, fails) =>
      var factory := Load(service, s.tables, read, fails);
      if factory.Found? {
        StoredKeepsIndexed(s.cache, service.render(read), factory.value, service.tags);
        FillKeepsCoherent(service, s, read, factory.value);
      }
    case Write(tables, read) => WriteKeepsCoherent(service, s, tables, read);
    case Around(step) =>
      IndexedKept(s.cache, enabled, step);
      AroundKeepsCoherent(service, s, enabled, step);
  }

  /** A read at a coherent site is the direct read, or the loader's own failure. */
  lemma ReadIsDirect<W(!new), R(!new), V(!new)>(
    service: Service<W, R, V>, s: Site<W, V>, enabled: bool, read: R, fails: bool)
    requires WellFormed(service) && Coherent(service, s)
    ensures var answer := ReadThrough(service, s, enabled, read, fails).1;
            if fails && (!enabled || service.render(read) !in s.cache.entries) then answer == Failed
            else answer == Direct(service, s.tables, read)
  {
    assert service.load(s.tables, read).Some? ==> service.fits(read, service.load(s.tables, read).value);
  }

  lemma {:induction false} CoherentAlways<W(!new), R(!new), V(!new)>(
    service: Service<W, R, V>, s: Site<W, V>, enabled: bool, actions: seq<Action<W, R, V>>)
    requires WellFormed(service) && Indexed(s.cache) && Coherent(service, s)
    requires AllAllowed(service, s, enabled, actions)
    ensures Indexed(ActAll(service, s, enabled, actions).cache)
    ensures Coherent(service, ActAll(service, s, enabled, actions))
    decreases |actions|
  {
    if actions != [] {
      CoherentKept(service, s, enabled, actions[0]);
      CoherentAlways(service, Act(service, s, enabled, actions[0]), enabled, actions[1..]);
    }
  }

  /**
   Cache-aside refines direct reads: after any sequence of reads and writes, with entries of any
   kind lost and reported anywhere and other services at the same cache, a read that does not
   fail returns what its loader returns from the tables as they are now.
   */
  lemma CachedReadsAreDirect<W(!new), R(!new), V(!new)>(
    service: Service<W, R, V>, tables: W, enabled: bool, actions: seq<Action<W, R, V>>, read: R, fails: bool)
    requires WellFormed(service)
    requires AllAllowed(service, Site(tables, Cache(map[], map[], {}, 1)), enabled, actions)
    ensures var now := ActAll(service, Site(tables, Cache(map[], map[], {}, 1)), enabled, actions);
            var answer := ReadThrough(service, now, enabled, read, fails).1;
            answer == Direct(service, now.tables, read) || (fails && answer == Failed)
  {
    var start := Site(tables, Cache(map[], map[], {}, 1));
    CoherentAlways(service, start, enabled, actions);
    ReadIsDirect(service, ActAll(service, start, enabled, actions), enabled, read, fails);
  }
}
