/** Administration's genres, read through the module's cache and invalidated after each write. */
module GenreService {
  import opened Options
  import opened Text
  import opened CacheKeys
  import opened CacheFacade
  import opened CachedReads
  import opened HeapTables
  import opened Selections

  /** A genre's one column beside its id is its name. */
  type Genre = Record<Option<string>>
  type GenreTable = Table<Option<string>>

  datatype GenreRead = ById(id: int) | All

  /** What the module's cache holds: a genre, the list of them, or another service's value. */
  datatype Shape = One(genre: Genre) | Many(genres: seq<Genre>) | Another(text: string)

  const MODULE := "administration"
  const VERSION := "v1"
  const GENRE_TAGS: seq<string> := ["administration:genre", "administration:genre:by-id"]

  function DiscriminatorOf(read: GenreRead): string {
    match read
    case ById(id) => Discriminator("by-id", id)
    case All => "all"
  }

  function KeyOf(keys: CacheKeyComposer, read: GenreRead): string {
    keys.Compose(MODULE, "genre", VERSION, DiscriminatorOf(read)).Render()
  }

  function LoadFrom(table: GenreTable, read: GenreRead): Option<Shape> {
    match read
    case All => Some(Many(table))
    case ById(id) =>
      var found := Find(table, id);
      if found.Some? then Some(One(found.value)) else None
  }

  function Fits(read: GenreRead, value: Shape): bool {
    if read.All? then value.Many? else value.One?
  }

  ghost function Genres(keys: CacheKeyComposer): Service<GenreTable, GenreRead, Shape> {
    Service(read => KeyOf(keys, read), LoadFrom, Fits, GENRE_TAGS)
  }

  lemma DiscriminatorsDiffer(a: GenreRead, b: GenreRead)
    requires DiscriminatorOf(a) == DiscriminatorOf(b)
    ensures a == b
  {
    if a.ById? && b.ById? {
      DiscriminatorInjective("by-id", a.id, "by-id", b.id);
    } else {
      assert "all"[0] == 'a' && forall id :: Discriminator("by-id", id)[0] == 'b';
    }
  }

  lemma KeysDiffer(keys: CacheKeyComposer, a: GenreRead, b: GenreRead)
    requires KeyOf(keys, a) == KeyOf(keys, b)
    ensures a == b
  {
    ComposedInjective(keys, MODULE, "genre", "genre", VERSION, DiscriminatorOf(a), DiscriminatorOf(b));
    DiscriminatorsDiffer(a, b);
  }

  /** No key of another entity of the module is a genre's. */
  lemma OtherEntitiesKeysDiffer(keys: CacheKeyComposer, entity: string, discriminator: string, read: GenreRead)
    requires ColonFree(entity) && Lowercase(entity) != Lowercase("genre")
    ensures KeyOf(keys, read) != keys.Compose(MODULE, entity, VERSION, discriminator).Render()
  {
    ComposedInjective(keys, MODULE, "genre", entity, VERSION, DiscriminatorOf(read), discriminator);
  }

  lemma GenresWellFormed(keys: CacheKeyComposer)
    ensures WellFormed(Genres(keys))
  {
    forall a: GenreRead, b: GenreRead | KeyOf(keys, a) == KeyOf(keys, b) ensures a == b {
      KeysDiffer(keys, a, b);
    }
    var service := Genres(keys);
    assert forall a, b :: service.render(a) == KeyOf(keys, a) && service.render(b) == KeyOf(keys, b);
    forall w, r | service.load(w, r).Some? ensures service.fits(r, service.load(w, r).value) {
    }
  }

  // ------------------------------------------------------------------
  // The table's statements
  // ------------------------------------------------------------------

  predicate ValidName(name: Option<string>) {
    name.Some? && |name.value| <= 120
  }

  datatype Created = Created(genre: Genre) | Invalid

  datatype Changed = Changed(found: bool) | Rejected

  /** The service over its table and the module's cache. */
  class GenreStore {
    const keys: CacheKeyComposer
    const cache: Facade<Shape>
    var table: GenreTable

    constructor (keys: CacheKeyComposer, cache: Facade<Shape>, table: GenreTable)
      requires cache.State() == Cache(map[], map[], {}, 1)
      ensures this.keys == keys && this.cache == cache && this.table == table && Valid()
    {
      this.keys, this.cache, this.table := keys, cache, table;
    }

    ghost function Here(): Site<GenreTable, Shape>
      reads this, cache
    {
      Site(table, cache.State())
    }

    ghost predicate Valid()
      reads this, cache
    {
      Indexed(cache.State()) && Coherent(Genres(keys), Here())
    }

    method Invalidate(id: int)
      modifies cache
      ensures cache.State() == Invalidated(Genres(keys), old(cache.State()), ById(id))
    {
      cache.RemoveByTag(GENRE_TAGS[0]);
      cache.Remove(KeyOf(keys, ById(id)));
    }

    /** What the table holds under the id now, unless the query had to be made and failed. */
    method GetGenreById(id: int, queryFails: bool) returns (r: Outcome<Genre>)
      requires Valid()
      modifies cache
      ensures Valid() && table == old(table)
      ensures r == (var found := Find(table, id); if found.Some? then Found(found.value) else Missing)
              || (queryFails && r == Failed)
      ensures r.Found? ==> r.value in table && r.value.id == id
      ensures r.Missing? ==> forall genre :: genre in table ==> genre.id != id
    {
      FindMeans(table, id);
      var read := ById(id);
      var found := Find(table, id);
      var factory := if queryFails then Failed else if found.Some? then Found(One(found.value)) else Missing;
      GenresWellFormed(keys);
      ReadIsDirect(Genres(keys), Here(), cache.enabled, read, queryFails);
      CoherentKept(Genres(keys), Here(), cache.enabled, Read(read, queryFails));
      assert factory == Load(Genres(keys), table, read, queryFails);
      var answer := cache.TryGetOrAdd(KeyOf(keys, read), factory, v => Fits(read, v), GENRE_TAGS);
      r := match answer
           case Found(v) => if v.One? then Found(v.genre) else Missing
           case Missing => Missing
           case Failed => Failed;
    }

    /** Every genre, in the table's order. */
    method GetAllGenres(queryFails: bool) returns (r: Outcome<seq<Genre>>)
      requires Valid()
      modifies cache
      ensures Valid() && table == old(table)
      ensures r == Found(table) || (queryFails && r == Failed)
    {
      var factory := if queryFails then Failed else Found(Many(table));
      GenresWellFormed(keys);
      ReadIsDirect(Genres(keys), Here(), cache.enabled, All, queryFails);
      CoherentKept(Genres(keys), Here(), cache.enabled, Read(All, queryFails));
      assert factory == Load(Genres(keys), table, All, queryFails);
      var answer := cache.TryGetOrAdd(KeyOf(keys, All), factory, v => Fits(All, v), GENRE_TAGS);
      r := match answer
           case Found(v) => if v.Many? then Found(v.genres) else Found([])
           case Missing => Found([])
           case Failed => Failed;
    }

    /** `id` is what the table's identity column gives the new row. */
    method CreateGenre(name: Option<string>, id: int, place: nat) returns (r: Created)
      requires Valid() && Find(table, id).None?
      modifies this`table, cache
      ensures Valid()
      ensures r == if name == None || |name.value| > 120 then Invalid else Created(Record(id, name))
      ensures table == if r.Created? then Placed(old(table), Record(id, name), place) else old(table)
      ensures r.Created? ==> Inserted(old(table), Record(id, name), table)
    {
      PlacedInserts(table, Record(id, name), place);
      if !ValidName(name) {
        return Invalid;
      }
      WriteKeepsCoherent(Genres(keys), Here(), Placed(table, Record(id, name), place), ById(id));
      table := Placed(table, Record(id, name), place);
      Invalidate(id);
      r := Created(Record(id, name));
    }

    method UpdateGenre(id: int, name: Option<string>, place: nat) returns (r: Changed)
      requires Valid()
      modifies this`table, cache
      ensures Valid()
      ensures r == if name == None || |name.value| > 120 then Rejected else Changed(Find(old(table), id).Some?)
      ensures table ==
              if r == Changed(true) then Placed(Without(old(table), id), Record(id, name), place) else old(table)
      ensures r.Changed? ==> (r.found <==> exists genre :: genre in old(table) && genre.id == id)
      ensures r == Changed(true) ==> Replaced(old(table), Record(id, name), table)
    {
      FindMeans(table, id);
      UpdateReplaces(table, Record(id, name), place);
      if !ValidName(name) {
        return Rejected;
      }
      var updated := Find(table, id).Some?;
      if updated {
        WriteKeepsCoherent(Genres(keys), Here(), Placed(Without(table, id), Record(id, name), place), ById(id));
        table := Placed(Without(table, id), Record(id, name), place);
        Invalidate(id);
      }
      r := Changed(updated);
    }

    method DeleteGenre(id: int) returns (deleted: bool)
      requires Valid()
      modifies this`table, cache
      ensures Valid()
      ensures deleted == Find(old(table), id).Some?
      ensures table == if deleted then Without(old(table), id) else old(table)
      ensures deleted <==> exists genre :: genre in old(table) && genre.id == id
      ensures deleted ==> Filters(old(table), (genre: Genre) => genre.id != id, table)
    {
      FindMeans(table, id);
      WithoutFilters(table, id);
      deleted := Find(table, id).Some?;
      if deleted {
        WriteKeepsCoherent(Genres(keys), Here(), Without(table, id), ById(id));
        table := Without(table, id);
        Invalidate(id);
      }
    }

    /** Entries expire or are evicted, at any time. */
    method Lose(key: string)
      requires Valid()
      modifies cache
      ensures Valid() && table == old(table)
    {
      assert Allowed(Genres(keys), Here(), Around(CacheFacade.Invalidate(key)));
      GenresWellFormed(keys);
      CoherentKept(Genres(keys), Here(), cache.enabled, Around(CacheFacade.Invalidate(key)));
      cache.Remove(key);
    }

    /** Their removal is reported, at any later time. */
    method Hear(notice: Notice)
      requires Valid() && notice in cache.pending
      modifies cache
      ensures Valid() && table == old(table)
    {
      ReportKeepsCoherent(Genres(keys), Here(), notice);
      cache.Deliver(notice);
    }

    /** Another service of the module fills an entry under a key of its own entity. */
    method FillAnother(entity: string, discriminator: string, text: string, tags: seq<string>)
      requires Valid() && ColonFree(entity) && Lowercase(entity) != Lowercase("genre")
      modifies cache
      ensures Valid() && table == old(table)
    {
      var key := keys.Compose(MODULE, entity, VERSION, discriminator).Render();
      GenresWellFormed(keys);
      forall read: GenreRead ensures Genres(keys).render(read) != key {
        OtherEntitiesKeysDiffer(keys, entity, discriminator, read);
      }
      CoherentKept(Genres(keys), Here(), cache.enabled, Around(Put(key, Another(text), tags)));
      cache.Set(key, Another(text), tags);
    }
  }
}
