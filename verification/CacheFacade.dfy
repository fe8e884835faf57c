/**
 The cache facade: a store of entries that may lose any of them at any time and reports each
 loss later, and beside it an index from tags to keys kept up by those late reports.
 */
module CacheFacade {
  /** What a factory, or a read through the cache, comes to. */
  datatype Outcome<V> = Found(value: V) | Missing | Failed

  datatype Entry<V> = Entry(value: V, tags: seq<string>, generation: nat)

  /** The report that an entry left the store, not yet delivered. */
  datatype Notice = Notice(key: string, tags: seq<string>, generation: nat)

  /** Each tag's keys, with the generation of the entry that registered each. */
  type TagIndex = map<string, map<string, nat>>

  datatype Cache<V> = Cache(entries: map<string, Entry<V>>, index: TagIndex, pending: set<Notice>, nextGeneration: nat)

  // ------------------------------------------------------------------
  // The index
  // ------------------------------------------------------------------

  function KeysOf(index: TagIndex, tag: string): map<string, nat> {
    if tag in index then index[tag] else map[]
  }

  function Registered(index: TagIndex, key: string, tags: seq<string>, generation: nat): TagIndex
  {
    map t | t in index.Keys + (set i | 0 <= i < |tags| :: tags[i]) ::
      if t in tags then KeysOf(index, t)[key := generation] else index[t]
  }

  /** `keys` without `key`, unless a newer entry owns its registration. */
  function Released(keys: map<string, nat>, key: string, generation: nat): map<string, nat> {
    if key in keys && keys[key] == generation then keys - {key} else keys
  }

  function Forgotten(index: TagIndex, key: string, tags: seq<string>, generation: nat): TagIndex
  {
    map t | t in index && (t in tags ==> Released(index[t], key, generation) != map[]) ::
      if t in tags then Released(index[t], key, generation) else index[t]
  }

  // ------------------------------------------------------------------
  // The operations
  // ------------------------------------------------------------------

  function NoticeOf<V>(key: string, entry: Entry<V>): Notice {
    Notice(key, entry.tags, entry.generation)
  }

  function Leaving<V>(entries: map<string, Entry<V>>, keys: set<string>): set<Notice> {
    set k | k in entries && k in keys :: NoticeOf(k, entries[k])
  }

  /** Entries leave the store: invalidated, expired or evicted. */
  function Dropped<V>(c: Cache<V>, keys: set<string>): Cache<V> {
    c.(entries := c.entries - keys, pending := c.pending + Leaving(c.entries, keys))
  }

  function Stored<V>(c: Cache<V>, key: string, value: V, tags: seq<string>): Cache<V> {
    Cache(c.entries[key := Entry(value, tags, c.nextGeneration)],
          Registered(c.index, key, tags, c.nextGeneration),
          c.pending + Leaving(c.entries, {key}),
          c.nextGeneration + 1)
  }

  /**
   A read through the cache. `fits` says whether a value has the type the caller reads; a live
   entry of another type is found, and reads as nothing.
   */
  function Fetched<V>(c: Cache<V>, enabled: bool, key: string, factory: Outcome<V>, fits: V -> bool, tags: seq<string>)
    : (Cache<V>, Outcome<V>)
  {
    if !enabled then (c, factory)
    else if key in c.entries then (c, if fits(c.entries[key].value) then Found(c.entries[key].value) else Missing)
    else if factory.Found? then (Stored(c, key, factory.value, tags), factory)
    else (c, factory)
  }

  function RemovedByTag<V>(c: Cache<V>, tag: string): Cache<V> {
    if tag !in c.index then c
    else Dropped(c, c.index[tag].Keys).(index := c.index - {tag})
  }

  function Delivered<V>(c: Cache<V>, notice: Notice): Cache<V> {
    c.(index := Forgotten(c.index, notice.key, notice.tags, notice.generation), pending := c.pending - {notice})
  }

  // ------------------------------------------------------------------
  // The facade, changed in place
  // ------------------------------------------------------------------

  lemma RegisteredAt(index: TagIndex, key: string, tags: seq<string>, generation: nat, t: string)
    ensures t in Registered(index, key, tags, generation) <==> t in index || t in tags
    ensures t in tags ==> Registered(index, key, tags, generation)[t] == KeysOf(index, t)[key := generation]
    ensures t in index && t !in tags ==> Registered(index, key, tags, generation)[t] == index[t]
  {
  }

  lemma RegisteredOneMore(index: TagIndex, key: string, tags: seq<string>, generation: nat, tag: string)
    ensures var r := Registered(index, key, tags, generation);
            Registered(index, key, tags + [tag], generation) == r[tag := KeysOf(r, tag)[key := generation]]
  {
    var r := Registered(index, key, tags, generation);
    var more := Registered(index, key, tags + [tag], generation);
    forall t ensures t in more <==> t in r || t == tag {
      RegisteredAt(index, key, tags, generation, t);
      RegisteredAt(index, key, tags + [tag], generation, t);
    }
    forall t | t in more ensures more[t] == r[tag := KeysOf(r, tag)[key := generation]][t] {
      RegisteredAt(index, key, tags, generation, t);
      RegisteredAt(index, key, tags + [tag], generation, t);
    }
  }

  /** The index lists the key under the tag, for the entry of that generation. */
  ghost predicate Lists(index: TagIndex, tag: string, key: string, generation: nat) {
    tag in index && key in index[tag] && index[tag][key] == generation
  }

  /** Registered: the key is listed under each of the tags at its generation, and all else as before. */
  ghost predicate ListedToo(before: TagIndex, key: string, tags: seq<string>, generation: nat, after: TagIndex) {
    forall t, k, g :: Lists(after, t, k, g) <==>
      if t in tags && k == key then g == generation else Lists(before, t, k, g)
  }

  /** Forgotten: the key is no more listed under the tags at its generation, and all else as before. */
  ghost predicate UnlistedOnly(before: TagIndex, key: string, tags: seq<string>, generation: nat, after: TagIndex) {
    forall t, k, g :: Lists(after, t, k, g) <==>
      Lists(before, t, k, g) && !(t in tags && k == key && g == generation)
  }

  lemma RegisteredLists(index: TagIndex, key: string, tags: seq<string>, generation: nat)
    ensures ListedToo(index, key, tags, generation, Registered(index, key, tags, generation))
  {
    var after := Registered(index, key, tags, generation);
    forall t, k, g
      ensures Lists(after, t, k, g) <==> if t in tags && k == key then g == generation else Lists(index, t, k, g)
    {
      RegisteredAt(index, key, tags, generation, t);
    }
  }

  lemma ForgottenLists(index: TagIndex, key: string, tags: seq<string>, generation: nat)
    ensures UnlistedOnly(index, key, tags, generation, Forgotten(index, key, tags, generation))
  {
    var after := Forgotten(index, key, tags, generation);
    forall t, k, g
      ensures Lists(after, t, k, g) <==> Lists(index, t, k, g) && !(t in tags && k == key && g == generation)
    {
      if t in index && t in tags && k in Released(index[t], key, generation) {
        assert Released(index[t], key, generation) != map[];
      }
    }
  }

  method RegisterTags(index: TagIndex, key: string, tags: seq<string>, generation: nat) returns (r: TagIndex)
    ensures r == Registered(index, key, tags, generation)
    ensures ListedToo(index, key, tags, generation, r)
  {
    RegisteredLists(index, key, tags, generation);
    r := index;
    for i := 0 to |tags|
      invariant r == Registered(index, key, tags[..i], generation)
    {
      assert tags[..i + 1] == tags[..i] + [tags[i]];
      RegisteredOneMore(index, key, tags[..i], generation, tags[i]);
      r := r[tags[i] := KeysOf(r, tags[i])[key := generation]];
    }
    assert tags[..|tags|] == tags;
  }

  method ForgetTags(index: TagIndex, key: string, tags: seq<string>, generation: nat) returns (r: TagIndex)
    ensures r == Forgotten(index, key, tags, generation)
    ensures UnlistedOnly(index, key, tags, generation, r)
  {
    ForgottenLists(index, key, tags, generation);
    r := index;
    for i := 0 to |tags|
      invariant r == Forgotten(index, key, tags[..i], generation)
    {
      assert tags[..i + 1] == tags[..i] + [tags[i]];
      if tags[i] in r {
        var keys := r[tags[i]];
        if key in keys && keys[key] == generation {
          keys := keys - {key};
        }
        if keys == map[] {
          r := r - {tags[i]};
        } else {
          r := r[tags[i] := keys];
        }
      }
    }
    assert tags[..|tags|] == tags;
  }

  /** The answer to a read: the factory's when the cache is off or has no entry, and the entry's otherwise. */
  ghost predicate Reads<V>(
    c: Cache<V>, enabled: bool, key: string, factory: Outcome<V>, fits: V -> bool, r: Outcome<V>)
  {
    if enabled && key in c.entries then
      var value := c.entries[key].value;
      if fits(value) then r == Found(value) else r == Missing
    else r == factory
  }

  /** A read that puts an entry in: the cache is on and has none, and the factory found a value. */
  predicate Fills<V>(c: Cache<V>, enabled: bool, key: string, factory: Outcome<V>) {
    enabled && key !in c.entries && factory.Found?
  }

  /** After: the key has the value, listed under its tags alone as the newest, and every other key what it had. */
  ghost predicate Holds<V>(before: Cache<V>, key: string, value: V, tags: seq<string>, after: Cache<V>)
  {
    && key in after.entries && after.entries[key].value == value && after.entries[key].tags == tags
    && after.entries[key].generation == before.nextGeneration && after.nextGeneration == before.nextGeneration + 1
    && (forall k :: k != key ==> (k in after.entries <==> k in before.entries))
    && (forall k :: k != key && k in before.entries ==> after.entries[k] == before.entries[k])
    && ListedToo(before.index, key, tags, before.nextGeneration, after.index)
    && (forall n :: n in after.pending <==> n in before.pending || Reporting(before, key, n))
  }

  /** The report of the entry live under the key. */
  ghost predicate Reporting<V>(c: Cache<V>, key: string, n: Notice) {
    key in c.entries && n == Notice(key, c.entries[key].tags, c.entries[key].generation)
  }

  /** The entries under the keys are gone, each with a report to come, and the others are as they were. */
  ghost predicate LeftWithReports<V>(before: Cache<V>, keys: set<string>, after: Cache<V>)
  {
    && (forall k :: k in after.entries <==> k in before.entries && k !in keys)
    && (forall k :: k in after.entries ==> after.entries[k] == before.entries[k])
    && (forall n :: n in after.pending <==> n in before.pending || (n.key in keys && Reporting(before, n.key, n)))
  }

  lemma StoredHolds<V>(c: Cache<V>, key: string, value: V, tags: seq<string>)
    ensures Holds(c, key, value, tags, Stored(c, key, value, tags))
  {
    RegisteredLists(c.index, key, tags, c.nextGeneration);
    var s := Stored(c, key, value, tags);
    forall n ensures n in s.pending <==> n in c.pending || Reporting(c, key, n) {
      if Reporting(c, key, n) {
        assert n == NoticeOf(key, c.entries[key]);
      }
    }
  }

  lemma DroppedLeaves<V>(c: Cache<V>, keys: set<string>)
    ensures LeftWithReports(c, keys, Dropped(c, keys))
  {
    var d := Dropped(c, keys);
    forall n ensures n in d.pending <==> n in c.pending || (n.key in keys && Reporting(c, n.key, n)) {
      if n.key in keys && Reporting(c, n.key, n) {
        assert n == NoticeOf(n.key, c.entries[n.key]);
      }
    }
  }

  class Facade<V> {
    const enabled: bool
    var entries: map<string, Entry<V>>
    var index: TagIndex
    ghost var pending: set<Notice>
    var nextGeneration: nat

    constructor (enabled: bool)
      ensures this.enabled == enabled && State() == Cache(map[], map[], {}, 1)
    {
      this.enabled := enabled;
      entries, index, pending, nextGeneration := map[], map[], {}, 1;
    }

    ghost function State(): Cache<V>
      reads this
    {
      Cache(entries, index, pending, nextGeneration)
    }

    /** What is live under the key, or else what the factory finds, which is then live. */
    method TryGetOrAdd(key: string, factory: Outcome<V>, fits: V -> bool, tags: seq<string>) returns (r: Outcome<V>)
      modifies this
      ensures (State(), r) == Fetched(old(State()), enabled, key, factory, fits, tags)
      ensures Reads(old(State()), enabled, key, factory, fits, r)
      ensures if Fills(old(State()), enabled, key, factory)
              then Holds(old(State()), key, factory.value, tags, State()) else State() == old(State())
    {
      if !enabled {
        return factory;
      }
      if key in entries {
        return if fits(entries[key].value) then Found(entries[key].value) else Missing;
      }
      if factory.Found? {
        StoredHolds(State(), key, factory.value, tags);
        var generation := nextGeneration;
        nextGeneration := nextGeneration + 1;
        index := RegisterTags(index, key, tags, generation);
        assert pending + Leaving(entries, {key}) == pending;
        entries := entries[key := Entry(factory.value, tags, generation)];
      }
      r := factory;
    }

    method Set(key: string, value: V, tags: seq<string>)
      modifies this
      ensures State() == if enabled then Stored(old(State()), key, value, tags) else old(State())
      ensures enabled ==> Holds(old(State()), key, value, tags, State())
    {
      if !enabled {
        return;
      }
      StoredHolds(State(), key, value, tags);
      var generation := nextGeneration;
      nextGeneration := nextGeneration + 1;
      index := RegisterTags(index, key, tags, generation);
      pending := pending + Leaving(entries, {key});
      entries := entries[key := Entry(value, tags, generation)];
    }

    /** Drops one entry. */
    method Remove(key: string)
      modifies this`entries, this`pending
      ensures State() == Dropped(old(State()), {key})
      ensures LeftWithReports(old(State()), {key}, State())
    {
      DroppedLeaves(State(), {key});
      pending := pending + Leaving(entries, {key});
      entries := entries - {key};
    }

    /** Drops every entry the index knows under `tag`. */
    method RemoveByTag(tag: string)
      modifies this`entries, this`pending, this`index
      ensures State() == RemovedByTag(old(State()), tag)
      ensures index == old(index) - {tag}
      ensures LeftWithReports(old(State()), (if tag in old(index) then old(index)[tag].Keys else {}), State())
    {
      if tag !in index {
        return;
      }
      var keys := index[tag];
      DroppedLeaves(State(), keys.Keys);
      index := index - {tag};
      var left := keys.Keys;
      while left != {}
        invariant left <= keys.Keys && index == old(index) - {tag}
        invariant entries == old(entries) - (keys.Keys - left)
        invariant pending == old(pending) + Leaving(old(entries), keys.Keys - left)
        decreases left
      {
        var key :| key in left;
        ghost var reached := keys.Keys - left;
        left := left - {key};
        assert keys.Keys - left == reached + {key};
        assert old(entries) - (reached + {key}) == old(entries) - reached - {key};
        assert Leaving(old(entries), reached + {key})
            == Leaving(old(entries), reached) + Leaving(old(entries) - reached, {key});
        Remove(key);
      }
      assert keys.Keys - left == keys.Keys;
    }

    /** The listener, run on one of the reports. */
    method Deliver(notice: Notice)
      requires notice in pending
      modifies this`index, this`pending
      ensures State() == Delivered(old(State()), notice)
      ensures UnlistedOnly(old(index), notice.key, notice.tags, notice.generation, index)
    {
      index := ForgetTags(index, notice.key, notice.tags, notice.generation);
      pending := pending - {notice};
    }
  }

  // ------------------------------------------------------------------
  // What the index always is
  // ------------------------------------------------------------------

  /** Every live entry is registered under all its tags at its own generation. */
  ghost predicate LiveRegistered<V>(c: Cache<V>)
  {
    forall k, t :: k in c.entries && t in c.entries[k].tags ==>
      t in c.index && k in c.index[t] && c.index[t][k] == c.entries[k].generation
  }

  ghost predicate OwnedLive<V>(c: Cache<V>, tag: string, key: string, generation: nat) {
    key in c.entries && tag in c.entries[key].tags && generation == c.entries[key].generation
  }

  ghost predicate OwnedPending<V>(c: Cache<V>, tag: string, key: string, generation: nat) {
    exists n :: n in c.pending && n.key == key && n.generation == generation && tag in n.tags
  }

  /** Every registration is a live entry's, or an entry's whose removal is still to be reported. */
  ghost predicate EveryRegistrationOwned<V>(c: Cache<V>)
  {
    forall t, k :: t in c.index && k in c.index[t] ==>
      OwnedLive(c, t, k, c.index[t][k]) || OwnedPending(c, t, k, c.index[t][k])
  }

  ghost predicate NoEmptyTag<V>(c: Cache<V>) {
    forall t :: t in c.index ==> c.index[t] != map[]
  }

  /** An entry is newer than every removed one of its key. */
  ghost predicate GenerationsOrdered<V>(c: Cache<V>)
  {
    && (forall k :: k in c.entries ==> c.entries[k].generation < c.nextGeneration)
    && (forall n :: n in c.pending ==> n.generation < c.nextGeneration)
    && (forall n :: n in c.pending && n.key in c.entries ==> n.generation < c.entries[n.key].generation)
  }

  ghost predicate Indexed<V>(c: Cache<V>) {
    LiveRegistered(c) && EveryRegistrationOwned(c) && NoEmptyTag(c) && GenerationsOrdered(c)
  }

  lemma DroppedKeepsIndexed<V>(c: Cache<V>, keys: set<string>)
    requires Indexed(c)
    ensures Indexed(Dropped(c, keys))
  {
    var d := Dropped(c, keys);
    forall t, k | t in d.index && k in d.index[t]
      ensures OwnedLive(d, t, k, d.index[t][k]) || OwnedPending(d, t, k, d.index[t][k])
    {
      if OwnedLive(c, t, k, c.index[t][k]) && k in keys {
        assert NoticeOf(k, c.entries[k]) in d.pending;
      }
    }
  }

  lemma StoredOwned<V>(c: Cache<V>, key: string, value: V, tags: seq<string>, t: string, k: string)
    requires Indexed(c) && t in Stored(c, key, value, tags).index && k in Stored(c, key, value, tags).index[t]
    ensures var s := Stored(c, key, value, tags);
            OwnedLive(s, t, k, s.index[t][k]) || OwnedPending(s, t, k, s.index[t][k])
  {
    var s := Stored(c, key, value, tags);
    RegisteredAt(c.index, key, tags, c.nextGeneration, t);
    if !(t in tags && k == key) {
      assert t in c.index && k in c.index[t] && s.index[t][k] == c.index[t][k];
      if OwnedLive(c, t, k, c.index[t][k]) && k == key {
        assert NoticeOf(k, c.entries[k]) in s.pending;
      }
    }
  }

  lemma StoredKeepsIndexed<V>(c: Cache<V>, key: string, value: V, tags: seq<string>)
    requires Indexed(c)
    ensures Indexed(Stored(c, key, value, tags))
  {
    var s := Stored(c, key, value, tags);
    forall t ensures t in s.index <==> t in c.index || t in tags {
      RegisteredAt(c.index, key, tags, c.nextGeneration, t);
    }
    forall t, k | t in s.index && k in s.index[t]
      ensures OwnedLive(s, t, k, s.index[t][k]) || OwnedPending(s, t, k, s.index[t][k])
    {
      StoredOwned(c, key, value, tags, t, k);
    }
    assert NoEmptyTag(s) by {
      forall t | t in s.index ensures s.index[t] != map[] {
        RegisteredAt(c.index, key, tags, c.nextGeneration, t);
        if t in tags {
          assert key in s.index[t];
        }
      }
    }
  }

  lemma RemovedByTagKeepsIndexed<V>(c: Cache<V>, tag: string)
    requires Indexed(c)
    ensures Indexed(RemovedByTag(c, tag))
  {
    if tag in c.index {
      DroppedKeepsIndexed(c, c.index[tag].Keys);
      UnlistedKeepsIndexed(Dropped(c, c.index[tag].Keys), tag);
    }
  }

  /** A tag none of whose keys is live any more can be dropped from the index. */
  lemma UnlistedKeepsIndexed<V>(d: Cache<V>, tag: string)
    requires Indexed(d) && tag in d.index && forall k :: k in d.index[tag] ==> k !in d.entries
    ensures Indexed(d.(index := d.index - {tag}))
  {
    var r := d.(index := d.index - {tag});
    forall t, k | t in r.index && k in r.index[t]
      ensures OwnedLive(r, t, k, r.index[t][k]) || OwnedPending(r, t, k, r.index[t][k])
    {
      assert OwnedLive(d, t, k, d.index[t][k]) || OwnedPending(d, t, k, d.index[t][k]);
    }
    forall k, t | k in r.entries && t in r.entries[k].tags
      ensures t in r.index && k in r.index[t] && r.index[t][k] == r.entries[k].generation
    {
      assert k in d.index[t];
    }
  }

  lemma DeliveredOwned<V>(c: Cache<V>, n: Notice, t: string, k: string)
    requires Indexed(c) && n in c.pending && t in Delivered(c, n).index && k in Delivered(c, n).index[t]
    ensures var d := Delivered(c, n);
            OwnedLive(d, t, k, d.index[t][k]) || OwnedPending(d, t, k, d.index[t][k])
  {
    var d := Delivered(c, n);
    assert t in c.index && k in c.index[t] && d.index[t][k] == c.index[t][k];
    if OwnedPending(c, t, k, c.index[t][k]) {
      var m :| m in c.pending && m.key == k && m.generation == c.index[t][k] && t in m.tags;
      assert m.generation == n.generation && k == n.key ==> t !in n.tags;
      assert m in d.pending;
    }
  }

  lemma DeliveredKeepsIndexed<V>(c: Cache<V>, n: Notice)
    requires Indexed(c) && n in c.pending
    ensures Indexed(Delivered(c, n))
  {
    var d := Delivered(c, n);
    forall t, k | t in d.index && k in d.index[t]
      ensures OwnedLive(d, t, k, d.index[t][k]) || OwnedPending(d, t, k, d.index[t][k])
    {
      DeliveredOwned(c, n, t, k);
    }
    forall k, t | k in d.entries && t in d.entries[k].tags
      ensures t in d.index && k in d.index[t] && d.index[t][k] == d.entries[k].generation
    {
      assert k in c.index[t] && c.index[t][k] == c.entries[k].generation;
      assert k in Released(c.index[t], n.key, n.generation);
    }
  }

  /** No live entry carries the tag afterwards. */
  lemma RemoveByTagReachesAll<V>(c: Cache<V>, tag: string)
    requires Indexed(c)
    ensures forall k :: k in RemovedByTag(c, tag).entries ==> tag !in RemovedByTag(c, tag).entries[k].tags
  {
  }

  /** The index as the live entries alone would make it. */
  ghost predicate ExactlyLive<V>(c: Cache<V>)
  {
    && (forall t :: t in c.index <==> exists k :: k in c.entries && t in c.entries[k].tags)
    && (forall t, k :: t in c.index ==> (k in c.index[t] <==> k in c.entries && t in c.entries[k].tags))
    && (forall t, k :: t in c.index && k in c.index[t] ==> c.index[t][k] == c.entries[k].generation)
  }

  lemma AnyKey(m: map<string, nat>) returns (k: string)
    requires m != map[]
    ensures k in m
  {
    assert m.Keys != {};
    k :| k in m.Keys;
  }

  /** With every report delivered, the index holds the live entries' registrations and nothing else. */
  lemma SettledIndexIsExact<V>(c: Cache<V>)
    requires Indexed(c) && c.pending == {}
    ensures ExactlyLive(c)
  {
    forall t, k | t in c.index && k in c.index[t] ensures OwnedLive(c, t, k, c.index[t][k]) {
    }
    forall t | t in c.index ensures exists k :: k in c.entries && t in c.entries[k].tags {
      var k := AnyKey(c.index[t]);
      assert OwnedLive(c, t, k, c.index[t][k]);
    }
  }

  /** Then removing by tag drops the entries carrying it and no others. */
  lemma SettledRemovalIsExact<V>(c: Cache<V>, tag: string, key: string)
    requires Indexed(c) && c.pending == {} && key in c.entries
    ensures key in RemovedByTag(c, tag).entries <==> tag !in c.entries[key].tags
  {
    SettledIndexIsExact(c);
  }

  // ------------------------------------------------------------------
  // Over whole runs
  // ------------------------------------------------------------------

  datatype Step<!V> =
    | Fetch(key: string, factory: Outcome<V>, fits: V -> bool, tags: seq<string>)
    | Put(key: string, value: V, tags: seq<string>)
    | Invalidate(key: string)
    | InvalidateTag(tag: string)
    | Lose(keys: set<string>)
    | Report(notice: Notice)
    | OtherCaches(generations: nat)

  predicate Enabled<V>(c: Cache<V>, step: Step<V>) {
    step.Report? ==> step.notice in c.pending
  }

  function Next<V>(c: Cache<V>, enabled: bool, step: Step<V>): Cache<V>
    requires Enabled(c, step)
  {
    match step
    case Fetch(key, factory, fits, tags) => Fetched(c, enabled, key, factory, fits, tags).0
    case Put(key, value, tags) => if enabled then Stored(c, key, value, tags) else c
    case Invalidate(key) => Dropped(c, {key})
    case InvalidateTag(tag) => RemovedByTag(c, tag)
    case Lose(keys) => Dropped(c, keys)
    case Report(notice) => Delivered(c, notice)
    case OtherCaches(generations) => c.(nextGeneration := c.nextGeneration + generations)
  }

  predicate Legal<V>(c: Cache<V>, enabled: bool, steps: seq<Step<V>>)
    decreases |steps|
  {
    steps == [] || (Enabled(c, steps[0]) && Legal(Next(c, enabled, steps[0]), enabled, steps[1..]))
  }

  function Run<V>(c: Cache<V>, enabled: bool, steps: seq<Step<V>>): Cache<V>
    requires Legal(c, enabled, steps)
    decreases |steps|
  {
    if steps == [] then c else Run(Next(c, enabled, steps[0]), enabled, steps[1..])
  }

  lemma IndexedKept<V>(c: Cache<V>, enabled: bool, step: Step<V>)
    requires Indexed(c) && Enabled(c, step)
    ensures Indexed(Next(c, enabled, step))
  {
    match step
    case Fetch(key, factory, _, tags) =>
      if factory.Found? {
        StoredKeepsIndexed(c, key, factory.value, tags);
      }
    case Put(key, value, tags) => StoredKeepsIndexed(c, key, value, tags);
    case Invalidate(key) => DroppedKeepsIndexed(c, {key});
    case InvalidateTag(tag) => RemovedByTagKeepsIndexed(c, tag);
    case Lose(keys) => DroppedKeepsIndexed(c, keys);
    case Report(notice) => DeliveredKeepsIndexed(c, notice);
    case OtherCaches(generations) =>
      var d := Next(c, enabled, step);
      forall t, k | t in d.index && k in d.index[t]
        ensures OwnedLive(d, t, k, d.index[t][k]) || OwnedPending(d, t, k, d.index[t][k])
      {
        assert OwnedLive(c, t, k, c.index[t][k]) || OwnedPending(c, t, k, c.index[t][k]);
      }
  }

  /** Over every run, with entries lost and reported at any time and in any order. */
  lemma {:induction false} IndexedAlways<V>(enabled: bool, c: Cache<V>, steps: seq<Step<V>>)
    requires Indexed(c) && Legal(c, enabled, steps)
    ensures Indexed(Run(c, enabled, steps))
    decreases |steps|
  {
    if steps != [] {
      IndexedKept(c, enabled, steps[0]);
      IndexedAlways(enabled, Next(c, enabled, steps[0]), steps[1..]);
    }
  }

  /**
   From an empty cache, after any run: removing by tag leaves no live entry with the tag; and
   once every report has been delivered, the index is exactly the live entries' registrations,
   and removing by tag drops the entries carrying the tag and no others.
   */
  lemma RemovalAfterAnyRun<V>(enabled: bool, steps: seq<Step<V>>, tag: string)
    requires Legal(Cache(map[], map[], {}, 1), enabled, steps)
    ensures var c := Run(Cache(map[], map[], {}, 1), enabled, steps);
            && (forall k :: k in RemovedByTag(c, tag).entries ==> tag !in RemovedByTag(c, tag).entries[k].tags)
            && (c.pending == {} ==>
                  && ExactlyLive(c)
                  && (forall k :: k in c.entries ==>
                     (k in RemovedByTag(c, tag).entries <==> tag !in c.entries[k].tags)))
  {
    var empty: Cache<V> := Cache(map[], map[], {}, 1);
    IndexedAlways(enabled, empty, steps);
    var c := Run(empty, enabled, steps);
    RemoveByTagReachesAll(c, tag);
    if c.pending == {} {
      SettledIndexIsExact(c);
      forall k | k in c.entries ensures k in RemovedByTag(c, tag).entries <==> tag !in c.entries[k].tags {
        SettledRemovalIsExact(c, tag, k);
      }
    }
  }

  // ------------------------------------------------------------------
  // What was put in is read, until it is taken out
  // ------------------------------------------------------------------

  /** The step takes nothing from under the key: it neither overwrites, removes nor loses it. */
  predicate Spares<V>(c: Cache<V>, key: string, step: Step<V>)
  {
    match step
    case Put(k, _, _) => k != key
    case Invalidate(k) => k != key
    case InvalidateTag(tag) => !(tag in c.index && key in c.index[tag])
    case Lose(keys) => key !in keys
    case _ => true
  }

  predicate AllSpare<V>(c: Cache<V>, enabled: bool, key: string, steps: seq<Step<V>>)
    requires Legal(c, enabled, steps)
    decreases |steps|
  {
    steps == [] || (Spares(c, key, steps[0]) && AllSpare(Next(c, enabled, steps[0]), enabled, key, steps[1..]))
  }

  lemma {:induction false} EntryStays<V>(enabled: bool, c: Cache<V>, key: string, steps: seq<Step<V>>)
    requires key in c.entries && Legal(c, enabled, steps) && AllSpare(c, enabled, key, steps)
    ensures key in Run(c, enabled, steps).entries && Run(c, enabled, steps).entries[key] == c.entries[key]
    decreases |steps|
  {
    if steps != [] {
      EntryStays(enabled, Next(c, enabled, steps[0]), key, steps[1..]);
    }
  }

  /** The cache once it is on and has taken the step, and then others. */
  ghost predicate After<V>(c: Cache<V>, step: Step<V>, key: string, steps: seq<Step<V>>, later: Cache<V>)
  {
    && Legal(c, true, [step])
    && var next := Run(c, true, [step]);
       Legal(next, true, steps) && AllSpare(next, true, key, steps) && later == Run(next, true, steps)
  }

  /** A value set is what every later read answers, whatever its factory, until something takes it out. */
  lemma SetIsRead<V>(
    c: Cache<V>, key: string, value: V, tags: seq<string>, steps: seq<Step<V>>, later: Cache<V>,
    factory: Outcome<V>, fits: V -> bool, r: Outcome<V>)
    requires After(c, Put(key, value, tags), key, steps, later)
    ensures Reads(later, true, key, factory, fits, r) <==> r == if fits(value) then Found(value) else Missing
  {
    OneStep(c, Put(key, value, tags));
    StoredHolds(c, key, value, tags);
    EntryStays(true, Run(c, true, [Put(key, value, tags)]), key, steps);
  }

  /** And so is a value that a read's factory found when there was none. */
  lemma FillIsRead<V>(
    c: Cache<V>, key: string, value: V, had: V -> bool, tags: seq<string>, steps: seq<Step<V>>, later: Cache<V>,
    factory: Outcome<V>, fits: V -> bool, r: Outcome<V>)
    requires key !in c.entries && After(c, Fetch(key, Found(value), had, tags), key, steps, later)
    ensures Reads(later, true, key, factory, fits, r) <==> r == if fits(value) then Found(value) else Missing
  {
    OneStep(c, Fetch(key, Found(value), had, tags));
    StoredHolds(c, key, value, tags);
    EntryStays(true, Run(c, true, [Fetch(key, Found(value), had, tags)]), key, steps);
  }

  lemma OneStep<V>(c: Cache<V>, step: Step<V>)
    requires Enabled(c, step)
    ensures Legal(c, true, [step]) && Run(c, true, [step]) == Next(c, true, step)
  {
    assert [step][1..] == [];
    assert Legal(Next(c, true, step), true, []);
  }
}
