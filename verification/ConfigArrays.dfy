/** Index-keyed maps read as arrays. */
module ConfigArrays {
  import opened Options
  import opened FiniteSets
  import opened Text
  import opened ConfigTree


  // ------------------------------------------------------------------
  // Counting indices
  // ------------------------------------------------------------------

  ghost function Indices(keys: set<string>): set<nat> {
    set k | k in keys && ParseIndex(k).Some? :: ParseIndex(k).value
  }

  ghost predicate AllIndices(keys: set<string>) {
    forall k :: k in keys ==> ParseIndex(k).Some?
  }

  ghost predicate OneKeyEach(keys: set<string>) {
    forall j, k :: j in keys && k in keys && ParseIndex(j) == ParseIndex(k) ==> j == k
  }

  lemma IndicesWithout(keys: set<string>, k: string)
    requires k in keys && AllIndices(keys)
    ensures Indices(keys) == Indices(keys - {k}) + {ParseIndex(k).value}
  {
    assert keys == (keys - {k}) + {k};
  }

  lemma {:induction false} IndicesAtMost(keys: set<string>)
    requires AllIndices(keys)
    ensures |Indices(keys)| <= |keys|
    decreases |keys|
  {
    if keys != {} {
      var k :| k in keys;
      IndicesWithout(keys, k);
      IndicesAtMost(keys - {k});
    }
  }

  lemma {:induction false} DistinctIndicesCount(keys: set<string>)
    requires AllIndices(keys) && OneKeyEach(keys)
    ensures |Indices(keys)| == |keys|
    decreases |keys|
  {
    if keys != {} {
      var k :| k in keys;
      IndicesWithout(keys, k);
      DistinctIndicesCount(keys - {k});
      assert ParseIndex(k).value !in Indices(keys - {k});
    }
  }

  lemma CountMakesDistinct(keys: set<string>)
    requires AllIndices(keys) && |Indices(keys)| == |keys|
    ensures OneKeyEach(keys)
  {
    forall j, k | j in keys && k in keys && ParseIndex(j) == ParseIndex(k) ensures j == k {
      if j != k {
        IndicesWithout(keys, k);
        assert ParseIndex(k).value in Indices(keys - {k}) by {
          assert j in keys - {k};
        }
        assert Indices(keys) == Indices(keys - {k});
        IndicesAtMost(keys - {k});
      }
    }
  }

  ghost function Below(n: nat): (r: set<nat>)
    ensures |r| == n && forall i: nat :: i in r <==> i < n
  {
    if n == 0 then {} else Below(n - 1) + {n - 1}
  }

  // ------------------------------------------------------------------
  // A map read as `0..n`
  // ------------------------------------------------------------------

  /** The keys are the indices below the map's size, each once. */
  ghost predicate Dense(m: Members)
  {
    && m != map[]
    && (forall k :: k in m ==> ParseIndex(k).Some? && ParseIndex(k).value < |m|)
    && OneKeyEach(m.Keys)
  }

  lemma DenseHitsAll(m: Members, i: nat)
    requires Dense(m) && i < |m|
    ensures exists k :: k in m && ParseIndex(k) == Some(i)
  {
    DistinctIndicesCount(m.Keys);
    SameSize(Indices(m.Keys), Below(|m|));
    assert i in Below(|m|);
  }

  lemma HitAllMakesDense(m: Members)
    requires m != map[] && AllIndices(m.Keys)
    requires forall i :: 0 <= i < |m| ==> i in Indices(m.Keys)
    ensures Dense(m)
  {
    IndicesAtMost(m.Keys);
    assert Below(|m|) <= Indices(m.Keys);
    SubsetSize(Below(|m|), Indices(m.Keys));
    SameSize(Below(|m|), Indices(m.Keys));
    CountMakesDistinct(m.Keys);
    forall k | k in m ensures ParseIndex(k).value < |m| {
      assert ParseIndex(k).value in Indices(m.Keys);
    }
  }

  /** There are keys, each reads as an index below their number, and each such index is some key's. */
  ghost predicate NamesEveryIndex(keys: set<string>)
  {
    && keys != {}
    && (forall k :: k in keys ==> ParseIndex(k).Some? && ParseIndex(k).value < |keys|)
    && (forall i :: 0 <= i < |keys| ==> HasKey(keys, i))
  }

  ghost predicate HasKey(keys: set<string>, i: nat) {
    exists k :: k in keys && ParseIndex(k) == Some(i)
  }

  lemma DenseMeans(m: Members)
    ensures Dense(m) <==> NamesEveryIndex(m.Keys)
  {
    assert |m.Keys| == |m|;
    if Dense(m) {
      forall i: nat | i < |m| ensures HasKey(m.Keys, i) {
        DenseHitsAll(m, i);
      }
    }
    if NamesEveryIndex(m.Keys) {
      forall i: nat | i < |m| ensures i in Indices(m.Keys) {
        assert HasKey(m.Keys, i);
      }
      HitAllMakesDense(m);
    }
  }

  ghost function KeyAt(m: Members, i: nat): (k: string)
    requires Dense(m) && i < |m|
    ensures k in m && ParseIndex(k) == Some(i)
  {
    DenseHitsAll(m, i);
    var k :| k in m && ParseIndex(k) == Some(i);
    k
  }

  ghost function IndexSequence(m: Members): Option<seq<Value>> {
    if Dense(m) then Some(seq(|m|, i requires 0 <= i < |m| => m[KeyAt(m, i)])) else None
  }

  /** The sequence has each member at its key's index. */
  lemma ElementsOfSequence(m: Members)
    requires IndexSequence(m).Some?
    ensures |IndexSequence(m).value| == |m|
    ensures forall k :: k in m ==> ParseIndex(k).Some? && ParseIndex(k).value < |m|
                                   && IndexSequence(m).value[ParseIndex(k).value] == m[k]
  {
    forall k | k in m ensures IndexSequence(m).value[ParseIndex(k).value] == m[k] {
      assert KeyAt(m, ParseIndex(k).value) == k;
    }
  }

  // ------------------------------------------------------------------
  // The same by sorting
  // ------------------------------------------------------------------

  type Indexed = (nat, Value)

  ghost predicate Ascending(s: seq<Indexed>) {
    forall i, j :: 0 <= i < j < |s| ==> s[i].0 <= s[j].0
  }

  function Placed(s: seq<Indexed>, x: Indexed): seq<Indexed> {
    if s == [] then [x] else if x.0 < s[0].0 then [x] + s else [s[0]] + Placed(s[1..], x)
  }

  function SortByIndex(s: seq<Indexed>): seq<Indexed> {
    if s == [] then [] else Placed(SortByIndex(s[..|s| - 1]), s[|s| - 1])
  }

  lemma {:induction false} PlacedHolds(s: seq<Indexed>, x: Indexed)
    ensures multiset(Placed(s, x)) == multiset(s) + multiset{x}
  {
    if s != [] && x.0 >= s[0].0 {
      PlacedHolds(s[1..], x);
      assert s == [s[0]] + s[1..];
    }
  }

  lemma {:induction false} PlacedAscends(s: seq<Indexed>, x: Indexed)
    requires Ascending(s)
    ensures Ascending(Placed(s, x))
  {
    if s != [] && x.0 >= s[0].0 {
      PlacedAscends(s[1..], x);
      PlacedHolds(s[1..], x);
      var rest := Placed(s[1..], x);
      forall i | 0 <= i < |rest| ensures s[0].0 <= rest[i].0 {
        assert rest[i] in multiset(rest);
        assert rest[i] in multiset(s[1..]) || rest[i] == x;
      }
    }
  }

  lemma {:induction false} SortHolds(s: seq<Indexed>)
    ensures Ascending(SortByIndex(s)) && multiset(SortByIndex(s)) == multiset(s)
  {
    if s != [] {
      SortHolds(s[..|s| - 1]);
      PlacedHolds(SortByIndex(s[..|s| - 1]), s[|s| - 1]);
      PlacedAscends(SortByIndex(s[..|s| - 1]), s[|s| - 1]);
      assert s == s[..|s| - 1] + [s[|s| - 1]];
    }
  }

  ghost predicate Occurs(s: seq<Indexed>, i: nat) {
    exists j :: 0 <= j < |s| && s[j].0 == i
  }

  lemma {:induction false} AscendingRun(s: seq<Indexed>)
    requires Ascending(s) && forall i :: 0 <= i < |s| ==> Occurs(s, i)
    ensures forall i :: 0 <= i < |s| ==> s[i].0 == i
  {
    if s != [] {
      var n := |s| - 1;
      assert Occurs(s, n);
      assert s[n].0 >= n;
      forall i | 0 <= i < n ensures Occurs(s[..n], i) {
        assert Occurs(s, i);
        var j :| 0 <= j < |s| && s[j].0 == i;
        assert s[..n][j].0 == i;
      }
      AscendingRun(s[..n]);
      assert forall i :: 0 <= i < n ==> s[i] == s[..n][i];
    }
  }

  predicate InPosition(s: seq<Indexed>) {
    forall i :: 0 <= i < |s| ==> s[i].0 == i
  }

  function Values(s: seq<Indexed>): seq<Value> {
    seq(|s|, i requires 0 <= i < |s| => s[i].1)
  }

  ghost predicate PairOf(x: Indexed, m: Members, k: string) {
    k in m && ParseIndex(k) == Some(x.0) && m[k] == x.1
  }

  ghost predicate PairOfSome(x: Indexed, m: Members, keys: set<string>) {
    exists k :: k in keys && PairOf(x, m, k)
  }

  /** `indexed` lists the map, one pair a key. */
  ghost predicate Lists(indexed: seq<Indexed>, m: Members, keys: set<string>)
  {
    && |indexed| == |keys|
    && (forall x :: x in indexed ==> PairOfSome(x, m, keys))
    && (forall k :: k in keys ==> k in m && ParseIndex(k).Some? && (ParseIndex(k).value, m[k]) in indexed)
  }

  lemma SortedLists(indexed: seq<Indexed>, m: Members)
    requires Lists(indexed, m, m.Keys)
    ensures Lists(SortByIndex(indexed), m, m.Keys) && Ascending(SortByIndex(indexed))
  {
    SortHolds(indexed);
    var sorted := SortByIndex(indexed);
    assert |sorted| == |multiset(sorted)| == |indexed|;
    forall x ensures x in sorted <==> x in indexed {
      assert x in multiset(sorted) <==> x in multiset(indexed);
    }
  }

  lemma PositionsAreDense(sorted: seq<Indexed>, m: Members)
    requires m != map[] && Lists(sorted, m, m.Keys) && InPosition(sorted)
    ensures Dense(m)
  {
    forall i: nat | i < |m| ensures i in Indices(m.Keys) {
      assert sorted[i] in sorted;
    }
    HitAllMakesDense(m);
  }

  lemma PositionIsValue(sorted: seq<Indexed>, m: Members, i: nat)
    requires Dense(m) && Lists(sorted, m, m.Keys) && InPosition(sorted) && i < |m|
    ensures |sorted| == |m| && sorted[i].1 == m[KeyAt(m, i)]
  {
    assert sorted[i] in sorted;
  }

  lemma SameValues(sorted: seq<Indexed>, m: Members)
    requires Dense(m) && |sorted| == |m| && forall i :: 0 <= i < |m| ==> sorted[i].1 == m[KeyAt(m, i)]
    ensures IndexSequence(m) == Some(Values(sorted))
  {
    assert Values(sorted) == IndexSequence(m).value;
  }

  lemma PositionsAreValues(sorted: seq<Indexed>, m: Members)
    requires Dense(m) && Lists(sorted, m, m.Keys) && InPosition(sorted)
    ensures IndexSequence(m) == Some(Values(sorted))
  {
    forall i: nat | i < |m| ensures |sorted| == |m| && sorted[i].1 == m[KeyAt(m, i)] {
      PositionIsValue(sorted, m, i);
    }
    SameValues(sorted, m);
  }

  lemma DenseMakesPositions(sorted: seq<Indexed>, m: Members)
    requires Dense(m) && Lists(sorted, m, m.Keys) && Ascending(sorted)
    ensures InPosition(sorted)
  {
    forall i | 0 <= i < |sorted| ensures Occurs(sorted, i) {
      var k := KeyAt(m, i);
      assert (i, m[k]) in sorted;
    }
    AscendingRun(sorted);
  }

  lemma ListsOneMore(indexed: seq<Indexed>, m: Members, keys: set<string>, key: string)
    requires Lists(indexed, m, keys) && key in m && key !in keys && ParseIndex(key).Some?
    ensures Lists(indexed + [(ParseIndex(key).value, m[key])], m, keys + {key})
  {
    var more := indexed + [(ParseIndex(key).value, m[key])];
    forall k | k in keys + {key} ensures (ParseIndex(k).value, m[k]) in more {
      if k == key {
        assert more[|indexed|] == (ParseIndex(k).value, m[k]);
      }
    }
  }

  /** The map's pairs in the order its keys come, unless a key is no index. */
  method PairsOf(entries: Members) returns (r: Option<seq<Indexed>>)
    ensures r.None? ==> !AllIndices(entries.Keys)
    ensures r.Some? ==> Lists(r.value, entries, entries.Keys)
  {
    var indexed: seq<Indexed> := [];
    var left := entries.Keys;
    assert entries.Keys - left == {};
    while left != {}
      invariant left <= entries.Keys
      invariant Lists(indexed, entries, entries.Keys - left)
      decreases left
    {
      var key :| key in left;
      ghost var done := entries.Keys - left;
      left := left - {key};
      assert entries.Keys - left == done + {key};
      var index := ParseIndex(key);
      if index.None? {
        return None;
      }
      ListsOneMore(indexed, entries, done, key);
      indexed := indexed + [(index.value, entries[key])];
    }
    assert entries.Keys - left == entries.Keys;
    r := Some(indexed);
  }

  /** Is every index its own position? */
  method AtPositions(indexed: seq<Indexed>) returns (r: bool)
    ensures r == InPosition(indexed)
  {
    for position := 0 to |indexed|
      invariant forall i :: 0 <= i < position ==> indexed[i].0 == i
    {
      if position != indexed[position].0 {
        return false;
      }
    }
    return true;
  }

  /** Reads a map as `0..n` if its keys are exactly those indices. */
  method AsIndexSequence(entries: Members) returns (r: Option<seq<Value>>)
    ensures r == IndexSequence(entries)
    ensures r.Some? <==> NamesEveryIndex(entries.Keys)
    ensures r.Some? ==> |r.value| == |entries|
    ensures r.Some? ==> forall k :: k in entries ==> r.value[ParseIndex(k).value] == entries[k]
  {
    if entries == map[] {
      assert entries.Keys == {};
      return None;
    }
    DenseMeans(entries);
    var pairs := PairsOf(entries);
    if pairs.None? {
      return None;
    }
    SortedLists(pairs.value, entries);
    var indexed := SortByIndex(pairs.value);
    var dense := AtPositions(indexed);
    if dense {
      PositionsAreDense(indexed, entries);
      PositionsAreValues(indexed, entries);
      r := Some(Values(indexed));
      ElementsOfSequence(entries);
    } else {
      NotDense(indexed, entries);
      r := None;
    }
  }

  lemma NotDense(sorted: seq<Indexed>, m: Members)
    requires Lists(sorted, m, m.Keys) && Ascending(sorted) && !InPosition(sorted)
    ensures !Dense(m)
  {
    if Dense(m) {
      DenseMakesPositions(sorted, m);
    }
  }

  // ------------------------------------------------------------------
  // Depth first, through a whole tree
  // ------------------------------------------------------------------

  ghost function NumericMapsToArrays(v: Value): Value
  {
    match v
    case Obj(entries) =>
      var converted := map k | k in entries :: NumericMapsToArrays(entries[k]);
      var items := IndexSequence(converted);
      if items.Some? then Arr(items.value) else Obj(converted)
    case Arr(items) => Arr(seq(|items|, i requires 0 <= i < |items| => NumericMapsToArrays(items[i])))
    case _ => v
  }

  ghost function Converted(entries: Members): Members {
    map k | k in entries :: NumericMapsToArrays(entries[k])
  }

  method ConvertNumericMaps(v: Value) returns (r: Value)
    ensures r == NumericMapsToArrays(v)
    decreases v, 1
  {
    match v
    case Obj(entries) =>
      var converted := ConvertMembers(v);
      assert NumericMapsToArrays(v) == (var items := IndexSequence(Converted(entries));
                                        if items.Some? then Arr(items.value) else Obj(Converted(entries)));
      var items := AsIndexSequence(converted);
      r := if items.Some? then Arr(items.value) else Obj(converted);
    case Arr(_) => r := ConvertElements(v);
    case _ => r := v;
  }

  method ConvertMembers(v: Value) returns (converted: Members)
    requires v.Obj?
    ensures converted == Converted(v.members)
    decreases v, 0
  {
    converted := map[];
    var left := v.members.Keys;
    while left != {}
      invariant left <= v.members.Keys && converted.Keys == v.members.Keys - left
      invariant forall k :: k in converted ==> converted[k] == NumericMapsToArrays(v.members[k])
      decreases left
    {
      var key :| key in left;
      left := left - {key};
      var nested := ConvertNumericMaps(v.members[key]);
      converted := converted[key := nested];
    }
  }

  method ConvertElements(v: Value) returns (r: Value)
    requires v.Arr?
    ensures r == NumericMapsToArrays(v)
    decreases v, 0
  {
    var converted: seq<Value> := [];
    for i := 0 to |v.items|
      invariant |converted| == i
      invariant forall j :: 0 <= j < i ==> converted[j] == NumericMapsToArrays(v.items[j])
    {
      var nested := ConvertNumericMaps(v.items[i]);
      converted := converted + [nested];
    }
    r := Arr(converted);
    assert converted == NumericMapsToArrays(v).items;
  }

  // ------------------------------------------------------------------
  // What still reads
  // ------------------------------------------------------------------

  lemma ConvertedText(v: Value)
    ensures AsText(NumericMapsToArrays(v)) == AsText(v)
  {
  }

  lemma ConvertedChild(v: Value, s: string)
    requires Child(v, s).Some?
    ensures Child(NumericMapsToArrays(v), s) == Some(NumericMapsToArrays(Child(v, s).value))
  {
    if v.Obj? {
      var converted := Converted(v.members);
      if Dense(converted) {
        assert s in converted;
        ElementsOfSequence(converted);
      }
    }
  }

  lemma ConvertedNoChild(v: Value, s: string)
    requires CanonicalKeys(v) && Canonical(s) && Child(v, s).None?
    ensures Child(NumericMapsToArrays(v), s).None?
  {
    if v.Obj? {
      var converted := Converted(v.members);
      if Dense(converted) {
        forall i | 0 <= i < |converted| ensures Digits(i) in v.members {
          var k := KeyAt(converted, i);
          assert k in v.members && Canonical(k);
        }
      }
    }
  }

  /** Every lookup that resolved resolves still, to the same text. */
  lemma {:induction false} ConversionKeepsLookups(v: Value, path: seq<string>)
    requires Lookup(v, path).Some?
    ensures Lookup(NumericMapsToArrays(v), path) == Some(NumericMapsToArrays(Lookup(v, path).value))
    ensures TextAt(NumericMapsToArrays(v), path) == TextAt(v, path)
    decreases |path|
  {
    if path == [] {
      ConvertedText(v);
    } else {
      ConvertedChild(v, path[0]);
      ConversionKeepsLookups(Child(v, path[0]).value, path[1..]);
    }
  }

  /**
   Wherever a tree holds an object whose keys are exactly the indices `0..n`, and wherever it holds an
   array, the converted tree holds an array as long; every other object keeps its keys.
   */
  lemma ConversionMakesArrays(v: Value, path: seq<string>)
    requires Lookup(v, path).Some?
    ensures Lookup(NumericMapsToArrays(v), path).Some?
    ensures var was, now := Lookup(v, path).value, Lookup(NumericMapsToArrays(v), path).value;
            match was
            case Obj(members) =>
              if NamesEveryIndex(members.Keys) then now.Arr? && |now.items| == |members|
              else now.Obj? && now.members.Keys == members.Keys
            case Arr(items) => now.Arr? && |now.items| == |items|
            case _ => now == was
  {
    ConversionKeepsLookups(v, path);
    var was := Lookup(v, path).value;
    if was.Obj? {
      DenseMeans(Converted(was.members));
      assert Converted(was.members).Keys == was.members.Keys;
      assert |was.members.Keys| == |was.members|;
    }
  }

  /** With indices written as they are printed, none resolves that did not. */
  lemma {:induction false} ConversionAddsNoLookups(v: Value, path: seq<string>)
    requires CanonicalKeys(v) && CanonicalPath(path) && Lookup(v, path).None?
    ensures Lookup(NumericMapsToArrays(v), path).None?
    decreases |path|
  {
    if Child(v, path[0]).None? {
      ConvertedNoChild(v, path[0]);
    } else {
      ConvertedChild(v, path[0]);
      CanonicalChild(v, path[0]);
      ConversionAddsNoLookups(Child(v, path[0]).value, path[1..]);
    }
  }

  lemma {:induction false} ConversionKeepsCanonical(v: Value)
    requires CanonicalKeys(v)
    ensures CanonicalKeys(NumericMapsToArrays(v))
    decreases v
  {
    match v
    case Obj(entries) =>
      forall k | k in entries ensures CanonicalKeys(NumericMapsToArrays(entries[k])) {
        ConversionKeepsCanonical(entries[k]);
      }
      var converted := Converted(entries);
      if Dense(converted) {
        forall i | 0 <= i < |converted| ensures CanonicalKeys(IndexSequence(converted).value[i]) {
          assert KeyAt(converted, i) in entries;
        }
      }
    case Arr(items) =>
      forall i | 0 <= i < |items| ensures CanonicalKeys(NumericMapsToArrays(items[i])) {
        ConversionKeepsCanonical(items[i]);
      }
    case _ =>
  }

  /** A map of one member is an array of one if its key reads as zero. */
  lemma SingletonSequence(name: string, v: Value)
    ensures IndexSequence(map[name := v]) == if ParseIndex(name) == Some(0) then Some([v]) else None
  {
    var m: Members := map[name := v];
    assert m[name] == v && |m| == 1;
    if ParseIndex(name) == Some(0) {
      assert OneKeyEach(m.Keys);
      assert Dense(m);
      assert KeyAt(m, 0) == name;
      assert IndexSequence(m).value == [v];
    }
  }
}
