/** JSON files as configuration: keys lowercased, and split on the colons in them. */
module ConfigJson {
  import opened Options
  import opened Text
  import opened ConfigTree
  import opened ConfigEnvironment
  import opened ConfigMeeting
  import opened ConfigArrays

  /** The path a key stands for. */
  function KeyPath(key: string): (r: seq<string>)
    ensures r != []
  {
    SplitOn(Lowercase(key), ':')
  }

  /** A key's path is its text in lower case, between its colons. */
  lemma KeyPathMeans(key: string)
    ensures JoinedBy(KeyPath(key), ":") == Lowercase(key)
    ensures forall i :: 0 <= i < |KeyPath(key)| ==> ColonFree(KeyPath(key)[i])
  {
    SplitOnRejoins(Lowercase(key), ':');
    SplitOnSeparates(Lowercase(key), ':');
  }

  /** The path a path of keys stands for. */
  function Flattened(path: seq<string>): seq<string> {
    if path == [] then [] else KeyPath(path[0]) + Flattened(path[1..])
  }

  // ------------------------------------------------------------------
  // The whole of a file, in whatever order each object gives its keys
  // ------------------------------------------------------------------

  ghost function LowercaseKeys(v: Value, order: Order): Value
    decreases v, 1, 0
  {
    match v
    case Obj(members) => NumericMapsToArrays(Obj(Laid(v, order, order(members.Keys))))
    case Arr(items) => Arr(seq(|items|, i requires 0 <= i < |items| => LowercaseKeys(items[i], order)))
    case _ => v
  }

  /** The first of the object's members, merged in turn. */
  ghost function Laid(v: Value, order: Order, keys: seq<string>): Members
    requires v.Obj?
    decreases v, 0, |keys|
  {
    if keys == [] then map[]
    else
      var key := keys[|keys| - 1];
      var before := Laid(v, order, keys[..|keys| - 1]);
      if key in v.members then MergeAt(before, KeyPath(key), LowercaseKeys(v.members[key], order)) else before
  }

  method LowercaseAllKeys(v: Value, order: Order) returns (r: Value)
    requires Enumerates(order)
    ensures r == LowercaseKeys(v, order)
    decreases v
  {
    match v
    case Obj(members) =>
      var root: Members := map[];
      var keys := order(members.Keys);
      for i := 0 to |keys|
        invariant root == Laid(v, order, keys[..i])
      {
        assert keys[..i + 1][..i] == keys[..i];
        assert keys[i] in members.Keys;
        var nested := LowercaseAllKeys(members[keys[i]], order);
        root := MergeAt(root, KeyPath(keys[i]), nested);
      }
      assert keys[..|keys|] == keys;
      r := ConvertNumericMaps(Obj(root));
    case Arr(items) =>
      var out: seq<Value> := [];
      for i := 0 to |items|
        invariant |out| == i && forall j :: 0 <= j < i ==> out[j] == LowercaseKeys(items[j], order)
      {
        var nested := LowercaseAllKeys(items[i], order);
        out := out + [nested];
      }
      r := Arr(out);
      assert out == LowercaseKeys(v, order).items;
    case _ =>
      r := v;
  }

  // ------------------------------------------------------------------
  // Every read of a merged object, by its keys
  // ------------------------------------------------------------------

  /** What one key of an object stands for: its value, at the key's path. */
  ghost function KeyTree(v: Value, order: Order, key: string): Value
    requires v.Obj? && key in v.members
  {
    Wrapped(KeyPath(key), LowercaseKeys(v.members[key], order))
  }

  ghost predicate KeysOf(v: Value, keys: seq<string>) {
    v.Obj? && (forall i :: 0 <= i < |keys| ==> keys[i] in v.members)
  }

  ghost function KeyTrees(v: Value, order: Order, keys: seq<string>): seq<Value>
    requires KeysOf(v, keys)
  {
    seq(|keys|, i requires 0 <= i < |keys| => KeyTree(v, order, keys[i]))
  }

  /** An object is merged as the trees its keys stand for, met in turn. */
  lemma {:induction false} LaidIsMet(v: Value, order: Order, keys: seq<string>)
    requires KeysOf(v, keys)
    ensures Obj(Laid(v, order, keys)) == Met(KeyTrees(v, order, keys))
    decreases |keys|
  {
    if keys != [] {
      var n := |keys| - 1;
      LaidIsMet(v, order, keys[..n]);
      assert KeyTrees(v, order, keys)[..n] == KeyTrees(v, order, keys[..n]);
      MergeAtMeets(Laid(v, order, keys[..n]), KeyPath(keys[n]), LowercaseKeys(v.members[keys[n]], order));
    }
  }

  // ------------------------------------------------------------------
  // When nothing of a file is lost
  // ------------------------------------------------------------------

  /**
   Within every object, no key meets text of an earlier key except as a section meets a section:
   neither where the earlier one has text, nor where it has an array or became one.
   */
  ghost predicate KeysSpare(v: Value, order: Order)
  {
    match v
    case Obj(members) =>
      && (forall k :: k in members ==> KeysSpare(members[k], order))
      && var keys := order(members.Keys);
         forall i, j :: 0 <= i < j < |keys| && keys[i] in members && keys[j] in members ==>
           SparesAll(KeyTree(v, order, keys[i]), KeyTree(v, order, keys[j]))
    case Arr(items) => forall i :: 0 <= i < |items| ==> KeysSpare(items[i], order)
    case _ => true
  }

  /** Within every object the keys' paths lead apart. */
  ghost predicate KeysApart(v: Value)
  {
    match v
    case Obj(members) =>
      && (forall k :: k in members ==> KeysApart(members[k]))
      && (forall j, k :: j in members && k in members && j != k ==> Apart(KeyPath(j), KeyPath(k)))
    case Arr(items) => forall i :: 0 <= i < |items| ==> KeysApart(items[i])
    case _ => true
  }

  /** Which is more than enough. */
  lemma {:induction false} ApartKeysSpare(v: Value, order: Order)
    requires Enumerates(order) && KeysApart(v)
    ensures KeysSpare(v, order)
    decreases v
  {
    match v
    case Obj(members) =>
      forall k | k in members ensures KeysSpare(members[k], order) {
        ApartKeysSpare(members[k], order);
      }
      var keys := order(members.Keys);
      assert ListsKeys(keys, members.Keys);
      forall i, j | 0 <= i < j < |keys| && keys[i] in members && keys[j] in members
        ensures SparesAll(KeyTree(v, order, keys[i]), KeyTree(v, order, keys[j]))
      {
        ApartSpares(KeyPath(keys[i]), LowercaseKeys(members[keys[i]], order),
                    KeyPath(keys[j]), LowercaseKeys(members[keys[j]], order));
      }
    case Arr(items) =>
      forall i | 0 <= i < |items| ensures KeysSpare(items[i], order) {
        ApartKeysSpare(items[i], order);
      }
    case _ =>
  }

  lemma {:induction false} LookupJoined(v: Value, p: seq<string>, q: seq<string>)
    requires Lookup(v, p).Some?
    ensures Lookup(v, p + q) == Lookup(Lookup(v, p).value, q)
    decreases |p|
  {
    if p == [] {
      assert p + q == q;
    } else {
      assert (p + q)[1..] == p[1..] + q;
      LookupJoined(Child(v, p[0]).value, p[1..], q);
    }
  }

  /** No key of an array is split: an index has no colon and no letter. */
  lemma IndexKeyPath(segment: string)
    requires ParseIndex(segment).Some?
    ensures KeyPath(segment) == [segment]
  {
    assert forall i :: 0 <= i < |segment| ==> Lower(segment[i]) == segment[i] && segment[i] != ':' by {
      var digits := if segment != "" && segment[0] == '+' then segment[1..] else segment;
      assert forall i :: 0 <= i < |digits| ==> IsDigit(digits[i]);
      assert forall i :: 0 < i < |segment| ==> segment[i] == (if digits == segment then digits[i] else digits[i - 1]);
    }
    assert Lowercase(segment) == segment;
    Unsplit(segment);
  }

  lemma {:induction false} Unsplit(s: string)
    requires ColonFree(s)
    ensures SplitOn(s, ':') == [s]
  {
    if s != "" {
      Unsplit(s[1..]);
      assert s == [s[0]] + s[1..];
    }
  }

  /** The position of a key in its object's order. */
  lemma PositionOf(order: Order, members: Members, key: string) returns (at: nat)
    requires Enumerates(order) && key in members
    ensures at < |order(members.Keys)| && order(members.Keys)[at] == key
    ensures KeysOf(Obj(members), order(members.Keys))
  {
    var keys := order(members.Keys);
    assert ListsKeys(keys, members.Keys);
    assert key in keys;
    at :| 0 <= at < |keys| && keys[at] == key;
  }

  lemma SparedIsOwned(v: Value, order: Order, at: nat, path: seq<string>)
    requires v.Obj? && KeysSpare(v, order) && KeysOf(v, order(v.members.Keys)) && at < |order(v.members.Keys)|
    requires TextAt(KeyTree(v, order, order(v.members.Keys)[at]), path).Some?
    ensures Owns(KeyTrees(v, order, order(v.members.Keys)), at, path)
  {
    var keys := order(v.members.Keys);
    forall j | at < j < |keys| ensures Spares(KeyTree(v, order, keys[at]), KeyTree(v, order, keys[j]), path) {
      SparesEach(KeyTree(v, order, keys[at]), KeyTree(v, order, keys[j]), path);
    }
  }

  /** The text of a member, read in the object. */
  lemma MemberReadsBack(v: Value, order: Order, key: string, rest: seq<string>)
    requires Enumerates(order) && v.Obj? && KeysSpare(v, order) && key in v.members
    requires TextAt(LowercaseKeys(v.members[key], order), rest).Some?
    ensures TextAt(LowercaseKeys(v, order), KeyPath(key) + rest) == TextAt(LowercaseKeys(v.members[key], order), rest)
  {
    var keys := order(v.members.Keys);
    var at := PositionOf(order, v.members, key);
    var path := KeyPath(key) + rest;
    WrappedReads(KeyPath(key), LowercaseKeys(v.members[key], order), rest);
    SparedIsOwned(v, order, at, path);
    OwnerReads(KeyTrees(v, order, keys), at, path);
    LaidIsMet(v, order, keys);
    ConversionKeepsLookups(Obj(Laid(v, order, keys)), path);
  }

  lemma ElementReadsBack(v: Value, order: Order, s: string, rest: seq<string>)
    requires v.Arr? && Child(v, s).Some?
    ensures KeyPath(s) == [s]
    ensures TextAt(LowercaseKeys(v, order), [s] + rest) == TextAt(LowercaseKeys(Child(v, s).value, order), rest)
  {
    IndexKeyPath(s);
    assert ([s] + rest)[1..] == rest;
    LookupChild(LowercaseKeys(v, order), [s] + rest);
  }

  /**
   Every value of a JSON file reads back at the path its keys stand for, nested or joined by
   colons and in any case, if no key meets an earlier one's text.
   */
  lemma {:induction false} FileReadsBack(v: Value, order: Order, path: seq<string>)
    requires Enumerates(order) && KeysSpare(v, order) && TextAt(v, path).Some?
    ensures TextAt(LowercaseKeys(v, order), Flattened(path)) == TextAt(v, path)
    decreases |path|
  {
    if path != [] {
      var child := Child(v, path[0]).value;
      FileReadsBack(child, order, path[1..]);
      if v.Obj? {
        MemberReadsBack(v, order, path[0], Flattened(path[1..]));
      } else {
        ElementReadsBack(v, order, path[0], Flattened(path[1..]));
      }
    }
  }

  /** In particular if within each object the keys' paths lead apart. */
  lemma ApartFileReadsBack(v: Value, order: Order, path: seq<string>)
    requires Enumerates(order) && KeysApart(v) && TextAt(v, path).Some?
    ensures TextAt(LowercaseKeys(v, order), Flattened(path)) == TextAt(v, path)
  {
    ApartKeysSpare(v, order);
    FileReadsBack(v, order, path);
  }

  lemma SameStart(key: string, p: seq<string>, q: seq<string>)
    requires KeyPath(key) + p == KeyPath(key) + q
    ensures p == q
  {
    var k := KeyPath(key);
    assert (k + p)[|k|..] == p && (k + q)[|k|..] == q;
  }

  /** Two keys of one object that spare each other's text have none at one path. */
  lemma OneKeyHasIt(v: Value, order: Order, key: string, key': string, path: seq<string>)
    requires Enumerates(order) && v.Obj? && KeysSpare(v, order) && key in v.members && key' in v.members
    requires TextAt(KeyTree(v, order, key), path).Some? && TextAt(KeyTree(v, order, key'), path).Some?
    ensures key == key'
  {
    var i := PositionOf(order, v.members, key);
    var j := PositionOf(order, v.members, key');
    if i < j {
      SparesEach(KeyTree(v, order, key), KeyTree(v, order, key'), path);
      SparedReadsNothing(KeyTree(v, order, key), KeyTree(v, order, key'), path);
    } else if j < i {
      SparesEach(KeyTree(v, order, key'), KeyTree(v, order, key), path);
      SparedReadsNothing(KeyTree(v, order, key'), KeyTree(v, order, key), path);
    }
  }

  /** Two values of the file that share a path begin at one key. */
  lemma SameFirstKey(v: Value, order: Order, p: seq<string>, q: seq<string>)
    requires Enumerates(order) && KeysSpare(v, order) && TextAt(v, p).Some? && TextAt(v, q).Some?
    requires p != [] && q != [] && Flattened(p) == Flattened(q)
    ensures p[0] == q[0]
  {
    if v.Obj? {
      FileReadsBack(v.members[p[0]], order, p[1..]);
      FileReadsBack(v.members[q[0]], order, q[1..]);
      WrappedReads(KeyPath(p[0]), LowercaseKeys(v.members[p[0]], order), Flattened(p[1..]));
      WrappedReads(KeyPath(q[0]), LowercaseKeys(v.members[q[0]], order), Flattened(q[1..]));
      OneKeyHasIt(v, order, p[0], q[0], Flattened(p));
    } else {
      IndexKeyPath(p[0]);
      IndexKeyPath(q[0]);
      assert Flattened(p)[0] == p[0] && Flattened(q)[0] == q[0];
    }
  }

  /** And then no two values of the file share a path. */
  lemma {:induction false} SparedValuesApart(v: Value, order: Order, p: seq<string>, q: seq<string>)
    requires Enumerates(order) && KeysSpare(v, order) && TextAt(v, p).Some? && TextAt(v, q).Some?
    requires Flattened(p) == Flattened(q)
    ensures p == q
    decreases |p|
  {
    if p != [] && q != [] {
      SameFirstKey(v, order, p, q);
      SameStart(p[0], Flattened(p[1..]), Flattened(q[1..]));
      SparedValuesApart(Child(v, p[0]).value, order, p[1..], q[1..]);
      assert p == [p[0]] + p[1..] && q == [q[0]] + q[1..];
    }
  }

  // ------------------------------------------------------------------
  // Exactly when
  // ------------------------------------------------------------------

  /** Every index among the parts of the file's keys is written as it is printed. */
  ghost predicate CanonicalParts(v: Value)
  {
    match v
    case Obj(members) => forall k :: k in members ==> CanonicalPath(KeyPath(k)) && CanonicalParts(members[k])
    case Arr(items) => forall i :: 0 <= i < |items| ==> CanonicalParts(items[i])
    case _ => true
  }

  lemma CanonicalKey(key: string)
    requires CanonicalPath(KeyPath(key))
    ensures Canonical(key)
  {
    if ParseIndex(key).Some? {
      IndexKeyPath(key);
      assert Canonical(KeyPath(key)[0]);
    }
  }

  /** The layer a file becomes has its indices written as they are printed. */
  lemma {:induction false} LayerCanonical(v: Value, order: Order)
    requires Enumerates(order) && CanonicalParts(v)
    ensures CanonicalKeys(LowercaseKeys(v, order))
    decreases v, 1, 0
  {
    match v
    case Obj(members) =>
      var keys := order(members.Keys);
      assert ListsKeys(keys, members.Keys);
      LaidCanonical(v, order, keys);
      ConversionKeepsCanonical(Obj(Laid(v, order, keys)));
    case Arr(items) =>
      forall i | 0 <= i < |items| ensures CanonicalKeys(LowercaseKeys(items[i], order)) {
        LayerCanonical(items[i], order);
      }
    case _ =>
  }

  lemma {:induction false} LaidCanonical(v: Value, order: Order, keys: seq<string>)
    requires Enumerates(order) && CanonicalParts(v) && KeysOf(v, keys)
    ensures CanonicalKeys(Obj(Laid(v, order, keys)))
    decreases v, 0, |keys|
  {
    if keys != [] {
      var n := |keys| - 1;
      LaidCanonical(v, order, keys[..n]);
      LayerCanonical(v.members[keys[n]], order);
      WrappedCanonical(KeyPath(keys[n]), LowercaseKeys(v.members[keys[n]], order));
      MeetingCanonical(Obj(Laid(v, order, keys[..n])), KeyTree(v, order, keys[n]));
      MergeAtMeets(Laid(v, order, keys[..n]), KeyPath(keys[n]), LowercaseKeys(v.members[keys[n]], order));
    }
  }

  /** What the layer of an object reads, some key owns. */
  lemma ObjectReadHasOwner(v: Value, order: Order, path: seq<string>) returns (i: int)
    requires Enumerates(order) && CanonicalParts(v) && v.Obj? && CanonicalPath(path)
    requires TextAt(LowercaseKeys(v, order), path).Some?
    ensures KeysOf(v, order(v.members.Keys)) && Owns(KeyTrees(v, order, order(v.members.Keys)), i, path)
    ensures TextAt(LowercaseKeys(v, order), path) == TextAt(KeyTree(v, order, order(v.members.Keys)[i]), path)
  {
    var keys := order(v.members.Keys);
    assert ListsKeys(keys, v.members.Keys);
    LaidCanonical(v, order, keys);
    var laid := Obj(Laid(v, order, keys));
    if Lookup(laid, path).None? {
      ConversionAddsNoLookups(laid, path);
    }
    ConversionKeepsLookups(laid, path);
    LaidIsMet(v, order, keys);
    i := ReadHasOwner(KeyTrees(v, order, keys), path);
    OwnerReads(KeyTrees(v, order, keys), i, path);
  }

  /** `p` is a path of the file's keys to the text, standing for the path read. */
  ghost predicate StandsFor(v: Value, p: seq<string>, path: seq<string>, text: string) {
    CanonicalPath(p) && Flattened(p) == path && Lookup(v, p).Some? && Spells(Lookup(v, p).value, text)
  }

  lemma OneLonger(v: Value, s: string, p: seq<string>)
    requires Child(v, s).Some? && Canonical(s) && CanonicalPath(p)
    ensures TextAt(v, [s] + p) == TextAt(Child(v, s).value, p) && CanonicalPath([s] + p)
    ensures Flattened([s] + p) == KeyPath(s) + Flattened(p)
  {
    assert ([s] + p)[1..] == p;
    LookupChild(v, [s] + p);
  }

  lemma LongerStandsFor(v: Value, s: string, below: seq<string>, rest: seq<string>, text: string)
    requires Child(v, s).Some? && Canonical(s) && StandsFor(Child(v, s).value, below, rest, text)
    ensures StandsFor(v, [s] + below, KeyPath(s) + rest, text)
  {
    OneLonger(v, s, below);
  }

  /** Text of one key's tree comes from the file, by that key. */
  lemma KeyTreeOrigin(v: Value, order: Order, key: string, path: seq<string>, text: string) returns (p: seq<string>)
    requires Enumerates(order) && CanonicalParts(v) && v.Obj? && key in v.members && CanonicalPath(path)
    requires TextAt(KeyTree(v, order, key), path) == Some(text)
    ensures p != [] && p[0] == key && StandsFor(v, p, path, text)
    decreases v, 0
  {
    var child := v.members[key];
    WrappedReadsOnly(KeyPath(key), LowercaseKeys(child, order), path);
    var rest := path[|KeyPath(key)|..];
    var below := TextOrigin(child, order, rest, text);
    CanonicalKey(key);
    LongerStandsFor(v, key, below, rest, text);
    p := [key] + below;
    assert path == KeyPath(key) + rest;
  }

  /** Every text the layer reads is a value of the file's. */
  lemma TextOrigin(v: Value, order: Order, path: seq<string>, text: string) returns (p: seq<string>)
    requires Enumerates(order) && CanonicalParts(v) && CanonicalPath(path)
    requires TextAt(LowercaseKeys(v, order), path) == Some(text)
    ensures StandsFor(v, p, path, text)
    decreases v, 1
  {
    if v.Obj? {
      var i := ObjectReadHasOwner(v, order, path);
      p := KeyTreeOrigin(v, order, order(v.members.Keys)[i], path, text);
    } else if v.Arr? {
      LookupChild(LowercaseKeys(v, order), path);
      var s, rest := path[0], path[1..];
      var below := TextOrigin(Child(v, s).value, order, rest, text);
      IndexKeyPath(s);
      LongerStandsFor(v, s, below, rest, text);
      p := [s] + below;
      assert path == [s] + rest;
    } else {
      p := path;
      assert path == [];
    }
  }

  /** Every value of the file reads back. */
  ghost predicate ReadsBack(v: Value, order: Order) {
    forall p :: CanonicalPath(p) && TextAt(v, p).Some? ==> TextAt(LowercaseKeys(v, order), Flattened(p)) == TextAt(v, p)
  }

  /** No two values of the file share a path. */
  ghost predicate OwnPaths(v: Value) {
    forall p, q :: CanonicalPath(p) && CanonicalPath(q) && TextAt(v, p).Some?
        && TextAt(v, q).Some? && Flattened(p) == Flattened(q)
      ==> p == q
  }

  lemma {:induction false} FlattenedCanonical(v: Value, p: seq<string>)
    requires CanonicalParts(v) && CanonicalPath(p) && TextAt(v, p).Some?
    ensures CanonicalPath(Flattened(p))
    decreases |p|
  {
    if p != [] {
      FlattenedCanonical(Child(v, p[0]).value, p[1..]);
      if v.Arr? {
        IndexKeyPath(p[0]);
      }
    }
  }

  /** If the whole file reads back, each at a path of its own, every value is owned by its own key. */
  lemma ValueIsOwned(v: Value, order: Order, p: seq<string>) returns (i: int)
    requires Enumerates(order) && CanonicalParts(v) && ReadsBack(v, order) && OwnPaths(v)
    requires v.Obj? && p != [] && CanonicalPath(p) && TextAt(v, p).Some?
    ensures KeysOf(v, order(v.members.Keys)) && Owns(KeyTrees(v, order, order(v.members.Keys)), i, Flattened(p))
    ensures order(v.members.Keys)[i] == p[0]
    ensures TextAt(KeyTree(v, order, p[0]), Flattened(p)) == TextAt(v, p)
  {
    FlattenedCanonical(v, p);
    i := ObjectReadHasOwner(v, order, Flattened(p));
    var q := KeyTreeOrigin(v, order, order(v.members.Keys)[i], Flattened(p), TextAt(v, p).value);
    assert p == q;
  }

  lemma MemberKeepsIts(v: Value, order: Order, key: string)
    requires Enumerates(order) && CanonicalParts(v) && ReadsBack(v, order) && OwnPaths(v) && v.Obj? && key in v.members
    ensures ReadsBack(v.members[key], order) && OwnPaths(v.members[key])
  {
    var child := v.members[key];
    CanonicalKey(key);
    forall p | CanonicalPath(p) && TextAt(child, p).Some?
      ensures TextAt(LowercaseKeys(child, order), Flattened(p)) == TextAt(child, p)
    {
      var longer := [key] + p;
      assert longer[1..] == p;
      LookupChild(v, longer);
      var i := ValueIsOwned(v, order, longer);
      WrappedReads(KeyPath(key), LowercaseKeys(child, order), Flattened(p));
    }
    forall p, q | CanonicalPath(p) && CanonicalPath(q) && TextAt(child, p).Some? && TextAt(child, q).Some?
                  && Flattened(p) == Flattened(q)
      ensures p == q
    {
      LongerPaths(v, key, p, q);
    }
  }

  lemma LongerPaths(v: Value, s: string, p: seq<string>, q: seq<string>)
    requires OwnPaths(v) && Child(v, s).Some? && Canonical(s) && CanonicalPath(p) && CanonicalPath(q)
    requires TextAt(Child(v, s).value, p).Some? && TextAt(Child(v, s).value, q).Some? && Flattened(p) == Flattened(q)
    ensures p == q
  {
    OneLonger(v, s, p);
    OneLonger(v, s, q);
    assert [s] + p == [s] + q;
    assert ([s] + p)[1..] == p && ([s] + q)[1..] == q;
  }

  lemma ElementKeepsIts(v: Value, order: Order, i: nat)
    requires ReadsBack(v, order) && OwnPaths(v) && v.Arr? && i < |v.items| && i <= MAX_INDEX
    ensures ReadsBack(v.items[i], order) && OwnPaths(v.items[i])
  {
    var s, child := Digits(i), v.items[i];
    IndexRoundTrip(i);
    forall p | CanonicalPath(p) && TextAt(child, p).Some?
      ensures TextAt(LowercaseKeys(child, order), Flattened(p)) == TextAt(child, p)
    {
      var longer := [s] + p;
      assert longer[1..] == p;
      LookupChild(v, longer);
      ElementReadsBack(v, order, s, Flattened(p));
    }
    forall p, q | CanonicalPath(p) && CanonicalPath(q) && TextAt(child, p).Some? && TextAt(child, q).Some?
                  && Flattened(p) == Flattened(q)
      ensures p == q
    {
      LongerPaths(v, s, p, q);
    }
  }

  lemma OwnKeyOwns(v: Value, order: Order, i: nat, p: seq<string>)
    requires Enumerates(order) && CanonicalParts(v) && ReadsBack(v, order) && OwnPaths(v) && v.Obj?
    requires KeysOf(v, order(v.members.Keys)) && i < |order(v.members.Keys)|
    requires p != [] && p[0] == order(v.members.Keys)[i] && CanonicalPath(p) && TextAt(v, p).Some?
    ensures Owns(KeyTrees(v, order, order(v.members.Keys)), i, Flattened(p))
  {
    var owner := ValueIsOwned(v, order, p);
    assert ListsKeys(order(v.members.Keys), v.members.Keys);
  }

  /** Of two keys, the later must spare what the earlier one reads. */
  lemma TextIsSpared(v: Value, order: Order, i: nat, j: nat, path: seq<string>)
    requires Enumerates(order) && CanonicalParts(v) && ReadsBack(v, order) && OwnPaths(v) && v.Obj?
    requires KeysOf(v, order(v.members.Keys)) && i < j < |order(v.members.Keys)| && CanonicalPath(path)
    requires TextAt(KeyTree(v, order, order(v.members.Keys)[i]), path).Some?
    ensures Spares(KeyTree(v, order, order(v.members.Keys)[i]), KeyTree(v, order, order(v.members.Keys)[j]), path)
  {
    var keys := order(v.members.Keys);
    var p := KeyTreeOrigin(v, order, keys[i], path, TextAt(KeyTree(v, order, keys[i]), path).value);
    OwnKeyOwns(v, order, i, p);
    assert KeyTrees(v, order, keys)[j] == KeyTree(v, order, keys[j]);
  }

  lemma EarlierIsSpared(v: Value, order: Order, i: nat, j: nat)
    requires Enumerates(order) && CanonicalParts(v) && ReadsBack(v, order) && OwnPaths(v) && v.Obj?
    requires KeysOf(v, order(v.members.Keys)) && i < j < |order(v.members.Keys)|
    ensures SparesAll(KeyTree(v, order, order(v.members.Keys)[i]), KeyTree(v, order, order(v.members.Keys)[j]))
  {
    var keys := order(v.members.Keys);
    LayerCanonical(v.members[keys[i]], order);
    WrappedCanonical(KeyPath(keys[i]), LowercaseKeys(v.members[keys[i]], order));
    if !SparesAll(KeyTree(v, order, keys[i]), KeyTree(v, order, keys[j])) {
      var path := SomeNotSpared(KeyTree(v, order, keys[i]), KeyTree(v, order, keys[j]));
      TextIsSpared(v, order, i, j, path);
    }
  }

  /** No array is longer than an index can reach. */
  ghost predicate Addressable(v: Value)
  {
    match v
    case Obj(members) => forall k :: k in members ==> Addressable(members[k])
    case Arr(items) => |items| <= MAX_INDEX + 1 && forall i :: 0 <= i < |items| ==> Addressable(items[i])
    case _ => true
  }

  lemma {:induction false} ReadingBackSpares(v: Value, order: Order)
    requires Enumerates(order) && CanonicalParts(v) && Addressable(v) && ReadsBack(v, order) && OwnPaths(v)
    ensures KeysSpare(v, order)
    decreases v
  {
    match v
    case Obj(members) =>
      forall k | k in members ensures KeysSpare(members[k], order) {
        MemberKeepsIts(v, order, k);
        ReadingBackSpares(members[k], order);
      }
      assert ListsKeys(order(members.Keys), members.Keys);
      var keys := order(members.Keys);
      forall i, j | 0 <= i < j < |keys| && keys[i] in members && keys[j] in members
        ensures SparesAll(KeyTree(v, order, keys[i]), KeyTree(v, order, keys[j]))
      {
        EarlierIsSpared(v, order, i, j);
      }
    case Arr(items) =>
      forall i | 0 <= i < |items| ensures KeysSpare(items[i], order) {
        ElementKeepsIts(v, order, i);
        ReadingBackSpares(items[i], order);
      }
    case _ =>
  }

  /**
   The exact condition: every value of a file reads back, each at a path of its own, exactly when
   no key meets an earlier one's text except as a section meets a section.
   */
  lemma FileReadsBackIff(v: Value, order: Order)
    requires Enumerates(order) && CanonicalParts(v) && Addressable(v)
    ensures ReadsBack(v, order) && OwnPaths(v) <==> KeysSpare(v, order)
  {
    if KeysSpare(v, order) {
      forall p | CanonicalPath(p) && TextAt(v, p).Some?
        ensures TextAt(LowercaseKeys(v, order), Flattened(p)) == TextAt(v, p)
      {
        FileReadsBack(v, order, p);
      }
      forall p, q | CanonicalPath(p) && CanonicalPath(q) && TextAt(v, p).Some?
          && TextAt(v, q).Some? && Flattened(p) == Flattened(q)
        ensures p == q
      {
        SparedValuesApart(v, order, p, q);
      }
    }
    if ReadsBack(v, order) && OwnPaths(v) {
      ReadingBackSpares(v, order);
    }
  }

  /** Then the layer's texts are the file's values at the paths their keys stand for, and no others. */
  lemma FileReadsExactly(v: Value, order: Order, path: seq<string>, text: string)
    requires Enumerates(order) && CanonicalParts(v) && KeysSpare(v, order) && CanonicalPath(path)
    ensures TextAt(LowercaseKeys(v, order), path) == Some(text) <==> exists p :: StandsFor(v, p, path, text)
  {
    if TextAt(LowercaseKeys(v, order), path) == Some(text) {
      var p := TextOrigin(v, order, path, text);
    }
    if p :| StandsFor(v, p, path, text) {
      FileReadsBack(v, order, p);
    }
  }
}
