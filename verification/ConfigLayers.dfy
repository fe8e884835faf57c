/** Laying one configuration tree over another, and what can then be read. */
module ConfigLayers {
  import opened Options
  import opened Text
  import opened ConfigTree

  // ------------------------------------------------------------------
  // The merge
  // ------------------------------------------------------------------

  /** An object that addresses the elements of an array below it. */
  predicate IsIndexMap(members: map<string, Value>) {
    members != map[] && forall k :: k in members ==> ParseIndex(k).Some?
  }

  ghost predicate HasIndex(keys: set<string>, i: int) {
    exists k :: k in keys && ParseIndex(k).Some? && ParseIndex(k).value == i
  }

  /** One more than the largest index among the keys. */
  ghost function Extent(keys: set<string>): (r: nat)
    ensures forall k :: k in keys && ParseIndex(k).Some? ==> ParseIndex(k).value < r
    ensures r == 0 || HasIndex(keys, r - 1)
    decreases |keys|
  {
    if keys == {} then 0
    else
      var k :| k in keys;
      var rest := Extent(keys - {k});
      assert rest > 0 ==> HasIndex(keys, rest - 1) by {
        if rest > 0 {
          var j :| j in keys - {k} && ParseIndex(j).Some? && ParseIndex(j).value == rest - 1;
        }
      }
      if ParseIndex(k).Some? && ParseIndex(k).value >= rest
      then assert HasIndex(keys, ParseIndex(k).value); ParseIndex(k).value + 1
      else rest
  }

  function ElementOrNull(items: seq<Value>, i: nat): Value {
    if i < |items| then items[i] else Null
  }

  /** Do two values meet member by member, rather than the second replacing the first? */
  predicate Merging(base: Value, layer: Value)
  {
    || (base.Obj? && layer.Obj?)
    || (base.Arr? && (layer.Arr? || (layer.Obj? && IsIndexMap(layer.members))))
  }

  ghost function Merge(base: Value, layer: Value): Value
    decreases layer
  {
    if !Merging(base, layer) then layer
    else if base.Obj? then
      var b, l := base.members, layer.members;
      Obj(map k | k in b.Keys + l.Keys ::
        if k !in l then b[k] else if k in b then Merge(b[k], l[k]) else l[k])
    else if layer.Arr? then
      var b, l := base.items, layer.items;
      Arr(seq(if |b| < |l| then |l| else |b|, i requires 0 <= i < |b| || 0 <= i < |l| =>
        if i >= |l| then b[i] else if i < |b| then Merge(b[i], l[i]) else l[i]))
    else
      var b, l := base.items, layer.members;
      var extent := Extent(l.Keys);
      Arr(seq(if |b| < extent then extent else |b|, i requires 0 <= i =>
        if Digits(i) in l then Merge(ElementOrNull(b, i), l[Digits(i)]) else ElementOrNull(b, i)))
  }

  // ------------------------------------------------------------------
  // The merge as it is made: key by key, in the order the layer's objects give their keys
  // ------------------------------------------------------------------

  function Resized(items: seq<Value>, length: nat): seq<Value>
  {
    if |items| < length then items + seq(length - |items|, _ => Null) else items
  }

  ghost function MergeBy(order: Order, base: Value, layer: Value): Value
    decreases layer, 1, 0
  {
    if !Merging(base, layer) then layer
    else if base.Obj? then
      var b, l := base.members, layer.members;
      Obj(map k | k in b.Keys + l.Keys ::
        if k !in l then b[k] else if k in b then MergeBy(order, b[k], l[k]) else l[k])
    else if layer.Arr? then
      var b, l := base.items, layer.items;
      Arr(seq(if |b| < |l| then |l| else |b|, i requires 0 <= i < |b| || 0 <= i < |l| =>
        if i >= |l| then b[i] else if i < |b| then MergeBy(order, b[i], l[i]) else l[i]))
    else Arr(LaidOver(order, base.items, layer, order(layer.members.Keys)))
  }

  /** One key of an index map laid over the array, which is lengthened with nulls to reach it. */
  ghost function KeyLaid(order: Order, items: seq<Value>, layer: Value, key: string): seq<Value>
    requires layer.Obj?
    decreases layer, 0, 0
  {
    if key in layer.members && ParseIndex(key).Some? then
      var index := ParseIndex(key).value;
      var wide := Resized(items, index + 1);
      wide[index := MergeBy(order, wide[index], layer.members[key])]
    else items
  }

  /** The array once the first of the keys have been laid over it, one after another. */
  ghost function LaidOver(order: Order, items: seq<Value>, layer: Value, keys: seq<string>): seq<Value>
    requires layer.Obj?
    decreases layer, 0, |keys|
  {
    if keys == [] then items
    else KeyLaid(order, LaidOver(order, items, layer, keys[..|keys| - 1]), layer, keys[|keys| - 1])
  }

  /** The array before and after the key at `i`. */
  lemma LaidOverNext(order: Order, items: seq<Value>, layer: Value, keys: seq<string>, i: nat)
    requires layer.Obj? && i < |keys|
    ensures LaidOver(order, items, layer, keys[..i + 1])
            == KeyLaid(order, LaidOver(order, items, layer, keys[..i]), layer, keys[i])
  {
    assert keys[..i + 1][..i] == keys[..i];
  }

  method MergeLayer(base: Value, layer: Value, order: Order) returns (r: Value)
    requires Enumerates(order)
    ensures r == MergeBy(order, base, layer)
    decreases layer, 1
  {
    if base.Obj? && layer.Obj? {
      r := MergeMembers(base, layer, order);
    } else if base.Arr? && layer.Arr? {
      r := MergeElements(base, layer, order);
    } else if base.Arr? && layer.Obj? && IsIndexMap(layer.members) {
      r := MergeIndexMap(base, layer, order);
    } else {
      r := layer;
    }
  }

  method MergeMembers(base: Value, layer: Value, order: Order) returns (r: Value)
    requires base.Obj? && layer.Obj? && Enumerates(order)
    ensures r == MergeBy(order, base, layer)
    decreases layer, 0
  {
    var b, l := base.members, layer.members;
    var out := b;
    var left := l.Keys;
    while left != {}
      invariant left <= l.Keys && out.Keys == b.Keys + (l.Keys - left)
      invariant forall k :: k in b && (k in left || k !in l) ==> out[k] == b[k]
      invariant forall k :: k in l && k !in left ==> out[k] == if k in b then MergeBy(order, b[k], l[k]) else l[k]
      decreases left
    {
      var key :| key in left;
      left := left - {key};
      if key in out {
        var existing := MergeLayer(out[key], l[key], order);
        out := out[key := existing];
      } else {
        out := out[key := l[key]];
      }
    }
    r := Obj(out);
  }

  method MergeElements(base: Value, layer: Value, order: Order) returns (r: Value)
    requires base.Arr? && layer.Arr? && Enumerates(order)
    ensures r == MergeBy(order, base, layer)
    decreases layer, 0
  {
    var b, l := base.items, layer.items;
    var out := b;
    for index := 0 to |l|
      invariant |out| == if |b| < index then index else |b|
      invariant forall i :: index <= i < |b| ==> out[i] == b[i]
      invariant forall i :: 0 <= i < index ==> out[i] == if i < |b| then MergeBy(order, b[i], l[i]) else l[i]
    {
      if index < |out| {
        var existing := MergeLayer(out[index], l[index], order);
        out := out[index := existing];
      } else {
        out := out + [l[index]];
      }
    }
    r := Arr(out);
    assert out == MergeBy(order, base, layer).items;
  }

  method MergeIndexMap(base: Value, layer: Value, order: Order) returns (r: Value)
    requires base.Arr? && layer.Obj? && IsIndexMap(layer.members) && Enumerates(order)
    ensures r == MergeBy(order, base, layer)
    decreases layer, 0
  {
    var out := base.items;
    var keys := order(layer.members.Keys);
    assert ListsKeys(keys, layer.members.Keys);
    for i := 0 to |keys|
      invariant out == LaidOver(order, base.items, layer, keys[..i])
    {
      var key := keys[i];
      LaidOverNext(order, base.items, layer, keys, i);
      assert key in keys;
      var index := ParseIndex(key).value;
      out := Resized(out, index + 1);
      var now := MergeLayer(out[index], layer.members[key], order);
      out := out[index := now];
    }
    assert keys[..|keys|] == keys;
    r := Arr(out);
  }

  // ------------------------------------------------------------------
  // However its indices are written
  // ------------------------------------------------------------------

  /** What the keys naming an index leave of its element, laid in turn. */
  ghost function InTurn(order: Order, element: Value, layer: Value, keys: seq<string>, i: nat): Value
    requires layer.Obj?
    decreases |keys|
  {
    if keys == [] then element
    else
      var before, key := InTurn(order, element, layer, keys[..|keys| - 1], i), keys[|keys| - 1];
      if key in layer.members && ParseIndex(key) == Some(i) then MergeBy(order, before, layer.members[key]) else before
  }

  lemma KeyLaidElement(order: Order, items: seq<Value>, layer: Value, key: string, i: nat)
    requires layer.Obj?
    ensures ElementOrNull(KeyLaid(order, items, layer, key), i) ==
            if key in layer.members && ParseIndex(key) == Some(i)
            then MergeBy(order, ElementOrNull(items, i), layer.members[key]) else ElementOrNull(items, i)
  {
  }

  /**
   Each element of the array is what the keys naming its index leave of it, laid in order; the others
   leave it alone.
   */
  lemma {:induction false} LaidOverElement(order: Order, items: seq<Value>, layer: Value, keys: seq<string>, i: nat)
    requires layer.Obj?
    ensures ElementOrNull(LaidOver(order, items, layer, keys), i)
         == InTurn(order, ElementOrNull(items, i), layer, keys, i)
    decreases |keys|
  {
    if keys != [] {
      var n := |keys| - 1;
      LaidOverElement(order, items, layer, keys[..n], i);
      KeyLaidElement(order, LaidOver(order, items, layer, keys[..n]), layer, keys[n], i);
    }
  }

  /** A scalar laid over an element leaves nothing of what earlier keys did to it. */
  lemma {:induction false} LastScalarInTurn(
    order: Order, element: Value, layer: Value, keys: seq<string>, i: nat, at: nat)
    requires layer.Obj? && at < |keys| && keys[at] in layer.members && ParseIndex(keys[at]) == Some(i)
    requires !layer.members[keys[at]].Obj? && !layer.members[keys[at]].Arr?
    requires forall j :: at < j < |keys| ==> ParseIndex(keys[j]) != Some(i)
    ensures InTurn(order, element, layer, keys, i) == layer.members[keys[at]]
    decreases |keys|
  {
    var n := |keys| - 1;
    if at < n {
      LastScalarInTurn(order, element, layer, keys[..n], i, at);
    }
  }

  /**
   An index map over an array, however its indices are written: an index named by several keys reads
   the scalar of the last of them.
   */
  lemma LastKeyIsRead(order: Order, base: Value, layer: Value, at: nat)
    requires Enumerates(order) && base.Arr? && layer.Obj? && IsIndexMap(layer.members)
    requires var keys := order(layer.members.Keys);
             && at < |keys| && keys[at] in layer.members
             && !layer.members[keys[at]].Obj? && !layer.members[keys[at]].Arr?
             && (forall j :: at < j < |keys| ==> ParseIndex(keys[j]) != ParseIndex(keys[at]))
    ensures var key := order(layer.members.Keys)[at];
            ElementOrNull(MergeBy(order, base, layer).items, ParseIndex(key).value) == layer.members[key]
  {
    var keys := order(layer.members.Keys);
    var i := ParseIndex(keys[at]).value;
    LaidOverElement(order, base.items, layer, keys, i);
    LastScalarInTurn(order, ElementOrNull(base.items, i), layer, keys, i, at);
  }

  /** So of two keys naming one index, whatever they are, the order decides which is read. */
  lemma TwoWaysOfWritingOne(order: Order, base: Value, layer: Value, j: string, k: string)
    requires Enumerates(order) && base.Arr? && layer.Obj? && layer.members.Keys == {j, k} && j != k
    requires ParseIndex(j).Some? && ParseIndex(j) == ParseIndex(k)
    requires forall key :: key in layer.members ==> !layer.members[key].Obj? && !layer.members[key].Arr?
    ensures ElementOrNull(MergeBy(order, base, layer).items, ParseIndex(j).value)
         == layer.members[if order({j, k}) == [j, k] then k else j]
  {
    var keys := order({j, k});
    assert ListsKeys(keys, {j, k});
    ListedSize(keys, {j, k});
    assert keys[0] in keys && keys[1] in keys;
    assert keys == [keys[0], keys[1]];
    assert j in layer.members && k in layer.members;
    LastKeyIsRead(order, base, layer, 1);
  }

  // ------------------------------------------------------------------
  // Where each index is written in one way, the order does not matter
  // ------------------------------------------------------------------

  lemma {:induction false} NotNamed(order: Order, element: Value, layer: Value, keys: seq<string>, i: nat)
    requires layer.Obj? && forall j :: 0 <= j < |keys| ==> ParseIndex(keys[j]) != Some(i)
    ensures InTurn(order, element, layer, keys, i) == element
    decreases |keys|
  {
    if keys != [] {
      NotNamed(order, element, layer, keys[..|keys| - 1], i);
    }
  }

  lemma {:induction false} NamedOnce(order: Order, element: Value, layer: Value, keys: seq<string>, i: nat, at: nat)
    requires layer.Obj? && at < |keys| && keys[at] in layer.members && ParseIndex(keys[at]) == Some(i)
    requires forall j :: 0 <= j < |keys| && j != at ==> ParseIndex(keys[j]) != Some(i)
    ensures InTurn(order, element, layer, keys, i) == MergeBy(order, element, layer.members[keys[at]])
    decreases |keys|
  {
    var n := |keys| - 1;
    if at < n {
      NamedOnce(order, element, layer, keys[..n], i, at);
    } else {
      NotNamed(order, element, layer, keys[..n], i);
    }
  }

  /** A key written as its index is printed names that index and is its only such name. */
  lemma CanonicalNames(key: string, i: nat)
    requires Canonical(key) && ParseIndex(key).Some?
    ensures ParseIndex(key) == Some(i) <==> key == Digits(i)
  {
    if key == Digits(i) {
      DigitsInjective(ParseIndex(key).value, i);
    }
  }

  ghost predicate SomeNames(keys: seq<string>, i: int) {
    exists j :: 0 <= j < |keys| && ParseIndex(keys[j]).Some? && ParseIndex(keys[j]).value == i
  }

  /** One more than the largest index among the keys of a sequence. */
  ghost function Reach(keys: seq<string>): nat
  {
    if keys == [] then 0
    else
      var n := |keys| - 1;
      var before, index := Reach(keys[..n]), ParseIndex(keys[n]);
      if index.Some? && index.value >= before then index.value + 1 else before
  }

  lemma {:induction false} ReachBounds(keys: seq<string>, j: nat)
    requires j < |keys| && ParseIndex(keys[j]).Some?
    ensures ParseIndex(keys[j]).value < Reach(keys)
  {
    if j < |keys| - 1 {
      ReachBounds(keys[..|keys| - 1], j);
    }
  }

  lemma {:induction false} ReachAttained(keys: seq<string>)
    ensures Reach(keys) == 0 || SomeNames(keys, Reach(keys) - 1)
  {
    if keys != [] {
      ReachAttained(keys[..|keys| - 1]);
      StillNamed(keys);
    }
  }

  lemma StillNamed(keys: seq<string>)
    requires keys != []
    ensures forall i :: SomeNames(keys[..|keys| - 1], i) ==> SomeNames(keys, i)
  {
    forall i | SomeNames(keys[..|keys| - 1], i) ensures SomeNames(keys, i) {
      var j :| 0 <= j < |keys| - 1 && ParseIndex(keys[..|keys| - 1][j]).Some?
               && ParseIndex(keys[..|keys| - 1][j]).value == i;
      assert ParseIndex(keys[j]).value == i;
    }
  }

  lemma ReachIsExtent(keys: seq<string>, all: set<string>)
    requires ListsKeys(keys, all)
    ensures Reach(keys) == Extent(all)
  {
    ReachAttained(keys);
    if Reach(keys) > 0 {
      var j :| 0 <= j < |keys| && ParseIndex(keys[j]).Some? && ParseIndex(keys[j]).value == Reach(keys) - 1;
      assert keys[j] in keys;
    }
    if Extent(all) > 0 {
      var k :| k in all && ParseIndex(k).Some? && ParseIndex(k).value == Extent(all) - 1;
      assert k in keys;
      var at :| 0 <= at < |keys| && keys[at] == k;
      ReachBounds(keys, at);
    }
  }

  lemma KeyLaidLength(order: Order, items: seq<Value>, layer: Value, key: string)
    requires layer.Obj? && key in layer.members && ParseIndex(key).Some?
    ensures var end := ParseIndex(key).value + 1;
            |KeyLaid(order, items, layer, key)| == if |items| < end then end else |items|
  {
  }

  /** The array ends as long as its largest index needs. */
  lemma {:induction false} LaidOverLength(order: Order, items: seq<Value>, layer: Value, keys: seq<string>)
    requires layer.Obj? && forall j :: 0 <= j < |keys| ==> keys[j] in layer.members && ParseIndex(keys[j]).Some?
    ensures |LaidOver(order, items, layer, keys)| == if |items| < Reach(keys) then Reach(keys) else |items|
    decreases |keys|
  {
    if keys != [] {
      var n := |keys| - 1;
      LaidOverLength(order, items, layer, keys[..n]);
      KeyLaidLength(order, LaidOver(order, items, layer, keys[..n]), layer, keys[n]);
    }
  }

  /** An element of an index map's merge, given what merging the value over it comes to. */
  lemma IndexMapElement(order: Order, items: seq<Value>, layer: Value, i: nat)
    requires Enumerates(order) && layer.Obj? && CanonicalKeys(layer) && IsIndexMap(layer.members)
    ensures ElementOrNull(LaidOver(order, items, layer, order(layer.members.Keys)), i) ==
            if Digits(i) in layer.members then MergeBy(order, ElementOrNull(items, i), layer.members[Digits(i)])
            else ElementOrNull(items, i)
  {
    var keys := order(layer.members.Keys);
    assert ListsKeys(keys, layer.members.Keys);
    forall j | 0 <= j < |keys| ensures ParseIndex(keys[j]) == Some(i) <==> keys[j] == Digits(i) {
      assert keys[j] in keys;
      CanonicalNames(keys[j], i);
    }
    LaidOverElement(order, items, layer, keys, i);
    if Digits(i) in layer.members {
      assert Digits(i) in keys;
      var at :| 0 <= at < |keys| && keys[at] == Digits(i);
      NamedOnce(order, ElementOrNull(items, i), layer, keys, i, at);
    } else {
      forall j | 0 <= j < |keys| ensures keys[j] != Digits(i) {
        assert keys[j] in keys;
      }
      NotNamed(order, ElementOrNull(items, i), layer, keys, i);
    }
  }

  lemma IndexMapLength(order: Order, items: seq<Value>, layer: Value)
    requires Enumerates(order) && layer.Obj? && IsIndexMap(layer.members)
    ensures var extent := Extent(layer.members.Keys);
            |LaidOver(order, items, layer, order(layer.members.Keys))| == (if |items| < extent then extent else |items|)
  {
    var keys := order(layer.members.Keys);
    assert ListsKeys(keys, layer.members.Keys);
    forall j | 0 <= j < |keys| ensures keys[j] in layer.members {
      assert keys[j] in keys;
    }
    ReachIsExtent(keys, layer.members.Keys);
    LaidOverLength(order, items, layer, keys);
  }

  lemma IndexMapInAnyOrder(order: Order, base: Value, layer: Value)
    requires Enumerates(order) && CanonicalKeys(layer) && base.Arr? && layer.Obj? && IsIndexMap(layer.members)
    ensures MergeBy(order, base, layer) == Merge(base, layer)
    decreases layer, 1, 0
  {
    var b := base.items;
    IndexMapLength(order, b, layer);
    var byKeys, atOnce := MergeBy(order, base, layer).items, Merge(base, layer).items;
    assert |byKeys| == |atOnce|;
    forall i: nat | i < |byKeys| ensures byKeys[i] == atOnce[i] {
      IndexMapElement(order, b, layer, i);
      if Digits(i) in layer.members {
        InAnyOrder(order, ElementOrNull(b, i), layer.members[Digits(i)]);
      }
    }
  }

  /** With indices written as they are printed, the merge in any order is the merge. */
  lemma {:induction false} InAnyOrder(order: Order, base: Value, layer: Value)
    requires Enumerates(order) && CanonicalKeys(layer)
    ensures MergeBy(order, base, layer) == Merge(base, layer)
    decreases layer, 2, 0
  {
    if Merging(base, layer) {
      if base.Obj? {
        var b, l := base.members, layer.members;
        forall k | k in b && k in l ensures MergeBy(order, b[k], l[k]) == Merge(b[k], l[k]) {
          InAnyOrder(order, b[k], l[k]);
        }
        assert MergeBy(order, base, layer).members == Merge(base, layer).members;
      } else if layer.Arr? {
        var b, l := base.items, layer.items;
        forall i | 0 <= i < |b| && i < |l| ensures MergeBy(order, b[i], l[i]) == Merge(b[i], l[i]) {
          InAnyOrder(order, b[i], l[i]);
        }
        assert MergeBy(order, base, layer).items == Merge(base, layer).items;
      } else {
        IndexMapInAnyOrder(order, base, layer);
      }
    }
  }

  /** Laying a tree over itself changes nothing, key by key in any order as all at once. */
  lemma {:induction false} MergeSelf(order: Order, v: Value)
    ensures Merge(v, v) == v && MergeBy(order, v, v) == v
    decreases v
  {
    match v
    case Obj(members) =>
      forall k | k in members ensures Merge(members[k], members[k]) == members[k]
        ensures MergeBy(order, members[k], members[k]) == members[k]
      {
        MergeSelf(order, members[k]);
      }
      assert Merge(v, v).members == members && MergeBy(order, v, v).members == members;
    case Arr(items) =>
      forall i | 0 <= i < |items| ensures Merge(items[i], items[i]) == items[i]
        ensures MergeBy(order, items[i], items[i]) == items[i]
      {
        MergeSelf(order, items[i]);
      }
      assert Merge(v, v).items == items && MergeBy(order, v, v).items == items;
    case _ =>
  }
}
