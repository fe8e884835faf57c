/** The environment's layer read back, and what one variable of it overrides. */
module ConfigOverride {
  import opened Options
  import opened Text
  import opened ConfigTree
  import opened ConfigLayers
  import opened ConfigMergeLaw
  import opened ConfigEnvironment
  import opened ConfigArrays

  /** The environment's layer. */
  ghost function EnvironmentLayer(variables: seq<Variable>): Value {
    NumericMapsToArrays(Obj(Tree(variables)))
  }

  /** The variables as the process lists them, by name and value. */
  function Variables(environment: seq<(string, string)>): seq<Variable> {
    seq(|environment|, i requires 0 <= i < |environment| => FromEnvironment(environment[i].0, environment[i].1))
  }

  method LoadEnvironment(environment: seq<(string, string)>) returns (layer: Value)
    ensures layer == EnvironmentLayer(Variables(environment))
  {
    ghost var variables := Variables(environment);
    var root: Members := map[];
    for i := 0 to |environment|
      invariant root == Tree(variables[..i])
    {
      var variable := FromEnvironment(environment[i].0, environment[i].1);
      ghost var next := variables[..i + 1];
      assert next[..i] == variables[..i] && next[i] == variable;
      FoldInsertOne(map[], next);
      root := InsertAt(root, variable.path, Str(variable.text));
    }
    assert variables[..|environment|] == variables;
    layer := ConvertNumericMaps(Obj(root));
  }

  /** Every order in which the environment lists its variables gives one layer. */
  lemma LayerOrderIndependent(variables: seq<Variable>, other: seq<Variable>)
    requires multiset(variables) == multiset(other) && PrefixFree(variables)
    ensures EnvironmentLayer(variables) == EnvironmentLayer(other)
  {
    TreeOrderIndependent(variables, other);
  }

  /** Every variable reads back at its path, however its index maps were rewritten. */
  lemma LayerReadsBack(variables: seq<Variable>, i: nat)
    requires PrefixFree(variables) && i < |variables| && variables[i].path != []
    ensures TextAt(EnvironmentLayer(variables), variables[i].path) == Some(variables[i].text)
  {
    TreeReadsBack(variables, i);
    ConversionKeepsLookups(Obj(Tree(variables)), variables[i].path);
  }

  /** The parts of a name, and the same parts in lower case. */
  ghost predicate PathOfName(name: string, parts: seq<string>, path: seq<string>) {
    && JoinedBy(parts, "__") == name && SplitFromTheLeft(parts)
    && |path| == |parts| && forall i :: 0 <= i < |parts| ==> path[i] == Lowercase(parts[i])
  }

  /** What the process lists under a name is read at the parts of the name between its double underscores. */
  lemma NamedVariableReads(environment: seq<(string, string)>, i: nat) returns (parts: seq<string>, path: seq<string>)
    requires PrefixFree(Variables(environment)) && i < |environment|
    ensures PathOfName(environment[i].0, parts, path)
    ensures TextAt(EnvironmentLayer(Variables(environment)), path) == Some(environment[i].1)
  {
    parts := Parts(environment[i].0);
    path := AllLowercase(parts);
    PartsRejoin(environment[i].0);
    LayerReadsBack(Variables(environment), i);
  }

  lemma {:induction false} InsertKeepsCanonical(root: Members, p: seq<string>, text: string)
    requires CanonicalKeys(Obj(root)) && CanonicalPath(p)
    ensures CanonicalKeys(Obj(InsertAt(root, p, Str(text))))
    decreases |p|
  {
    if p != [] {
      InsertTouchesHead(root, p, Str(text));
      if |p| > 1 {
        var section := SectionAt(root, p[0]);
        assert CanonicalKeys(Obj(section)) by {
          assert p[0] in root ==> CanonicalKeys(root[p[0]]);
        }
        InsertKeepsCanonical(section, p[1..], text);
      }
    }
  }

  lemma {:induction false} TreeCanonical(variables: seq<Variable>)
    requires forall i :: 0 <= i < |variables| ==> CanonicalPath(variables[i].path)
    ensures CanonicalKeys(Obj(Tree(variables)))
    decreases |variables|
  {
    if variables != [] {
      var n := |variables| - 1;
      FoldInsertOne(map[], variables);
      TreeCanonical(variables[..n]);
      InsertKeepsCanonical(Tree(variables[..n]), variables[n].path, variables[n].text);
    }
  }

  /** The layer's texts are the variables' and no others. */
  lemma LayerReadsExactly(variables: seq<Variable>, path: seq<string>, text: string)
    requires PrefixFree(variables) && CanonicalPath(path)
    requires forall i :: 0 <= i < |variables| ==> variables[i].path != [] && CanonicalPath(variables[i].path)
    ensures TextAt(EnvironmentLayer(variables), path) == Some(text) <==> Variable(path, text) in variables
  {
    var tree := Obj(Tree(variables));
    if Variable(path, text) in variables {
      var i :| 0 <= i < |variables| && variables[i] == Variable(path, text);
      LayerReadsBack(variables, i);
    }
    if TextAt(EnvironmentLayer(variables), path) == Some(text) {
      TreeCanonical(variables);
      if Lookup(tree, path).None? {
        ConversionAddsNoLookups(tree, path);
      } else {
        ConversionKeepsLookups(tree, path);
        TreeReadsOnlyVariables(variables, path);
      }
    }
  }

  // ------------------------------------------------------------------
  // One variable over what is there
  // ------------------------------------------------------------------

  /** One variable's layer: at each segment an object with one member, or, for index zero, an array of one. */
  ghost function Spine(path: seq<string>, text: string): Value
    decreases |path|
  {
    if path == [] then Str(text)
    else if ParseIndex(path[0]) == Some(0) then Arr([Spine(path[1..], text)])
    else Obj(map[path[0] := Spine(path[1..], text)])
  }

  lemma {:induction false} OneVariableIsSpine(path: seq<string>, text: string)
    requires path != []
    ensures NumericMapsToArrays(Obj(InsertAt(map[], path, Str(text)))) == Spine(path, text)
    decreases |path|
  {
    var nested := if |path| == 1 then Str(text) else Obj(InsertAt(map[], path[1..], Str(text)));
    var root: Members := InsertAt(map[], path, Str(text));
    assert root == map[path[0] := nested];
    if |path| > 1 {
      OneVariableIsSpine(path[1..], text);
    }
    assert NumericMapsToArrays(nested) == Spine(path[1..], text);
    var converted: Members := map k | k in root :: NumericMapsToArrays(root[k]);
    assert converted == map[path[0] := Spine(path[1..], text)];
    SingletonSequence(path[0], Spine(path[1..], text));
  }

  lemma LayerIsSpine(path: seq<string>, text: string)
    requires path != []
    ensures EnvironmentLayer([Variable(path, text)]) == Spine(path, text)
  {
    var one := [Variable(path, text)];
    FoldInsertOne(map[], one);
    assert one[..0] == [];
    OneVariableIsSpine(path, text);
  }

  /** The tree reads text at the path and nowhere else. */
  ghost predicate LoneText(v: Value, path: seq<string>) {
    forall other :: CanonicalPath(other) && TextAt(v, other).Some? ==> other == path
  }

  /**
   Nowhere along the path does a segment that reads as index zero name a member of an object,
   unless that object holds nothing but the value at the path.
   */
  ghost predicate Steady(base: Value, path: seq<string>)
    decreases |path|
  {
    path == []
    || (if base.Obj? && ParseIndex(path[0]) == Some(0) then LoneText(base, path)
        else Steady(ChildOrNull(base, path[0]), path[1..]))
  }

  /** A variable changes what is read at its path, and nothing else. */
  ghost predicate ChangesOnly(base: Value, path: seq<string>, text: string)
  {
    forall other | CanonicalPath(other) ::
      TextAt(Merge(base, EnvironmentLayer([Variable(path, text)])), other)
      == if other == path then Some(text) else TextAt(base, other)
  }

  lemma SpineReads(path: seq<string>, text: string, other: seq<string>)
    requires path != [] && CanonicalPath(path) && CanonicalPath(other)
    ensures TextAt(Spine(path, text), other) == if other == path then Some(text) else None
  {
    LayerIsSpine(path, text);
    var one := [Variable(path, text)];
    assert PrefixFree(one);
    LayerReadsExactly(one, other, TextAt(Spine(path, text), other).GetOr(""));
    LayerReadsExactly(one, other, text);
  }

  lemma {:induction false} SpineCanonical(path: seq<string>, text: string)
    requires CanonicalPath(path)
    ensures CanonicalKeys(Spine(path, text))
    decreases |path|
  {
    if path != [] {
      SpineCanonical(path[1..], text);
    }
  }

  lemma SpineChild(path: seq<string>, text: string, s: string)
    requires path != [] && CanonicalPath(path) && Canonical(s)
    ensures Child(Spine(path, text), s) == if s == path[0] then Some(Spine(path[1..], text)) else None
  {
    assert Canonical(path[0]);
  }

  lemma CoveredBySpine(base: Value, path: seq<string>, text: string)
    requires path != [] && CanonicalPath(path)
    ensures Covered(base, Spine(path, text)) <==> LoneText(base, path)
  {
    if Covered(base, Spine(path, text)) {
      forall other | CanonicalPath(other) && TextAt(base, other).Some? ensures other == path {
        CoveredReads(base, Spine(path, text), other);
        SpineReads(path, text, other);
      }
    }
    if LoneText(base, path) {
      forall other | CanonicalPath(other) && TextAt(base, other).Some? ensures TextAt(Spine(path, text), other).Some? {
        SpineReads(path, text, other);
      }
      ReadsCovered(base, Spine(path, text));
    }
  }

  lemma {:induction false} CompatibleIsSteady(base: Value, path: seq<string>, text: string)
    requires CanonicalPath(path) && TextAt(base, path).Some?
    ensures Compatible(base, Spine(path, text)) <==> Steady(base, path)
    decreases |path|
  {
    var spine := Spine(path, text);
    if path == [] {
      assert !Merging(base, spine);
      assert forall s :: Child(base, s).None?;
    } else if base.Obj? && ParseIndex(path[0]) == Some(0) {
      CoveredBySpine(base, path, text);
    } else {
      assert Child(base, path[0]).Some?;
      assert spine.Obj? ==> path[0] in spine.members;
      assert Merging(base, spine);
      LookupChild(base, path);
      CompatibleIsSteady(ChildOrNull(base, path[0]), path[1..], text);
      SpineChild(path, text, path[0]);
      forall s | Canonical(s) && Child(spine, s).Some?
        ensures s == path[0] && Child(spine, s).value == Spine(path[1..], text)
      {
        SpineChild(path, text, s);
      }
    }
  }

  /** One variable naming an existing value changes that value and no other, exactly when the base is steady there. */
  lemma OneVariableOverrides(base: Value, path: seq<string>, text: string)
    requires path != [] && CanonicalPath(path) && TextAt(base, path).Some?
    ensures ChangesOnly(base, path, text) <==> Steady(base, path)
  {
    var layer := Spine(path, text);
    LayerIsSpine(path, text);
    SpineCanonical(path, text);
    MergeLaw(base, layer);
    CompatibleIsSteady(base, path, text);
    forall other | CanonicalPath(other)
      ensures Over(TextAt(layer, other), TextAt(base, other)) ==
              if other == path then Some(text) else TextAt(base, other)
    {
      SpineReads(path, text, other);
    }
  }

  /** The base's index-keyed collections are arrays. */
  ghost predicate NoIndexMaps(v: Value)
  {
    match v
    case Obj(members) => forall k :: k in members ==> ParseIndex(k).None? && NoIndexMaps(members[k])
    case Arr(items) => forall i :: 0 <= i < |items| ==> NoIndexMaps(items[i])
    case _ => true
  }

  // ------------------------------------------------------------------
  // Many variables over such a base
  // ------------------------------------------------------------------

  /** Text, or a collection of nothing but such values, and not an empty one. */
  ghost predicate Laden(v: Value)
  {
    match v
    case Obj(members) => members != map[] && forall k :: k in members ==> Laden(members[k])
    case Arr(items) => items != [] && forall i :: 0 <= i < |items| ==> Laden(items[i])
    case _ => AsText(v).Some?
  }

  lemma {:induction false} LadenReads(v: Value) returns (path: seq<string>)
    requires Laden(v) && CanonicalKeys(v)
    ensures CanonicalPath(path) && TextAt(v, path).Some?
    decreases v
  {
    match v
    case Obj(members) =>
      var k :| k in members;
      var rest := LadenReads(members[k]);
      path := [k] + rest;
      assert path[1..] == rest;
    case Arr(items) =>
      IndexRoundTrip(0);
      var rest := LadenReads(items[0]);
      path := [Digits(0)] + rest;
      assert path[1..] == rest;
    case _ => path := [];
  }

  /** Every value of the layer names one of the base's. */
  ghost predicate NamesExisting(base: Value, layer: Value) {
    forall path :: CanonicalPath(path) && TextAt(layer, path).Some? ==> TextAt(base, path).Some?
  }

  lemma NamesExistingBelow(base: Value, layer: Value, s: string)
    requires NamesExisting(base, layer) && Canonical(s) && Child(layer, s).Some?
    ensures NamesExisting(ChildOrNull(base, s), Child(layer, s).value)
  {
    forall path | CanonicalPath(path) && TextAt(Child(layer, s).value, path).Some?
      ensures TextAt(ChildOrNull(base, s), path).Some?
    {
      var longer := [s] + path;
      assert longer[1..] == path;
      LookupChild(layer, longer);
      LookupChild(base, longer);
      assert TextAt(base, longer).Some?;
    }
  }

  lemma NamedChildExists(base: Value, layer: Value, s: string)
    requires NamesExisting(base, layer) && Canonical(s) && Child(layer, s).Some?
    requires Laden(Child(layer, s).value) && CanonicalKeys(Child(layer, s).value)
    ensures Child(base, s).Some?
  {
    NamesExistingBelow(base, layer, s);
    var path := LadenReads(Child(layer, s).value);
    assert TextAt(ChildOrNull(base, s), path).Some?;
    assert TextAt(Null, path).None?;
  }

  lemma LadenMerges(base: Value, layer: Value)
    requires NoIndexMaps(base) && Laden(layer) && CanonicalKeys(layer) && NamesExisting(base, layer)
    requires layer.Obj? || layer.Arr?
    ensures Merging(base, layer)
  {
    if layer.Obj? {
      forall k | k in layer.members ensures Child(base, k).Some? {
        NamedChildExists(base, layer, k);
      }
      assert layer.members.Keys != {};
      var k :| k in layer.members.Keys;
      assert Child(base, k).Some?;
    } else {
      IndexRoundTrip(0);
      NamedChildExists(base, layer, Digits(0));
    }
  }

  /** Such a layer meets the shape of a base without index maps wherever it goes. */
  lemma {:induction false} LadenFits(base: Value, layer: Value)
    requires NoIndexMaps(base) && Laden(layer) && CanonicalKeys(layer) && NamesExisting(base, layer)
    ensures Compatible(base, layer)
    decreases layer
  {
    if layer.Obj? || layer.Arr? {
      LadenMerges(base, layer);
      forall s | Canonical(s) && Child(layer, s).Some? ensures Compatible(ChildOrNull(base, s), Child(layer, s).value) {
        NamesExistingBelow(base, layer, s);
        LadenFits(ChildOrNull(base, s), Child(layer, s).value);
      }
    } else {
      assert TextAt(layer, []).Some?;
      assert TextAt(base, []).Some?;
      assert forall s :: Child(base, s).None?;
    }
  }

  lemma {:induction false} InsertKeepsLaden(root: Members, p: seq<string>, text: string)
    requires p != [] && forall k :: k in root ==> Laden(root[k])
    ensures Laden(Obj(InsertAt(root, p, Str(text))))
    decreases |p|
  {
    InsertTouchesHead(root, p, Str(text));
    assert p[0] in InsertAt(root, p, Str(text));
    if |p| > 1 {
      assert p[0] in root ==> Laden(root[p[0]]);
      InsertKeepsLaden(SectionAt(root, p[0]), p[1..], text);
    }
  }

  lemma {:induction false} TreeLaden(variables: seq<Variable>)
    requires forall i :: 0 <= i < |variables| ==> variables[i].path != []
    ensures variables != [] ==> Laden(Obj(Tree(variables)))
    ensures forall k :: k in Tree(variables) ==> Laden(Tree(variables)[k])
    decreases |variables|
  {
    if variables != [] {
      var n := |variables| - 1;
      FoldInsertOne(map[], variables);
      TreeLaden(variables[..n]);
      InsertKeepsLaden(Tree(variables[..n]), variables[n].path, variables[n].text);
    }
  }

  lemma {:induction false} ConversionKeepsLaden(v: Value)
    requires Laden(v)
    ensures Laden(NumericMapsToArrays(v))
    decreases v
  {
    match v
    case Obj(members) =>
      var converted := Converted(members);
      forall k | k in members ensures Laden(converted[k]) {
        ConversionKeepsLaden(members[k]);
      }
      assert converted.Keys == members.Keys && members.Keys != {};
      if Dense(converted) {
        forall i | 0 <= i < |converted| ensures Laden(IndexSequence(converted).value[i]) {
          assert KeyAt(converted, i) in converted;
        }
        assert |converted| > 0;
      }
    case Arr(items) =>
      forall i | 0 <= i < |items| ensures Laden(NumericMapsToArrays(items[i])) {
        ConversionKeepsLaden(items[i]);
      }
      assert NumericMapsToArrays(v).items != [] by {
        assert |NumericMapsToArrays(v).items| == |items|;
      }
    case _ =>
  }

  lemma EnvironmentFits(base: Value, variables: seq<Variable>)
    requires base.Obj? && NoIndexMaps(base) && PrefixFree(variables)
    requires forall i :: 0 <= i < |variables| ==>
               variables[i].path != [] && CanonicalPath(variables[i].path) && TextAt(base, variables[i].path).Some?
    ensures CanonicalKeys(EnvironmentLayer(variables)) && Compatible(base, EnvironmentLayer(variables))
  {
    var layer := EnvironmentLayer(variables);
    TreeCanonical(variables);
    ConversionKeepsCanonical(Obj(Tree(variables)));
    if variables == [] {
      EmptyLayer();
    } else {
      TreeLaden(variables);
      ConversionKeepsLaden(Obj(Tree(variables)));
      forall path | CanonicalPath(path) && TextAt(layer, path).Some? ensures TextAt(base, path).Some? {
        LayerReadsExactly(variables, path, TextAt(layer, path).value);
        var i :| 0 <= i < |variables| && variables[i] == Variable(path, TextAt(layer, path).value);
      }
      LadenFits(base, layer);
    }
  }

  lemma EmptyLayer()
    ensures EnvironmentLayer([]) == Obj(map[])
  {
    assert Converted(map[]) == map[];
    assert IndexSequence(map[]).None?;
  }

  /**
   Over a base whose indexed collections are arrays, any variables that name existing values
   change those values and no others, sparse index maps or not.
   */
  lemma VariablesOverride(base: Value, variables: seq<Variable>, path: seq<string>)
    requires base.Obj? && NoIndexMaps(base) && PrefixFree(variables) && CanonicalPath(path)
    requires forall i :: 0 <= i < |variables| ==>
               variables[i].path != [] && CanonicalPath(variables[i].path) && TextAt(base, variables[i].path).Some?
    ensures var merged := Merge(base, EnvironmentLayer(variables));
            && (forall text :: Variable(path, text) in variables ==> TextAt(merged, path) == Some(text))
            && ((forall text :: Variable(path, text) !in variables) ==> TextAt(merged, path) == TextAt(base, path))
  {
    var layer := EnvironmentLayer(variables);
    EnvironmentFits(base, variables);
    MergeReads(base, layer, path);
    forall text | Variable(path, text) in variables ensures TextAt(layer, path) == Some(text) {
      LayerReadsExactly(variables, path, text);
    }
    if TextAt(layer, path).Some? {
      LayerReadsExactly(variables, path, TextAt(layer, path).value);
    }
  }

  /** Over such a base every variable naming an existing value changes it alone, sparse index map or not. */
  lemma {:induction false} ArraysAreSteady(base: Value, path: seq<string>)
    requires NoIndexMaps(base) && TextAt(base, path).Some?
    ensures Steady(base, path)
    decreases |path|
  {
    if path != [] {
      LookupChild(base, path);
      ArraysAreSteady(Child(base, path[0]).value, path[1..]);
    }
  }

  lemma SparseMapReads(base: Value)
    requires base == Obj(map["a" := Obj(map["0" := Str("x"), "2" := Str("y")])])
    ensures TextAt(base, ["a", "0"]) == Some("x") && TextAt(base, ["a", "2"]) == Some("y")
  {
    var inner := Obj(map["0" := Str("x"), "2" := Str("y")]);
    TwoDown(base, "0", inner);
    TwoDown(base, "2", inner);
  }

  /** Over a sparse map it fails: `0` alone reads as an array, and replaces the map. */
  lemma SparseMapIsLost(base: Value)
    requires base == Obj(map["a" := Obj(map["0" := Str("x"), "2" := Str("y")])])
    ensures TextAt(base, ["a", "0"]) == Some("x") && TextAt(base, ["a", "2"]) == Some("y")
    ensures TextAt(Merge(base, EnvironmentLayer([Variable(["a", "0"], "z")])), ["a", "2"]) == None
  {
    SparseMapReads(base);
    LayerIsSpine(["a", "0"], "z");
    SpineOfTwo();
    ArrayReplacesMap(base, base.members["a"]);
  }

  lemma SparseMapIsNotSteady(base: Value)
    requires base == Obj(map["a" := Obj(map["0" := Str("x"), "2" := Str("y")])])
    ensures !Steady(base, ["a", "0"])
  {
    SmallIndices();
    NotAlone(base.members["a"]);
    assert ["a", "0"][1..] == ["0"];
  }

  lemma NotAlone(inner: Value)
    requires inner.Obj? && "2" in inner.members && inner.members["2"] == Str("y")
    ensures !LoneText(inner, ["0"])
  {
    SmallIndices();
    assert Lookup(inner, ["2"]) == Some(Str("y")) by { assert ["2"][1..] == []; }
    assert TextAt(inner, ["2"]).Some? && CanonicalPath(["2"]);
  }

  lemma ArrayReplacesMap(base: Value, inner: Value)
    requires base == Obj(map["a" := inner]) && inner.Obj?
    ensures TextAt(Merge(base, Obj(map["a" := Arr([Str("z")])])), ["a", "2"]) == None
  {
    SmallIndices();
    var merged := Merge(base, Obj(map["a" := Arr([Str("z")])]));
    TwoDown(merged, "2", Arr([Str("z")]));
  }

  lemma TwoDown(v: Value, s: string, inner: Value)
    requires v.Obj? && "a" in v.members && v.members["a"] == inner
    ensures TextAt(v, ["a", s]) == AsText(ChildOrNull(inner, s))
  {
    assert ["a", s][1..] == [s] && [s][1..] == [];
    LookupChild(v, ["a", s]);
    LookupChild(inner, [s]);
  }

  lemma SpineOfTwo()
    ensures Spine(["a", "0"], "z") == Obj(map["a" := Arr([Str("z")])])
  {
    SmallIndices();
    assert ["a", "0"][1..] == ["0"] && ["0"][1..] == [];
    assert Spine(["0"], "z") == Arr([Str("z")]);
  }

  lemma SmallIndices()
    ensures ParseIndex("a") == None && ParseIndex("0") == Some(0) && ParseIndex("2") == Some(2)
    ensures Canonical("a") && Canonical("0") && Canonical("2")
  {
    assert !IsDigit("a"[0]);
    IndexRoundTrip(0);
    IndexRoundTrip(2);
    assert Digits(0) == "0" && Digits(2) == "2";
  }
}
