/** What can be read from one tree laid over another, and exactly when it is what was meant. */
module ConfigMergeLaw {
  import opened Options
  import opened Text
  import opened ConfigTree
  import opened ConfigLayers

  /** The later layer's value where it has one. */
  function Over(later: Option<string>, earlier: Option<string>): Option<string> {
    if later.Some? then later else earlier
  }

  /** The merge law: every path reads the layer's value where it has one, and otherwise the base's. */
  ghost predicate LayersRead(base: Value, layer: Value)
  {
    forall path | CanonicalPath(path) ::
      TextAt(Merge(base, layer), path) == Over(TextAt(layer, path), TextAt(base, path))
  }

  /** Wherever `base` has a value, `layer` has one too. */
  ghost predicate Covered(base: Value, layer: Value)
    decreases base
  {
    && (AsText(base).Some? ==> AsText(layer).Some?)
    && forall s :: Canonical(s) && Child(base, s).Some? ==> Covered(Child(base, s).value, ChildOrNull(layer, s))
  }

  /** Two trees whose shapes meet: where a layer's value must replace the base's, it covers it. */
  ghost predicate Compatible(base: Value, layer: Value)
    decreases layer
  {
    if Merging(base, layer)
    then forall s :: Canonical(s) && Child(layer, s).Some? ==> Compatible(ChildOrNull(base, s), Child(layer, s).value)
    else Covered(base, layer)
  }

  // ------------------------------------------------------------------
  // One segment down
  // ------------------------------------------------------------------

  lemma IndexMapElement(base: Value, layer: Value, i: nat)
    requires base.Arr? && layer.Obj? && IsIndexMap(layer.members) && i <= MAX_INDEX
    ensures ElementOrNull(Merge(base, layer).items, i) ==
            if Digits(i) in layer.members then Merge(ElementOrNull(base.items, i), layer.members[Digits(i)])
            else ElementOrNull(base.items, i)
  {
    IndexRoundTrip(i);
    assert Digits(i) in layer.members ==> i < Extent(layer.members.Keys);
  }

  lemma IndexMapChild(base: Value, layer: Value, s: string)
    requires base.Arr? && layer.Obj? && IsIndexMap(layer.members) && CanonicalKeys(layer) && Canonical(s)
    ensures ChildOrNull(Merge(base, layer), s) ==
            if Child(layer, s).None? then ChildOrNull(base, s) else Merge(ChildOrNull(base, s), Child(layer, s).value)
  {
    if ParseIndex(s).Some? {
      IndexMapElement(base, layer, ParseIndex(s).value);
    }
  }

  /** A merge of two collections is merged segment by segment. */
  lemma MergeChild(base: Value, layer: Value, s: string)
    requires Merging(base, layer) && CanonicalKeys(layer) && Canonical(s)
    ensures ChildOrNull(Merge(base, layer), s) ==
            if Child(layer, s).None? then ChildOrNull(base, s) else Merge(ChildOrNull(base, s), Child(layer, s).value)
    ensures AsText(Merge(base, layer)).None? && AsText(base).None? && AsText(layer).None?
  {
    if base.Arr? && layer.Obj? {
      IndexMapChild(base, layer, s);
    }
  }

  // ------------------------------------------------------------------
  // Covering
  // ------------------------------------------------------------------

  lemma {:induction false} CoveredReads(base: Value, layer: Value, path: seq<string>)
    requires Covered(base, layer) && CanonicalPath(path) && TextAt(base, path).Some?
    ensures TextAt(layer, path).Some?
    decreases |path|
  {
    if path != [] {
      CoveredReads(Child(base, path[0]).value, ChildOrNull(layer, path[0]), path[1..]);
      LookupChild(layer, path);
    }
  }

  lemma {:induction false} ReadsCovered(base: Value, layer: Value)
    requires forall path :: CanonicalPath(path) && TextAt(base, path).Some? ==> TextAt(layer, path).Some?
    ensures Covered(base, layer)
    decreases base
  {
    assert TextAt(base, []).Some? ==> TextAt(layer, []).Some?;
    forall s | Canonical(s) && Child(base, s).Some? ensures Covered(Child(base, s).value, ChildOrNull(layer, s)) {
      forall path | CanonicalPath(path) && TextAt(Child(base, s).value, path).Some?
        ensures TextAt(ChildOrNull(layer, s), path).Some?
      {
        var longer := [s] + path;
        assert longer[1..] == path;
        assert CanonicalPath(longer);
        assert TextAt(base, longer).Some?;
        LookupChild(layer, longer);
      }
      ReadsCovered(Child(base, s).value, ChildOrNull(layer, s));
    }
  }

  // ------------------------------------------------------------------
  // The law
  // ------------------------------------------------------------------

  lemma {:induction false} MergeReads(base: Value, layer: Value, path: seq<string>)
    requires CanonicalKeys(layer) && Compatible(base, layer) && CanonicalPath(path)
    ensures TextAt(Merge(base, layer), path) == Over(TextAt(layer, path), TextAt(base, path))
    decreases |path|
  {
    if !Merging(base, layer) {
      if TextAt(base, path).Some? {
        CoveredReads(base, layer, path);
      }
    } else if path == [] {
      MergeChild(base, layer, "");
    } else {
      var s, rest := path[0], path[1..];
      MergeChild(base, layer, s);
      LookupChild(Merge(base, layer), path);
      LookupChild(base, path);
      LookupChild(layer, path);
      if Child(layer, s).Some? {
        MergeReads(ChildOrNull(base, s), Child(layer, s).value, rest);
      }
    }
  }

  lemma LawBelow(base: Value, layer: Value, s: string)
    requires CanonicalKeys(layer) && LayersRead(base, layer) && Merging(base, layer)
    requires Canonical(s) && Child(layer, s).Some?
    ensures LayersRead(ChildOrNull(base, s), Child(layer, s).value)
  {
    MergeChild(base, layer, s);
    forall path | CanonicalPath(path)
      ensures TextAt(Merge(ChildOrNull(base, s), Child(layer, s).value), path)
           == Over(TextAt(Child(layer, s).value, path), TextAt(ChildOrNull(base, s), path))
    {
      var longer := [s] + path;
      assert longer[1..] == path;
      assert CanonicalPath(longer);
      LookupChild(Merge(base, layer), longer);
      LookupChild(base, longer);
      LookupChild(layer, longer);
    }
  }

  lemma {:induction false} LawMakesCompatible(base: Value, layer: Value)
    requires CanonicalKeys(layer) && LayersRead(base, layer)
    ensures Compatible(base, layer)
    decreases layer
  {
    if Merging(base, layer) {
      forall s | Canonical(s) && Child(layer, s).Some?
        ensures Compatible(ChildOrNull(base, s), Child(layer, s).value)
      {
        LawBelow(base, layer, s);
        LawMakesCompatible(ChildOrNull(base, s), Child(layer, s).value);
      }
    } else {
      forall path | CanonicalPath(path) && TextAt(base, path).Some? ensures TextAt(layer, path).Some? {
        assert TextAt(Merge(base, layer), path) == TextAt(layer, path);
      }
      ReadsCovered(base, layer);
    }
  }

  /** The law holds exactly when the shapes meet. */
  lemma MergeLaw(base: Value, layer: Value)
    requires CanonicalKeys(layer)
    ensures LayersRead(base, layer) <==> Compatible(base, layer)
  {
    if Compatible(base, layer) {
      forall path | CanonicalPath(path)
        ensures TextAt(Merge(base, layer), path) == Over(TextAt(layer, path), TextAt(base, path))
      {
        MergeReads(base, layer, path);
      }
    }
    if LayersRead(base, layer) {
      LawMakesCompatible(base, layer);
    }
  }

  // ------------------------------------------------------------------
  // A stack of layers
  // ------------------------------------------------------------------

  ghost function Stacked(base: Value, layers: seq<Value>): Value
    decreases |layers|
  {
    if layers == [] then base else Stacked(Merge(base, layers[0]), layers[1..])
  }

  ghost predicate AllCompatible(base: Value, layers: seq<Value>)
    decreases |layers|
  {
    layers == []
    || (CanonicalKeys(layers[0]) && Compatible(base, layers[0]) && AllCompatible(Merge(base, layers[0]), layers[1..]))
  }

  /** What the last of the layers that has a value at the path says. */
  function LastReading(earlier: Option<string>, layers: seq<Value>, path: seq<string>): Option<string>
    decreases |layers|
  {
    if layers == [] then earlier else LastReading(Over(TextAt(layers[0], path), earlier), layers[1..], path)
  }

  /** Files, secrets and environment in turn: the last layer with a value wins. */
  lemma {:induction false} StackReads(base: Value, layers: seq<Value>, path: seq<string>)
    requires AllCompatible(base, layers) && CanonicalPath(path)
    ensures TextAt(Stacked(base, layers), path) == LastReading(TextAt(base, path), layers, path)
    decreases |layers|
  {
    if layers != [] {
      MergeReads(base, layers[0], path);
      StackReads(Merge(base, layers[0]), layers[1..], path);
    }
  }

  /** It fails where a layer's scalar meets a section, whose members are lost. */
  lemma ScalarOverSectionLoses()
    ensures var base := Obj(map["logging" := Obj(map["level" := Str("warn")])]);
            var layer := Obj(map["logging" := Str("off")]);
            && CanonicalKeys(layer) && CanonicalPath(["logging", "level"])
            && TextAt(base, ["logging", "level"]) == Some("warn")
            && TextAt(layer, ["logging", "level"]) == None
            && TextAt(Merge(base, layer), ["logging", "level"]) == None
  {
    var base := Obj(map["logging" := Obj(map["level" := Str("warn")])]);
    var layer := Obj(map["logging" := Str("off")]);
    var path := ["logging", "level"];
    assert path[1..] == ["level"];
    assert ParseIndex("logging").None? by { assert !IsDigit("logging"[0]); }
    assert ParseIndex("level").None? by { assert !IsDigit("level"[0]); }
    var inner := Child(base, "logging").value;
    assert Child(inner, "level") == Some(Str("warn"));
    assert Lookup(inner, ["level"]) == Some(Str("warn")) by { assert ["level"][1..] == []; }
    assert Merge(base, layer).members["logging"] == Str("off");
  }
}
