/** From the configuration files and the environment to what `get_string` reads. */
module ConfigLoad {
  import opened Options
  import opened Text
  import opened ConfigTree
  import opened ConfigLayers
  import opened ConfigMergeLaw
  import opened ConfigEnvironment
  import opened ConfigJson
  import opened ConfigArrays
  import opened ConfigOverride

  /** The files' layers in turn, then the environment's. */
  ghost function Layers(files: seq<Value>, order: Order, variables: seq<Variable>): seq<Value> {
    seq(|files|, i requires 0 <= i < |files| => LowercaseKeys(files[i], order)) + [EnvironmentLayer(variables)]
  }

  ghost function StackedBy(order: Order, base: Value, layers: seq<Value>): Value
    decreases |layers|
  {
    if layers == [] then base else MergeBy(order, StackedBy(order, base, layers[..|layers| - 1]), layers[|layers| - 1])
  }

  /** `load_layers`, from the files' JSON and the process's variables. */
  method Load(files: seq<Value>, environment: seq<(string, string)>, order: Order) returns (merged: Value)
    requires Enumerates(order)
    ensures merged == StackedBy(order, Obj(map[]), Layers(files, order, Variables(environment)))
  {
    ghost var layers := Layers(files, order, Variables(environment));
    merged := Obj(map[]);
    for i := 0 to |files|
      invariant merged == StackedBy(order, Obj(map[]), layers[..i])
    {
      assert layers[..i + 1][..i] == layers[..i];
      var layer := LowercaseAllKeys(files[i], order);
      merged := MergeLayer(merged, layer, order);
    }
    var last := LoadEnvironment(environment);
    merged := MergeLayer(merged, last, order);
    assert layers[..|files|] == layers[..|layers| - 1];
  }

  /** `normalize_key`: every colon a dot, and no capitals. */
  function Normalized(key: string): string {
    seq(|key|, i requires 0 <= i < |key| => if key[i] == ':' then '.' else Lower(key[i]))
  }

  /** The segments a key is read by. */
  function ReadPath(key: string): (r: seq<string>)
    ensures r != []
  {
    SplitOn(Normalized(key), '.')
  }

  /** The keys are the same but for case and for colons written as dots. */
  predicate WrittenAlike(a: string, b: string) {
    && |a| == |b|
    && forall i :: 0 <= i < |a| ==> Lower(a[i]) == Lower(b[i]) || (a[i] in ":." && b[i] in ":.")
  }

  /** `Section:Key` and `section.key` read the same value. */
  lemma EitherFormReads(a: string, b: string)
    requires WrittenAlike(a, b)
    ensures ReadPath(a) == ReadPath(b)
  {
    assert Normalized(a) == Normalized(b);
  }

  lemma NormalizedIsLowercase(key: string)
    requires ':' !in key && '.' !in key
    ensures Normalized(key) == Lowercase(key) && '.' !in Normalized(key)
  {
  }

  lemma {:induction false} OneSegment(s: string, separator: char)
    requires separator !in s
    ensures SplitOn(s, separator) == [s]
  {
    if s != "" {
      OneSegment(s[1..], separator);
      assert s == [s[0]] + s[1..];
    }
  }

  lemma {:induction false} SegmentThenRest(s: string, rest: string, separator: char)
    requires separator !in s
    ensures SplitOn(s + [separator] + rest, separator) == [s] + SplitOn(rest, separator)
  {
    var text := s + [separator] + rest;
    if s == "" {
      assert text[1..] == rest;
    } else {
      SegmentThenRest(s[1..], rest, separator);
      assert text[1..] == s[1..] + [separator] + rest;
      assert s == [s[0]] + s[1..];
    }
  }

  /** A section's name in front of a key, with a colon or a dot, is one segment more. */
  lemma SectionIsASegment(section: string, colon: char, key: string)
    requires ':' !in section && '.' !in section && colon in ":."
    ensures ReadPath(section) == [Lowercase(section)]
    ensures ReadPath(section + [colon] + key) == [Lowercase(section)] + ReadPath(key)
  {
    NormalizedIsLowercase(section);
    OneSegment(Normalized(section), '.');
    SegmentThenRest(Normalized(section), Normalized(key), '.');
    assert Normalized(section + [colon] + key) == Normalized(section) + "." + Normalized(key);
  }

  /** A scalar at the key as text; nothing where there is no value, or `null`, a section or an array. */
  method GetString(merged: Value, key: string) returns (r: Option<string>)
    ensures r == TextAt(merged, ReadPath(key))
    ensures match Lookup(merged, ReadPath(key))
            case None => r == None
            case Some(Str(text)) => r == Some(text)
            case Some(Number(digits)) => r == Some(digits)
            case Some(Flag(true)) => r == Some("true")
            case Some(Flag(false)) => r == Some("false")
            case Some(Null) => r == None
            case Some(Arr(_)) => r == None
            case Some(Obj(_)) => r == None
  {
    var found := ValueAt(merged, ReadPath(key));
    r := if found.Some? then AsText(found.value) else None;
  }

  // ------------------------------------------------------------------
  // What is read
  // ------------------------------------------------------------------

  /** What the last of the files with a value at the path says. */
  ghost predicate FilesSay(files: seq<Value>, path: seq<string>, text: string)
    decreases |files|
  {
    files != []
    && var n := |files| - 1;
       || (exists p :: StandsFor(files[n], p, path, text))
       || ((forall p, other :: !StandsFor(files[n], p, path, other)) && FilesSay(files[..n], path, text))
  }

  ghost predicate Proper(files: seq<Value>, order: Order, variables: seq<Variable>)
  {
    && Enumerates(order) && PrefixFree(variables)
    && (forall i :: 0 <= i < |files| ==> CanonicalParts(files[i]) && KeysSpare(files[i], order))
    && (forall i :: 0 <= i < |variables| ==> variables[i].path != [] && CanonicalPath(variables[i].path))
  }

  lemma {:induction false} LastReadingOneMore(
    earlier: Option<string>, layers: seq<Value>, last: Value, path: seq<string>)
    ensures LastReading(earlier, layers + [last], path) == Over(TextAt(last, path), LastReading(earlier, layers, path))
    decreases |layers|
  {
    if layers == [] {
      assert layers + [last] == [last] && [last][1..] == [];
    } else {
      assert (layers + [last])[1..] == layers[1..] + [last];
      LastReadingOneMore(Over(TextAt(layers[0], path), earlier), layers[1..], last, path);
    }
  }

  lemma {:induction false} FilesRead(files: seq<Value>, order: Order, path: seq<string>, text: string)
    requires Enumerates(order) && CanonicalPath(path)
    requires forall i :: 0 <= i < |files| ==> CanonicalParts(files[i]) && KeysSpare(files[i], order)
    ensures var layers := seq(|files|, i requires 0 <= i < |files| => LowercaseKeys(files[i], order));
            LastReading(None, layers, path) == Some(text) <==> FilesSay(files, path, text)
    decreases |files|
  {
    var layers := seq(|files|, i requires 0 <= i < |files| => LowercaseKeys(files[i], order));
    if files != [] {
      var n := |files| - 1;
      var before := seq(n, i requires 0 <= i < n => LowercaseKeys(files[i], order));
      assert layers == before + [layers[n]];
      assert before == seq(|files[..n]|, i requires 0 <= i < |files[..n]| => LowercaseKeys(files[..n][i], order));
      FilesRead(files[..n], order, path, text);
      LastReadingOneMore(None, before, layers[n], path);
      FileReadsExactly(files[n], order, path, text);
      LastFileSays(files[n], order, path);
    }
  }

  lemma LastFileSays(file: Value, order: Order, path: seq<string>)
    requires Enumerates(order) && CanonicalPath(path) && CanonicalParts(file) && KeysSpare(file, order)
    ensures TextAt(LowercaseKeys(file, order), path).None? <==> forall p, other :: !StandsFor(file, p, path, other)
  {
    if TextAt(LowercaseKeys(file, order), path).Some? {
      FileReadsExactly(file, order, path, TextAt(LowercaseKeys(file, order), path).value);
    }
    forall p, other | StandsFor(file, p, path, other) ensures TextAt(LowercaseKeys(file, order), path).Some? {
      FileReadsExactly(file, order, path, other);
    }
  }

  lemma LayersCanonical(files: seq<Value>, order: Order, variables: seq<Variable>, i: nat)
    requires Proper(files, order, variables) && i < |Layers(files, order, variables)|
    ensures CanonicalKeys(Layers(files, order, variables)[i])
  {
    if i < |files| {
      LayerCanonical(files[i], order);
    } else {
      TreeCanonical(variables);
      ConversionKeepsCanonical(Obj(Tree(variables)));
    }
  }

  lemma {:induction false} StackedOneMore(base: Value, layers: seq<Value>, last: Value)
    ensures Stacked(base, layers + [last]) == Merge(Stacked(base, layers), last)
    decreases |layers|
  {
    if layers == [] {
      assert layers + [last] == [last] && [last][1..] == [];
    } else {
      assert (layers + [last])[1..] == layers[1..] + [last];
      StackedOneMore(Merge(base, layers[0]), layers[1..], last);
    }
  }

  /** Layers with canonical indices stack in one way, whatever the order of their keys. */
  lemma {:induction false} StackInAnyOrder(order: Order, base: Value, layers: seq<Value>)
    requires Enumerates(order) && forall i :: 0 <= i < |layers| ==> CanonicalKeys(layers[i])
    ensures StackedBy(order, base, layers) == Stacked(base, layers)
    decreases |layers|
  {
    if layers != [] {
      var n := |layers| - 1;
      var before, last := layers[..n], layers[n];
      StackInAnyOrder(order, base, before);
      StackedOneMore(base, before, last);
      assert layers == before + [last];
      InAnyOrder(order, Stacked(base, before), last);
      assert StackedBy(order, base, layers) == MergeBy(order, StackedBy(order, base, before), last);
    }
  }

  /**
   From files and environment to the text read: the variable naming the path if there is one, and
   otherwise the value of the last file whose keys stand for the path.
   */
  lemma LoadedReads(files: seq<Value>, order: Order, variables: seq<Variable>, path: seq<string>, text: string)
    requires Proper(files, order, variables) && CanonicalPath(path)
    requires AllCompatible(Obj(map[]), Layers(files, order, variables))
    ensures TextAt(StackedBy(order, Obj(map[]), Layers(files, order, variables)), path) == Some(text) <==>
            Variable(path, text) in variables
            || ((forall other :: Variable(path, other) !in variables) && FilesSay(files, path, text))
  {
    var layers := Layers(files, order, variables);
    forall i | 0 <= i < |layers| ensures CanonicalKeys(layers[i]) {
      LayersCanonical(files, order, variables, i);
    }
    StackInAnyOrder(order, Obj(map[]), layers);
    StackReads(Obj(map[]), layers, path);
    EmptyReads(path);
    var fromFiles := seq(|files|, i requires 0 <= i < |files| => LowercaseKeys(files[i], order));
    LastReadingOneMore(None, fromFiles, EnvironmentLayer(variables), path);
    FilesRead(files, order, path, text);
    EnvironmentSays(variables, path, text);
  }

  lemma EmptyReads(path: seq<string>)
    ensures TextAt(Obj(map[]), path) == None
  {
  }

  lemma EnvironmentSays(variables: seq<Variable>, path: seq<string>, text: string)
    requires PrefixFree(variables) && CanonicalPath(path)
    requires forall i :: 0 <= i < |variables| ==> variables[i].path != [] && CanonicalPath(variables[i].path)
    ensures TextAt(EnvironmentLayer(variables), path) == Some(text) <==> Variable(path, text) in variables
    ensures TextAt(EnvironmentLayer(variables), path).None? <==> forall other :: Variable(path, other) !in variables
  {
    LayerReadsExactly(variables, path, text);
    if TextAt(EnvironmentLayer(variables), path).Some? {
      LayerReadsExactly(variables, path, TextAt(EnvironmentLayer(variables), path).value);
    }
    forall other | Variable(path, other) in variables ensures TextAt(EnvironmentLayer(variables), path).Some? {
      LayerReadsExactly(variables, path, other);
    }
  }

  /** A boolean that no later file and no variable names otherwise reads as its own word. */
  lemma FlagReadsAsItsWord(
    files: seq<Value>, order: Order, variables: seq<Variable>, p: seq<string>, path: seq<string>, flag: bool)
    requires Proper(files, order, variables) && CanonicalPath(path)
    requires AllCompatible(Obj(map[]), Layers(files, order, variables))
    requires files != [] && Lookup(files[|files| - 1], p) == Some(Flag(flag))
    requires CanonicalPath(p) && Flattened(p) == path && forall other :: Variable(path, other) !in variables
    ensures TextAt(StackedBy(order, Obj(map[]), Layers(files, order, variables)), path)
         == Some(if flag then "true" else "false")
  {
    var word := if flag then "true" else "false";
    assert StandsFor(files[|files| - 1], p, path, word);
    LoadedReads(files, order, variables, path, word);
  }
}
