/** A JSON file that loses a value when two of its keys meet, and one that loses none. */
module ConfigJsonFiles {
  import opened Options
  import opened Text
  import opened ConfigTree
  import opened ConfigEnvironment
  import opened ConfigArrays
  import opened ConfigMeeting
  import opened ConfigJson

  const ARRAY_MET: Value := Obj(map["a" := Obj(map["0" := Str("x")]), "a:1" := Str("y")])

  const SECTION_MET: Value := Obj(map["a" := Obj(map["b" := Str("x")]), "a:c" := Str("y")])

  lemma OneKey(order: Order, k: string)
    requires Enumerates(order)
    ensures order({k}) == [k]
  {
    var keys := order({k});
    assert ListsKeys(keys, {k});
    ListedSize(keys, {k});
    assert keys[0] in keys;
  }

  lemma TwoKeys(order: Order, j: string, k: string)
    requires Enumerates(order) && j != k
    ensures order({j, k}) == [j, k] || order({j, k}) == [k, j]
  {
    var keys := order({j, k});
    assert ListsKeys(keys, {j, k});
    ListedSize(keys, {j, k});
    assert keys[0] in keys && keys[1] in keys;
    assert keys == [keys[0], keys[1]];
  }

  lemma ColonKey(name: char)
    requires name != ':' && Lower(name) == name
    ensures KeyPath("a:" + [name]) == ["a", [name]]
  {
    var key := "a:" + [name];
    assert Lowercase(key) == key;
    assert key[1..] == ":" + [name] && key[1..][1..] == [name];
    Unsplit([name]);
    assert SplitOn(":" + [name], ':') == ["", [name]];
    assert ["", [name]][1..] == [[name]] && ['a'] + "" == "a";
    assert SplitOn(key, ':') == ["a"] + [[name]];
  }

  lemma PlainKey(name: char)
    requires name != ':' && Lower(name) == name
    ensures KeyPath([name]) == [[name]]
  {
    assert Lowercase([name]) == [name];
    Unsplit([name]);
  }

  lemma OneMet(v: Value)
    requires v.Obj?
    ensures Met([v]) == v
  {
    assert [v][..0] == [];
    EmptyMeets(v);
  }

  /** An object of one key, not read as an index. */
  lemma OneMember(order: Order, k: string, v: Value)
    requires Enumerates(order) && KeyPath(k) == [k]
    ensures LowercaseKeys(Obj(map[k := v]), order) == NumericMapsToArrays(Obj(map[k := LowercaseKeys(v, order)]))
  {
    var o := Obj(map[k := v]);
    OneKey(order, k);
    assert o.members.Keys == {k};
    LaidIsMet(o, order, [k]);
    assert KeyTrees(o, order, [k]) == [KeyTree(o, order, k)];
    OneMet(KeyTree(o, order, k));
    assert Wrapped([k], LowercaseKeys(v, order)) == Obj(map[k := LowercaseKeys(v, order)]) by { assert [k][1..] == []; }
  }

  lemma OneIsConverted(k: string, v: Value)
    ensures NumericMapsToArrays(Obj(map[k := v])) ==
            if ParseIndex(k) == Some(0) then Arr([NumericMapsToArrays(v)]) else Obj(map[k := NumericMapsToArrays(v)])
  {
    SingletonSequence(k, NumericMapsToArrays(v));
    assert Converted(map[k := v]) == map[k := NumericMapsToArrays(v)];
  }

  /** A file of two keys is its two trees, met in their order. */
  lemma TwoMembers(order: Order, v: Value, j: string, k: string)
    requires Enumerates(order) && v.Obj? && v.members.Keys == {j, k} && order({j, k}) == [j, k]
    ensures LowercaseKeys(v, order) == NumericMapsToArrays(Meeting(KeyTree(v, order, j), KeyTree(v, order, k)))
  {
    var a, b := KeyTree(v, order, j), KeyTree(v, order, k);
    LaidIsMet(v, order, [j, k]);
    assert KeyTrees(v, order, [j, k]) == [a, b];
    assert [a, b][..1] == [a];
    OneMet(a);
  }

  /** A key whose tree the next one replaces whole. */
  lemma GivesWay(order: Order, v: Value, j: string, k: string, x: Value, y: Value)
    requires Enumerates(order) && v.Obj? && v.members.Keys == {j, k} && order({j, k}) == [j, k]
    requires KeyTree(v, order, j) == x && KeyTree(v, order, k) == y && Meeting(x, y) == y && NumericMapsToArrays(y) == y
    ensures LowercaseKeys(v, order) == y
  {
    TwoMembers(order, v, j, k);
  }

  lemma WrappedTwice(s: string, v: Value)
    ensures Wrapped(["a"], v) == Obj(map["a" := v])
    ensures Wrapped(["a", s], v) == Obj(map["a" := Obj(map[s := v])])
  {
    assert ["a"][1..] == [] && ["a", s][1..] == [s] && [s][1..] == [];
    assert Wrapped([s], v) == Obj(map[s := v]);
  }

  /** The section has become an array. */
  lemma ArraySection(order: Order)
    requires Enumerates(order)
    ensures LowercaseKeys(Obj(map["0" := Str("x")]), order) == Arr([Str("x")])
  {
    PlainKey('0');
    IndexRoundTrip(0);
    assert Digits(0) == "0";
    OneMember(order, "0", Str("x"));
    OneIsConverted("0", Str("x"));
  }

  lemma ArrayMetTrees(order: Order)
    requires Enumerates(order)
    ensures KeyTree(ARRAY_MET, order, "a") == ARRAY_IN_A && KeyTree(ARRAY_MET, order, "a:1") == SECTION_IN_A
  {
    PlainKey('a');
    ColonKey('1');
    assert "a:" + ['1'] == "a:1";
    ArraySection(order);
    WrappedTwice("1", Arr([Str("x")]));
    WrappedTwice("1", Str("y"));
  }

  lemma OneInA(v: Value)
    ensures NumericMapsToArrays(Obj(map["a" := v])) == Obj(map["a" := NumericMapsToArrays(v)])
  {
    OneIsConverted("a", v);
    assert !IsDigit("a"[0]);
  }

  lemma OneStaysSparse()
    ensures NumericMapsToArrays(Obj(map["1" := Str("y")])) == Obj(map["1" := Str("y")])
  {
    IndexRoundTrip(1);
    assert Digits(1) == "1";
    OneIsConverted("1", Str("y"));
  }

  const ARRAY_IN_A: Value := Obj(map["a" := Arr([Str("x")])])

  const SECTION_IN_A: Value := Obj(map["a" := Obj(map["1" := Str("y")])])

  /** Neither tree survives the other. */
  lemma SectionReplacesArray()
    ensures Meeting(ARRAY_IN_A, SECTION_IN_A) == SECTION_IN_A && NumericMapsToArrays(SECTION_IN_A) == SECTION_IN_A
  {
    assert Meeting(ARRAY_IN_A, SECTION_IN_A).members == SECTION_IN_A.members;
    OneInA(SECTION_IN_A.members["a"]);
    OneStaysSparse();
  }

  lemma ArrayReplacesSection()
    ensures Meeting(SECTION_IN_A, ARRAY_IN_A) == ARRAY_IN_A && NumericMapsToArrays(ARRAY_IN_A) == ARRAY_IN_A
  {
    assert Meeting(SECTION_IN_A, ARRAY_IN_A).members == ARRAY_IN_A.members;
    OneInA(ARRAY_IN_A.members["a"]);
    assert NumericMapsToArrays(Arr([Str("x")])).items == [Str("x")];
  }

  lemma ArrayGivesWay(order: Order)
    requires Enumerates(order) && order({"a", "a:1"}) == ["a", "a:1"]
    ensures LowercaseKeys(ARRAY_MET, order) == SECTION_IN_A
  {
    ArrayMetTrees(order);
    SectionReplacesArray();
    assert ARRAY_MET.members.Keys == {"a", "a:1"};
    GivesWay(order, ARRAY_MET, "a", "a:1", ARRAY_IN_A, SECTION_IN_A);
  }

  lemma SectionGivesWay(order: Order)
    requires Enumerates(order) && order({"a:1", "a"}) == ["a:1", "a"]
    ensures LowercaseKeys(ARRAY_MET, order) == ARRAY_IN_A
  {
    ArrayMetTrees(order);
    ArrayReplacesSection();
    assert ARRAY_MET.members.Keys == {"a:1", "a"};
    GivesWay(order, ARRAY_MET, "a:1", "a", SECTION_IN_A, ARRAY_IN_A);
  }

  /**
   A file that loses a value whatever the order of its keys: the section under `a` has become an
   array before the key `a:1` meets it, so one replaces the other.
   */
  lemma ArrayIsReplaced(order: Order)
    requires Enumerates(order)
    ensures LowercaseKeys(ARRAY_MET, order) ==
            if order({"a", "a:1"}) == ["a", "a:1"] then SECTION_IN_A else ARRAY_IN_A
  {
    TwoKeys(order, "a", "a:1");
    assert {"a", "a:1"} == {"a:1", "a"};
    if order({"a", "a:1"}) == ["a", "a:1"] {
      ArrayGivesWay(order);
    } else {
      SectionGivesWay(order);
    }
  }

  lemma TwoSegments(v: Value, s: string)
    requires v.Obj? && "a" in v.members
    ensures TextAt(v, ["a", s]) == AsText(ChildOrNull(v.members["a"], s))
  {
    assert ["a", s][1..] == [s] && [s][1..] == [];
    LookupChild(v, ["a", s]);
    LookupChild(v.members["a"], [s]);
  }

  lemma ArrayFileReads()
    ensures TextAt(ARRAY_MET, ["a", "0"]) == Some("x") && TextAt(ARRAY_MET, ["a:1"]) == Some("y")
  {
    TwoSegments(ARRAY_MET, "0");
    assert ["a:1"][1..] == [];
    LookupChild(ARRAY_MET, ["a:1"]);
  }

  lemma OneOfTwoReads()
    ensures TextAt(SECTION_IN_A, ["a", "0"]) == None && TextAt(ARRAY_IN_A, ["a", "1"]) == None
  {
    ArrayPaths();
    TwoSegments(SECTION_IN_A, "0");
    TwoSegments(ARRAY_IN_A, "1");
  }

  /** So it does not read back. */
  lemma ArrayFileLoses(order: Order)
    requires Enumerates(order)
    ensures TextAt(ARRAY_MET, ["a", "0"]) == Some("x") && Flattened(["a", "0"]) == ["a", "0"]
    ensures TextAt(ARRAY_MET, ["a:1"]) == Some("y") && Flattened(["a:1"]) == ["a", "1"]
    ensures TextAt(LowercaseKeys(ARRAY_MET, order), ["a", "0"]) == None
            || TextAt(LowercaseKeys(ARRAY_MET, order), ["a", "1"]) == None
  {
    ArrayIsReplaced(order);
    ArrayPaths();
    ArrayFileReads();
    OneOfTwoReads();
  }

  lemma ArrayPaths()
    ensures Flattened(["a", "0"]) == ["a", "0"] && Flattened(["a:1"]) == ["a", "1"]
    ensures ParseIndex("1") == Some(1)
  {
    PlainKey('a');
    PlainKey('0');
    ColonKey('1');
    assert "a:" + ['1'] == "a:1";
    IndexRoundTrip(1);
    assert Digits(1) == "1";
    assert ["a", "0"][1..] == ["0"] && ["0"][1..] == [] && ["a:1"][1..] == [];
    assert Flattened(["0"]) == ["0"];
  }

  lemma SectionMetTrees(order: Order)
    requires Enumerates(order)
    ensures KeyTree(SECTION_MET, order, "a") == Obj(map["a" := Obj(map["b" := Str("x")])])
    ensures KeyTree(SECTION_MET, order, "a:c") == Obj(map["a" := Obj(map["c" := Str("y")])])
  {
    PlainKey('a');
    PlainKey('b');
    ColonKey('c');
    OneMember(order, "b", Str("x"));
    OneIsConverted("b", Str("x"));
    assert !IsDigit("b"[0]);
    assert "a:" + ['c'] == "a:c";
    WrappedTwice("c", Obj(map["b" := Str("x")]));
    WrappedTwice("c", Str("y"));
  }

  lemma TwoSectionsMeet()
    ensures var both := Obj(map["b" := Str("x"), "c" := Str("y")]);
            var x, y := Obj(map["a" := Obj(map["b" := Str("x")])]), Obj(map["a" := Obj(map["c" := Str("y")])]);
            Meeting(x, y) == Obj(map["a" := both]) && Meeting(y, x) == Obj(map["a" := both])
  {
    var x, y := Obj(map["b" := Str("x")]), Obj(map["c" := Str("y")]);
    var both := Obj(map["b" := Str("x"), "c" := Str("y")]);
    assert Meeting(x, y).members == both.members && Meeting(y, x).members == both.members;
    var ax, ay := Obj(map["a" := x]), Obj(map["a" := y]);
    assert Meeting(ax, ay).members == map["a" := both] && Meeting(ay, ax).members == map["a" := both];
  }

  lemma SectionPathsMeet()
    ensures !KeysApart(SECTION_MET)
  {
    PlainKey('a');
    ColonKey('c');
    assert "a:" + ['c'] == "a:c";
    assert IsPrefix(KeyPath("a"), KeyPath("a:c"));
    assert "a" in SECTION_MET.members && "a:c" in SECTION_MET.members;
  }

  /** A file whose keys meet in a section, and are merged there in either order. */
  lemma SectionsMeet(order: Order)
    requires Enumerates(order)
    ensures LowercaseKeys(SECTION_MET, order) == Obj(map["a" := Obj(map["b" := Str("x"), "c" := Str("y")])])
    ensures !KeysApart(SECTION_MET)
  {
    SectionMetTrees(order);
    TwoSectionsMeet();
    SectionPathsMeet();
    TwoKeys(order, "a", "a:c");
    assert SECTION_MET.members.Keys == {"a", "a:c"};
    var both := Obj(map["b" := Str("x"), "c" := Str("y")]);
    OneInA(both);
    TwoStayNamed(both);
    if order({"a", "a:c"}) == ["a", "a:c"] {
      TwoMembers(order, SECTION_MET, "a", "a:c");
    } else {
      assert {"a", "a:c"} == {"a:c", "a"};
      TwoMembers(order, SECTION_MET, "a:c", "a");
    }
  }

  lemma TwoStayNamed(both: Value)
    requires both == Obj(map["b" := Str("x"), "c" := Str("y")])
    ensures NumericMapsToArrays(both) == both
  {
    assert Converted(both.members) == both.members;
    assert !IsDigit("b"[0]);
    assert "b" in both.members && ParseIndex("b").None?;
    assert IndexSequence(both.members).None?;
  }
}
