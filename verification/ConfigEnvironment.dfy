/** The environment's layer: one variable, one path, and index-keyed maps read as arrays. */
module ConfigEnvironment {
  import opened Options
  import opened Text
  import opened Folds
  import opened ConfigTree


  /** A variable whose name has been split on `__` and lowercased. */
  datatype Variable = Variable(path: seq<string>, text: string)

  // ------------------------------------------------------------------
  // Names
  // ------------------------------------------------------------------

  /** The parts of a name between its double underscores, taken from the left. */
  function Parts(name: string): (r: seq<string>)
    ensures r != []
  {
    if name == "" then [""]
    else if |name| >= 2 && name[..2] == "__" then [""] + Parts(name[2..])
    else var rest := Parts(name[1..]); [[name[0]] + rest[0]] + rest[1..]
  }

  predicate HasSeparator(s: string) {
    exists i :: 0 <= i < |s| - 1 && s[i] == '_' && s[i + 1] == '_'
  }

  /** A part has no separator in it, and unless it is the last none that starts earlier than its end. */
  ghost predicate SplitFromTheLeft(parts: seq<string>)
  {
    && (forall i :: 0 <= i < |parts| ==> !HasSeparator(parts[i]))
    && (forall i :: 0 <= i < |parts| - 1 && parts[i] != "" ==> parts[i][|parts[i]| - 1] != '_')
  }

  lemma {:induction false} PartsSplit(name: string)
    ensures SplitFromTheLeft(Parts(name))
    ensures name != "" && Parts(name)[0] != "" ==> Parts(name)[0][0] == name[0]
    ensures |name| >= 1 && name[0] == '_' && !(|name| >= 2 && name[1] == '_') ==> Parts(name)[0] != ""
  {
    if name == "" {
    } else if |name| >= 2 && name[..2] == "__" {
      PartsSplit(name[2..]);
      assert Parts(name) == [""] + Parts(name[2..]);
    } else {
      var rest := Parts(name[1..]);
      PartsSplit(name[1..]);
      var first := [name[0]] + rest[0];
      assert Parts(name) == [first] + rest[1..];
      FirstPartSplit(name, rest);
    }
  }

  lemma FirstPartSplit(name: string, rest: seq<string>)
    requires name != "" && !(|name| >= 2 && name[..2] == "__") && rest == Parts(name[1..]) && SplitFromTheLeft(rest)
    requires name[1..] != "" && rest[0] != "" ==> rest[0][0] == name[1]
    ensures var first := [name[0]] + rest[0];
            !HasSeparator(first) && (|rest| > 1 ==> first[|first| - 1] != '_')
  {
    var first := [name[0]] + rest[0];
    assert rest[0] != "" ==> name[1..] != "";
    assert name[0] == '_' && |name| >= 2 ==> name[1] != '_' by {
      assert |name| >= 2 ==> name[..2] == [name[0], name[1]];
    }
    forall i | 0 <= i < |first| - 1 ensures first[i] != '_' || first[i + 1] != '_' {
      if i > 0 {
        assert first[i] == rest[0][i - 1] && first[i + 1] == rest[0][i];
      }
    }
  }

  lemma {:induction false} PartsJoin(name: string)
    ensures JoinedBy(Parts(name), "__") == name
  {
    if name == "" {
    } else if |name| >= 2 && name[..2] == "__" {
      PartsJoin(name[2..]);
      JoinedByMore("", Parts(name[2..]), "__");
      assert name == "__" + name[2..];
    } else {
      PartsJoin(name[1..]);
      JoinedByLonger(name[0], Parts(name[1..]), "__");
      assert name == [name[0]] + name[1..];
    }
  }

  /** Nothing of a name is lost between its parts, which lie between its separators taken from the left. */
  lemma {:induction false} PartsRejoin(name: string)
    ensures JoinedBy(Parts(name), "__") == name && SplitFromTheLeft(Parts(name))
  {
    PartsJoin(name);
    PartsSplit(name);
  }

  function AllLowercase(parts: seq<string>): seq<string> {
    seq(|parts|, i requires 0 <= i < |parts| => Lowercase(parts[i]))
  }

  function FromEnvironment(name: string, text: string): (v: Variable)
    ensures v.path != []
  {
    Variable(AllLowercase(Parts(name)), text)
  }

  // ------------------------------------------------------------------
  // Writing at a path
  // ------------------------------------------------------------------

  /** The section already at the name, or an empty one in place of anything else. */
  function SectionAt(root: Members, name: string): Members {
    if name in root && root[name].Obj? then root[name].members else map[]
  }

  function InsertAt(root: Members, path: seq<string>, value: Value): Members
    decreases |path|
  {
    if path == [] then root
    else if |path| == 1 then root[path[0] := value]
    else root[path[0] := Obj(InsertAt(SectionAt(root, path[0]), path[1..], value))]
  }

  function Insert(root: Members, v: Variable): Members {
    InsertAt(root, v.path, Str(v.text))
  }

  predicate IsPrefix(p: seq<string>, q: seq<string>) {
    |p| <= |q| && q[..|p|] == p
  }

  /** Neither path leads through the other. */
  predicate Apart(p: seq<string>, q: seq<string>) {
    !IsPrefix(p, q) && !IsPrefix(q, p)
  }

  predicate PrefixFree(variables: seq<Variable>) {
    forall i, j :: 0 <= i < j < |variables| ==> Apart(variables[i].path, variables[j].path)
  }

  lemma PrefixBelow(p: seq<string>, q: seq<string>)
    requires p != [] && q != [] && p[0] == q[0]
    ensures IsPrefix(p, q) <==> IsPrefix(p[1..], q[1..])
    ensures p == q <==> p[1..] == q[1..]
  {
    assert p == [p[0]] + p[1..] && q == [q[0]] + q[1..];
    if |p| <= |q| {
      assert q[..|p|] == [q[0]] + q[1..][..|p| - 1];
    }
  }

  lemma ApartBelow(p: seq<string>, q: seq<string>)
    requires Apart(p, q) && p[0] == q[0]
    ensures |p| > 1 && |q| > 1 && Apart(p[1..], q[1..])
  {
    PrefixBelow(p, q);
    PrefixBelow(q, p);
  }

  lemma ApartNonempty(p: seq<string>, q: seq<string>)
    requires Apart(p, q)
    ensures p != [] && q != []
  {
  }

  /** The name a write begins with, and nothing else of the section it is made in, changes. */
  lemma InsertTouchesHead(root: Members, p: seq<string>, v: Value)
    requires p != []
    ensures InsertAt(root, p, v).Keys == root.Keys + {p[0]}
    ensures forall k :: k in root && k != p[0] ==> InsertAt(root, p, v)[k] == root[k]
    ensures |p| > 1 ==> InsertAt(root, p, v)[p[0]] == Obj(InsertAt(SectionAt(root, p[0]), p[1..], v))
  {
  }

  lemma InsertsUnderOneName(root: Members, p: seq<string>, v: Value, q: seq<string>, w: Value)
    requires |p| > 1 && |q| > 1 && p[0] == q[0]
    ensures InsertAt(InsertAt(root, p, v), q, w)
         == root[p[0] := Obj(InsertAt(InsertAt(SectionAt(root, p[0]), p[1..], v), q[1..], w))]
  {
    InsertTouchesHead(root, p, v);
    InsertTouchesHead(InsertAt(root, p, v), q, w);
  }

  lemma InsertsUnderTwoNames(root: Members, p: seq<string>, v: Value, q: seq<string>, w: Value)
    requires p != [] && q != [] && p[0] != q[0]
    ensures InsertAt(InsertAt(root, p, v), q, w)
            == root[p[0] := InsertAt(root, p, v)[p[0]]][q[0] := InsertAt(root, q, w)[q[0]]]
  {
    InsertTouchesHead(root, p, v);
    InsertTouchesHead(InsertAt(root, p, v), q, w);
    assert SectionAt(InsertAt(root, p, v), q[0]) == SectionAt(root, q[0]);
  }

  lemma InsertsUnderTwoNamesCommute(root: Members, p: seq<string>, v: Value, q: seq<string>, w: Value)
    requires p != [] && q != [] && p[0] != q[0]
    ensures InsertAt(InsertAt(root, p, v), q, w) == InsertAt(InsertAt(root, q, w), p, v)
  {
    InsertsUnderTwoNames(root, p, v, q, w);
    InsertsUnderTwoNames(root, q, w, p, v);
  }

  /** Writes at paths that are apart commute, whatever is there already. */
  lemma {:induction false} InsertsCommute(root: Members, p: seq<string>, v: Value, q: seq<string>, w: Value)
    requires Apart(p, q)
    ensures InsertAt(InsertAt(root, p, v), q, w) == InsertAt(InsertAt(root, q, w), p, v)
    decreases |p|
  {
    ApartNonempty(p, q);
    if p[0] == q[0] {
      ApartBelow(p, q);
      InsertsCommute(SectionAt(root, p[0]), p[1..], v, q[1..], w);
      InsertsUnderOneName(root, p, v, q, w);
      InsertsUnderOneName(root, q, w, p, v);
    } else {
      InsertsUnderTwoNamesCommute(root, p, v, q, w);
    }
  }

  lemma {:induction false} InsertReadsBack(root: Members, p: seq<string>, v: Value)
    requires p != []
    ensures Lookup(Obj(InsertAt(root, p, v)), p) == Some(v)
    decreases |p|
  {
    if |p| == 1 {
      assert p[1..] == [];
    } else {
      InsertReadsBack(SectionAt(root, p[0]), p[1..], v);
    }
  }

  /** Below a name, a lookup sees only its section. */
  lemma EmptySection(root: Members, q: seq<string>)
    requires |q| > 1 && (q[0] in root ==> !root[q[0]].Arr?)
    ensures TextAt(Obj(root), q) == TextAt(Obj(SectionAt(root, q[0])), q[1..])
  {
    LookupChild(Obj(root), q);
    LookupChild(ChildOrNull(Obj(root), q[0]), q[1..]);
    LookupChild(Obj(SectionAt(root, q[0])), q[1..]);
  }

  /** What variables alone can build: sections, with texts at the ends. */
  predicate OnlySections(v: Value) {
    v.Obj? && forall k :: k in v.members ==> v.members[k].Str? || OnlySections(v.members[k])
  }

  lemma {:induction false} InsertKeepsOnlySections(root: Members, p: seq<string>, text: string)
    requires OnlySections(Obj(root))
    ensures OnlySections(Obj(InsertAt(root, p, Str(text))))
    decreases |p|
  {
    if |p| > 1 {
      InsertKeepsOnlySections(SectionAt(root, p[0]), p[1..], text);
    }
  }

  lemma {:induction false} InsertLeavesOthers(root: Members, p: seq<string>, v: Value, q: seq<string>)
    requires Apart(p, q) && OnlySections(Obj(root))
    ensures TextAt(Obj(InsertAt(root, p, v)), q) == TextAt(Obj(root), q)
    decreases |p|
  {
    ApartNonempty(p, q);
    InsertTouchesHead(root, p, v);
    LookupChild(Obj(root), q);
    LookupChild(Obj(InsertAt(root, p, v)), q);
    if p[0] == q[0] {
      ApartBelow(p, q);
      InsertLeavesOthers(SectionAt(root, p[0]), p[1..], v, q[1..]);
      EmptySection(root, q);
    }
  }

  // ------------------------------------------------------------------
  // All the variables
  // ------------------------------------------------------------------

  function Tree(variables: seq<Variable>): Members {
    Fold(Insert, map[], variables)
  }

  /** The layer does not depend on the order in which the environment lists its variables. */
  lemma TreeOrderIndependent(variables: seq<Variable>, other: seq<Variable>)
    requires multiset(variables) == multiset(other) && PrefixFree(variables)
    ensures Tree(variables) == Tree(other)
  {
    forall x, y | x in variables && y in variables ensures Commute(Insert, x, y) {
      var i :| 0 <= i < |variables| && variables[i] == x;
      var j :| 0 <= j < |variables| && variables[j] == y;
      if i != j {
        forall s ensures Insert(Insert(s, x), y) == Insert(Insert(s, y), x) {
          InsertsCommute(s, x.path, Str(x.text), y.path, Str(y.text));
        }
      }
    }
    FoldPermutation(Insert, map[], variables, other);
  }

  lemma FoldInsertOne(start: Members, variables: seq<Variable>)
    requires variables != []
    ensures var n := |variables| - 1;
            Fold(Insert, start, variables) == Insert(Fold(Insert, start, variables[..n]), variables[n])
  {
    var n := |variables| - 1;
    assert variables == variables[..n] + [variables[n]];
    FoldAppend(Insert, start, variables[..n], [variables[n]]);
    var before := Fold(Insert, start, variables[..n]);
    assert [variables[n]][1..] == [];
    assert Fold(Insert, before, [variables[n]]) == Fold(Insert, Insert(before, variables[n]), []);
  }

  lemma {:induction false} TreeOnlySections(variables: seq<Variable>)
    ensures OnlySections(Obj(Tree(variables)))
    decreases |variables|
  {
    if variables != [] {
      var n := |variables| - 1;
      FoldInsertOne(map[], variables);
      TreeOnlySections(variables[..n]);
      InsertKeepsOnlySections(Tree(variables[..n]), variables[n].path, variables[n].text);
    }
  }

  /** Every variable reads back at its path. */
  lemma {:induction false} TreeReadsBack(variables: seq<Variable>, i: nat)
    requires PrefixFree(variables) && i < |variables| && variables[i].path != []
    ensures TextAt(Obj(Tree(variables)), variables[i].path) == Some(variables[i].text)
    decreases |variables|
  {
    var n := |variables| - 1;
    var last := variables[n];
    FoldInsertOne(map[], variables);
    if i == n {
      InsertReadsBack(Tree(variables[..n]), last.path, Str(last.text));
    } else {
      assert variables[..n][i] == variables[i];
      TreeReadsBack(variables[..n], i);
      TreeOnlySections(variables[..n]);
      InsertLeavesOthers(Tree(variables[..n]), last.path, Str(last.text), variables[i].path);
    }
  }

  /** No text under a value that is not a section, nor above or below the path written. */
  lemma {:induction false} InsertAddsOnlyItsPath(root: Members, p: seq<string>, text: string, q: seq<string>)
    requires q != p && !IsPrefix(p, q)
    ensures TextAt(Obj(InsertAt(root, p, Str(text))), q).Some? ==>
            TextAt(Obj(InsertAt(root, p, Str(text))), q) == TextAt(Obj(root), q)
    decreases |p|
  {
    if q != [] && p != [] && p[0] == q[0] {
      PrefixBelow(p, q);
      InsertAddsOnlyItsPath(SectionAt(root, p[0]), p[1..], text, q[1..]);
      LookupChild(Obj(root), q);
      LookupChild(Obj(InsertAt(root, p, Str(text))), q);
    }
  }

  lemma {:induction false} NothingBelowText(root: Members, p: seq<string>, text: string, q: seq<string>)
    requires p != [] && IsPrefix(p, q) && p != q
    ensures Lookup(Obj(InsertAt(root, p, Str(text))), q).None?
    decreases |p|
  {
    assert q[0] == q[..|p|][0] == p[0];
    PrefixBelow(p, q);
    if |p| > 1 {
      NothingBelowText(SectionAt(root, p[0]), p[1..], text, q[1..]);
    }
  }

  /** And nothing else does. */
  lemma {:induction false} TreeReadsOnlyVariables(variables: seq<Variable>, q: seq<string>)
    requires forall i :: 0 <= i < |variables| ==> variables[i].path != []
    ensures TextAt(Obj(Tree(variables)), q).Some? ==>
              exists i :: 0 <= i < |variables| && variables[i].path == q
                          && TextAt(Obj(Tree(variables)), q) == Some(variables[i].text)
    decreases |variables|
  {
    if variables == [] {
    } else {
      var n := |variables| - 1;
      var last := variables[n];
      var before := Tree(variables[..n]);
      FoldInsertOne(map[], variables);
      if q == last.path {
        InsertReadsBack(before, last.path, Str(last.text));
        assert variables[n].path == q;
      } else if IsPrefix(last.path, q) {
        NothingBelowText(before, last.path, last.text, q);
      } else {
        InsertAddsOnlyItsPath(before, last.path, last.text, q);
        TreeReadsOnlyVariables(variables[..n], q);
        if TextAt(Obj(Tree(variables)), q).Some? {
          var i :| 0 <= i < n && variables[..n][i].path == q && TextAt(Obj(before), q) == Some(variables[..n][i].text);
          assert variables[i].path == q;
        }
      }
    }
  }
}
