/** Trees that meet under one key: sections merge member by member, anything else gives way to what comes later. */
module ConfigMeeting {
  import opened Options
  import opened Text
  import opened ConfigTree
  import opened ConfigEnvironment

  /** Objects that meet are merged member by member; anything else is replaced. */
  function Meeting(existing: Value, incoming: Value): Value
    decreases incoming
  {
    if existing.Obj? && incoming.Obj? then
      var e, i := existing.members, incoming.members;
      Obj(map k | k in e.Keys + i.Keys :: if k !in i then e[k] else if k in e then Meeting(e[k], i[k]) else i[k])
    else incoming
  }

  function MergeAt(root: Members, path: seq<string>, value: Value): Members
    decreases |path|
  {
    if path == [] then root
    else if |path| == 1 then
      root[path[0] := if path[0] in root then Meeting(root[path[0]], value) else value]
    else root[path[0] := Obj(MergeAt(SectionAt(root, path[0]), path[1..], value))]
  }

  /** The value alone at the path. */
  function Wrapped(path: seq<string>, value: Value): Value
    decreases |path|
  {
    if path == [] then value else Obj(map[path[0] := Wrapped(path[1..], value)])
  }

  lemma EmptyMeets(v: Value)
    requires v.Obj?
    ensures Meeting(Obj(map[]), v) == v
  {
    assert Meeting(Obj(map[]), v).members == v.members;
  }

  /** Merging at a path is meeting the value wrapped in that path. */
  lemma {:induction false} MergeAtMeets(root: Members, path: seq<string>, value: Value)
    requires path != []
    ensures Obj(MergeAt(root, path, value)) == Meeting(Obj(root), Wrapped(path, value))
    decreases |path|
  {
    var p := path[0];
    var met := Meeting(Obj(root), Wrapped(path, value)).members;
    var rest := Wrapped(path[1..], value);
    assert met.Keys == root.Keys + {p};
    assert met[p] == if p in root then Meeting(root[p], rest) else rest;
    if |path| == 1 {
      assert path[1..] == [] && rest == value;
    } else {
      MergeAtMeets(SectionAt(root, p), path[1..], value);
      assert rest.Obj?;
      EmptyMeets(rest);
    }
    assert MergeAt(root, path, value)[p] == met[p];
    assert MergeAt(root, path, value) == met;
  }

  // ------------------------------------------------------------------
  // What reads from a meeting
  // ------------------------------------------------------------------

  /** Along the path the two are both sections, until one of them ends. */
  predicate Spares(a: Value, b: Value, path: seq<string>)
    decreases |path|
  {
    && a.Obj? && b.Obj?
    && (path != [] && path[0] in a.members && path[0] in b.members ==>
          Spares(a.members[path[0]], b.members[path[0]], path[1..]))
  }

  /** A path reads what came later, or what was there if the later one spares it. */
  lemma {:induction false} MeetingReads(a: Value, b: Value, path: seq<string>)
    ensures TextAt(Meeting(a, b), path) ==
            if TextAt(b, path).Some? then TextAt(b, path) else if Spares(a, b, path) then TextAt(a, path) else None
    decreases |path|
  {
    if a.Obj? && b.Obj? && path != [] {
      LookupChild(a, path);
      LookupChild(b, path);
      LookupChild(Meeting(a, b), path);
      NullReadsNothing(path[1..]);
      if path[0] in a.members && path[0] in b.members {
        MeetingReads(a.members[path[0]], b.members[path[0]], path[1..]);
      }
    }
  }

  lemma NullReadsNothing(path: seq<string>)
    ensures TextAt(Null, path) == None
  {
  }

  lemma {:induction false} SparedReadsNothing(a: Value, b: Value, path: seq<string>)
    requires Spares(a, b, path) && TextAt(a, path).Some?
    ensures TextAt(b, path).None?
    decreases |path|
  {
    if path != [] && path[0] in b.members {
      SparedReadsNothing(a.members[path[0]], b.members[path[0]], path[1..]);
    }
  }

  /** Along the path the one is a section just where the other is. */
  predicate Alongside(a: Value, b: Value, path: seq<string>)
    decreases |path|
  {
    && (a.Obj? <==> b.Obj?)
    && (a.Obj? && path != [] ==>
          && (path[0] in a.members <==> path[0] in b.members)
          && (path[0] in a.members ==> Alongside(a.members[path[0]], b.members[path[0]], path[1..])))
  }

  lemma {:induction false} AlongsideItself(a: Value, path: seq<string>)
    ensures Alongside(a, a, path)
    decreases |path|
  {
    if a.Obj? && path != [] && path[0] in a.members {
      AlongsideItself(a.members[path[0]], path[1..]);
    }
  }

  lemma {:induction false} AlongsideThrough(a: Value, b: Value, c: Value, path: seq<string>)
    requires Alongside(a, b, path) && Alongside(b, c, path)
    ensures Alongside(a, c, path)
    decreases |path|
  {
    if a.Obj? && path != [] && path[0] in a.members {
      AlongsideThrough(a.members[path[0]], b.members[path[0]], c.members[path[0]], path[1..]);
    }
  }

  /** A meeting has the shape of the side whose text it reads. */
  lemma {:induction false} MeetingAlongside(a: Value, b: Value, path: seq<string>)
    ensures TextAt(b, path).Some? ==> Alongside(Meeting(a, b), b, path)
    ensures Spares(a, b, path) && TextAt(a, path).Some? ==> Alongside(Meeting(a, b), a, path)
    decreases |path|
  {
    AlongsideItself(b, path);
    if a.Obj? && b.Obj? && path != [] {
      if path[0] in b.members {
        AlongsideItself(b.members[path[0]], path[1..]);
      }
      if path[0] in a.members {
        AlongsideItself(a.members[path[0]], path[1..]);
      }
      if path[0] in a.members && path[0] in b.members {
        MeetingAlongside(a.members[path[0]], b.members[path[0]], path[1..]);
      }
    }
  }

  /** What spares a text depends only on the shape it lies in. */
  lemma {:induction false} SparesAlongside(a: Value, shape: Value, b: Value, path: seq<string>)
    requires Alongside(a, shape, path) && TextAt(shape, path).Some?
    ensures Spares(a, b, path) <==> Spares(shape, b, path)
    decreases |path|
  {
    if shape.Obj? && b.Obj? && path != [] && path[0] in b.members {
      SparesAlongside(a.members[path[0]], shape.members[path[0]], b.members[path[0]], path[1..]);
    }
  }

  // ------------------------------------------------------------------
  // Trees met one after another
  // ------------------------------------------------------------------

  function Met(trees: seq<Value>): Value {
    if trees == [] then Obj(map[]) else Meeting(Met(trees[..|trees| - 1]), trees[|trees| - 1])
  }

  /** The tree has text at the path, and every later one spares it. */
  ghost predicate Owns(trees: seq<Value>, i: int, path: seq<string>)
  {
    && 0 <= i < |trees| && TextAt(trees[i], path).Some?
    && forall j :: i < j < |trees| ==> Spares(trees[i], trees[j], path)
  }

  /** What a tree owns is read. */
  lemma {:induction false} OwnerReads(trees: seq<Value>, i: int, path: seq<string>)
    requires Owns(trees, i, path)
    ensures TextAt(Met(trees), path) == TextAt(trees[i], path) && Alongside(Met(trees), trees[i], path)
    decreases |trees|
  {
    var n := |trees| - 1;
    var before, last := Met(trees[..n]), trees[n];
    MeetingReads(before, last, path);
    MeetingAlongside(before, last, path);
    if i < n {
      OwnerReads(trees[..n], i, path);
      SparesAlongside(before, trees[i], last, path);
      SparedReadsNothing(trees[i], last, path);
      AlongsideThrough(Met(trees), before, trees[i], path);
    }
  }

  /** What is read, a tree owns. */
  lemma {:induction false} ReadHasOwner(trees: seq<Value>, path: seq<string>) returns (i: int)
    requires TextAt(Met(trees), path).Some?
    ensures Owns(trees, i, path)
    decreases |trees|
  {
    if trees == [] {
      NullReadsNothing(path);
      i := 0;
    } else {
      var n := |trees| - 1;
      var before, last := Met(trees[..n]), trees[n];
      if TextAt(last, path).Some? {
        i := n;
      } else {
        MeetingReads(before, last, path);
        i := ReadHasOwner(trees[..n], path);
        OwnerReads(trees[..n], i, path);
        SparesAlongside(before, trees[i], last, path);
        forall j | i < j < |trees| ensures Spares(trees[i], trees[j], path) {
          assert j < n ==> trees[..n][j] == trees[j];
        }
      }
    }
  }

  /** Every text read is some tree's, no later one having met it, and every such text is read. */
  lemma MetReads(trees: seq<Value>, path: seq<string>, text: string)
    ensures TextAt(Met(trees), path) == Some(text) <==>
            exists i :: Owns(trees, i, path) && TextAt(trees[i], path) == Some(text)
  {
    if TextAt(Met(trees), path) == Some(text) {
      var i := ReadHasOwner(trees, path);
      OwnerReads(trees, i, path);
    }
    if i :| Owns(trees, i, path) && TextAt(trees[i], path) == Some(text) {
      OwnerReads(trees, i, path);
    }
  }

  // ------------------------------------------------------------------
  // Meetings that lose nothing
  // ------------------------------------------------------------------

  ghost predicate NoText(v: Value)
  {
    AsText(v).None? && forall s :: Child(v, s).Some? ==> NoText(Child(v, s).value)
  }

  /** Wherever the two meet as anything but two sections, the first holds no text. */
  ghost predicate SparesAll(a: Value, b: Value)
    decreases a
  {
    if a.Obj? && b.Obj?
    then forall k :: k in a.members && k in b.members ==> SparesAll(a.members[k], b.members[k])
    else NoText(a)
  }

  lemma {:induction false} NoTextReads(v: Value, path: seq<string>)
    requires NoText(v)
    ensures TextAt(v, path).None?
    decreases |path|
  {
    if path != [] && Child(v, path[0]).Some? {
      NoTextReads(Child(v, path[0]).value, path[1..]);
    }
  }

  lemma {:induction false} SparesEach(a: Value, b: Value, path: seq<string>)
    requires SparesAll(a, b) && TextAt(a, path).Some?
    ensures Spares(a, b, path)
    decreases |path|
  {
    if a.Obj? && b.Obj? {
      if path != [] && path[0] in b.members {
        SparesEach(a.members[path[0]], b.members[path[0]], path[1..]);
      }
    } else {
      NoTextReads(a, path);
    }
  }

  /** The canonical way to a child there is. */
  lemma CanonicalWay(v: Value, s: string) returns (way: string)
    requires CanonicalKeys(v) && Child(v, s).Some?
    ensures Canonical(way) && Child(v, way) == Child(v, s)
  {
    way := s;
    if v.Arr? {
      way := Digits(ParseIndex(s).value);
      IndexRoundTrip(ParseIndex(s).value);
    }
  }

  lemma {:induction false} SomeText(v: Value) returns (path: seq<string>)
    requires !NoText(v) && CanonicalKeys(v)
    ensures CanonicalPath(path) && TextAt(v, path).Some?
    decreases v
  {
    if AsText(v).Some? {
      path := [];
    } else {
      var s :| Child(v, s).Some? && !NoText(Child(v, s).value);
      var way := CanonicalWay(v, s);
      CanonicalChild(v, s);
      var rest := SomeText(Child(v, s).value);
      path := [way] + rest;
      assert path[1..] == rest;
    }
  }

  lemma {:induction false} SomeNotSpared(a: Value, b: Value) returns (path: seq<string>)
    requires !SparesAll(a, b) && CanonicalKeys(a)
    ensures CanonicalPath(path) && TextAt(a, path).Some? && !Spares(a, b, path)
    decreases a
  {
    if a.Obj? && b.Obj? {
      var k :| k in a.members && k in b.members && !SparesAll(a.members[k], b.members[k]);
      var rest := SomeNotSpared(a.members[k], b.members[k]);
      path := [k] + rest;
      assert path[1..] == rest;
    } else {
      path := SomeText(a);
    }
  }

  /** Values at paths that are apart never meet. */
  lemma {:induction false} ApartSpares(p: seq<string>, a: Value, q: seq<string>, b: Value)
    requires Apart(p, q)
    ensures SparesAll(Wrapped(p, a), Wrapped(q, b))
    decreases |p|
  {
    ApartNonempty(p, q);
    if p[0] == q[0] {
      ApartBelow(p, q);
      ApartSpares(p[1..], a, q[1..], b);
    }
  }

  // ------------------------------------------------------------------
  // Wrapped values
  // ------------------------------------------------------------------

  lemma {:induction false} WrappedReads(path: seq<string>, v: Value, rest: seq<string>)
    ensures TextAt(Wrapped(path, v), path + rest) == TextAt(v, rest)
    decreases |path|
  {
    if path == [] {
      assert path + rest == rest;
    } else {
      assert (path + rest)[1..] == path[1..] + rest;
      LookupChild(Wrapped(path, v), path + rest);
      WrappedReads(path[1..], v, rest);
    }
  }

  /** Nothing else reads from it. */
  lemma {:induction false} WrappedReadsOnly(path: seq<string>, v: Value, other: seq<string>)
    requires TextAt(Wrapped(path, v), other).Some?
    ensures IsPrefix(path, other) && TextAt(v, other[|path|..]) == TextAt(Wrapped(path, v), other)
    decreases |path|
  {
    if path == [] {
      assert other[0..] == other;
    } else {
      LookupChild(Wrapped(path, v), other);
      NullReadsNothing(other[1..]);
      WrappedReadsOnly(path[1..], v, other[1..]);
      PrefixBelow(path, other);
      assert other[1..][|path| - 1..] == other[|path|..];
    }
  }

  lemma {:induction false} WrappedCanonical(path: seq<string>, v: Value)
    requires CanonicalPath(path) && CanonicalKeys(v)
    ensures CanonicalKeys(Wrapped(path, v))
    decreases |path|
  {
    if path != [] {
      WrappedCanonical(path[1..], v);
    }
  }

  lemma {:induction false} MeetingCanonical(a: Value, b: Value)
    requires CanonicalKeys(a) && CanonicalKeys(b)
    ensures CanonicalKeys(Meeting(a, b))
    decreases b
  {
    if a.Obj? && b.Obj? {
      forall k | k in a.members && k in b.members ensures CanonicalKeys(Meeting(a.members[k], b.members[k])) {
        MeetingCanonical(a.members[k], b.members[k]);
      }
    }
  }
}
