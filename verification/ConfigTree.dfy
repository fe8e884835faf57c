/** Configuration trees, and what a path of segments reads from one. */
module ConfigTree {
  import opened Options
  import opened Text

  datatype Value =
    | Null
    | Flag(flag: bool)
    | Number(digits: string)
    | Str(text: string)
    | Arr(items: seq<Value>)
    | Obj(members: map<string, Value>)

  type Members = map<string, Value>

  // ------------------------------------------------------------------
  // Array indices
  // ------------------------------------------------------------------

  const MAX_INDEX: nat := 0xFFFF_FFFF_FFFF_FFFF

  predicate IsDigit(c: char) { '0' <= c <= '9' }

  predicate AllDigits(s: string) { forall i :: 0 <= i < |s| ==> IsDigit(s[i]) }

  function ValueOf(s: string): nat
    requires AllDigits(s)
  {
    if s == "" then 0 else 10 * ValueOf(s[..|s| - 1]) + (s[|s| - 1] as int - '0' as int)
  }

  /** `parse::<usize>()`: digits, perhaps after one `+`, naming a number that fits. */
  function ParseIndex(s: string): (r: Option<nat>)
    ensures r.Some? ==> r.value <= MAX_INDEX
  {
    var digits := if s != "" && s[0] == '+' then s[1..] else s;
    if digits != "" && AllDigits(digits) && ValueOf(digits) <= MAX_INDEX then Some(ValueOf(digits)) else None
  }

  /** No index, or an index as it is printed: `1`, never `01` or `+1`. */
  predicate Canonical(s: string) {
    ParseIndex(s).Some? ==> s == Digits(ParseIndex(s).value)
  }

  lemma {:induction false} DigitsRead(n: nat)
    ensures AllDigits(Digits(n)) && ValueOf(Digits(n)) == n && Digits(n)[0] != '+'
  {
    if n >= 10 {
      DigitsRead(n / 10);
      var s := Digits(n);
      assert s[..|s| - 1] == Digits(n / 10) && s[|s| - 1] == Digit(n % 10);
    } else {
      assert Digits(n)[..0] == "";
    }
  }

  lemma IndexRoundTrip(n: nat)
    requires n <= MAX_INDEX
    ensures ParseIndex(Digits(n)) == Some(n) && Canonical(Digits(n))
  {
    DigitsRead(n);
  }

  // ------------------------------------------------------------------
  // Lookup
  // ------------------------------------------------------------------

  /** One segment down: a member of an object or an element of an array. */
  function Child(v: Value, segment: string): (r: Option<Value>)
    ensures r.Some? ==> r.value < v
  {
    match v
    case Obj(members) => if segment in members then Some(members[segment]) else None
    case Arr(items) =>
      var index := ParseIndex(segment);
      if index.Some? && index.value < |items| then Some(items[index.value]) else None
    case _ => None
  }

  function Lookup(v: Value, path: seq<string>): Option<Value>
    decreases |path|
  {
    if path == [] then Some(v)
    else
      var child := Child(v, path[0]);
      if child.Some? then Lookup(child.value, path[1..]) else None
  }

  /** A scalar as text; every other value, and `null`, has none. */
  function AsText(v: Value): Option<string> {
    match v
    case Str(text) => Some(text)
    case Number(digits) => Some(digits)
    case Flag(flag) => Some(if flag then "true" else "false")
    case _ => None
  }

  /** What `get_string` reads. */
  function TextAt(v: Value, path: seq<string>): Option<string>
  {
    var found := Lookup(v, path);
    if found.Some? then AsText(found.value) else None
  }

  /** The text is the value's own: a string, a number's digits, or the word for a boolean. */
  predicate Spells(v: Value, text: string) {
    || v == Str(text)
    || v == Number(text)
    || (v == Flag(true) && text == "true")
    || (v == Flag(false) && text == "false")
  }

  /** What is read at a path is what the value there spells; nothing, sections and arrays spell nothing. */
  lemma TextSpells(v: Value, path: seq<string>, text: string)
    ensures TextAt(v, path) == Some(text) <==> Lookup(v, path).Some? && Spells(Lookup(v, path).value, text)
  {
  }

  /** The segment names the child: an object's member, or an array's element by its index. */
  ghost predicate Names(v: Value, segment: string, child: Value) {
    || (v.Obj? && segment in v.members && v.members[segment] == child)
    || (v.Arr? && exists i :: 0 <= i < |v.items| && ParseIndex(segment) == Some(i) && v.items[i] == child)
  }

  /** Each value is named by its segment in the one before. */
  ghost predicate Walk(path: seq<string>, values: seq<Value>) {
    |values| == |path| + 1 && forall i :: 0 <= i < |path| ==> Names(values[i], path[i], values[i + 1])
  }

  ghost predicate LeadsTo(v: Value, path: seq<string>, found: Value) {
    exists values: seq<Value> :: Walk(path, values) && values[0] == v && values[|path|] == found
  }

  /** A lookup follows the path segment by segment, and finds nothing only when the path leads nowhere. */
  lemma {:induction false} LookupWalks(v: Value, path: seq<string>, found: Value)
    ensures Lookup(v, path) == Some(found) <==> LeadsTo(v, path, found)
    decreases |path|
  {
    if path == [] {
      assert Lookup(v, path) == Some(found) ==> Walk(path, [v]);
    } else {
      var child := Child(v, path[0]);
      if Lookup(v, path) == Some(found) {
        LookupWalks(child.value, path[1..], found);
        var values :| Walk(path[1..], values) && values[0] == child.value && values[|path| - 1] == found;
        WalkFrom(v, path, values);
      }
      if LeadsTo(v, path, found) {
        var values :| Walk(path, values) && values[0] == v && values[|path|] == found;
        assert Names(v, path[0], values[1]);
        assert Walk(path[1..], values[1..]);
        LookupWalks(values[1], path[1..], found);
      }
    }
  }

  lemma WalkFrom(v: Value, path: seq<string>, values: seq<Value>)
    requires path != [] && Walk(path[1..], values) && Names(v, path[0], values[0])
    ensures LeadsTo(v, path, values[|path| - 1])
  {
    var longer := [v] + values;
    forall i | 0 <= i < |path| ensures Names(longer[i], path[i], longer[i + 1]) {
      if i > 0 {
        assert path[i] == path[1..][i - 1];
        assert Names(values[i - 1], path[1..][i - 1], values[i]);
      }
    }
    assert Walk(path, longer);
  }

  // ------------------------------------------------------------------
  // How an index may be written
  // ------------------------------------------------------------------

  lemma {:induction false} ZerosInFront(zeros: nat, s: string)
    requires AllDigits(s)
    ensures AllDigits(Zeros(zeros) + s) && ValueOf(Zeros(zeros) + s) == ValueOf(s)
    decreases |s|
  {
    if s == "" {
      assert Zeros(zeros) + s == Zeros(zeros);
      ZerosAreNothing(zeros);
    } else {
      var n := |s| - 1;
      ZerosInFront(zeros, s[..n]);
      assert (Zeros(zeros) + s)[..zeros + n] == Zeros(zeros) + s[..n];
    }
  }

  function Zeros(n: nat): string {
    seq(n, _ => '0')
  }

  lemma {:induction false} ZerosAreNothing(n: nat)
    ensures AllDigits(Zeros(n)) && ValueOf(Zeros(n)) == 0
  {
    if n > 0 {
      ZerosAreNothing(n - 1);
      assert Zeros(n)[..n - 1] == Zeros(n - 1);
    }
  }

  /** Digits are zeros and then the number as it is printed, or nothing but zeros. */
  lemma {:induction false} DigitsAreZerosAndNumber(s: string) returns (zeros: nat)
    requires s != "" && AllDigits(s)
    ensures s == Zeros(zeros) + Digits(ValueOf(s))
    decreases |s|
  {
    var n := |s| - 1;
    if n == 0 {
      zeros := 0;
      assert s[..0] == "";
      assert s == [Digit(ValueOf(s))];
    } else {
      var before := s[..n];
      zeros := DigitsAreZerosAndNumber(before);
      var last := s[n] as int - '0' as int;
      assert s == before + [s[n]];
      if ValueOf(before) == 0 {
        zeros := zeros + 1;
        assert Digits(0) == "0" && Zeros(zeros) == Zeros(zeros - 1) + "0";
        assert Digits(ValueOf(s)) == [s[n]];
      } else {
        assert ValueOf(s) / 10 == ValueOf(before) && ValueOf(s) % 10 == last;
        assert Digits(ValueOf(s)) == Digits(ValueOf(before)) + [s[n]];
      }
    }
  }

  /** The ways of writing an index: perhaps a plus, perhaps zeros, and the number. */
  ghost predicate WritesIndex(s: string, n: nat) {
    exists zeros: nat :: s == Zeros(zeros) + Digits(n) || s == "+" + (Zeros(zeros) + Digits(n))
  }

  /** Exactly those, of the numbers that fit, are read as an index. */
  lemma IndexIsWritten(s: string, n: nat)
    ensures ParseIndex(s) == Some(n) <==> n <= MAX_INDEX && WritesIndex(s, n)
  {
    if ParseIndex(s) == Some(n) {
      var digits := if s != "" && s[0] == '+' then s[1..] else s;
      var zeros := DigitsAreZerosAndNumber(digits);
      assert s == digits || s == "+" + digits;
    }
    if n <= MAX_INDEX && WritesIndex(s, n) {
      var zeros: nat :| s == Zeros(zeros) + Digits(n) || s == "+" + (Zeros(zeros) + Digits(n));
      DigitsRead(n);
      ZerosInFront(zeros, Digits(n));
      var digits := Zeros(zeros) + Digits(n);
      assert AllDigits(digits) && digits[0] != '+';
      assert s == "+" + digits ==> s[1..] == digits;
    }
  }

  method ValueAt(root: Value, path: seq<string>) returns (r: Option<Value>)
    ensures r == Lookup(root, path)
  {
    var current := root;
    for i := 0 to |path|
      invariant Lookup(root, path) == Lookup(current, path[i..])
    {
      assert path[i..][0] == path[i] && path[i..][1..] == path[i + 1..];
      match current
      case Obj(members) =>
        if path[i] !in members {
          return None;
        }
        current := members[path[i]];
      case Arr(items) =>
        var index := ParseIndex(path[i]);
        if index.None? || index.value >= |items| {
          return None;
        }
        current := items[index.value];
      case _ =>
        return None;
    }
    return Some(current);
  }

  predicate CanonicalPath(path: seq<string>) {
    forall i :: 0 <= i < |path| ==> Canonical(path[i])
  }

  /** Every index among the keys of a tree is written as it is printed. */
  predicate CanonicalKeys(v: Value)
  {
    match v
    case Obj(members) => forall k :: k in members ==> Canonical(k) && CanonicalKeys(members[k])
    case Arr(items) => forall i :: 0 <= i < |items| ==> CanonicalKeys(items[i])
    case _ => true
  }

  /** The child, or `null` where there is none, which reads the same. */
  function ChildOrNull(v: Value, segment: string): Value {
    Child(v, segment).GetOr(Null)
  }

  lemma LookupChild(v: Value, path: seq<string>)
    requires path != []
    ensures TextAt(v, path) == TextAt(ChildOrNull(v, path[0]), path[1..])
  {
  }

  lemma CanonicalChild(v: Value, segment: string)
    requires CanonicalKeys(v)
    ensures CanonicalKeys(ChildOrNull(v, segment))
  {
  }

  // ------------------------------------------------------------------
  // The order in which a map gives its keys
  // ------------------------------------------------------------------

  type Order = set<string> -> seq<string>

  ghost predicate ListsKeys(keys: seq<string>, all: set<string>) {
    && (forall k :: k in keys <==> k in all)
    && (forall i, j :: 0 <= i < j < |keys| ==> keys[i] != keys[j])
  }

  ghost predicate Enumerates(order: Order) {
    forall keys :: ListsKeys(order(keys), keys)
  }

  lemma {:induction false} ListedSize(keys: seq<string>, all: set<string>)
    requires ListsKeys(keys, all)
    ensures |keys| == |all|
    decreases |keys|
  {
    if keys == [] {
      assert all == {};
    } else {
      var n := |keys| - 1;
      assert keys[n] in keys;
      forall k ensures k in keys[..n] <==> k in all - {keys[n]} {
        assert k in keys[..n] ==> k in keys;
      }
      ListedSize(keys[..n], all - {keys[n]});
    }
  }
}
