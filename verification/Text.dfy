/** Colon-joined text and decimal numbers, as keys are written. */
module Text {
  predicate ColonFree(s: string) { ':' !in s }

  /** The segments with a colon between each and the next. */
  function Joined(segments: seq<string>): string
  {
    if segments == [] then "" else if |segments| == 1 then segments[0] else segments[0] + ":" + Joined(segments[1..])
  }

  /** The first colon splits a text in one way. */
  lemma FirstColonSplits(a: string, rest: string, b: string, other: string)
    requires ColonFree(a) && ColonFree(b) && a + ":" + rest == b + ":" + other
    ensures a == b && rest == other
  {
    var s, t := a + ":" + rest, b + ":" + other;
    assert s[|a|] == ':' && t[|b|] == ':';
    assert forall i :: 0 <= i < |a| ==> s[i] == a[i];
    assert forall i :: 0 <= i < |b| ==> t[i] == b[i];
    assert |a| == |b|;
    assert s[..|a|] == a && t[..|b|] == b;
    assert s[|a| + 1..] == rest && t[|b| + 1..] == other;
  }

  /** Equally many segments, all but the last the same or free of colons, are read back from their text. */
  lemma {:induction false} JoinedInjective(a: seq<string>, b: seq<string>)
    requires |a| == |b| && Joined(a) == Joined(b)
    requires forall i :: 0 <= i < |a| - 1 ==> a[i] == b[i] || (ColonFree(a[i]) && ColonFree(b[i]))
    ensures a == b
  {
    if |a| == 1 {
      assert a == [a[0]] && b == [b[0]];
    } else if |a| > 1 {
      if a[0] == b[0] {
        assert Joined(a)[|a[0]| + 1..] == Joined(a[1..]) && Joined(b)[|b[0]| + 1..] == Joined(b[1..]);
      } else {
        FirstColonSplits(a[0], Joined(a[1..]), b[0], Joined(b[1..]));
      }
      JoinedInjective(a[1..], b[1..]);
      assert a == [a[0]] + a[1..] && b == [b[0]] + b[1..];
    }
  }

  // ------------------------------------------------------------------
  // The same text, split again
  // ------------------------------------------------------------------

  function FirstColon(s: string): (i: nat)
    ensures i <= |s| && ColonFree(s[..i]) && (i < |s| ==> s[i] == ':')
  {
    if s == "" || s[0] == ':' then 0
    else
      var i := 1 + FirstColon(s[1..]);
      assert s[..i] == [s[0]] + s[1..][..i - 1];
      i
  }

  /** What is left of the first segment past its first colon belongs to the second. */
  function Shifted(segments: seq<string>): (r: seq<string>)
    requires |segments| > 1
    ensures |r| == |segments| - 1
  {
    var i := FirstColon(segments[0]);
    if i == |segments[0]| then segments[1..]
    else [segments[0][i + 1..] + ":" + segments[1]] + segments[2..]
  }

  /** As many segments with the same text, split at the text's first colons. */
  function Resplit(segments: seq<string>): (r: seq<string>)
    ensures |r| == |segments|
    ensures forall i :: 0 <= i < |r| - 1 ==> ColonFree(r[i])
    decreases |segments|
  {
    if |segments| <= 1 then segments
    else [segments[0][..FirstColon(segments[0])]] + Resplit(Shifted(segments))
  }

  lemma JoinedCons(first: string, rest: seq<string>)
    requires rest != []
    ensures Joined([first] + rest) == first + ":" + Joined(rest)
  {
    assert ([first] + rest)[1..] == rest;
  }

  /** A prefix of the first segment is a prefix of the text. */
  lemma JoinedPrefix(prefix: string, first: string, rest: seq<string>)
    ensures Joined([prefix + first] + rest) == prefix + Joined([first] + rest)
  {
    if rest != [] {
      JoinedCons(prefix + first, rest);
      JoinedCons(first, rest);
    }
  }

  lemma Regrouped(first: string, i: nat, text: string)
    requires i < |first| && first[i] == ':'
    ensures first + ":" + text == first[..i] + ":" + (first[i + 1..] + ":" + text)
  {
    var p, q := first[..i], first[i + 1..];
    assert first == p + ":" + q;
    assert (p + ":" + q) + ":" + text == p + ":" + ((q + ":") + text);
  }

  lemma JoinedUnfolds(segments: seq<string>)
    requires |segments| > 1
    ensures Joined(segments) == segments[0] + ":" + Joined(segments[1..])
  {
  }

  lemma ShiftedText(segments: seq<string>)
    requires |segments| > 1 && FirstColon(segments[0]) < |segments[0]|
    ensures Joined(Shifted(segments)) == segments[0][FirstColon(segments[0]) + 1..] + ":" + Joined(segments[1..])
  {
    JoinedPrefix(segments[0][FirstColon(segments[0]) + 1..] + ":", segments[1], segments[2..]);
    assert [segments[1]] + segments[2..] == segments[1..];
  }

  lemma NothingShifted(segments: seq<string>)
    requires |segments| > 1 && FirstColon(segments[0]) == |segments[0]|
    ensures Joined(segments) == segments[0][..FirstColon(segments[0])] + ":" + Joined(Shifted(segments))
  {
    assert Shifted(segments) == segments[1..];
    assert segments[0][..|segments[0]|] == segments[0];
  }

  lemma SomethingShifted(segments: seq<string>, before: string, after: string)
    requires |segments| > 1 && FirstColon(segments[0]) < |segments[0]|
    requires before == Joined(segments) && after == Joined(Shifted(segments))
    ensures before == segments[0][..FirstColon(segments[0])] + ":" + after
  {
    JoinedUnfolds(segments);
    ShiftedText(segments);
    Regrouped(segments[0], FirstColon(segments[0]), Joined(segments[1..]));
  }

  lemma ShiftedKeepsText(segments: seq<string>)
    requires |segments| > 1
    ensures Joined(segments) == segments[0][..FirstColon(segments[0])] + ":" + Joined(Shifted(segments))
  {
    if FirstColon(segments[0]) == |segments[0]| {
      NothingShifted(segments);
    } else {
      SomethingShifted(segments, Joined(segments), Joined(Shifted(segments)));
    }
  }

  lemma {:induction false} ResplitKeepsText(segments: seq<string>)
    ensures Joined(Resplit(segments)) == Joined(segments)
    decreases |segments|
  {
    if |segments| > 1 {
      ResplitKeepsText(Shifted(segments));
      ShiftedKeepsText(segments);
      JoinedCons(segments[0][..FirstColon(segments[0])], Resplit(Shifted(segments)));
    }
  }

  /** Equally many segments, of whatever text, join alike exactly when splitting again makes them the same. */
  lemma JoinedAlike(a: seq<string>, b: seq<string>)
    requires |a| == |b|
    ensures Joined(a) == Joined(b) <==> Resplit(a) == Resplit(b)
  {
    ResplitKeepsText(a);
    ResplitKeepsText(b);
    if Joined(a) == Joined(b) {
      JoinedInjective(Resplit(a), Resplit(b));
    }
  }

  // ------------------------------------------------------------------
  // Any text between separators
  // ------------------------------------------------------------------

  /** The parts with the separator between each and the next. */
  function JoinedBy(parts: seq<string>, separator: string): string {
    if parts == [] then ""
    else if |parts| == 1 then parts[0]
    else parts[0] + separator + JoinedBy(parts[1..], separator)
  }

  /** The parts of a text between its separators. */
  function SplitOn(s: string, separator: char): (r: seq<string>)
    ensures r != []
  {
    if s == "" then [""]
    else if s[0] == separator then [""] + SplitOn(s[1..], separator)
    else var rest := SplitOn(s[1..], separator); [[s[0]] + rest[0]] + rest[1..]
  }

  lemma JoinedByMore(first: string, rest: seq<string>, separator: string)
    requires rest != []
    ensures JoinedBy([first] + rest, separator) == first + separator + JoinedBy(rest, separator)
  {
    assert ([first] + rest)[1..] == rest;
  }

  /** A character in front of the first part is in front of the text. */
  lemma JoinedByLonger(c: char, parts: seq<string>, separator: string)
    requires parts != []
    ensures JoinedBy([[c] + parts[0]] + parts[1..], separator) == [c] + JoinedBy(parts, separator)
  {
    if |parts| > 1 {
      JoinedByMore([c] + parts[0], parts[1..], separator);
    }
  }

  /** Nothing of a text is lost between its parts. */
  lemma {:induction false} SplitOnRejoins(s: string, separator: char)
    ensures JoinedBy(SplitOn(s, separator), [separator]) == s
  {
    if s != "" {
      var rest := SplitOn(s[1..], separator);
      SplitOnRejoins(s[1..], separator);
      assert s == [s[0]] + s[1..];
      if s[0] == separator {
        JoinedByMore("", rest, [separator]);
      } else {
        JoinedByLonger(s[0], rest, [separator]);
      }
    }
  }

  /** And no part has a separator. */
  lemma {:induction false} SplitOnSeparates(s: string, separator: char)
    ensures forall i :: 0 <= i < |SplitOn(s, separator)| ==> separator !in SplitOn(s, separator)[i]
  {
    if s != "" {
      SplitOnSeparates(s[1..], separator);
    }
  }

  function Lower(c: char): char {
    if 'A' <= c <= 'Z' then (c as int - 'A' as int + 'a' as int) as char else c
  }

  /** `to_lowercase`, of letters A to Z. */
  function Lowercase(s: string): (r: string)
    ensures |r| == |s| && forall i :: 0 <= i < |s| ==> r[i] == Lower(s[i])
  {
    seq(|s|, i requires 0 <= i < |s| => Lower(s[i]))
  }

  const UPPER_LETTERS := "ABCDEFGHIJKLMNOPQRSTUVWXYZ"
  const LOWER_LETTERS := "abcdefghijklmnopqrstuvwxyz"

  /** A capital becomes the small letter at its place in the alphabet, and nothing else changes. */
  lemma LowercaseMeans(s: string)
    ensures |Lowercase(s)| == |s|
    ensures forall i, n :: 0 <= i < |s| && 0 <= n < 26 && s[i] == UPPER_LETTERS[n] ==>
              Lowercase(s)[i] == LOWER_LETTERS[n]
    ensures forall i :: 0 <= i < |s| && s[i] !in UPPER_LETTERS ==> Lowercase(s)[i] == s[i]
  {
    forall i, n | 0 <= i < |s| && 0 <= n < 26 && s[i] == UPPER_LETTERS[n]
      ensures Lowercase(s)[i] == LOWER_LETTERS[n]
    {
      LetterAt(n);
    }
    forall i | 0 <= i < |s| && s[i] !in UPPER_LETTERS ensures Lowercase(s)[i] == s[i] {
      if 'A' <= s[i] <= 'Z' {
        LetterAt(s[i] as int - 'A' as int);
      }
    }
  }

  lemma LetterAt(n: nat)
    requires n < 26
    ensures UPPER_LETTERS[n] == ('A' as int + n) as char && LOWER_LETTERS[n] == ('a' as int + n) as char
  {
  }

  lemma LowercaseKeepsColonFree(s: string)
    ensures ColonFree(Lowercase(s)) == ColonFree(s)
  {
    forall i | 0 <= i < |s| ensures Lowercase(s)[i] == ':' <==> s[i] == ':' {
    }
    if ':' in s {
      var i :| 0 <= i < |s| && s[i] == ':';
      assert Lowercase(s)[i] == ':';
    }
  }

  // ------------------------------------------------------------------
  // Decimal numbers
  // ------------------------------------------------------------------

  function Digit(d: nat): char
    requires d < 10
  {
    ('0' as int + d) as char
  }

  function Digits(n: nat): (r: string)
    ensures r != ""
  {
    if n < 10 then [Digit(n)] else Digits(n / 10) + [Digit(n % 10)]
  }

  /** An integer as `{id}` prints it. */
  function Decimal(n: int): string {
    if n >= 0 then Digits(n) else "-" + Digits(-n)
  }

  lemma {:induction false} DigitsInjective(m: nat, n: nat)
    requires Digits(m) == Digits(n)
    ensures m == n
  {
    var a, b := Digits(m), Digits(n);
    if m >= 10 && n >= 10 {
      assert a[..|a| - 1] == Digits(m / 10) && b[..|b| - 1] == Digits(n / 10);
      assert a[|a| - 1] == Digit(m % 10) && b[|b| - 1] == Digit(n % 10);
      DigitsInjective(m / 10, n / 10);
    } else if m < 10 && n < 10 {
      assert a[0] == Digit(m) && b[0] == Digit(n);
    }
  }

  lemma {:induction false} NoSign(n: nat)
    ensures Digits(n)[0] != '-'
  {
    if n >= 10 {
      NoSign(n / 10);
    }
  }

  lemma DecimalInjective(m: int, n: int)
    requires Decimal(m) == Decimal(n)
    ensures m == n
  {
    if m >= 0 && n >= 0 {
      DigitsInjective(m, n);
    } else if m < 0 && n < 0 {
      assert Decimal(m)[1..] == Digits(-m) && Decimal(n)[1..] == Digits(-n);
      DigitsInjective(-m, -n);
    } else {
      NoSign(if m >= 0 then m else n);
    }
  }
}
