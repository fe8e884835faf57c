/**
 Sums of an integer-valued function over a finite set: what `SUM` and `COUNT`
 mean over the rows of a table.
 */
module FiniteSums {
  ghost function Sum<T>(s: set<T>, f: T -> int): int
  {
    if s == {} then 0 else var x :| x in s; f(x) + Sum(s - {x}, f)
  }

  /** The sum does not depend on which element is taken out first. */
  lemma {:induction false} SumInsert<T>(s: set<T>, x: T, f: T -> int)
    requires x !in s
    ensures Sum(s + {x}, f) == Sum(s, f) + f(x)
  {
    var t := s + {x};
    var y :| y in t && Sum(t, f) == f(y) + Sum(t - {y}, f);
    if y == x {
      assert t - {y} == s;
    } else {
      var rest := s - {y};
      assert t - {y} == rest + {x} && rest + {y} == s;
      SumInsert(rest, x, f);
      SumInsert(rest, y, f);
    }
  }

  lemma SumRemove<T>(s: set<T>, x: T, f: T -> int)
    requires x in s
    ensures Sum(s, f) == Sum(s - {x}, f) + f(x)
  {
    assert (s - {x}) + {x} == s;
    SumInsert(s - {x}, x, f);
  }

  lemma {:induction false} SumCongruent<T>(s: set<T>, f: T -> int, g: T -> int)
    requires forall x :: x in s ==> f(x) == g(x)
    ensures Sum(s, f) == Sum(s, g)
  {
    if s != {} {
      var x :| x in s;
      SumRemove(s, x, f);
      SumRemove(s, x, g);
      SumCongruent(s - {x}, f, g);
    }
  }

  lemma {:induction false} SumZero<T>(s: set<T>, f: T -> int)
    requires forall x :: x in s ==> f(x) == 0
    ensures Sum(s, f) == 0
  {
    if s != {} {
      var x :| x in s;
      SumRemove(s, x, f);
      SumZero(s - {x}, f);
    }
  }

  /** Elements that contribute nothing can be dropped. */
  lemma {:induction false} SumRestrict<T>(s: set<T>, t: set<T>, f: T -> int)
    requires t <= s
    requires forall x :: x in s && x !in t ==> f(x) == 0
    ensures Sum(s, f) == Sum(t, f)
    decreases s - t
  {
    if s - t == {} {
      forall x | x in s ensures x in t {
        assert x !in s - t;
      }
      assert s == t;
    } else {
      var x :| x in s - t;
      SumRemove(s, x, f);
      SumRestrict(s - {x}, t, f);
    }
  }

  /** Raising no summand raises no sum. */
  lemma {:induction false} SumMonotone<T>(s: set<T>, f: T -> int, g: T -> int)
    requires forall x :: x in s ==> f(x) <= g(x)
    ensures Sum(s, f) <= Sum(s, g)
  {
    if s != {} {
      var x :| x in s;
      SumRemove(s, x, f);
      SumRemove(s, x, g);
      SumMonotone(s - {x}, f, g);
    }
  }

  lemma {:induction false} SumAdd<T>(s: set<T>, f: T -> int, g: T -> int, h: T -> int)
    requires forall x :: x in s ==> h(x) == f(x) + g(x)
    ensures Sum(s, h) == Sum(s, f) + Sum(s, g)
  {
    if s != {} {
      var x :| x in s;
      SumRemove(s, x, f);
      SumRemove(s, x, g);
      SumRemove(s, x, h);
      SumAdd(s - {x}, f, g, h);
    }
  }

  lemma {:induction false} SumOfOnes<T>(s: set<T>, f: T -> int)
    requires forall x :: x in s ==> f(x) == 1
    ensures Sum(s, f) == |s|
  {
    if s != {} {
      var x :| x in s;
      SumRemove(s, x, f);
      SumOfOnes(s - {x}, f);
    }
  }

  /** Reindexing along a bijection `key` from `s` onto `t`. */
  lemma {:induction false} SumReindex<T, U>(s: set<T>, t: set<U>, key: T -> U, f: T -> int, g: U -> int)
    requires forall x :: x in s ==> key(x) in t && g(key(x)) == f(x)
    requires forall x, y :: x in s && y in s && key(x) == key(y) ==> x == y
    requires forall u :: u in t ==> exists x :: x in s && key(x) == u
    ensures Sum(s, f) == Sum(t, g)
  {
    if s == {} {
      assert t == {};
    } else {
      var x :| x in s;
      SumRemove(s, x, f);
      SumRemove(t, key(x), g);
      forall u | u in t - {key(x)}
        ensures exists y :: y in s - {x} && key(y) == u
      {
        var y :| y in s && key(y) == u;
        assert y in s - {x};
      }
      SumReindex(s - {x}, t - {key(x)}, key, f, g);
    }
  }
}
