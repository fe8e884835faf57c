/** What it means for a sequence to be filtered: the kept elements, each once and in order. */
module Selections {
  /**
   `found` is made of exactly the elements of `all` that `keeps` keeps, each once and in order, `image`
   of each; `at` are their positions.
   */
  ghost predicate Picked<T, U>(all: seq<T>, keeps: T -> bool, image: T -> U, found: seq<U>, at: seq<nat>)
  {
    && |at| == |found|
    && (forall i :: 0 <= i < |at| ==> at[i] < |all| && found[i] == image(all[at[i]]))
    && (forall i, j :: 0 <= i < j < |at| ==> at[i] < at[j])
    && (forall n: nat :: n < |all| ==> (keeps(all[n]) <==> n in at))
  }

  ghost predicate FilteredAt<T>(all: seq<T>, keeps: T -> bool, found: seq<T>, at: seq<nat>) {
    Picked(all, keeps, x => x, found, at)
  }

  /** `found` is what a filter of `all` finds: the elements it keeps, each once and in order. */
  ghost predicate Filters<T>(all: seq<T>, keeps: T -> bool, found: seq<T>) {
    exists at :: FilteredAt(all, keeps, found, at)
  }

  /** The element after the others was passed over. */
  lemma PassedOver<T, U>(all: seq<T>, keeps: T -> bool, image: T -> U, found: seq<U>, at: seq<nat>)
    requires all != [] && Picked(all[..|all| - 1], keeps, image, found, at) && !keeps(all[|all| - 1])
    ensures Picked(all, keeps, image, found, at)
  {
    var n := |all| - 1;
    forall m: nat | m < |all| ensures keeps(all[m]) <==> m in at {
      assert m < n ==> all[..n][m] == all[m];
    }
  }

  /** The element after the others was kept. */
  lemma PickedLast<T, U>(all: seq<T>, keeps: T -> bool, image: T -> U, found: seq<U>, at: seq<nat>)
    requires all != [] && Picked(all[..|all| - 1], keeps, image, found, at) && keeps(all[|all| - 1])
    ensures Picked(all, keeps, image, found + [image(all[|all| - 1])], at + [|all| - 1])
  {
    var n := |all| - 1;
    var more, positions := found + [image(all[n])], at + [n];
    forall m: nat | m < |all| ensures keeps(all[m]) <==> m in positions {
      if m < n {
        assert all[..n][m] == all[m];
      } else {
        assert positions[|at|] == n;
      }
    }
    forall i | 0 <= i < |positions| ensures positions[i] < |all| && more[i] == image(all[positions[i]]) {
    }
  }

  function Shifted(at: seq<nat>): seq<nat> {
    seq(|at|, i requires 0 <= i < |at| => at[i] + 1)
  }

  lemma ShiftedIn(at: seq<nat>, n: nat)
    requires n > 0
    ensures n in Shifted(at) <==> n - 1 in at
  {
    if n - 1 in at {
      var i :| 0 <= i < |at| && at[i] == n - 1;
      assert Shifted(at)[i] == n;
    }
  }

  /** The element before the others was passed over. */
  lemma PassedFirst<T, U>(all: seq<T>, keeps: T -> bool, image: T -> U, found: seq<U>, at: seq<nat>)
    requires all != [] && Picked(all[1..], keeps, image, found, at) && !keeps(all[0])
    ensures Picked(all, keeps, image, found, Shifted(at))
  {
    forall i | 0 <= i < |at| ensures Shifted(at)[i] < |all| && found[i] == image(all[Shifted(at)[i]]) {
      assert all[1..][at[i]] == all[at[i] + 1];
    }
    forall n: nat | n < |all| ensures keeps(all[n]) <==> n in Shifted(at) {
      if n > 0 {
        ShiftedIn(at, n);
        assert all[1..][n - 1] == all[n];
      }
    }
  }

  /** The element before the others was kept. */
  lemma PickedFirst<T, U>(all: seq<T>, keeps: T -> bool, image: T -> U, found: seq<U>, at: seq<nat>)
    requires all != [] && Picked(all[1..], keeps, image, found, at) && keeps(all[0])
    ensures Picked(all, keeps, image, [image(all[0])] + found, [0] + Shifted(at))
  {
    var more, positions := [image(all[0])] + found, [0] + Shifted(at);
    forall i | 0 <= i < |positions| ensures positions[i] < |all| && more[i] == image(all[positions[i]]) {
      if i > 0 {
        assert all[1..][at[i - 1]] == all[positions[i]];
      }
    }
    forall n: nat | n < |all| ensures keeps(all[n]) <==> n in positions {
      if n == 0 {
        assert positions[0] == 0;
      } else {
        ShiftedIn(at, n);
        assert all[1..][n - 1] == all[n];
        assert n in positions <==> n in Shifted(at);
      }
    }
  }

  lemma FiltersNone<T>(keeps: T -> bool)
    ensures Filters([], keeps, [])
  {
    assert FilteredAt([], keeps, [], []);
  }

  lemma FiltersBefore<T>(all: seq<T>, keeps: T -> bool, found: seq<T>)
    requires all != [] && Filters(all[1..], keeps, found)
    ensures Filters(all, keeps, (if keeps(all[0]) then [all[0]] else []) + found)
  {
    var at :| FilteredAt(all[1..], keeps, found, at);
    if keeps(all[0]) {
      PickedFirst(all, keeps, x => x, found, at);
      assert FilteredAt(all, keeps, [all[0]] + found, [0] + Shifted(at));
    } else {
      PassedFirst(all, keeps, x => x, found, at);
      assert FilteredAt(all, keeps, found, Shifted(at));
      assert [] + found == found;
    }
  }
}
