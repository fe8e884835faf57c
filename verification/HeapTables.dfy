/** A table in heap order, keyed by its `"Id"` column. */
module HeapTables {
  import opened Options
  import opened Selections

  datatype Record<T> = Record(id: int, columns: T)

  /** The rows in the order `ORDER BY ctid` reads them. */
  type Table<T> = seq<Record<T>>

  function Find<T>(table: Table<T>, id: int): Option<Record<T>> {
    if table == [] then None else if table[0].id == id then Some(table[0]) else Find(table[1..], id)
  }

  function Without<T>(table: Table<T>, id: int): Table<T> {
    if table == [] then [] else (if table[0].id == id then [] else [table[0]]) + Without(table[1..], id)
  }

  /** The heap puts a row version wherever there is room. */
  function Placed<T>(table: Table<T>, row: Record<T>, place: nat): Table<T> {
    if place <= |table| then table[..place] + [row] + table[place..] else table + [row]
  }

  /** A lookup by id finds a row with it, or there is none. */
  lemma {:induction false} FindMeans<T>(table: Table<T>, id: int)
    ensures Find(table, id).Some? ==> Find(table, id).value in table && Find(table, id).value.id == id
    ensures Find(table, id).None? <==> forall row :: row in table ==> row.id != id
  {
    if table != [] {
      FindMeans(table[1..], id);
      assert table == [table[0]] + table[1..];
    }
  }

  /** A deletion leaves every row with another id, once and in order, and no other. */
  lemma {:induction false} WithoutFilters<T>(table: Table<T>, id: int)
    ensures Filters(table, (row: Record<T>) => row.id != id, Without(table, id))
  {
    if table == [] {
      FiltersNone((row: Record<T>) => row.id != id);
    } else {
      WithoutFilters(table[1..], id);
      FiltersBefore(table, (row: Record<T>) => row.id != id, Without(table[1..], id));
    }
  }

  /** `after` is `before` with the row somewhere among the others. */
  ghost predicate Inserted<T>(before: Table<T>, row: Record<T>, after: Table<T>) {
    exists p :: 0 <= p < |after| && after[p] == row && after[..p] + after[p + 1..] == before
  }

  lemma PlacedInserts<T>(table: Table<T>, row: Record<T>, place: nat)
    ensures Inserted(table, row, Placed(table, row, place))
  {
    var p, after := if place <= |table| then place else |table|, Placed(table, row, place);
    assert after == table[..p] + [row] + table[p..];
    assert after[p] == row && after[..p] + after[p + 1..] == table;
  }

  /** `after` is `before` with the row in the place of the one with its id, wherever the heap put it. */
  ghost predicate Replaced<T(!new)>(before: Table<T>, row: Record<T>, after: Table<T>) {
    exists kept :: Filters(before, (r: Record<T>) => r.id != row.id, kept) && Inserted(kept, row, after)
  }

  lemma UpdateReplaces<T(!new)>(table: Table<T>, row: Record<T>, place: nat)
    ensures Replaced(table, row, Placed(Without(table, row.id), row, place))
  {
    WithoutFilters(table, row.id);
    PlacedInserts(Without(table, row.id), row, place);
  }

  lemma {:induction false} FindWithout<T>(table: Table<T>, id: int, other: int)
    ensures Find(Without(table, id), other) == if other == id then None else Find(table, other)
  {
    if table != [] {
      FindWithout(table[1..], id, other);
      var rest := Without(table[1..], id);
      if table[0].id == id {
        assert Without(table, id) == rest;
      } else {
        assert Without(table, id) == [table[0]] + rest && ([table[0]] + rest)[1..] == rest;
      }
    }
  }

  lemma {:induction false} FindInParts<T>(a: Table<T>, b: Table<T>, id: int)
    ensures Find(a + b, id) == if Find(a, id).Some? then Find(a, id) else Find(b, id)
  {
    if a == [] {
      assert a + b == b;
    } else {
      assert (a + b)[1..] == a[1..] + b;
      FindInParts(a[1..], b, id);
    }
  }

  /** Wherever the heap puts a row with a new id, a lookup by id finds it and every other row as before. */
  lemma FindPlaced<T>(table: Table<T>, row: Record<T>, place: nat, id: int)
    requires Find(table, row.id).None?
    ensures Find(Placed(table, row, place), id) == if id == row.id then Some(row) else Find(table, id)
  {
    var at := if place <= |table| then place else |table|;
    assert table == table[..at] + table[at..];
    FindInParts(table[..at], table[at..], id);
    FindInParts(table[..at], [row] + table[at..], id);
    FindInParts([row], table[at..], id);
    assert table[..at] + [row] + table[at..] == table[..at] + ([row] + table[at..]);
    assert Placed(table, row, place) == table[..at] + ([row] + table[at..]);
    assert Find([row], id) == if id == row.id then Some(row) else None by {
      assert [row][1..] == [];
    }
  }

  /** An update reads back at once, and leaves every other row as it was. */
  lemma UpdateReadsBack<T>(table: Table<T>, id: int, columns: T, place: nat, other: int)
    ensures Find(Placed(Without(table, id), Record(id, columns), place), other)
         == if other == id then Some(Record(id, columns)) else Find(table, other)
  {
    FindWithout(table, id, id);
    FindPlaced(Without(table, id), Record(id, columns), place, other);
    FindWithout(table, id, other);
  }
}
