/** Catalog's reaction to `InvoiceFinalized`: units sold per track. */
module CatalogEvents {
  import opened Options
  import opened OrdersContracts
  import opened FiniteSums
  import opened Folds

  datatype TrackSales = TrackSales(timesSold: int, lastSoldAt: Option<Instant>)

  type SalesTable = map<int, TrackSales>

  function UnitsOf(lines: seq<EventLine>, track: int): int
  {
    if lines == [] then 0
    else
      var last := lines[|lines| - 1];
      UnitsOf(lines[..|lines| - 1], track) + if last.trackId == track then last.quantity else 0
  }

  function TracksOf(lines: seq<EventLine>): set<int>
  {
    set line | line in lines :: line.trackId
  }

  /** `INSERT … ON CONFLICT ("TrackId") DO UPDATE`, for one track. */
  function Upserted(rows: SalesTable, track: int, units: int, date: Instant): TrackSales
  {
    if track in rows
    then TrackSales(rows[track].timesSold + units, Later(rows[track].lastSoldAt, date))
    else TrackSales(units, Some(date))
  }

  /** The table after one event: each track on it sold its units, every other row is untouched. */
  function ApplySales(rows: SalesTable, event: InvoiceFinalized): SalesTable
  {
    map track | track in rows.Keys + TracksOf(event.lines) ::
      if track in TracksOf(event.lines)
      then Upserted(rows, track, UnitsOf(event.lines, track), event.invoiceDate)
      else rows[track]
  }

  /** `groups` lists each track of `lines` once, with the sum of its quantities. */
  ghost predicate IsGrouping(groups: seq<(int, int)>, lines: seq<EventLine>)
  {
    && (forall i, j :: 0 <= i < j < |groups| ==> groups[i].0 != groups[j].0)
    && (forall i :: 0 <= i < |groups| ==> groups[i].0 in TracksOf(lines) && groups[i].1 == UnitsOf(lines, groups[i].0))
    && (forall line :: line in lines ==> exists i :: 0 <= i < |groups| && groups[i].0 == line.trackId)
  }

  lemma {:induction false} UnitsOfAbsent(lines: seq<EventLine>, track: int)
    requires track !in TracksOf(lines)
    ensures UnitsOf(lines, track) == 0
  {
    if lines != [] {
      var last := lines[|lines| - 1];
      assert last in lines;
      var rest := lines[..|lines| - 1];
      forall line | line in rest ensures line.trackId != track {
        assert line in lines;
      }
      UnitsOfAbsent(rest, track);
    }
  }

  lemma UnitsOfAppend(lines: seq<EventLine>, line: EventLine, track: int)
    ensures UnitsOf(lines + [line], track) == UnitsOf(lines, track) + if line.trackId == track then line.quantity else 0
    ensures TracksOf(lines + [line]) == TracksOf(lines) + {line.trackId}
  {
    assert (lines + [line])[..|lines|] == lines;
  }

  /** One more line keeps the grouping: its track's group grows, or a new group starts. */
  lemma AddLine(groups: seq<(int, int)>, lines: seq<EventLine>, line: EventLine, at: nat)
    requires IsGrouping(groups, lines)
    requires at <= |groups|
    requires at < |groups| ==> groups[at].0 == line.trackId
    requires forall i :: 0 <= i < at ==> groups[i].0 != line.trackId
    ensures at < |groups| ==>
              IsGrouping(groups[at := (line.trackId, groups[at].1 + line.quantity)], lines + [line])
    ensures at == |groups| ==> IsGrouping(groups + [(line.trackId, line.quantity)], lines + [line])
  {
    forall track {
      UnitsOfAppend(lines, line, track);
    }
    if at == |groups| {
      assert line.trackId !in TracksOf(lines);
      UnitsOfAbsent(lines, line.trackId);
      var longer := groups + [(line.trackId, line.quantity)];
      assert longer[|groups|].0 == line.trackId;
      forall l | l in lines + [line] ensures exists i :: 0 <= i < |longer| && longer[i].0 == l.trackId {
        if l in lines {
          var i :| 0 <= i < |groups| && groups[i].0 == l.trackId;
          assert longer[i].0 == l.trackId;
        }
      }
    } else {
      var grown := groups[at := (line.trackId, groups[at].1 + line.quantity)];
      forall l | l in lines + [line] ensures exists i :: 0 <= i < |grown| && grown[i].0 == l.trackId {
        if l in lines {
          var i :| 0 <= i < |groups| && groups[i].0 == l.trackId;
          assert grown[i].0 == l.trackId;
        } else {
          assert grown[at].0 == l.trackId;
        }
      }
    }
  }

  /** The rows after the first `count` groups have been upserted. */
  ghost predicate Upserting(
    before: SalesTable, after: SalesTable, groups: seq<(int, int)>, count: nat, date: Instant)
    requires count <= |groups|
  {
    && (forall i :: 0 <= i < count ==>
          groups[i].0 in after && after[groups[i].0] == Upserted(before, groups[i].0, groups[i].1, date))
    && (forall i :: count <= i < |groups| ==>
          (groups[i].0 in after <==> groups[i].0 in before)
          && (groups[i].0 in before ==> after[groups[i].0] == before[groups[i].0]))
    && (forall track :: (forall i :: 0 <= i < |groups| ==> groups[i].0 != track) ==>
          (track in after <==> track in before) && (track in before ==> after[track] == before[track]))
  }

  lemma UpsertedAll(before: SalesTable, after: SalesTable, groups: seq<(int, int)>, event: InvoiceFinalized)
    requires IsGrouping(groups, event.lines)
    requires Upserting(before, after, groups, |groups|, event.invoiceDate)
    ensures after == ApplySales(before, event)
  {
    var want := ApplySales(before, event);
    forall track
      ensures track in after <==> track in want
      ensures track in want ==> after[track] == want[track]
    {
      if track in TracksOf(event.lines) {
        var line :| line in event.lines && line.trackId == track;
        var i :| 0 <= i < |groups| && groups[i].0 == line.trackId;
      } else {
        assert forall i :: 0 <= i < |groups| ==> groups[i].0 != track;
      }
    }
  }

  /** Two events may be applied in either order. */
  lemma SalesCommute(rows: SalesTable, a: InvoiceFinalized, b: InvoiceFinalized)
    ensures ApplySales(ApplySales(rows, a), b) == ApplySales(ApplySales(rows, b), a)
  {
    var ab, ba := ApplySales(ApplySales(rows, a), b), ApplySales(ApplySales(rows, b), a);
    forall track | track in ab
      ensures ab[track] == ba[track]
    {
      assert track in ApplySales(rows, a) <==> track in rows || track in TracksOf(a.lines);
      assert track in ApplySales(rows, b) <==> track in rows || track in TracksOf(b.lines);
    }
  }

  /** Redelivery, retries and the feed may reorder events; the table does not show it. */
  lemma SalesOrderIndependent(rows: SalesTable, events: seq<InvoiceFinalized>, reordered: seq<InvoiceFinalized>)
    requires multiset(events) == multiset(reordered)
    ensures Fold(ApplySales, rows, events) == Fold(ApplySales, rows, reordered)
  {
    forall a: InvoiceFinalized, b: InvoiceFinalized, s: SalesTable
      ensures ApplySales(ApplySales(s, a), b) == ApplySales(ApplySales(s, b), a)
    {
      SalesCommute(s, a, b);
    }
    FoldPermutation(ApplySales, rows, events, reordered);
  }

  // ------------------------------------------------------------------
  // The table as an aggregate over a set of events
  // ------------------------------------------------------------------

  function UnitsIn(events: map<EventId, InvoiceFinalized>, id: EventId, track: int): int
  {
    if id in events then UnitsOf(events[id].lines, track) else 0
  }

  ghost function UnitsSold(events: map<EventId, InvoiceFinalized>, applied: set<EventId>, track: int): int
  {
    Sum(applied, (id: EventId) => UnitsIn(events, id, track))
  }

  ghost predicate Sold(events: map<EventId, InvoiceFinalized>, applied: set<EventId>, track: int)
  {
    exists id :: id in applied && id in events && track in TracksOf(events[id].lines)
  }

  /** `date` is the latest invoice date among the applied events that sold the track. */
  ghost predicate LatestSale(
    events: map<EventId, InvoiceFinalized>, applied: set<EventId>, track: int, date: Option<Instant>)
  {
    && date.Some?
    && (exists id :: id in applied && id in events && track in TracksOf(events[id].lines)
                     && events[id].invoiceDate == date.value)
    && (forall id :: id in applied && id in events && track in TracksOf(events[id].lines) ==>
          events[id].invoiceDate <= date.value)
  }

  /** The table holds exactly the sum and the latest date over the applied events, track by track. */
  ghost predicate SalesAggregate(rows: SalesTable, events: map<EventId, InvoiceFinalized>, applied: set<EventId>)
  {
    && (forall track :: track in rows <==> Sold(events, applied, track))
    && (forall track :: track in rows ==>
          rows[track].timesSold == UnitsSold(events, applied, track)
          && LatestSale(events, applied, track, rows[track].lastSoldAt))
  }

  lemma UnitsSoldInsert(events: map<EventId, InvoiceFinalized>, applied: set<EventId>, id: EventId, track: int)
    requires id in events && id !in applied
    ensures UnitsSold(events, applied + {id}, track)
         == UnitsSold(events, applied, track) + UnitsOf(events[id].lines, track)
  {
    SumInsert(applied, id, (i: EventId) => UnitsIn(events, i, track));
  }

  lemma UnitsSoldUnsold(events: map<EventId, InvoiceFinalized>, applied: set<EventId>, track: int)
    requires !Sold(events, applied, track)
    ensures UnitsSold(events, applied, track) == 0
  {
    forall id | id in applied ensures UnitsIn(events, id, track) == 0 {
      if id in events {
        UnitsOfAbsent(events[id].lines, track);
      }
    }
    SumZero(applied, (i: EventId) => UnitsIn(events, i, track));
  }

  /** Applying an event not applied before keeps the table an aggregate, over one more event. */
  lemma ApplySalesAggregates(
    rows: SalesTable, events: map<EventId, InvoiceFinalized>, applied: set<EventId>, id: EventId)
    requires SalesAggregate(rows, events, applied)
    requires id in events && id !in applied
    ensures SalesAggregate(ApplySales(rows, events[id]), events, applied + {id})
  {
    var event := events[id];
    var after, more := ApplySales(rows, event), applied + {id};
    forall track
      ensures track in after <==> Sold(events, more, track)
      ensures track in after ==> after[track].timesSold == UnitsSold(events, more, track)
      ensures track in after ==> LatestSale(events, more, track, after[track].lastSoldAt)
    {
      assert Sold(events, more, track) <==> Sold(events, applied, track) || track in TracksOf(event.lines) by {
        assert id in more;
        if Sold(events, applied, track) {
          var other :| other in applied && other in events && track in TracksOf(events[other].lines);
          assert other in more;
        }
      }
      UnitsSoldInsert(events, applied, id, track);
      if track !in TracksOf(event.lines) {
        UnitsOfAbsent(event.lines, track);
      }
      if track !in rows {
        UnitsSoldUnsold(events, applied, track);
      }
      if track in after {
        LatestSaleInsert(rows, events, applied, id, track);
      }
    }
  }

  lemma LatestSaleInsert(
    rows: SalesTable, events: map<EventId, InvoiceFinalized>, applied: set<EventId>, id: EventId, track: int)
    requires SalesAggregate(rows, events, applied)
    requires id in events && id !in applied
    requires track in ApplySales(rows, events[id])
    ensures LatestSale(events, applied + {id}, track, ApplySales(rows, events[id])[track].lastSoldAt)
  {
    var more := applied + {id};
    var date := ApplySales(rows, events[id])[track].lastSoldAt;
    assert id in more;
    if track in rows && date == rows[track].lastSoldAt {
      var other :| other in applied && other in events && track in TracksOf(events[other].lines)
        && events[other].invoiceDate == date.value;
      assert other in more;
    }
    forall other | other in more && other in events && track in TracksOf(events[other].lines)
      ensures events[other].invoiceDate <= date.value
    {
      if other != id {
        assert other in applied && Sold(events, applied, track);
      }
    }
  }

  /** New outbox rows do not disturb the aggregate over rows already applied. */
  lemma SalesAggregateFrame(
    rows: SalesTable, events: map<EventId, InvoiceFinalized>, more: map<EventId, InvoiceFinalized>,
    applied: set<EventId>)
    requires SalesAggregate(rows, events, applied)
    requires forall id :: id in applied ==> (id in more <==> id in events)
    requires forall id :: id in applied && id in events ==> more[id] == events[id]
    ensures SalesAggregate(rows, more, applied)
  {
    forall track
      ensures Sold(more, applied, track) <==> Sold(events, applied, track)
      ensures UnitsSold(more, applied, track) == UnitsSold(events, applied, track)
      ensures track in rows ==> LatestSale(more, applied, track, rows[track].lastSoldAt)
    {
      SumCongruent(applied, (i: EventId) => UnitsIn(events, i, track), (i: EventId) => UnitsIn(more, i, track));
      if Sold(events, applied, track) {
        var id :| id in applied && id in events && track in TracksOf(events[id].lines);
        assert id in more && track in TracksOf(more[id].lines);
      }
      if Sold(more, applied, track) {
        var id :| id in applied && id in more && track in TracksOf(more[id].lines);
        assert id in events && track in TracksOf(events[id].lines);
      }
      if track in rows {
        var id :| id in applied && id in events && track in TracksOf(events[id].lines)
          && events[id].invoiceDate == rows[track].lastSoldAt.value;
        assert id in more && more[id].invoiceDate == rows[track].lastSoldAt.value;
      }
    }
  }

  class TrackSalesTable {
    var rows: SalesTable

    constructor ()
      ensures rows == map[]
    {
      rows := map[];
    }

    /** The index of the group for `track`, or the number of groups. */
    static method Find(groups: seq<(int, int)>, track: int) returns (index: nat)
      ensures index <= |groups|
      ensures index < |groups| ==> groups[index].0 == track
      ensures forall i :: 0 <= i < index ==> groups[i].0 != track
    {
      index := 0;
      while index < |groups| && groups[index].0 != track
        invariant index <= |groups|
        invariant forall i :: 0 <= i < index ==> groups[i].0 != track
      {
        index := index + 1;
      }
    }

    /** The handler's first loop: lines grouped by track. */
    static method GroupByTrack(lines: seq<EventLine>) returns (perTrack: seq<(int, int)>)
      ensures IsGrouping(perTrack, lines)
    {
      perTrack := [];
      for i := 0 to |lines|
        invariant IsGrouping(perTrack, lines[..i])
      {
        var line := lines[i];
        var at := Find(perTrack, line.trackId);
        AddLine(perTrack, lines[..i], line, at);
        assert lines[..i + 1] == lines[..i] + [line];
        if at < |perTrack| {
          perTrack := perTrack[at := (line.trackId, perTrack[at].1 + line.quantity)];
        } else {
          perTrack := perTrack + [(line.trackId, line.quantity)];
        }
      }
      assert lines[..|lines|] == lines;
    }

    /** Applies one event through the inbox guard's transaction. */
    method Handle(event: InvoiceFinalized)
      modifies this
      ensures rows == ApplySales(old(rows), event)
    {
      var perTrack := GroupByTrack(event.lines);
      for i := 0 to |perTrack|
        invariant Upserting(old(rows), rows, perTrack, i, event.invoiceDate)
      {
        var (track, quantity) := perTrack[i];
        rows := rows[track := Upserted(rows, track, quantity, event.invoiceDate)];
      }
      UpsertedAll(old(rows), rows, perTrack, event);
    }
  }
}
