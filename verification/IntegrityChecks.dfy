/**
 Reporting's orphan checks: each one's detection and resolution over the findings table, and a
 run of them all.
 */
module IntegrityChecks {
  import opened Options
  import opened Text
  import opened HeapTables

  /** A cross-module reference whose foreign key was removed. */
  datatype OrphanCheck = OrphanCheck(
    name: string, sourceSchema: string, sourceTable: string, referenceColumn: string,
    targetSchema: string, targetTable: string)

  const ORPHAN_CHECKS: seq<OrphanCheck> := [
    OrphanCheck("invoice-line-track", "orders", "InvoiceLine", "TrackId", "catalog", "Track"),
    OrphanCheck("invoice-customer", "orders", "Invoice", "CustomerId", "administration", "Customer"),
    OrphanCheck("track-genre", "catalog", "Track", "GenreId", "administration", "Genre"),
    OrphanCheck("track-media-type", "catalog", "Track", "MediaTypeId", "administration", "MediaType")]

  /** A row's integer columns; a column that is `NULL` or missing is `None`. */
  type Columns = map<string, int>

  /** The owners' tables by schema and name. */
  type Database = map<(string, string), Table<Columns>>

  function RowsOf(db: Database, schema: string, table: string): Table<Columns> {
    if (schema, table) in db then db[(schema, table)] else []
  }

  datatype Finding = Finding(
    checkName: string, sourceSchema: string, sourceTable: string, sourceId: int, missingReference: string,
    detectedAt: int, resolvedAt: Option<int>)
  {
    predicate Open() { resolvedAt.None? }

    predicate OpenFor(name: string, id: int) { Open() && checkName == name && sourceId == id }
  }

  /** The findings in the order they were inserted. */
  type Findings = seq<Finding>

  function Reference(check: OrphanCheck, row: Record<Columns>): Option<int> {
    if check.referenceColumn in row.columns then Some(row.columns[check.referenceColumn]) else None
  }

  /** The row names a target, and no target has that id. */
  predicate IsOrphan(db: Database, check: OrphanCheck, row: Record<Columns>) {
    var reference := Reference(check, row);
    reference.Some? && Find(RowsOf(db, check.targetSchema, check.targetTable), reference.value).None?
  }

  /** The ids of the source rows the check calls orphans. */
  function Orphans(db: Database, check: OrphanCheck): set<int> {
    var rows := RowsOf(db, check.sourceSchema, check.sourceTable);
    set i | 0 <= i < |rows| && IsOrphan(db, check, rows[i]) :: rows[i].id
  }

  ghost predicate RowIn(db: Database, schema: string, table: string, row: Record<Columns>) {
    (schema, table) in db && row in db[(schema, table)]
  }

  /** The row has a value in the column that is the id of no row of the target table. */
  ghost predicate Dangling(
    db: Database, row: Record<Columns>, column: string, targetSchema: string, targetTable: string)
  {
    column in row.columns
    && forall target :: RowIn(db, targetSchema, targetTable, target) ==> target.id != row.columns[column]
  }

  /** A row of the source table has the id and dangles. */
  ghost predicate Dangles(
    db: Database, sourceSchema: string, sourceTable: string, column: string, targetSchema: string, targetTable: string,
    id: int)
  {
    exists row :: RowIn(db, sourceSchema, sourceTable, row) && row.id == id
                  && Dangling(db, row, column, targetSchema, targetTable)
  }

  ghost predicate DanglesFor(db: Database, check: OrphanCheck, id: int) {
    Dangles(db, check.sourceSchema, check.sourceTable, check.referenceColumn, check.targetSchema, check.targetTable, id)
  }

  lemma OrphanIffDangling(db: Database, check: OrphanCheck, row: Record<Columns>)
    ensures IsOrphan(db, check, row) <==>
            Dangling(db, row, check.referenceColumn, check.targetSchema, check.targetTable)
  {
    if check.referenceColumn in row.columns {
      var targets := RowsOf(db, check.targetSchema, check.targetTable);
      FindMeans(targets, row.columns[check.referenceColumn]);
      assert forall target :: target in targets <==> RowIn(db, check.targetSchema, check.targetTable, target);
    }
  }

  /** An id is an orphan's exactly when a source row with it names a target that is not there. */
  lemma OrphansDangle(db: Database, check: OrphanCheck, id: int)
    ensures id in Orphans(db, check) <==> DanglesFor(db, check, id)
  {
    var rows := RowsOf(db, check.sourceSchema, check.sourceTable);
    if id in Orphans(db, check) {
      var i :| 0 <= i < |rows| && IsOrphan(db, check, rows[i]) && rows[i].id == id;
      OrphanIffDangling(db, check, rows[i]);
      assert RowIn(db, check.sourceSchema, check.sourceTable, rows[i]);
    }
    if DanglesFor(db, check, id) {
      var row :| RowIn(db, check.sourceSchema, check.sourceTable, row) && row.id == id
                 && Dangling(db, row, check.referenceColumn, check.targetSchema, check.targetTable);
      OrphanIffDangling(db, check, row);
      var i :| 0 <= i < |rows| && rows[i] == row;
      assert IsOrphan(db, check, rows[i]);
    }
  }

  predicate AnyOpen(findings: Findings, name: string, id: int) {
    exists i :: 0 <= i < |findings| && findings[i].OpenFor(name, id)
  }

  // ------------------------------------------------------------------
  // The two statements
  // ------------------------------------------------------------------

  function NewFinding(check: OrphanCheck, row: Record<Columns>, now: int): Finding
    requires Reference(check, row).Some?
  {
    Finding(check.name, check.sourceSchema, check.sourceTable, row.id,
            check.targetSchema + "." + check.targetTable + " " + Decimal(Reference(check, row).value), now, None)
  }

  /** `INSERT … SELECT … ON CONFLICT … DO NOTHING` over the first rows of the source. */
  function Detected(findings: Findings, db: Database, check: OrphanCheck, rows: Table<Columns>, now: int): Findings
  {
    if rows == [] then findings
    else
      var before := Detected(findings, db, check, rows[..|rows| - 1], now);
      var row := rows[|rows| - 1];
      if IsOrphan(db, check, row) && !AnyOpen(before, check.name, row.id)
      then before + [NewFinding(check, row, now)] else before
  }

  /** What the finding of a dangling row says. */
  ghost predicate Reports(db: Database, check: OrphanCheck, row: Record<Columns>, f: Finding, now: int)
  {
    && RowIn(db, check.sourceSchema, check.sourceTable, row)
    && Dangling(db, row, check.referenceColumn, check.targetSchema, check.targetTable)
    && f.checkName == check.name && f.sourceId == row.id
    && f.sourceSchema == check.sourceSchema && f.sourceTable == check.sourceTable
    && f.missingReference
       == check.targetSchema + "." + check.targetTable + " " + Decimal(row.columns[check.referenceColumn])
    && f.detectedAt == now && f.resolvedAt == None
  }

  ghost predicate Reported(db: Database, check: OrphanCheck, f: Finding, now: int) {
    exists row :: Reports(db, check, row, f, now)
  }

  lemma NewFindingReports(db: Database, check: OrphanCheck, row: Record<Columns>, now: int)
    requires RowIn(db, check.sourceSchema, check.sourceTable, row) && IsOrphan(db, check, row)
    ensures Reported(db, check, NewFinding(check, row, now), now)
  {
    OrphanIffDangling(db, check, row);
    assert Reports(db, check, row, NewFinding(check, row, now), now);
  }

  /** A detection only appends, and each finding it appends reports a dangling row. */
  lemma {:induction false} DetectedReport(
    findings: Findings, db: Database, check: OrphanCheck, rows: Table<Columns>, now: int, j: nat)
    requires forall row :: row in rows ==> RowIn(db, check.sourceSchema, check.sourceTable, row)
    requires |findings| <= j < |Detected(findings, db, check, rows, now)|
    ensures Reported(db, check, Detected(findings, db, check, rows, now)[j], now)
    decreases |rows|
  {
    var n := |rows| - 1;
    var before, row := Detected(findings, db, check, rows[..n], now), rows[n];
    if j < |before| {
      DetectedReport(findings, db, check, rows[..n], now, j);
      assert Detected(findings, db, check, rows, now)[j] == before[j];
    } else {
      assert row in rows && IsOrphan(db, check, row);
      assert Detected(findings, db, check, rows, now)[j] == NewFinding(check, row, now);
      NewFindingReports(db, check, row, now);
    }
  }

  predicate Stale(db: Database, check: OrphanCheck, f: Finding) {
    f.Open() && f.checkName == check.name && f.sourceId !in Orphans(db, check)
  }

  function Resolved(findings: Findings, db: Database, check: OrphanCheck, now: int): Findings {
    seq(|findings|, i requires 0 <= i < |findings| =>
      if Stale(db, check, findings[i]) then findings[i].(resolvedAt := Some(now)) else findings[i])
  }

  function StaleCount(findings: Findings, db: Database, check: OrphanCheck): nat {
    if findings == [] then 0
    else
      StaleCount(findings[..|findings| - 1], db, check)
      + (if Stale(db, check, findings[|findings| - 1]) then 1 else 0)
  }

  function OpenCount(findings: Findings): nat {
    if findings == [] then 0
    else OpenCount(findings[..|findings| - 1]) + (if findings[|findings| - 1].Open() then 1 else 0)
  }

  /** Where the open findings are. */
  ghost function OpenAt(findings: Findings): set<int> {
    set i | 0 <= i < |findings| && findings[i].resolvedAt == None
  }

  lemma {:induction false} OpenCountIsSize(findings: Findings)
    ensures OpenCount(findings) == |OpenAt(findings)|
  {
    if findings != [] {
      var n := |findings| - 1;
      OpenCountIsSize(findings[..n]);
      assert OpenAt(findings) == OpenAt(findings[..n]) + (if findings[n].Open() then {n} else {});
      assert n !in OpenAt(findings[..n]);
    }
  }

  // ------------------------------------------------------------------
  // A run
  // ------------------------------------------------------------------

  datatype Tally = Tally(findings: Findings, detected: nat, resolved: nat)

  function Checked(t: Tally, db: Database, check: OrphanCheck, now: int): Tally {
    var found := Detected(t.findings, db, check, RowsOf(db, check.sourceSchema, check.sourceTable), now);
    DetectedGrows(t.findings, db, check, RowsOf(db, check.sourceSchema, check.sourceTable), now);
    Tally(Resolved(found, db, check, now),
          t.detected + (|found| - |t.findings|),
          t.resolved + StaleCount(found, db, check))
  }

  function AllChecked(t: Tally, db: Database, checks: seq<OrphanCheck>, now: int): Tally {
    if checks == [] then t
    else Checked(AllChecked(t, db, checks[..|checks| - 1], now), db, checks[|checks| - 1], now)
  }

  datatype IntegrityRunResult = IntegrityRunResult(detected: nat, resolved: nat, open: nat, ranAt: int)

  /** The findings table, changed in place. */
  class FindingsTable {
    var findings: Findings

    constructor ()
      ensures findings == []
    {
      findings := [];
    }

    /** Records every orphan not already open, returning how many. */
    method Detect(db: Database, check: OrphanCheck, now: int) returns (affected: nat)
      modifies this
      ensures findings == Detected(old(findings), db, check, RowsOf(db, check.sourceSchema, check.sourceTable), now)
      ensures affected == |findings| - |old(findings)| && findings[..|old(findings)|] == old(findings)
      ensures forall j :: |old(findings)| <= j < |findings| ==> Reported(db, check, findings[j], now)
      ensures forall name, id :: AnyOpen(findings, name, id) <==>
                AnyOpen(old(findings), name, id) || (name == check.name && DanglesFor(db, check, id))
    {
      var rows := RowsOf(db, check.sourceSchema, check.sourceTable);
      affected := 0;
      for i := 0 to |rows|
        invariant findings == Detected(old(findings), db, check, rows[..i], now)
        invariant affected == |findings| - |old(findings)|
      {
        assert rows[..i + 1][..i] == rows[..i];
        if IsOrphan(db, check, rows[i]) && !AnyOpen(findings, check.name, rows[i].id) {
          findings := findings + [NewFinding(check, rows[i], now)];
          affected := affected + 1;
        }
      }
      assert rows[..|rows|] == rows;
      DetectionReports(old(findings), db, check, now);
    }

    /** Resolves the open findings whose orphan is gone, returning how many. */
    method Resolve(db: Database, check: OrphanCheck, now: int) returns (affected: nat)
      modifies this
      ensures findings == Resolved(old(findings), db, check, now)
      ensures affected == StaleCount(old(findings), db, check)
      ensures affected == |OpenAt(old(findings))| - |OpenAt(findings)|
      ensures |findings| == |old(findings)|
      ensures forall j :: 0 <= j < |findings| ==>
                var f := old(findings)[j];
                var stale := f.resolvedAt == None && f.checkName == check.name && !DanglesFor(db, check, f.sourceId);
                findings[j] == if stale then f.(resolvedAt := Some(now)) else f
    {
      affected := 0;
      for i := 0 to |findings|
        invariant |findings| == |old(findings)|
        invariant forall j :: 0 <= j < i ==> findings[j] == Resolved(old(findings), db, check, now)[j]
        invariant forall j :: i <= j < |findings| ==> findings[j] == old(findings)[j]
        invariant affected == StaleCount(old(findings)[..i], db, check)
      {
        assert old(findings)[..i + 1][..i] == old(findings)[..i];
        if Stale(db, check, findings[i]) {
          findings := findings[i := findings[i].(resolvedAt := Some(now))];
          affected := affected + 1;
        }
      }
      assert old(findings)[..|findings|] == old(findings);
      assert findings == Resolved(old(findings), db, check, now);
      ResolvedCount(old(findings), db, check, now);
      OpenCountIsSize(old(findings));
      OpenCountIsSize(findings);
      forall j | 0 <= j < |findings|
        ensures Stale(db, check, old(findings)[j]) <==>
                var f := old(findings)[j];
                f.resolvedAt == None && f.checkName == check.name && !DanglesFor(db, check, f.sourceId)
      {
        OrphansDangle(db, check, old(findings)[j].sourceId);
      }
    }

    /** The open findings across all checks. */
    method CountOpen() returns (open: nat)
      ensures open == |OpenAt(findings)|
    {
      open := 0;
      for i := 0 to |findings|
        invariant open == OpenCount(findings[..i])
      {
        assert findings[..i + 1][..i] == findings[..i];
        if findings[i].Open() {
          open := open + 1;
        }
      }
      assert findings[..|findings|] == findings;
      OpenCountIsSize(findings);
    }

    /** One check's detection and then its resolution. */
    method RunCheck(db: Database, check: OrphanCheck, now: int) returns (detected: nat, resolved: nat)
      modifies this
      ensures Tally(findings, detected, resolved) == Checked(Tally(old(findings), 0, 0), db, check, now)
    {
      detected := Detect(db, check, now);
      resolved := Resolve(db, check, now);
    }

    /** Every check's detection, then its resolution, then the open count across all checks. */
    method RunChecks(db: Database, now: int) returns (r: IntegrityRunResult)
      modifies this
      ensures AllChecked(Tally(old(findings), 0, 0), db, ORPHAN_CHECKS, now) == Tally(findings, r.detected, r.resolved)
      ensures r.open == |OpenAt(findings)| && r.ranAt == now
      ensures |findings| == |old(findings)| + r.detected
      ensures |OpenAt(old(findings))| + r.detected == r.open + r.resolved
      ensures Kept(old(findings), findings, now)
      ensures ReferencesExact(findings, db)
    {
      var detected, resolved := 0, 0;
      for i := 0 to |ORPHAN_CHECKS|
        invariant AllChecked(Tally(old(findings), 0, 0), db, ORPHAN_CHECKS[..i], now)
                == Tally(findings, detected, resolved)
      {
        assert ORPHAN_CHECKS[..i + 1][..i] == ORPHAN_CHECKS[..i];
        var more, fewer := RunCheck(db, ORPHAN_CHECKS[i], now);
        detected, resolved := detected + more, resolved + fewer;
      }
      assert ORPHAN_CHECKS[..|ORPHAN_CHECKS|] == ORPHAN_CHECKS;
      var open := CountOpen();
      r := IntegrityRunResult(detected, resolved, open, now);
      RunCounts(Tally(old(findings), 0, 0), db, now);
      RunIsExact(Tally(old(findings), 0, 0), db, now);
    }
  }

  // ------------------------------------------------------------------
  // What one check does
  // ------------------------------------------------------------------

  lemma {:induction false} DetectedGrows(
    findings: Findings, db: Database, check: OrphanCheck, rows: Table<Columns>, now: int)
    ensures var found := Detected(findings, db, check, rows, now);
            |findings| <= |found| && found[..|findings|] == findings
    ensures var found := Detected(findings, db, check, rows, now);
            OpenCount(found) == OpenCount(findings) + |found| - |findings|
  {
    if rows != [] {
      DetectedGrows(findings, db, check, rows[..|rows| - 1], now);
      var before := Detected(findings, db, check, rows[..|rows| - 1], now);
      var found := Detected(findings, db, check, rows, now);
      if found != before {
        assert found[..|found| - 1] == before;
      }
    }
  }

  /** At most one open finding for a check and a source row: the table's unique index. */
  ghost predicate OneOpenEach(findings: Findings)
  {
    forall i, j :: 0 <= i < j < |findings| && findings[i].Open() ==>
      !findings[j].OpenFor(findings[i].checkName, findings[i].sourceId)
  }

  lemma AnyOpenOneMore(findings: Findings, f: Finding, name: string, id: int)
    ensures AnyOpen(findings + [f], name, id) <==> AnyOpen(findings, name, id) || f.OpenFor(name, id)
  {
    var more := findings + [f];
    if AnyOpen(findings, name, id) {
      var i :| 0 <= i < |findings| && findings[i].OpenFor(name, id);
      assert more[i].OpenFor(name, id);
    }
    if f.OpenFor(name, id) {
      assert more[|findings|].OpenFor(name, id);
    }
  }

  ghost predicate OrphanIn(db: Database, check: OrphanCheck, rows: Table<Columns>, id: int) {
    exists i :: 0 <= i < |rows| && IsOrphan(db, check, rows[i]) && rows[i].id == id
  }

  lemma OrphanInOneMore(db: Database, check: OrphanCheck, rows: Table<Columns>, id: int)
    requires rows != []
    ensures OrphanIn(db, check, rows, id) <==>
            OrphanIn(db, check, rows[..|rows| - 1], id)
                || (IsOrphan(db, check, rows[|rows| - 1]) && rows[|rows| - 1].id == id)
  {
    var n := |rows| - 1;
    if OrphanIn(db, check, rows[..n], id) {
      var i :| 0 <= i < n && IsOrphan(db, check, rows[..n][i]) && rows[..n][i].id == id;
      assert IsOrphan(db, check, rows[i]) && rows[i].id == id;
    }
    if OrphanIn(db, check, rows, id) {
      var i :| 0 <= i < |rows| && IsOrphan(db, check, rows[i]) && rows[i].id == id;
      if i < n {
        assert IsOrphan(db, check, rows[..n][i]) && rows[..n][i].id == id;
      }
    }
  }

  lemma {:induction false} DetectedOpens(
    findings: Findings, db: Database, check: OrphanCheck, rows: Table<Columns>, now: int, name: string, id: int)
    ensures AnyOpen(Detected(findings, db, check, rows, now), name, id) <==>
            AnyOpen(findings, name, id) || (name == check.name && OrphanIn(db, check, rows, id))
  {
    if rows != [] {
      var n := |rows| - 1;
      DetectedOpens(findings, db, check, rows[..n], now, name, id);
      OrphanInOneMore(db, check, rows, id);
      if IsOrphan(db, check, rows[n]) {
        AnyOpenOneMore(Detected(findings, db, check, rows[..n], now), NewFinding(check, rows[n], now), name, id);
      }
    }
  }

  lemma {:induction false} DetectedOneEach(
    findings: Findings, db: Database, check: OrphanCheck, rows: Table<Columns>, now: int)
    requires OneOpenEach(findings)
    ensures OneOpenEach(Detected(findings, db, check, rows, now))
  {
    if rows != [] {
      DetectedOneEach(findings, db, check, rows[..|rows| - 1], now);
      var before := Detected(findings, db, check, rows[..|rows| - 1], now);
      var row := rows[|rows| - 1];
      if IsOrphan(db, check, row) && !AnyOpen(before, check.name, row.id) {
        forall i | 0 <= i < |before| && before[i].Open()
          ensures !NewFinding(check, row, now).OpenFor(before[i].checkName, before[i].sourceId)
        {
          assert !before[i].OpenFor(check.name, row.id);
        }
      }
    }
  }

  lemma OrphansAre(db: Database, check: OrphanCheck, id: int)
    ensures id in Orphans(db, check) <==> OrphanIn(db, check, RowsOf(db, check.sourceSchema, check.sourceTable), id)
  {
  }

  /** A detection appends reports of dangling rows, and leaves every such row with an open finding. */
  lemma DetectionReports(findings: Findings, db: Database, check: OrphanCheck, now: int)
    ensures var found := Detected(findings, db, check, RowsOf(db, check.sourceSchema, check.sourceTable), now);
            && |findings| <= |found| && found[..|findings|] == findings
            && (forall j :: |findings| <= j < |found| ==> Reported(db, check, found[j], now))
            && (forall name, id :: AnyOpen(found, name, id) <==>
                  AnyOpen(findings, name, id) || (name == check.name && DanglesFor(db, check, id)))
  {
    var rows := RowsOf(db, check.sourceSchema, check.sourceTable);
    var found := Detected(findings, db, check, rows, now);
    DetectedGrows(findings, db, check, rows, now);
    forall j | |findings| <= j < |found| ensures Reported(db, check, found[j], now) {
      DetectedReport(findings, db, check, rows, now, j);
    }
    forall name, id
      ensures AnyOpen(found, name, id) <==>
              AnyOpen(findings, name, id) || (name == check.name && DanglesFor(db, check, id))
    {
      DetectedOpensDangling(findings, db, check, now, name, id);
    }
  }

  lemma DetectedOpensDangling(findings: Findings, db: Database, check: OrphanCheck, now: int, name: string, id: int)
    ensures var found := Detected(findings, db, check, RowsOf(db, check.sourceSchema, check.sourceTable), now);
            AnyOpen(found, name, id) <==>
            AnyOpen(findings, name, id) || (name == check.name && DanglesFor(db, check, id))
  {
    DetectedOpens(findings, db, check, RowsOf(db, check.sourceSchema, check.sourceTable), now, name, id);
    OrphansAre(db, check, id);
    OrphansDangle(db, check, id);
  }

  lemma ResolvedOpens(findings: Findings, db: Database, check: OrphanCheck, now: int, name: string, id: int)
    ensures AnyOpen(Resolved(findings, db, check, now), name, id) <==>
            AnyOpen(findings, name, id) && (name == check.name ==> id in Orphans(db, check))
  {
    var after := Resolved(findings, db, check, now);
    if AnyOpen(after, name, id) {
      var i :| 0 <= i < |after| && after[i].OpenFor(name, id);
      assert findings[i].OpenFor(name, id);
    }
    if AnyOpen(findings, name, id) && (name == check.name ==> id in Orphans(db, check)) {
      var i :| 0 <= i < |findings| && findings[i].OpenFor(name, id);
      assert after[i].OpenFor(name, id);
    }
  }

  lemma ResolvedOneEach(findings: Findings, db: Database, check: OrphanCheck, now: int)
    requires OneOpenEach(findings)
    ensures OneOpenEach(Resolved(findings, db, check, now))
  {
    var after := Resolved(findings, db, check, now);
    forall i, j | 0 <= i < j < |after| && after[i].Open()
      ensures !after[j].OpenFor(after[i].checkName, after[i].sourceId)
    {
      assert !findings[j].OpenFor(findings[i].checkName, findings[i].sourceId);
    }
  }

  lemma {:induction false} ResolvedCount(findings: Findings, db: Database, check: OrphanCheck, now: int)
    ensures OpenCount(Resolved(findings, db, check, now)) == OpenCount(findings) - StaleCount(findings, db, check)
  {
    if findings != [] {
      var n := |findings| - 1;
      ResolvedCount(findings[..n], db, check, now);
      assert Resolved(findings, db, check, now)[..n] == Resolved(findings[..n], db, check, now);
    }
  }

  /** The check's open findings become its orphans, and no other check's change. */
  lemma CheckedOpens(t: Tally, db: Database, check: OrphanCheck, now: int, name: string, id: int)
    ensures AnyOpen(Checked(t, db, check, now).findings, name, id) <==>
            if name == check.name then id in Orphans(db, check) else AnyOpen(t.findings, name, id)
  {
    var rows := RowsOf(db, check.sourceSchema, check.sourceTable);
    DetectedOpens(t.findings, db, check, rows, now, name, id);
    OrphansAre(db, check, id);
    ResolvedOpens(Detected(t.findings, db, check, rows, now), db, check, now, name, id);
  }

  /** `g` is `f`, unless it was open and has been resolved at `now`. */
  predicate SameOrResolved(f: Finding, g: Finding, now: int) {
    g == f || (f.Open() && g == f.(resolvedAt := Some(now)))
  }

  /** Nothing a run leaves behind is deleted or rewritten. */
  ghost predicate Kept(before: Findings, after: Findings, now: int) {
    |before| <= |after| && forall i :: 0 <= i < |before| ==> SameOrResolved(before[i], after[i], now)
  }

  lemma CheckedKeeps(t: Tally, db: Database, check: OrphanCheck, now: int)
    ensures Kept(t.findings, Checked(t, db, check, now).findings, now)
    ensures OneOpenEach(t.findings) ==> OneOpenEach(Checked(t, db, check, now).findings)
    ensures var c := Checked(t, db, check, now); |c.findings| + t.detected == |t.findings| + c.detected
    ensures var c := Checked(t, db, check, now);
            OpenCount(c.findings) + c.resolved + t.detected == OpenCount(t.findings) + c.detected + t.resolved
  {
    var rows := RowsOf(db, check.sourceSchema, check.sourceTable);
    var found := Detected(t.findings, db, check, rows, now);
    DetectedGrows(t.findings, db, check, rows, now);
    ResolvedCount(found, db, check, now);
    if OneOpenEach(t.findings) {
      DetectedOneEach(t.findings, db, check, rows, now);
      ResolvedOneEach(found, db, check, now);
    }
    forall i | 0 <= i < |t.findings|
      ensures SameOrResolved(t.findings[i], Checked(t, db, check, now).findings[i], now)
    {
      assert found[i] == found[..|t.findings|][i];
    }
  }

  // ------------------------------------------------------------------
  // What a run does
  // ------------------------------------------------------------------

  predicate NamesDiffer(checks: seq<OrphanCheck>) {
    forall i, j :: 0 <= i < j < |checks| ==> checks[i].name != checks[j].name
  }

  ghost predicate ExactFor(findings: Findings, db: Database, check: OrphanCheck) {
    forall id :: AnyOpen(findings, check.name, id) <==> id in Orphans(db, check)
  }

  lemma {:induction false} AllCheckedExact(t: Tally, db: Database, checks: seq<OrphanCheck>, now: int)
    requires NamesDiffer(checks)
    ensures forall i :: 0 <= i < |checks| ==> ExactFor(AllChecked(t, db, checks, now).findings, db, checks[i])
    decreases |checks|
  {
    if checks != [] {
      var n := |checks| - 1;
      var before := AllChecked(t, db, checks[..n], now);
      AllCheckedExact(t, db, checks[..n], now);
      forall i | 0 <= i < |checks| ensures ExactFor(AllChecked(t, db, checks, now).findings, db, checks[i]) {
        assert i < n ==> checks[..n][i] == checks[i];
        forall id
          ensures AnyOpen(Checked(before, db, checks[n], now).findings, checks[i].name, id)
                  <==> id in Orphans(db, checks[i])
        {
          CheckedOpens(before, db, checks[n], now, checks[i].name, id);
        }
      }
    }
  }

  lemma {:induction false} AllCheckedKeeps(t: Tally, db: Database, checks: seq<OrphanCheck>, now: int)
    ensures var c := AllChecked(t, db, checks, now);
            && Kept(t.findings, c.findings, now) && (OneOpenEach(t.findings) ==> OneOpenEach(c.findings))
            && OpenCount(c.findings) + c.resolved + t.detected == OpenCount(t.findings) + c.detected + t.resolved
            && |c.findings| + t.detected == |t.findings| + c.detected
    decreases |checks|
  {
    if checks != [] {
      var n := |checks| - 1;
      AllCheckedKeeps(t, db, checks[..n], now);
      var before := AllChecked(t, db, checks[..n], now);
      CheckedKeeps(before, db, checks[n], now);
      var after := Checked(before, db, checks[n], now);
      forall i | 0 <= i < |t.findings| ensures SameOrResolved(t.findings[i], after.findings[i], now) {
        assert SameOrResolved(t.findings[i], before.findings[i], now);
        assert SameOrResolved(before.findings[i], after.findings[i], now);
      }
    }
  }

  lemma {:induction false} AllCheckedLeavesOthers(
    t: Tally, db: Database, checks: seq<OrphanCheck>, now: int, name: string, id: int)
    requires forall i :: 0 <= i < |checks| ==> checks[i].name != name
    ensures AnyOpen(AllChecked(t, db, checks, now).findings, name, id) <==> AnyOpen(t.findings, name, id)
    decreases |checks|
  {
    if checks != [] {
      var n := |checks| - 1;
      AllCheckedLeavesOthers(t, db, checks[..n], now, name, id);
      CheckedOpens(AllChecked(t, db, checks[..n], now), db, checks[n], now, name, id);
    }
  }

  lemma {:induction false} NothingToDetect(
    findings: Findings, db: Database, check: OrphanCheck, rows: Table<Columns>, now: int)
    requires forall i :: 0 <= i < |rows| && IsOrphan(db, check, rows[i]) ==> AnyOpen(findings, check.name, rows[i].id)
    ensures Detected(findings, db, check, rows, now) == findings
  {
    if rows != [] {
      var n := |rows| - 1;
      forall i | 0 <= i < n && IsOrphan(db, check, rows[..n][i])
        ensures AnyOpen(findings, check.name, rows[..n][i].id)
      {
        assert rows[..n][i] == rows[i];
      }
      NothingToDetect(findings, db, check, rows[..n], now);
    }
  }

  lemma {:induction false} NothingToResolve(findings: Findings, db: Database, check: OrphanCheck, now: int)
    requires forall i :: 0 <= i < |findings| ==> !Stale(db, check, findings[i])
    ensures Resolved(findings, db, check, now) == findings && StaleCount(findings, db, check) == 0
  {
    if findings != [] {
      var n := |findings| - 1;
      NothingToResolve(findings[..n], db, check, now);
    }
  }

  lemma NothingToDo(t: Tally, db: Database, check: OrphanCheck, now: int)
    requires ExactFor(t.findings, db, check)
    ensures Checked(t, db, check, now) == t
  {
    var rows := RowsOf(db, check.sourceSchema, check.sourceTable);
    forall i | 0 <= i < |rows| && IsOrphan(db, check, rows[i]) ensures AnyOpen(t.findings, check.name, rows[i].id) {
      assert rows[i].id in Orphans(db, check);
    }
    NothingToDetect(t.findings, db, check, rows, now);
    forall i | 0 <= i < |t.findings| ensures !Stale(db, check, t.findings[i]) {
      assert t.findings[i].Open() ==> t.findings[i].OpenFor(t.findings[i].checkName, t.findings[i].sourceId);
      if t.findings[i].OpenFor(check.name, t.findings[i].sourceId) {
        assert AnyOpen(t.findings, check.name, t.findings[i].sourceId);
      }
    }
    NothingToResolve(t.findings, db, check, now);
  }

  lemma {:induction false} SecondRunDoesNothing(t: Tally, db: Database, checks: seq<OrphanCheck>, now: int)
    requires forall i :: 0 <= i < |checks| ==> ExactFor(t.findings, db, checks[i])
    ensures AllChecked(t, db, checks, now) == t
    decreases |checks|
  {
    if checks != [] {
      var n := |checks| - 1;
      forall i | 0 <= i < n ensures ExactFor(t.findings, db, checks[..n][i]) {
        assert checks[..n][i] == checks[i];
      }
      SecondRunDoesNothing(t, db, checks[..n], now);
      NothingToDo(t, db, checks[n], now);
    }
  }

  /**
   The open findings of the four references whose foreign keys were removed are exactly the rows
   that dangle.
   */
  ghost predicate ReferencesExact(findings: Findings, db: Database)
  {
    && (forall id :: AnyOpen(findings, "invoice-line-track", id) <==>
          Dangles(db, "orders", "InvoiceLine", "TrackId", "catalog", "Track", id))
    && (forall id :: AnyOpen(findings, "invoice-customer", id) <==>
          Dangles(db, "orders", "Invoice", "CustomerId", "administration", "Customer", id))
    && (forall id :: AnyOpen(findings, "track-genre", id) <==>
          Dangles(db, "catalog", "Track", "GenreId", "administration", "Genre", id))
    && (forall id :: AnyOpen(findings, "track-media-type", id) <==>
          Dangles(db, "catalog", "Track", "MediaTypeId", "administration", "MediaType", id))
  }

  lemma RunCounts(t: Tally, db: Database, now: int)
    ensures var run := AllChecked(t, db, ORPHAN_CHECKS, now);
            && Kept(t.findings, run.findings, now)
            && |run.findings| + t.detected == |t.findings| + run.detected
            && |OpenAt(run.findings)| + run.resolved + t.detected == |OpenAt(t.findings)| + run.detected + t.resolved
  {
    AllCheckedKeeps(t, db, ORPHAN_CHECKS, now);
    OpenCountIsSize(t.findings);
    OpenCountIsSize(AllChecked(t, db, ORPHAN_CHECKS, now).findings);
  }

  lemma RunIsExact(t: Tally, db: Database, now: int)
    ensures ReferencesExact(AllChecked(t, db, ORPHAN_CHECKS, now).findings, db)
  {
    var findings := AllChecked(t, db, ORPHAN_CHECKS, now).findings;
    ConfiguredNamesDiffer();
    AllCheckedExact(t, db, ORPHAN_CHECKS, now);
    forall i, id | 0 <= i < |ORPHAN_CHECKS|
      ensures AnyOpen(findings, ORPHAN_CHECKS[i].name, id) <==> DanglesFor(db, ORPHAN_CHECKS[i], id)
    {
      assert ExactFor(findings, db, ORPHAN_CHECKS[i]);
      OrphansDangle(db, ORPHAN_CHECKS[i], id);
    }
    forall id
      ensures AnyOpen(findings, "invoice-line-track", id) <==> DanglesFor(db, ORPHAN_CHECKS[0], id)
      ensures AnyOpen(findings, "invoice-customer", id) <==> DanglesFor(db, ORPHAN_CHECKS[1], id)
      ensures AnyOpen(findings, "track-genre", id) <==> DanglesFor(db, ORPHAN_CHECKS[2], id)
      ensures AnyOpen(findings, "track-media-type", id) <==> DanglesFor(db, ORPHAN_CHECKS[3], id)
    {
      assert ORPHAN_CHECKS[0].name == "invoice-line-track" && ORPHAN_CHECKS[1].name == "invoice-customer";
      assert ORPHAN_CHECKS[2].name == "track-genre" && ORPHAN_CHECKS[3].name == "track-media-type";
    }
  }

  lemma ConfiguredNamesDiffer()
    ensures NamesDiffer(ORPHAN_CHECKS)
  {
    assert ORPHAN_CHECKS[0].name[0] == 'i' && ORPHAN_CHECKS[1].name[0] == 'i';
    assert |ORPHAN_CHECKS[0].name| == 18 && |ORPHAN_CHECKS[1].name| == 16;
    assert |ORPHAN_CHECKS[2].name| == 11 && |ORPHAN_CHECKS[3].name| == 16;
    assert ORPHAN_CHECKS[3].name[0] == 't';
  }

  /**
   A run of the configured checks over tables that hold still: their open findings are exactly
   their orphans, one each; those of other checks are as they were; the open count moved by what
   was detected and resolved; no finding was deleted or rewritten; and a second run finds nothing
   to do.
   */
  lemma IntegrityRunExact(findings: Findings, db: Database, now: int, later: int)
    requires OneOpenEach(findings)
    ensures var run := AllChecked(Tally(findings, 0, 0), db, ORPHAN_CHECKS, now);
            && ReferencesExact(run.findings, db)
            && OneOpenEach(run.findings)
            && (forall name, id :: (forall check :: check in ORPHAN_CHECKS ==> check.name != name) ==>
                  (AnyOpen(run.findings, name, id) <==> AnyOpen(findings, name, id)))
            && |OpenAt(run.findings)| == |OpenAt(findings)| + run.detected - run.resolved
            && |run.findings| == |findings| + run.detected
            && Kept(findings, run.findings, now)
            && AllChecked(Tally(run.findings, 0, 0), db, ORPHAN_CHECKS, later) == Tally(run.findings, 0, 0)
  {
    var t := Tally(findings, 0, 0);
    var run := AllChecked(t, db, ORPHAN_CHECKS, now);
    ConfiguredNamesDiffer();
    AllCheckedExact(t, db, ORPHAN_CHECKS, now);
    RunIsExact(t, db, now);
    RunCounts(t, db, now);
    AllCheckedKeeps(t, db, ORPHAN_CHECKS, now);
    SecondRunDoesNothing(Tally(run.findings, 0, 0), db, ORPHAN_CHECKS, later);
    forall name, id | forall check :: check in ORPHAN_CHECKS ==> check.name != name
      ensures AnyOpen(run.findings, name, id) <==> AnyOpen(findings, name, id)
    {
      AllCheckedLeavesOthers(t, db, ORPHAN_CHECKS, now, name, id);
    }
  }
}
