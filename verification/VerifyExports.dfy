/** scripts/verify_exports.py: re-hash what is stored and compare it with its recorded digest. */
module VerifyExports {
  import opened Wrappers
  import opened ExportRows

  const DRIFT := "content_drift"
  const MISSING := "missing_at_verify"

  datatype Kind = Skipped | Unverifiable | Fresh | Missing | Match | Mismatch

  /** What the scan makes of a row. Rows verified after `cutoff` are left alone. */
  function KindOf(e: Env, files: Files, cutoff: int, hashNull: bool, row: Row): Kind
  {
    if !IsServiceable(row) then Skipped
    else if row.sha == None && !hashNull then Unverifiable
    else if row.verified.Some? && row.verified.value > cutoff then Fresh
    else if e.Locate(row.path) !in files then Missing
    else if row.sha == None || row.sha.value == e.digest(files[e.Locate(row.path)].bytes) then Match
    else Mismatch
  }

  function MatchPick(e: Env, files: Files, cutoff: int, hashNull: bool): Pick
  {
    (id: nat, row: Row) =>
      if KindOf(e, files, cutoff, hashNull, row) == Match && e.Locate(row.path) in files then
        Some(Refresh(id, if row.sha == None then Some(e.digest(files[e.Locate(row.path)].bytes)) else None))
      else None
  }

  function MarkPick(e: Env, files: Files, cutoff: int, hashNull: bool, kind: Kind, reason: string): Pick
  {
    (id: nat, row: Row) => if KindOf(e, files, cutoff, hashNull, row) == kind then Some(Mark(id, reason)) else None
  }

  datatype Report = Report(
    matched: seq<Plan>, mismatched: seq<Plan>, missing: seq<Plan>, skippedFresh: nat, skippedUnverifiable: nat) {

    predicate IsIdle() { matched == [] && mismatched == [] && missing == [] }

    function Plans(): seq<Plan> { matched + mismatched + missing }
  }

  /** The report of a scan: every row goes where its kind says. */
  function ReportOf(e: Env, files: Files, cutoff: int, hashNull: bool, rows: seq<Row>): Report
  {
    Report(
      Collect(rows, MatchPick(e, files, cutoff, hashNull)),
      Collect(rows, MarkPick(e, files, cutoff, hashNull, Mismatch, DRIFT)),
      Collect(rows, MarkPick(e, files, cutoff, hashNull, Missing, MISSING)),
      Count(rows, row => KindOf(e, files, cutoff, hashNull, row) == Fresh),
      Count(rows, row => KindOf(e, files, cutoff, hashNull, row) == Unverifiable))
  }

  lemma ReportStep(e: Env, files: Files, cutoff: int, hashNull: bool, rows: seq<Row>, n: nat)
    requires n < |rows|
    ensures var r := ReportOf(e, files, cutoff, hashNull, rows[..n]);
      var r' := ReportOf(e, files, cutoff, hashNull, rows[..n + 1]);
      match KindOf(e, files, cutoff, hashNull, rows[n])
      case Skipped => r' == r
      case Unverifiable => r' == r.(skippedUnverifiable := r.skippedUnverifiable + 1)
      case Fresh => r' == r.(skippedFresh := r.skippedFresh + 1)
      case Missing => r' == r.(missing := r.missing + [Mark(n, MISSING)])
      case Mismatch => r' == r.(mismatched := r.mismatched + [Mark(n, DRIFT)])
      case Match =>
        e.Locate(rows[n].path) in files
        && var observed := e.digest(files[e.Locate(rows[n].path)].bytes);
           r' == r.(matched := r.matched + [Refresh(n, if rows[n].sha == None then Some(observed) else None)])
  {
    hide KindOf, Collect, Count;
    CollectStep(rows, MatchPick(e, files, cutoff, hashNull), n);
    CollectStep(rows, MarkPick(e, files, cutoff, hashNull, Mismatch, DRIFT), n);
    CollectStep(rows, MarkPick(e, files, cutoff, hashNull, Missing, MISSING), n);
    CountStep(rows, row => KindOf(e, files, cutoff, hashNull, row) == Fresh, n);
    CountStep(rows, row => KindOf(e, files, cutoff, hashNull, row) == Unverifiable, n);
    MatchedFileExists(e, files, cutoff, hashNull, rows[n]);
  }

  lemma MatchedFileExists(e: Env, files: Files, cutoff: int, hashNull: bool, row: Row)
    ensures KindOf(e, files, cutoff, hashNull, row) == Match ==> e.Locate(row.path) in files
  {}

  /** No row is reported twice or left out: the lists and counters together cover the serviceable rows. */
  lemma {:induction false} EveryRowIsReportedOnce(e: Env, files: Files, cutoff: int, hashNull: bool, rows: seq<Row>)
    ensures var r := ReportOf(e, files, cutoff, hashNull, rows);
      |r.matched| + |r.mismatched| + |r.missing| + r.skippedFresh + r.skippedUnverifiable
        == Count(rows, row => IsServiceable(row))
  {
    if rows != [] {
      var n := |rows| - 1;
      EveryRowIsReportedOnce(e, files, cutoff, hashNull, rows[..n]);
      ReportStep(e, files, cutoff, hashNull, rows, n);
      assert rows[..n + 1] == rows;
      hide ReportOf, IsServiceable;
    }
  }

  method Scan(e: Env, table: Table, files: Files, now: int, ttl: int, hashNull: bool) returns (report: Report)
    ensures report == ReportOf(e, files, now - ttl, hashNull, table.rows)
  {
    var cutoff := now - ttl;
    var rows := table.rows;
    report := Report([], [], [], 0, 0);
    hide ReportOf;
    StartReport(e, files, cutoff, hashNull, rows);
    for n := 0 to |rows|
      invariant report == ReportOf(e, files, cutoff, hashNull, rows[..n])
    {
      ReportStep(e, files, cutoff, hashNull, rows, n);
      var row := rows[n];
      if !row.succeeded || IsStale(row) || IsSentinel(row.path) {
        continue;
      }
      if row.sha == None && !hashNull {
        report := report.(skippedUnverifiable := report.skippedUnverifiable + 1);
        continue;
      }
      if row.verified.Some? && row.verified.value > cutoff {
        report := report.(skippedFresh := report.skippedFresh + 1);
        continue;
      }
      var location := e.Locate(row.path);
      if location !in files {
        report := report.(missing := report.missing + [Mark(n, MISSING)]);
        continue;
      }
      var observed := e.digest(files[location].bytes);
      if row.sha == None || observed == row.sha.value {
        report := report.(matched := report.matched + [Refresh(n, if row.sha == None then Some(observed) else None)]);
      } else {
        report := report.(mismatched := report.mismatched + [Mark(n, DRIFT)]);
      }
    }
    assert rows[..|rows|] == rows;
  }

  lemma StartReport(e: Env, files: Files, cutoff: int, hashNull: bool, rows: seq<Row>)
    ensures ReportOf(e, files, cutoff, hashNull, rows[..0]) == Report([], [], [], 0, 0)
  {}

  method Apply(table: Table, report: Report, now: int)
    modifies table
    ensures table.rows == Executed(old(table.rows), report.Plans(), now)
  {
    ExecutedConcat(table.rows, report.matched, report.mismatched, now);
    ExecutedConcat(table.rows, report.matched + report.mismatched, report.missing, now);
    table.UpdateAll(report.matched, now);
    table.UpdateAll(report.mismatched, now);
    table.UpdateAll(report.missing, now);
  }

  // ---- What a run does to each row --------------------------------------------------------------

  /** A row after a scan and an applied report: refreshed, marked, or as it was. */
  function Verified(e: Env, files: Files, cutoff: int, hashNull: bool, now: int, row: Row): Row
  {
    match KindOf(e, files, cutoff, hashNull, row)
    case Match =>
      row.(sha := Some(e.digest(files[e.Locate(row.path)].bytes)), verified := Some(now))
    case Mismatch => if row.stale == None then row.(stale := Some(DRIFT)) else row
    case Missing => if row.stale == None then row.(stale := Some(MISSING)) else row
    case _ => row
  }

  /** The updates a run issues for a row of a given kind. */
  function PlansFor(e: Env, files: Files, cutoff: int, hashNull: bool, id: nat, row: Row): seq<Plan>
  {
    match KindOf(e, files, cutoff, hashNull, row)
    case Match =>
      [Refresh(id, if row.sha == None then Some(e.digest(files[e.Locate(row.path)].bytes)) else None)]
    case Mismatch => [Mark(id, DRIFT)]
    case Missing => [Mark(id, MISSING)]
    case _ => []
  }

  lemma PicksNameTheirRow(e: Env, files: Files, cutoff: int, hashNull: bool)
    ensures NamesItsRow(MatchPick(e, files, cutoff, hashNull))
    ensures NamesItsRow(MarkPick(e, files, cutoff, hashNull, Mismatch, DRIFT))
    ensures NamesItsRow(MarkPick(e, files, cutoff, hashNull, Missing, MISSING))
  {}

  lemma ReportedPlans(e: Env, files: Files, cutoff: int, hashNull: bool, rows: seq<Row>, id: nat)
    requires id < |rows|
    ensures For(ReportOf(e, files, cutoff, hashNull, rows).Plans(), id)
         == PlansFor(e, files, cutoff, hashNull, id, rows[id])
  {
    var r := ReportOf(e, files, cutoff, hashNull, rows);
    PicksNameTheirRow(e, files, cutoff, hashNull);
    ForConcat(r.matched, r.mismatched, id);
    ForConcat(r.matched + r.mismatched, r.missing, id);
    ForCollect(rows, MatchPick(e, files, cutoff, hashNull), id);
    ForCollect(rows, MarkPick(e, files, cutoff, hashNull, Mismatch, DRIFT), id);
    ForCollect(rows, MarkPick(e, files, cutoff, hashNull, Missing, MISSING), id);
    PickedAltogether(e, files, cutoff, hashNull, id, rows[id]);
    hide For, Collect, Count, NamesItsRow, KindOf, Picked, PlansFor, MatchPick, MarkPick;
  }

  lemma PickedAltogether(e: Env, files: Files, cutoff: int, hashNull: bool, id: nat, row: Row)
    ensures Picked(MatchPick(e, files, cutoff, hashNull), id, row)
          + Picked(MarkPick(e, files, cutoff, hashNull, Mismatch, DRIFT), id, row)
          + Picked(MarkPick(e, files, cutoff, hashNull, Missing, MISSING), id, row)
         == PlansFor(e, files, cutoff, hashNull, id, row)
  {
    MatchedFileExists(e, files, cutoff, hashNull, row);
  }

  lemma PlansMakeVerified(e: Env, files: Files, cutoff: int, hashNull: bool, now: int, id: nat, row: Row)
    ensures Changed(row, PlansFor(e, files, cutoff, hashNull, id, row), now)
         == Verified(e, files, cutoff, hashNull, now, row)
  {
    OnePlan(row, PlansFor(e, files, cutoff, hashNull, id, row), now);
  }

  /** Every row is classified once and updated as its class says; a match leaves the digest of the file. */
  lemma AppliedRunRowByRow(e: Env, files: Files, cutoff: int, hashNull: bool, now: int, rows: seq<Row>, id: nat)
    requires id < |rows|
    ensures Executed(rows, ReportOf(e, files, cutoff, hashNull, rows).Plans(), now)[id]
         == Verified(e, files, cutoff, hashNull, now, rows[id])
  {
    hide *;
    RowOfExecuted(rows, ReportOf(e, files, cutoff, hashNull, rows).Plans(), now, id);
    ReportedPlans(e, files, cutoff, hashNull, rows, id);
    PlansMakeVerified(e, files, cutoff, hashNull, now, id, rows[id]);
  }

  /**
   * What a run leaves of a row, in its fields and from the clock: a served row is looked at unless it was verified
   * within the last `ttl`, or has no digest and is not to get one. If its file is gone it is given up as missing, if
   * the digest differs as drifted; else it has the digest of its file, verified now. All other rows are as before.
   */
  lemma RunInFields(e: Env, files: Files, now: int, ttl: int, hashNull: bool, rows: seq<Row>, id: nat)
    requires id < |rows|
    ensures var row := rows[id];
      var row' := Executed(rows, ReportOf(e, files, now - ttl, hashNull, rows).Plans(), now)[id];
      if !IsServed(row) || (row.sha == None && !hashNull) || (row.verified.Some? && now - row.verified.value < ttl) then
        row' == row
      else if Place(e, row) !in files then row' == GivenUp(row, "missing_at_verify")
      else
        var digest := e.digest(files[Place(e, row)].bytes);
        if row.sha.Some? && row.sha.value != digest then row' == GivenUp(row, "content_drift")
        else row' == Row(row.succeeded, row.document, row.path, Some(digest), row.byteCount, Some(now), row.stale)
  {
    hide *;
    AppliedRunRowByRow(e, files, now - ttl, hashNull, now, rows, id);
    VerifiedInFields(e, files, now, ttl, hashNull, rows[id]);
  }

  /** A row that the verifier opens: served, with a digest or to get one, and not verified within the last `ttl`. */
  predicate IsLookedAt(row: Row, now: int, ttl: int, hashNull: bool)
  {
    && IsServed(row) && (row.sha.Some? || hashNull)
    && (row.verified.Some? ==> now - row.verified.value >= ttl)
  }

  /** The lists of the report in the fields of the rows. */
  lemma ReportInFields(e: Env, files: Files, now: int, ttl: int, hashNull: bool, rows: seq<Row>, id: nat)
    requires id < |rows|
    ensures var r, row := ReportOf(e, files, now - ttl, hashNull, rows), rows[id];
      var looked, there := IsLookedAt(row, now, ttl, hashNull), Place(e, row) in files;
      var same := there && (row.sha == None || row.sha.value == e.digest(files[Place(e, row)].bytes));
      && (IsListed(r.matched, id) <==> looked && same)
      && (IsListed(r.mismatched, id) <==> looked && there && !same)
      && (IsListed(r.missing, id) <==> looked && !there)
  {
    hide Collect, Count, NamesItsRow, IsListed, KindOf, IsLookedAt, IsServed, Place;
    var cutoff := now - ttl;
    PicksNameTheirRow(e, files, cutoff, hashNull);
    ListedExactly(rows, MatchPick(e, files, cutoff, hashNull), id);
    ListedExactly(rows, MarkPick(e, files, cutoff, hashNull, Mismatch, DRIFT), id);
    ListedExactly(rows, MarkPick(e, files, cutoff, hashNull, Missing, MISSING), id);
    MatchedFileExists(e, files, cutoff, hashNull, rows[id]);
    KindInFields(e, files, now, ttl, hashNull, rows[id]);
  }

  lemma KindInFields(e: Env, files: Files, now: int, ttl: int, hashNull: bool, row: Row)
    ensures var kind := KindOf(e, files, now - ttl, hashNull, row);
      var looked, there := IsLookedAt(row, now, ttl, hashNull), Place(e, row) in files;
      var same := there && (row.sha == None || row.sha.value == e.digest(files[Place(e, row)].bytes));
      && (kind == Match <==> looked && same) && (kind == Mismatch <==> looked && there && !same)
      && (kind == Missing <==> looked && !there)
      && (kind == Unverifiable <==> IsServed(row) && row.sha == None && !hashNull)
      && (kind == Fresh <==> IsServed(row) && (row.sha.Some? || hashNull) && !looked)
  {}

  /** Its counters: rows without a digest that are not to get one, and rows whose stamp has not expired. */
  lemma CountersInFields(e: Env, files: Files, now: int, ttl: int, hashNull: bool, rows: seq<Row>)
    ensures var r := ReportOf(e, files, now - ttl, hashNull, rows);
      && r.skippedUnverifiable == Count(rows, (row: Row) => IsServed(row) && row.sha == None && !hashNull)
      && r.skippedFresh == Count(rows, (row: Row) =>
           IsServed(row) && (row.sha.Some? || hashNull) && !IsLookedAt(row, now, ttl, hashNull))
  {
    hide Collect, Count, KindOf, IsLookedAt, IsServed;
    var cutoff := now - ttl;
    forall row: Row { KindInFields(e, files, now, ttl, hashNull, row); }
    CountedAlike(rows, row => KindOf(e, files, cutoff, hashNull, row) == Unverifiable,
                 (row: Row) => IsServed(row) && row.sha == None && !hashNull);
    CountedAlike(rows, row => KindOf(e, files, cutoff, hashNull, row) == Fresh, (row: Row) =>
      IsServed(row) && (row.sha.Some? || hashNull) && !IsLookedAt(row, now, ttl, hashNull));
  }

  lemma VerifiedInFields(e: Env, files: Files, now: int, ttl: int, hashNull: bool, row: Row)
    ensures var row' := Verified(e, files, now - ttl, hashNull, now, row);
      if !IsServed(row) || (row.sha == None && !hashNull) || (row.verified.Some? && now - row.verified.value < ttl) then
        row' == row
      else if Place(e, row) !in files then row' == GivenUp(row, "missing_at_verify")
      else
        var digest := e.digest(files[Place(e, row)].bytes);
        if row.sha.Some? && row.sha.value != digest then row' == GivenUp(row, "content_drift")
        else row' == Row(row.succeeded, row.document, row.path, Some(digest), row.byteCount, Some(now), row.stale)
  {}

  /** Nothing to refresh or to mark means that no row is of one of the three kinds. */
  lemma IdleMeans(e: Env, files: Files, cutoff: int, hashNull: bool, rows: seq<Row>)
    ensures ReportOf(e, files, cutoff, hashNull, rows).IsIdle() <==>
      forall k :: 0 <= k < |rows| ==> IsIdleKind(KindOf(e, files, cutoff, hashNull, rows[k]))
  {
    NothingCollected(rows, MatchPick(e, files, cutoff, hashNull));
    NothingCollected(rows, MarkPick(e, files, cutoff, hashNull, Mismatch, DRIFT));
    NothingCollected(rows, MarkPick(e, files, cutoff, hashNull, Missing, MISSING));
    hide Collect, Count, KindOf, MatchPick, MarkPick, Picked;
    forall k | 0 <= k < |rows|
      ensures IsIdleKind(KindOf(e, files, cutoff, hashNull, rows[k])) <==>
        (&& Picked(MatchPick(e, files, cutoff, hashNull), k, rows[k]) == []
         && Picked(MarkPick(e, files, cutoff, hashNull, Mismatch, DRIFT), k, rows[k]) == []
         && Picked(MarkPick(e, files, cutoff, hashNull, Missing, MISSING), k, rows[k]) == [])
    {
      IdleRow(e, files, cutoff, hashNull, k, rows[k]);
    }
  }

  predicate IsIdleKind(kind: Kind)
  {
    kind == Skipped || kind == Unverifiable || kind == Fresh
  }

  lemma IdleRow(e: Env, files: Files, cutoff: int, hashNull: bool, k: nat, row: Row)
    ensures IsIdleKind(KindOf(e, files, cutoff, hashNull, row)) <==>
      (&& Picked(MatchPick(e, files, cutoff, hashNull), k, row) == []
       && Picked(MarkPick(e, files, cutoff, hashNull, Mismatch, DRIFT), k, row) == []
       && Picked(MarkPick(e, files, cutoff, hashNull, Missing, MISSING), k, row) == [])
  {
    MatchedFileExists(e, files, cutoff, hashNull, row);
  }

  /** The stamp a row goes by has not expired at `cutoff`. */
  predicate StaysFresh(e: Env, files: Files, cutoff: int, hashNull: bool, now: int, later: int, row: Row)
  {
    match KindOf(e, files, cutoff, hashNull, row)
    case Fresh => row.verified.Some? && row.verified.value > later
    case Match => now > later
    case _ => true
  }

  lemma KindAfterRun(e: Env, files: Files, cutoff: int, hashNull: bool, now: int, later: int, row: Row)
    requires WellStamped(row)
    ensures IsIdleKind(KindOf(e, files, later, hashNull, Verified(e, files, cutoff, hashNull, now, row)))
       <==> StaysFresh(e, files, cutoff, hashNull, now, later, row)
  {}

  /**
   * A second run over unchanged files has nothing to do exactly when no stamp has expired in between:
   * neither the ones the first run wrote, nor the older ones it skipped as fresh.
   */
  lemma SecondRunIsIdle(
      e: Env, files: Files, cutoff: int, hashNull: bool, now: int, later: int, rows: seq<Row>)
    requires AllWellStamped(rows)
    ensures var rows' := Executed(rows, ReportOf(e, files, cutoff, hashNull, rows).Plans(), now);
      ReportOf(e, files, later, hashNull, rows').IsIdle() <==>
        forall k :: 0 <= k < |rows| ==> StaysFresh(e, files, cutoff, hashNull, now, later, rows[k])
  {
    hide ReportOf, Report.Plans, Report.IsIdle, KindOf, StaysFresh, Verified, Executed, WellStamped;
    var rows' := Executed(rows, ReportOf(e, files, cutoff, hashNull, rows).Plans(), now);
    IdleMeans(e, files, later, hashNull, rows');
    forall k | 0 <= k < |rows|
      ensures IsIdleKind(KindOf(e, files, later, hashNull, rows'[k]))
         <==> StaysFresh(e, files, cutoff, hashNull, now, later, rows[k])
    {
      AppliedRunRowByRow(e, files, cutoff, hashNull, now, rows, k);
      KindAfterRun(e, files, cutoff, hashNull, now, later, rows[k]);
    }
  }
}
