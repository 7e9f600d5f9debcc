/** scripts/backfill_export_paths.py: stamp the digest and size of each file that has none yet. */
module BackfillExports {
  import opened Wrappers
  import opened ExportRows
  import VerifyExports

  const MISSING := "missing_at_backfill"

  datatype Kind = NotSucceeded | Unrecoverable | Done | Missing | Computed

  predicate IsStamped(row: Row)
  {
    row.sha.Some? && row.sha.value != "" && row.byteCount.Some? && row.verified.Some?
  }

  function KindOf(e: Env, files: Files, recompute: bool, row: Row): Kind
  {
    if !row.succeeded then NotSucceeded
    else if IsSentinel(row.path) || IsStale(row) then Unrecoverable
    else if !recompute && IsStamped(row) then Done
    else if e.Locate(row.path) !in files then Missing
    else Computed
  }

  function StampPick(e: Env, files: Files, recompute: bool): Pick
  {
    (id: nat, row: Row) =>
      if KindOf(e, files, recompute, row) == Computed && e.Locate(row.path) in files then
        var bytes := files[e.Locate(row.path)].bytes;
        Some(Stamp(id, e.digest(bytes), |bytes|))
      else None
  }

  function MissingPick(e: Env, files: Files, recompute: bool): Pick
  {
    (id: nat, row: Row) => if KindOf(e, files, recompute, row) == Missing then Some(Mark(id, MISSING)) else None
  }

  datatype Report = Report(computed: seq<Plan>, stale: seq<Plan>, alreadyDone: nat, skippedUnrecoverable: nat) {
    predicate IsIdle() { computed == [] && stale == [] }
    function Plans(): seq<Plan> { computed + stale }
  }

  function ReportOf(e: Env, files: Files, recompute: bool, rows: seq<Row>): Report
  {
    Report(
      Collect(rows, StampPick(e, files, recompute)),
      Collect(rows, MissingPick(e, files, recompute)),
      Count(rows, row => KindOf(e, files, recompute, row) == Done),
      Count(rows, row => KindOf(e, files, recompute, row) == Unrecoverable))
  }

  lemma ComputedFileExists(e: Env, files: Files, recompute: bool, row: Row)
    ensures KindOf(e, files, recompute, row) == Computed ==> e.Locate(row.path) in files
  {}

  lemma ReportStep(e: Env, files: Files, recompute: bool, rows: seq<Row>, n: nat)
    requires n < |rows|
    ensures var r, r' := ReportOf(e, files, recompute, rows[..n]), ReportOf(e, files, recompute, rows[..n + 1]);
      match KindOf(e, files, recompute, rows[n])
      case NotSucceeded => r' == r
      case Unrecoverable => r' == r.(skippedUnrecoverable := r.skippedUnrecoverable + 1)
      case Done => r' == r.(alreadyDone := r.alreadyDone + 1)
      case Missing => r' == r.(stale := r.stale + [Mark(n, MISSING)])
      case Computed =>
        e.Locate(rows[n].path) in files
        && var bytes := files[e.Locate(rows[n].path)].bytes;
           r' == r.(computed := r.computed + [Stamp(n, e.digest(bytes), |bytes|)])
  {
    hide KindOf, Collect, Count;
    CollectStep(rows, StampPick(e, files, recompute), n);
    CollectStep(rows, MissingPick(e, files, recompute), n);
    CountStep(rows, row => KindOf(e, files, recompute, row) == Done, n);
    CountStep(rows, row => KindOf(e, files, recompute, row) == Unrecoverable, n);
    ComputedFileExists(e, files, recompute, rows[n]);
  }

  /** No row is reported twice or left out: the lists and counters together cover the succeeded rows. */
  lemma {:induction false} EveryRowIsReportedOnce(e: Env, files: Files, recompute: bool, rows: seq<Row>)
    ensures var r := ReportOf(e, files, recompute, rows);
      |r.computed| + |r.stale| + r.alreadyDone + r.skippedUnrecoverable == Count(rows, (row: Row) => row.succeeded)
  {
    if rows != [] {
      var n := |rows| - 1;
      EveryRowIsReportedOnce(e, files, recompute, rows[..n]);
      ReportStep(e, files, recompute, rows, n);
      assert rows[..n + 1] == rows;
      hide ReportOf;
    }
  }

  method Scan(e: Env, table: Table, files: Files, recompute: bool) returns (report: Report)
    ensures report == ReportOf(e, files, recompute, table.rows)
  {
    var rows := table.rows;
    report := Report([], [], 0, 0);
    assert ReportOf(e, files, recompute, rows[..0]) == report;
    hide ReportOf;
    for n := 0 to |rows|
      invariant report == ReportOf(e, files, recompute, rows[..n])
    {
      ReportStep(e, files, recompute, rows, n);
      var row := rows[n];
      if !row.succeeded {
        continue;
      }
      if IsSentinel(row.path) || IsStale(row) {
        report := report.(skippedUnrecoverable := report.skippedUnrecoverable + 1);
        continue;
      }
      if !recompute && IsStamped(row) {
        report := report.(alreadyDone := report.alreadyDone + 1);
        continue;
      }
      var location := e.Locate(row.path);
      if location !in files {
        report := report.(stale := report.stale + [Mark(n, MISSING)]);
        continue;
      }
      var bytes := files[location].bytes;
      report := report.(computed := report.computed + [Stamp(n, e.digest(bytes), |bytes|)]);
    }
    assert rows[..|rows|] == rows;
  }

  method Apply(table: Table, report: Report, now: int)
    modifies table
    ensures table.rows == Executed(old(table.rows), report.Plans(), now)
  {
    ExecutedConcat(table.rows, report.computed, report.stale, now);
    table.UpdateAll(report.computed, now);
    table.UpdateAll(report.stale, now);
  }

  // ---- What a run does to each row --------------------------------------------------------------

  function Backfilled(e: Env, files: Files, recompute: bool, now: int, row: Row): Row
  {
    match KindOf(e, files, recompute, row)
    case Computed =>
      var bytes := files[e.Locate(row.path)].bytes;
      row.(sha := Some(e.digest(bytes)), byteCount := Some(|bytes|), verified := Some(now))
    case Missing => if row.stale == None then row.(stale := Some(MISSING)) else row
    case _ => row
  }

  function PlansFor(e: Env, files: Files, recompute: bool, id: nat, row: Row): seq<Plan>
  {
    match KindOf(e, files, recompute, row)
    case Computed =>
      var bytes := files[e.Locate(row.path)].bytes;
      [Stamp(id, e.digest(bytes), |bytes|)]
    case Missing => [Mark(id, MISSING)]
    case _ => []
  }

  lemma PicksNameTheirRow(e: Env, files: Files, recompute: bool)
    ensures NamesItsRow(StampPick(e, files, recompute)) && NamesItsRow(MissingPick(e, files, recompute))
  {}

  lemma PickedAltogether(e: Env, files: Files, recompute: bool, id: nat, row: Row)
    ensures Picked(StampPick(e, files, recompute), id, row) + Picked(MissingPick(e, files, recompute), id, row)
         == PlansFor(e, files, recompute, id, row)
  {
    ComputedFileExists(e, files, recompute, row);
  }

  lemma ReportedPlans(e: Env, files: Files, recompute: bool, rows: seq<Row>, id: nat)
    requires id < |rows|
    ensures For(ReportOf(e, files, recompute, rows).Plans(), id) == PlansFor(e, files, recompute, id, rows[id])
  {
    var r := ReportOf(e, files, recompute, rows);
    PicksNameTheirRow(e, files, recompute);
    ForConcat(r.computed, r.stale, id);
    ForCollect(rows, StampPick(e, files, recompute), id);
    ForCollect(rows, MissingPick(e, files, recompute), id);
    PickedAltogether(e, files, recompute, id, rows[id]);
    hide For, Collect, Count, NamesItsRow, KindOf, Picked, PlansFor, StampPick, MissingPick;
  }

  lemma PlansMakeBackfilled(e: Env, files: Files, recompute: bool, now: int, id: nat, row: Row)
    ensures Changed(row, PlansFor(e, files, recompute, id, row), now) == Backfilled(e, files, recompute, now, row)
  {
    OnePlan(row, PlansFor(e, files, recompute, id, row), now);
  }

  /** Every row is classified once and updated as its class says. */
  lemma AppliedRunRowByRow(e: Env, files: Files, recompute: bool, now: int, rows: seq<Row>, id: nat)
    requires id < |rows|
    ensures Executed(rows, ReportOf(e, files, recompute, rows).Plans(), now)[id]
         == Backfilled(e, files, recompute, now, rows[id])
  {
    hide *;
    RowOfExecuted(rows, ReportOf(e, files, recompute, rows).Plans(), now, id);
    ReportedPlans(e, files, recompute, rows, id);
    PlansMakeBackfilled(e, files, recompute, now, id, rows[id]);
  }

  /**
   * What a run leaves of a row, in its fields: a served row that lacks digest, size or time of verification, or
   * any served row when all are to be recomputed, gets those of its file, or is given up as missing.
   */
  lemma RunInFields(e: Env, files: Files, recompute: bool, now: int, rows: seq<Row>, id: nat)
    requires id < |rows|
    ensures var row := rows[id];
      var row' := Executed(rows, ReportOf(e, files, recompute, rows).Plans(), now)[id];
      var stamped := row.sha.Some? && row.sha.value != "" && row.byteCount.Some? && row.verified.Some?;
      if !IsServed(row) || (stamped && !recompute) then row' == row
      else if Place(e, row) !in files then row' == GivenUp(row, "missing_at_backfill")
      else
        var bytes := files[Place(e, row)].bytes;
        row' == Row(row.succeeded, row.document, row.path, Some(e.digest(bytes)), Some(|bytes|), Some(now), row.stale)
  {
    AppliedRunRowByRow(e, files, recompute, now, rows, id);
    hide Executed, ReportOf, Report.Plans;
  }

  /** The row lacks nothing that a backfill would give it. */
  predicate IsComplete(row: Row)
  {
    row.sha.Some? && row.sha.value != "" && row.byteCount.Some? && row.verified.Some?
  }

  lemma KindInFields(e: Env, files: Files, recompute: bool, row: Row)
    ensures var kind, open := KindOf(e, files, recompute, row), IsServed(row) && (recompute || !IsComplete(row));
      && (kind == Computed <==> open && Place(e, row) in files)
      && (kind == Missing <==> open && Place(e, row) !in files)
      && (kind == Done <==> IsServed(row) && !recompute && IsComplete(row))
      && (kind == Unrecoverable <==> row.succeeded && !IsServed(row))
  {}

  /** The lists of the report in the fields of the rows. */
  lemma ReportInFields(e: Env, files: Files, recompute: bool, rows: seq<Row>, id: nat)
    requires id < |rows|
    ensures var r, row := ReportOf(e, files, recompute, rows), rows[id];
      var open := IsServed(row) && (recompute || !IsComplete(row));
      && (IsListed(r.computed, id) <==> open && Place(e, row) in files)
      && (IsListed(r.stale, id) <==> open && Place(e, row) !in files)
  {
    hide Collect, Count, NamesItsRow, IsListed, KindOf, IsComplete, IsServed, Place;
    PicksNameTheirRow(e, files, recompute);
    ListedExactly(rows, StampPick(e, files, recompute), id);
    ListedExactly(rows, MissingPick(e, files, recompute), id);
    ComputedFileExists(e, files, recompute, rows[id]);
    KindInFields(e, files, recompute, rows[id]);
  }

  /** Its counters: rows that lack nothing, and rows that have been given up. */
  lemma CountersInFields(e: Env, files: Files, recompute: bool, rows: seq<Row>)
    ensures var r := ReportOf(e, files, recompute, rows);
      && r.alreadyDone == Count(rows, (row: Row) => IsServed(row) && !recompute && IsComplete(row))
      && r.skippedUnrecoverable == Count(rows, (row: Row) => row.succeeded && !IsServed(row))
  {
    hide Collect, Count, KindOf, IsComplete, IsServed;
    forall row: Row { KindInFields(e, files, recompute, row); }
    CountedAlike(rows, row => KindOf(e, files, recompute, row) == Done,
                 (row: Row) => IsServed(row) && !recompute && IsComplete(row));
    CountedAlike(rows, row => KindOf(e, files, recompute, row) == Unrecoverable,
                 (row: Row) => row.succeeded && !IsServed(row));
  }

  predicate IsIdleKind(kind: Kind)
  {
    kind != Computed && kind != Missing
  }

  lemma IdleRow(e: Env, files: Files, recompute: bool, k: nat, row: Row)
    ensures IsIdleKind(KindOf(e, files, recompute, row)) <==>
      (Picked(StampPick(e, files, recompute), k, row) == [] && Picked(MissingPick(e, files, recompute), k, row) == [])
  {
    ComputedFileExists(e, files, recompute, row);
  }

  lemma IdleMeans(e: Env, files: Files, recompute: bool, rows: seq<Row>)
    ensures ReportOf(e, files, recompute, rows).IsIdle() <==>
      forall k :: 0 <= k < |rows| ==> IsIdleKind(KindOf(e, files, recompute, rows[k]))
  {
    NothingCollected(rows, StampPick(e, files, recompute));
    NothingCollected(rows, MissingPick(e, files, recompute));
    hide Collect, Count, KindOf, StampPick, MissingPick, Picked;
    forall k | 0 <= k < |rows|
      ensures IsIdleKind(KindOf(e, files, recompute, rows[k])) <==>
        (&& Picked(StampPick(e, files, recompute), k, rows[k]) == []
         && Picked(MissingPick(e, files, recompute), k, rows[k]) == [])
    {
      IdleRow(e, files, recompute, k, rows[k]);
    }
  }

  /** A row that the scan would hash once more: only a recomputing run does that. */
  predicate IsHashedAgain(e: Env, files: Files, recompute: bool, row: Row)
  {
    recompute && IsServiceable(row) && e.Locate(row.path) in files
  }

  lemma KindAfterRun(e: Env, files: Files, recompute: bool, now: int, row: Row)
    requires WellStamped(row) && e.Valid()
    ensures IsIdleKind(KindOf(e, files, recompute, Backfilled(e, files, recompute, now, row)))
       <==> !IsHashedAgain(e, files, recompute, row)
  {}

  /**
   * A second run over unchanged files has nothing to hash or to mark, unless it is told to recompute and
   * there is a serviceable file.
   */
  lemma SecondRunIsIdle(e: Env, files: Files, recompute: bool, now: int, rows: seq<Row>)
    requires AllWellStamped(rows) && e.Valid()
    ensures var rows' := Executed(rows, ReportOf(e, files, recompute, rows).Plans(), now);
      ReportOf(e, files, recompute, rows').IsIdle() <==>
        forall k :: 0 <= k < |rows| ==> !IsHashedAgain(e, files, recompute, rows[k])
  {
    hide ReportOf, Report.Plans, Report.IsIdle, KindOf, IsHashedAgain, Backfilled, Executed, WellStamped, Env.Valid;
    hide IsIdleKind;
    var rows' := Executed(rows, ReportOf(e, files, recompute, rows).Plans(), now);
    IdleMeans(e, files, recompute, rows');
    forall k | 0 <= k < |rows|
      ensures IsIdleKind(KindOf(e, files, recompute, rows'[k])) <==> !IsHashedAgain(e, files, recompute, rows[k])
    {
      AppliedRunRowByRow(e, files, recompute, now, rows, k);
      KindAfterRun(e, files, recompute, now, rows[k]);
    }
  }

  // ---- What the verifier makes of it ------------------------------------------------------------

  /** What a backfill stamps, the verifier accepts: such a row is fresh, and matches once its stamp has expired. */
  lemma BackfilledRowMatches(
      e: Env, files: Files, recompute: bool, now: int, cutoff: int, hashNull: bool, row: Row)
    requires KindOf(e, files, recompute, row) == Computed
    ensures VerifyExports.KindOf(e, files, cutoff, hashNull, Backfilled(e, files, recompute, now, row))
         == if now > cutoff then VerifyExports.Fresh else VerifyExports.Match
  {}

  /** The verifier would mark the row stale. */
  predicate IsMarked(kind: VerifyExports.Kind)
  {
    kind == VerifyExports.Mismatch || kind == VerifyExports.Missing
  }

  lemma MarkedAfterBackfill(
      e: Env, files: Files, recompute: bool, now: int, cutoff: int, hashNull: bool, row: Row)
    requires WellStamped(row) && e.Valid()
    ensures IsMarked(VerifyExports.KindOf(e, files, cutoff, hashNull, Backfilled(e, files, recompute, now, row))) <==>
      KindOf(e, files, recompute, row) == Done && IsMarked(VerifyExports.KindOf(e, files, cutoff, hashNull, row))
  {
    if KindOf(e, files, recompute, row) == Computed {
      BackfilledRowMatches(e, files, recompute, now, cutoff, hashNull, row);
    }
  }

  /** The verifier's report marks nothing exactly when no row is of a kind to be marked. */
  lemma NothingMarked(e: Env, files: Files, cutoff: int, hashNull: bool, rows: seq<Row>)
    ensures var r := VerifyExports.ReportOf(e, files, cutoff, hashNull, rows);
      r.mismatched == [] && r.missing == [] <==>
        forall k :: 0 <= k < |rows| ==> !IsMarked(VerifyExports.KindOf(e, files, cutoff, hashNull, rows[k]))
  {
    hide Collect, Count, VerifyExports.KindOf;
    NothingCollected(
      rows, VerifyExports.MarkPick(e, files, cutoff, hashNull, VerifyExports.Mismatch, VerifyExports.DRIFT));
    NothingCollected(
      rows, VerifyExports.MarkPick(e, files, cutoff, hashNull, VerifyExports.Missing, VerifyExports.MISSING));
  }

  /**
   * A verifier run after a backfill over the same files marks nothing, exactly unless it would have marked before
   * a row that the backfill found stamped and passed over; after a recomputing backfill there is no such row.
   */
  lemma VerifiedAfterBackfill(
      e: Env, files: Files, recompute: bool, now: int, cutoff: int, hashNull: bool, rows: seq<Row>)
    requires AllWellStamped(rows) && e.Valid()
    ensures var rows' := Executed(rows, ReportOf(e, files, recompute, rows).Plans(), now);
      var r := VerifyExports.ReportOf(e, files, cutoff, hashNull, rows');
      r.mismatched == [] && r.missing == [] <==>
        forall k :: 0 <= k < |rows| && KindOf(e, files, recompute, rows[k]) == Done ==>
          !IsMarked(VerifyExports.KindOf(e, files, cutoff, hashNull, rows[k]))
    ensures recompute ==> forall k :: 0 <= k < |rows| ==> KindOf(e, files, recompute, rows[k]) != Done
  {
    var rows' := Executed(rows, ReportOf(e, files, recompute, rows).Plans(), now);
    NothingMarked(e, files, cutoff, hashNull, rows');
    assert recompute ==> forall k :: 0 <= k < |rows| ==> KindOf(e, files, recompute, rows[k]) != Done;
    hide ReportOf, Report.Plans, VerifyExports.ReportOf, KindOf, VerifyExports.KindOf, Backfilled, Executed, IsMarked;
    hide WellStamped, Env.Valid;
    forall k | 0 <= k < |rows|
      ensures IsMarked(VerifyExports.KindOf(e, files, cutoff, hashNull, rows'[k])) <==>
        (KindOf(e, files, recompute, rows[k]) == Done
         && IsMarked(VerifyExports.KindOf(e, files, cutoff, hashNull, rows[k])))
    {
      AppliedRunRowByRow(e, files, recompute, now, rows, k);
      MarkedAfterBackfill(e, files, recompute, now, cutoff, hashNull, rows[k]);
    }
  }
}
