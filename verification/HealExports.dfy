/** scripts/heal_exports_by_basename.py: point rows whose file has moved at the file of the same name. */
module HealExports {
  import opened Wrappers
  import opened ExportRows

  datatype Kind = NotSucceeded | AlreadyOk | Fixable | Unrecoverable

  function TrimSlashes(path: string): string
  {
    if path != [] && path[|path| - 1] == '/' then TrimSlashes(path[..|path| - 1]) else path
  }

  /** The name of the file a row points at: of the resolved path when it is stored as a relative one. */
  function NameOf(e: Env, path: string): string
  {
    Basename(TrimSlashes(if IsAbsolute(path) then path else e.Locate(path)))
  }

  /** Where the artifacts of a document are kept. */
  function Directories(artifacts: string, document: string): (directories: seq<string>)
    ensures |directories| == 2
  {
    [artifacts + "/" + document, artifacts + "/exports/" + document]
  }

  function CandidatePaths(artifacts: string, document: string, name: string): (paths: seq<string>)
    ensures |paths| == 2
  {
    var directories := Directories(artifacts, document);
    [directories[0] + "/" + name, directories[1] + "/" + name]
  }

  lemma {:induction false} BasenameOfJoin(directory: string, name: string)
    requires '/' !in name
    ensures Basename(directory + "/" + name) == name
  {
    var path := directory + "/" + name;
    if name == [] {
      assert path[|path| - 1] == '/';
    } else {
      var front := name[..|name| - 1];
      BasenameOfJoin(directory, front);
      assert path[..|path| - 1] == directory + "/" + front;
      assert path[|path| - 1] == name[|name| - 1];
      assert front + [name[|name| - 1]] == name;
    }
  }

  lemma CandidateIsJoin(artifacts: string, document: string, name: string, k: nat)
    requires k < 2
    ensures var directory := Directories(artifacts, document)[k];
      && CandidatePaths(artifacts, document, name)[k] == directory + "/" + name
      && directory + "/" <= CandidatePaths(artifacts, document, name)[k]
  {
    hide Directories;
  }

  /** A row is only ever pointed at a file of the same name, below the artifacts of its own document. */
  lemma CandidatesKeepTheName(e: Env, artifacts: string, document: string, path: string, k: nat)
    requires k < 2
    ensures var candidate := CandidatePaths(artifacts, document, NameOf(e, path))[k];
      && Basename(candidate) == NameOf(e, path)
      && Directories(artifacts, document)[k] + "/" <= candidate
  {
    assert '/' !in NameOf(e, path) by {
      hide TrimSlashes;
    }
    hide Directories, CandidatePaths, TrimSlashes, Basename, NameOf;
    BasenameOfJoin(Directories(artifacts, document)[k], NameOf(e, path));
    CandidateIsJoin(artifacts, document, NameOf(e, path), k);
  }

  /** Where the row's file is found again: the first candidate that exists. */
  function FoundAt(e: Env, files: Files, artifacts: string, row: Row): Option<string>
  {
    var candidates := CandidatePaths(artifacts, row.document, NameOf(e, row.path));
    if e.canon(candidates[0]) in files then Some(e.canon(candidates[0]))
    else if e.canon(candidates[1]) in files then Some(e.canon(candidates[1]))
    else None
  }

  /** The path that is stored: relative to the repository root for a location below it. */
  function StoredPath(e: Env, location: string): string
  {
    if e.root + "/" <= location then location[|e.root| + 1..] else location
  }

  /** Storing a resolved location and resolving what is stored leads back to it. */
  lemma StoredPathLeadsBack(e: Env, location: string)
    requires e.Valid() && e.canon(location) == location
    ensures e.Locate(StoredPath(e, location)) == location
    ensures !IsSentinel(StoredPath(e, location))
  {
    assert IsAbsolute(location) && IsClean(location);
    if e.root + "/" <= location {
      var stored := location[|e.root| + 1..];
      assert location == e.root + "/" + stored;
      assert location[|e.root|] == '/';
      assert stored != [] ==> location[|e.root| + 1] == stored[0];
      assert !IsAbsolute(stored);
      TailIsClean(location, |e.root| + 1);
      SentinelIsNotClean(stored);
    } else {
      SentinelIsNotClean(location);
    }
  }

  lemma TailIsClean(path: string, n: nat)
    requires n <= |path| && IsClean(path)
    ensures IsClean(path[n..])
  {
    forall k | 0 <= k < |path[n..]| - 1 ensures !(path[n..][k] == '/' && path[n..][k + 1] == '/') {
      assert path[n..][k] == path[n + k] && path[n..][k + 1] == path[n + k + 1];
    }
  }

  lemma SentinelIsNotClean(path: string)
    ensures IsSentinel(path) ==> !IsClean(path)
  {
    assert SENTINEL <= path ==> path[14] == SENTINEL[14] && path[15] == SENTINEL[15];
  }

  function KindOf(e: Env, files: Files, artifacts: string, row: Row): Kind
  {
    if !row.succeeded then NotSucceeded
    else if e.Locate(row.path) in files then AlreadyOk
    else if FoundAt(e, files, artifacts, row).Some? then Fixable
    else Unrecoverable
  }

  function FixPick(e: Env, files: Files, artifacts: string): Pick
  {
    (id: nat, row: Row) =>
      if KindOf(e, files, artifacts, row) == Fixable && FoundAt(e, files, artifacts, row).Some? then
        Some(Repoint(id, StoredPath(e, FoundAt(e, files, artifacts, row).value)))
      else None
  }

  datatype Report = Report(fixable: seq<Plan>, alreadyOk: nat, unrecoverable: seq<nat>)

  predicate IsLost(e: Env, files: Files, artifacts: string, row: Row)
  {
    KindOf(e, files, artifacts, row) == Unrecoverable
  }

  function Lost(e: Env, files: Files, artifacts: string, rows: seq<Row>): seq<nat>
  {
    if rows == [] then []
    else
      var n := |rows| - 1;
      var front := Lost(e, files, artifacts, rows[..n]);
      if IsLost(e, files, artifacts, rows[n]) then front + [n] else front
  }

  function ReportOf(e: Env, files: Files, artifacts: string, rows: seq<Row>): Report
  {
    Report(
      Collect(rows, FixPick(e, files, artifacts)),
      Count(rows, row => KindOf(e, files, artifacts, row) == AlreadyOk),
      Lost(e, files, artifacts, rows))
  }

  lemma ReportStep(e: Env, files: Files, artifacts: string, rows: seq<Row>, n: nat)
    requires n < |rows|
    ensures var r, r' := ReportOf(e, files, artifacts, rows[..n]), ReportOf(e, files, artifacts, rows[..n + 1]);
      match KindOf(e, files, artifacts, rows[n])
      case NotSucceeded => r' == r
      case AlreadyOk => r' == r.(alreadyOk := r.alreadyOk + 1)
      case Fixable =>
        FoundAt(e, files, artifacts, rows[n]).Some?
        && r' == r.(fixable :=
             r.fixable + [Repoint(n, StoredPath(e, FoundAt(e, files, artifacts, rows[n]).value))])
      case Unrecoverable => r' == r.(unrecoverable := r.unrecoverable + [n])
  {
    hide Collect, Count, FoundAt, StoredPath, Env.Locate;
    CollectStep(rows, FixPick(e, files, artifacts), n);
    CountStep(rows, row => KindOf(e, files, artifacts, row) == AlreadyOk, n);
    assert rows[..n + 1][..n] == rows[..n];
  }

  /** No row is reported twice or left out: the lists and the counter together cover the succeeded rows. */
  lemma {:induction false} EveryRowIsReportedOnce(e: Env, files: Files, artifacts: string, rows: seq<Row>)
    ensures var r := ReportOf(e, files, artifacts, rows);
      |r.fixable| + r.alreadyOk + |r.unrecoverable| == Count(rows, (row: Row) => row.succeeded)
  {
    if rows != [] {
      var n := |rows| - 1;
      EveryRowIsReportedOnce(e, files, artifacts, rows[..n]);
      ReportStep(e, files, artifacts, rows, n);
      assert rows[..n + 1] == rows;
      hide ReportOf, FoundAt, Env.Locate;
    }
  }

  method FindAgain(e: Env, files: Files, artifacts: string, row: Row) returns (healed: Option<string>)
    ensures healed == FoundAt(e, files, artifacts, row)
  {
    hide CandidatePaths, NameOf;
    var candidates := CandidatePaths(artifacts, row.document, NameOf(e, row.path));
    for k := 0 to |candidates|
      invariant forall j :: 0 <= j < k ==> e.canon(candidates[j]) !in files
    {
      if e.canon(candidates[k]) in files {
        return Some(e.canon(candidates[k]));
      }
    }
    return None;
  }

  method Scan(e: Env, table: Table, files: Files, artifacts: string) returns (report: Report)
    ensures report == ReportOf(e, files, artifacts, table.rows)
  {
    var rows := table.rows;
    report := Report([], 0, []);
    assert ReportOf(e, files, artifacts, rows[..0]) == report;
    hide ReportOf, FoundAt;
    for n := 0 to |rows|
      invariant report == ReportOf(e, files, artifacts, rows[..n])
    {
      ReportStep(e, files, artifacts, rows, n);
      var row := rows[n];
      if !row.succeeded {
        continue;
      }
      if e.Locate(row.path) in files {
        report := report.(alreadyOk := report.alreadyOk + 1);
        continue;
      }
      var healed := FindAgain(e, files, artifacts, row);
      if healed == None {
        report := report.(unrecoverable := report.unrecoverable + [n]);
        continue;
      }
      report := report.(fixable := report.fixable + [Repoint(n, StoredPath(e, healed.value))]);
    }
    assert rows[..|rows|] == rows;
  }

  method Apply(table: Table, report: Report)
    modifies table
    ensures table.rows == Executed(old(table.rows), report.fixable, 0)
  {
    table.UpdateAll(report.fixable, 0);
  }

  // ---- What a run does to each row --------------------------------------------------------------

  function Healed(e: Env, files: Files, artifacts: string, row: Row): Row
  {
    if KindOf(e, files, artifacts, row) == Fixable then
      row.(path := StoredPath(e, FoundAt(e, files, artifacts, row).value))
    else row
  }

  lemma PickedFix(e: Env, files: Files, artifacts: string, id: nat, row: Row)
    ensures Changed(row, Picked(FixPick(e, files, artifacts), id, row), 0) == Healed(e, files, artifacts, row)
  {
    hide FoundAt, StoredPath, Changed, Env.Locate;
    OnePlan(row, Picked(FixPick(e, files, artifacts), id, row), 0);
  }

  /** Every row is classified once; only the path of a fixable one changes. */
  lemma AppliedRunRowByRow(e: Env, files: Files, artifacts: string, rows: seq<Row>, id: nat)
    requires id < |rows|
    ensures Executed(rows, ReportOf(e, files, artifacts, rows).fixable, 0)[id] == Healed(e, files, artifacts, rows[id])
  {
    assert NamesItsRow(FixPick(e, files, artifacts));
    hide *;
    var pick := FixPick(e, files, artifacts);
    FixableOf(e, files, artifacts, rows);
    RowOfExecuted(rows, Collect(rows, pick), 0, id);
    ForCollect(rows, pick, id);
    PickedFix(e, files, artifacts, id, rows[id]);
  }

  /** What is left of a path when its trailing slashes are dropped ends with a slash and the name. */
  predicate EndsWithName(path: string, name: string)
  {
    name != [] && '/' !in name
    && exists n: nat :: |name| < n <= |path| && path[n - |name| - 1..n] == "/" + name && OnlySlashes(path[n..])
  }

  predicate OnlySlashes(s: string)
  {
    forall k :: 0 <= k < |s| ==> s[k] == '/'
  }

  lemma {:induction false} TrimmedSlashes(path: string, n: nat)
    requires 0 < n <= |path| && path[n - 1] != '/' && OnlySlashes(path[n..])
    ensures TrimSlashes(path) == path[..n]
  {
    if n < |path| {
      assert path[n..][|path| - 1 - n] == '/';
      TrimmedSlashes(path[..|path| - 1], n);
      assert path[..|path| - 1][..n] == path[..n];
    } else {
      assert path[..n] == path;
    }
  }

  lemma {:induction false} BasenameOfTail(path: string, name: string)
    requires '/' !in name && |name| < |path| && path[|path| - |name| - 1..] == "/" + name
    ensures Basename(path) == name
  {
    var directory := path[..|path| - |name| - 1];
    assert path == directory + "/" + name;
    BasenameOfJoin(directory, name);
  }

  lemma NameByPath(e: Env, path: string, name: string)
    requires EndsWithName(if path != [] && path[0] == '/' then path else e.Locate(path), name)
    ensures NameOf(e, path) == name
  {
    hide TrimSlashes, Basename, OnlySlashes;
    var p := if path != [] && path[0] == '/' then path else e.Locate(path);
    var n: nat :| |name| < n <= |p| && p[n - |name| - 1..n] == "/" + name && OnlySlashes(p[n..]);
    NameBefore(p, n, name);
  }

  lemma NameBefore(p: string, n: nat, name: string)
    requires name != [] && '/' !in name && |name| < n <= |p| && p[n - |name| - 1..n] == "/" + name
    requires OnlySlashes(p[n..])
    ensures Basename(TrimSlashes(p)) == name
  {
    hide Basename, OnlySlashes, TrimSlashes;
    LastOfName(p[n - |name| - 1..n], name);
    assert p[n - 1] == p[n - |name| - 1..n][|name|];
    TrimmedSlashes(p, n);
    SliceOfFront(p, n - |name| - 1, n);
    BasenameOfTail(p[..n], name);
  }

  lemma LastOfName(s: string, name: string)
    requires name != [] && '/' !in name && s == "/" + name
    ensures |s| == |name| + 1 && s[|name|] != '/'
  {
    assert s[|name|] == name[|name| - 1] && name[|name| - 1] in name;
  }

  lemma SliceOfFront(p: string, m: nat, n: nat)
    requires m <= n <= |p|
    ensures p[..n][m..] == p[m..n]
  {}

  /**
   * What a run leaves of a row, in its fields: a succeeded row whose place is empty is pointed at the file of the same
   * name under the artifacts of its document, else at that under its exports, by a path relative to the root
   * where there is one. All other rows, and all other fields, are as before.
   */
  lemma RunInFields(e: Env, files: Files, artifacts: string, rows: seq<Row>, id: nat, name: string)
    requires id < |rows| && EndsWithName(if IsAbsolute(rows[id].path) then rows[id].path else Place(e, rows[id]), name)
    ensures var row := rows[id];
      var row' := Executed(rows, ReportOf(e, files, artifacts, rows).fixable, 0)[id];
      var first := e.canon(artifacts + "/" + row.document + "/" + name);
      var second := e.canon(artifacts + "/exports/" + row.document + "/" + name);
      if !row.succeeded || Place(e, row) in files || (first !in files && second !in files) then row' == row
      else
        var found := if first in files then first else second;
        var path := if e.root + "/" <= found then found[|e.root| + 1..] else found;
        row' == Row(row.succeeded, row.document, path, row.sha, row.byteCount, row.verified, row.stale)
  {
    AppliedRunRowByRow(e, files, artifacts, rows, id);
    NameByPath(e, rows[id].path, name);
    hide Executed, ReportOf, EndsWithName, NameOf;
  }

  /** The two places where a row's file of the name may have gone. */
  predicate IsElsewhere(e: Env, files: Files, artifacts: string, row: Row, name: string)
  {
    || e.canon(artifacts + "/" + row.document + "/" + name) in files
    || e.canon(artifacts + "/exports/" + row.document + "/" + name) in files
  }

  lemma KindInFields(e: Env, files: Files, artifacts: string, row: Row, name: string)
    requires NameOf(e, row.path) == name
    ensures var kind, gone := KindOf(e, files, artifacts, row), row.succeeded && Place(e, row) !in files;
      && (kind == Fixable <==> gone && IsElsewhere(e, files, artifacts, row, name))
      && (kind == Unrecoverable <==> gone && !IsElsewhere(e, files, artifacts, row, name))
      && (kind == Fixable ==> FoundAt(e, files, artifacts, row).Some?)
  {
    hide NameOf;
  }

  /** The lists of the report in the fields of the rows: what can be fixed, and what is lost. */
  lemma ReportInFields(e: Env, files: Files, artifacts: string, rows: seq<Row>, id: nat, name: string)
    requires id < |rows| && EndsWithName(if IsAbsolute(rows[id].path) then rows[id].path else Place(e, rows[id]), name)
    ensures var r, row := ReportOf(e, files, artifacts, rows), rows[id];
      var gone := row.succeeded && Place(e, row) !in files;
      && (IsListed(r.fixable, id) <==> gone && IsElsewhere(e, files, artifacts, row, name))
      && (id in r.unrecoverable <==> gone && !IsElsewhere(e, files, artifacts, row, name))
  {
    NameByPath(e, rows[id].path, name);
    hide NameOf, EndsWithName, KindOf, FoundAt, IsElsewhere, Place, StoredPath;
    hide Collect, Count, NamesItsRow, IsListed, Lost;
    KindInFields(e, files, artifacts, rows[id], name);
    FixesNameTheirRow(e, files, artifacts);
    ListedExactly(rows, FixPick(e, files, artifacts), id);
    LostExactly(e, files, artifacts, rows, id);
  }

  lemma FixesNameTheirRow(e: Env, files: Files, artifacts: string)
    ensures NamesItsRow(FixPick(e, files, artifacts))
  {}

  /** Its counter: rows whose file is in place. */
  lemma CounterInFields(e: Env, files: Files, artifacts: string, rows: seq<Row>)
    ensures ReportOf(e, files, artifacts, rows).alreadyOk
         == Count(rows, (row: Row) => row.succeeded && Place(e, row) in files)
  {
    hide Collect, Count, Lost, FoundAt;
    CountedAlike(rows, row => KindOf(e, files, artifacts, row) == AlreadyOk,
                 (row: Row) => row.succeeded && Place(e, row) in files);
  }

  lemma {:induction false} LostExactly(e: Env, files: Files, artifacts: string, rows: seq<Row>, id: nat)
    ensures id in Lost(e, files, artifacts, rows) <==> id < |rows| && IsLost(e, files, artifacts, rows[id])
  {
    hide IsLost;
    if rows != [] {
      LostExactly(e, files, artifacts, rows[..|rows| - 1], id);
    }
  }

  lemma FixableOf(e: Env, files: Files, artifacts: string, rows: seq<Row>)
    ensures ReportOf(e, files, artifacts, rows).fixable == Collect(rows, FixPick(e, files, artifacts))
  {}

  lemma FoundIsResolved(e: Env, files: Files, artifacts: string, row: Row)
    requires e.Valid()
    ensures var found := FoundAt(e, files, artifacts, row);
      found.Some? ==> e.canon(found.value) == found.value && found.value in files
  {
    hide CandidatePaths, NameOf;
  }

  /** A row that was fixed is reachable; every other row keeps its class. */
  lemma KindAfterRun(e: Env, files: Files, artifacts: string, row: Row)
    requires e.Valid()
    ensures var kind, kind' := KindOf(e, files, artifacts, row),
                               KindOf(e, files, artifacts, Healed(e, files, artifacts, row));
      kind' == if kind == Fixable then AlreadyOk else kind
  {
    FoundIsResolved(e, files, artifacts, row);
    hide FoundAt, StoredPath, Env.Locate, Env.Valid;
    if KindOf(e, files, artifacts, row) == Fixable {
      StoredPathLeadsBack(e, FoundAt(e, files, artifacts, row).value);
    }
  }

  lemma {:induction false} LostAgain(e: Env, files: Files, artifacts: string, rows: seq<Row>, rows': seq<Row>)
    requires |rows'| == |rows|
    requires forall k :: 0 <= k < |rows| ==>
      (IsLost(e, files, artifacts, rows'[k]) <==> IsLost(e, files, artifacts, rows[k]))
    ensures Lost(e, files, artifacts, rows') == Lost(e, files, artifacts, rows)
  {
    hide IsLost;
    if rows != [] {
      LostAgain(e, files, artifacts, rows[..|rows| - 1], rows'[..|rows| - 1]);
    }
  }

  /** A second run over unchanged files fixes nothing, and gives up on the same rows. */
  lemma SecondRunFixesNothing(e: Env, files: Files, artifacts: string, rows: seq<Row>)
    requires e.Valid()
    ensures var report := ReportOf(e, files, artifacts, rows);
      var report' := ReportOf(e, files, artifacts, Executed(rows, report.fixable, 0));
      report'.fixable == [] && report'.unrecoverable == report.unrecoverable
  {
    hide KindOf, Healed, Executed, Env.Valid, Collect, Count, Lost;
    var rows' := Executed(rows, ReportOf(e, files, artifacts, rows).fixable, 0);
    forall k | 0 <= k < |rows|
      ensures Picked(FixPick(e, files, artifacts), k, rows'[k]) == []
      ensures IsLost(e, files, artifacts, rows'[k]) <==> IsLost(e, files, artifacts, rows[k])
    {
      AppliedRunRowByRow(e, files, artifacts, rows, k);
      KindAfterRun(e, files, artifacts, rows[k]);
    }
    NothingCollected(rows', FixPick(e, files, artifacts));
    LostAgain(e, files, artifacts, rows, rows');
  }

  /** Healing serves no row that was not served before, as long as the rows with a sentinel are marked stale. */
  lemma HealingKeepsServiceability(e: Env, files: Files, artifacts: string, row: Row)
    requires e.Valid()
    ensures var row' := Healed(e, files, artifacts, row);
      (IsServiceable(row') <==> IsServiceable(row))
        <==> !(IsSentinel(row.path) && row.succeeded && !IsStale(row) && KindOf(e, files, artifacts, row) == Fixable)
  {
    FoundIsResolved(e, files, artifacts, row);
    hide FoundAt, StoredPath, Env.Locate, Env.Valid, IsSentinel;
    if KindOf(e, files, artifacts, row) == Fixable {
      StoredPathLeadsBack(e, FoundAt(e, files, artifacts, row).value);
    }
  }
}
