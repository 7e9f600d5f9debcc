/**
 * alembic/versions/20260422_0028_exports_integrity_fields_and_path_check.py: the integrity columns, the
 * rewriting of rows that point into a temporary directory, and the CHECK against such rows.
 */
module ExportsMigration {
  import opened Wrappers
  import opened ExportRows

  const POLLUTED := "tempdir_pollution_m0"

  /** A row before the migration. */
  datatype LegacyRow = LegacyRow(succeeded: bool, document: string, path: string)

  /** Ignores the case of ASCII letters, as LIKE does on SQLite but not on PostgreSQL. */
  function Folded(c: char): char
  {
    if 'A' <= c <= 'Z' then (c as int + 32) as char else c
  }

  /** `path LIKE 'prefix%'`. */
  predicate IsLike(sqlite: bool, path: string, prefix: string)
  {
    && |prefix| <= |path|
    && forall k :: 0 <= k < |prefix| ==> path[k] == prefix[k] || (sqlite && Folded(path[k]) == Folded(prefix[k]))
  }

  predicate IsTempPath(sqlite: bool, path: string)
  {
    || IsLike(sqlite, path, "/var/folders/") || IsLike(sqlite, path, "/private/var/folders/")
    || IsLike(sqlite, path, "/tmp/") || IsLike(sqlite, path, "/private/tmp/")
  }

  /** The constraint that is created last. */
  ghost predicate SatisfiesCheck(sqlite: bool, rows: seq<Row>)
  {
    forall i :: 0 <= i < |rows| ==> !IsTempPath(sqlite, rows[i].path)
  }

  /** The path lies below one of the four temporary directories. */
  predicate IsBelowTemp(path: string)
  {
    "/var/folders/" <= path || "/private/var/folders/" <= path || "/tmp/" <= path || "/private/tmp/" <= path
  }

  /** The path in small ASCII letters. */
  function Lowered(path: string): (r: string)
    ensures |r| == |path|
  {
    seq(|path|, k requires 0 <= k < |path| =>
      if 'A' <= path[k] <= 'Z' then (path[k] as int - 'A' as int + 'a' as int) as char else path[k])
  }

  lemma LikeIsPrefix(path: string, prefix: string)
    requires forall k :: 0 <= k < |prefix| ==> !('A' <= prefix[k] <= 'Z')
    ensures IsLike(false, path, prefix) <==> prefix <= path
    ensures IsLike(true, path, prefix) <==> prefix <= Lowered(path)
  {
    if IsLike(false, path, prefix) {
      assert path[..|prefix|] == prefix;
    }
    if |prefix| <= |path| {
      forall k | 0 <= k < |prefix| ensures Folded(path[k]) == Folded(prefix[k]) <==> Lowered(path)[k] == prefix[k] {}
    }
    if IsLike(true, path, prefix) {
      assert Lowered(path)[..|prefix|] == prefix;
    }
  }

  /** The pattern, on PostgreSQL and on SQLite. */
  lemma TempPathsAre(path: string)
    ensures IsTempPath(false, path) <==> IsBelowTemp(path)
    ensures IsTempPath(true, path) <==> IsBelowTemp(Lowered(path))
  {
    hide IsLike, Lowered;
    LikeIsPrefix(path, "/var/folders/");
    LikeIsPrefix(path, "/private/var/folders/");
    LikeIsPrefix(path, "/tmp/");
    LikeIsPrefix(path, "/private/tmp/");
  }

  function WithColumns(row: LegacyRow): Row
  {
    Row(row.succeeded, row.document, row.path, None, None, None, None)
  }

  function Columned(legacy: seq<LegacyRow>): (rows: seq<Row>)
    ensures |rows| == |legacy| && forall i :: 0 <= i < |rows| ==> rows[i] == WithColumns(legacy[i])
  {
    seq(|legacy|, i requires 0 <= i < |legacy| => WithColumns(legacy[i]))
  }

  /** What becomes of a row: a path into a temporary directory is given up, and the row with it. */
  function Migrated(sqlite: bool, row: LegacyRow): Row
  {
    if IsTempPath(sqlite, row.path) then
      WithColumns(row).(path := SENTINEL + Basename(row.path), stale := Some(POLLUTED))
    else WithColumns(row)
  }

  lemma SentinelIsNoTempPath(sqlite: bool, name: string)
    ensures IsSentinel(SENTINEL + name) && !IsTempPath(sqlite, SENTINEL + name)
  {
    assert (SENTINEL + name)[0] == 'u';
  }

  /**
   * The four steps in their order. Afterwards every row is as `Migrated` says and the CHECK holds, so
   * creating it succeeds.
   */
  method Upgrade(sqlite: bool, legacy: seq<LegacyRow>) returns (table: Table)
    ensures fresh(table) && |table.rows| == |legacy|
    ensures forall i :: 0 <= i < |legacy| ==> table.rows[i] == Migrated(sqlite, legacy[i])
    ensures SatisfiesCheck(sqlite, table.rows)
    // In fields: the file name of a temporary path stays behind the sentinel, every other row is as it was.
    ensures forall i :: 0 <= i < |legacy| ==>
      var was, row := legacy[i], table.rows[i];
      if IsBelowTemp(if sqlite then Lowered(was.path) else was.path) then
        exists name, dir :: was.path == dir + "/" + name && '/' !in name
          && row == Row(was.succeeded, was.document, "unrecoverable://" + name, None, None, None,
                        Some("tempdir_pollution_m0"))
      else row == Row(was.succeeded, was.document, was.path, None, None, None, None)
  {
    hide IsTempPath, IsSentinel, Basename;
    table := new Table(Columned(legacy));
    for i := 0 to |legacy|
      invariant fresh(table) && |table.rows| == |legacy|
      invariant forall k :: 0 <= k < |legacy| ==>
        table.rows[k] == if k < i then Marked(sqlite, legacy[k]) else WithColumns(legacy[k])
    {
      if IsTempPath(sqlite, table.rows[i].path) {
        table.Update(Mark(i, POLLUTED), 0);
      }
    }
    for i := 0 to |legacy|
      invariant fresh(table) && |table.rows| == |legacy|
      invariant forall k :: 0 <= k < |legacy| ==>
        table.rows[k] == if k < i then Migrated(sqlite, legacy[k]) else Marked(sqlite, legacy[k])
    {
      var path := table.rows[i].path;
      if IsTempPath(sqlite, path) {
        table.Update(Repoint(i, SENTINEL + Basename(path)), 0);
      }
    }
    forall i | 0 <= i < |legacy| ensures !IsTempPath(sqlite, table.rows[i].path) {
      SentinelIsNoTempPath(sqlite, Basename(legacy[i].path));
    }
    forall i | 0 <= i < |legacy| {
      MigratedInFields(sqlite, legacy[i]);
    }
  }

  lemma MigratedInFields(sqlite: bool, was: LegacyRow)
    ensures var row := Migrated(sqlite, was);
      if IsBelowTemp(if sqlite then Lowered(was.path) else was.path) then
        exists name, dir :: was.path == dir + "/" + name && '/' !in name
          && row == Row(was.succeeded, was.document, "unrecoverable://" + name, None, None, None,
                        Some("tempdir_pollution_m0"))
      else row == Row(was.succeeded, was.document, was.path, None, None, None, None)
  {
    hide IsBelowTemp, IsTempPath, Lowered;
    TempPathsAre(was.path);
    if IsTempPath(sqlite, was.path) {
      var name := Basename(was.path);
      TempPathHasSlash(sqlite, was.path);
      var dir := was.path[..|was.path| - |name| - 1];
      assert was.path == dir + "/" + name;
    }
  }

  lemma TempPathHasSlash(sqlite: bool, path: string)
    requires IsTempPath(sqlite, path)
    ensures |Basename(path)| < |path|
  {
    hide Basename;
    var name := Basename(path);
    assert path[0] == '/' && path[0] in path;
    assert path[..|path| - |name|] + name == path;
  }

  function Marked(sqlite: bool, row: LegacyRow): Row
  {
    if IsTempPath(sqlite, row.path) then WithColumns(row).(stale := Some(POLLUTED)) else WithColumns(row)
  }

  /** The constraint could not have come first: on the rows as they were, it holds only without polluted ones. */
  lemma CheckNeedsTheRewrite(sqlite: bool, legacy: seq<LegacyRow>)
    ensures SatisfiesCheck(sqlite, Columned(legacy))
       <==> forall i :: 0 <= i < |legacy| ==> Migrated(sqlite, legacy[i]) == WithColumns(legacy[i])
  {
    hide IsTempPath;
    forall i | 0 <= i < |legacy|
      ensures IsTempPath(sqlite, legacy[i].path) <==> Migrated(sqlite, legacy[i]) != WithColumns(legacy[i])
    {
      assert Columned(legacy)[i] == WithColumns(legacy[i]);
    }
    assert forall i :: 0 <= i < |legacy| ==> Columned(legacy)[i].path == legacy[i].path;
  }

  /** Migrated rows are well stamped, and every row the migration gave up is stale. */
  lemma MigratedIsWellStamped(sqlite: bool, row: LegacyRow)
    ensures WellStamped(Migrated(sqlite, row))
    ensures IsStale(Migrated(sqlite, row)) <==> IsTempPath(sqlite, row.path)
    ensures IsSentinel(Migrated(sqlite, row).path) && !IsStale(Migrated(sqlite, row)) ==> IsSentinel(row.path)
  {
    hide IsTempPath;
  }
}
