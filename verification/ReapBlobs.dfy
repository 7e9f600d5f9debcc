/** scripts/reap_blob_store.py: unlink old blobs that no serviceable row refers to. */
module ReapBlobs {
  import opened Wrappers
  import opened ExportRows
  import opened BlobStore
  import ReaperRace

  predicate IsHexDigit(c: char)
  {
    '0' <= c <= '9' || 'a' <= c <= 'f'
  }

  /** Only files with the name of a digest are looked at. */
  predicate IsBlobName(name: string)
  {
    |name| == 64 && forall k :: 0 <= k < 64 ==> IsHexDigit(name[k])
  }

  predicate Refers(row: Row, sha: string)
  {
    IsServiceableInSql(row) && row.sha == Some(sha) && sha != ""
  }

  predicate IsReferenced(rows: seq<Row>, sha: string)
  {
    exists i :: 0 <= i < |rows| && Refers(rows[i], sha)
  }

  predicate IsOld(blob: File, now: int, minAge: int)
  {
    now - blob.mtime >= minAge
  }

  predicate IsOrphan(blobs: Blobs, rows: seq<Row>, now: int, minAge: int, sha: string)
  {
    sha in blobs && IsBlobName(sha) && !IsReferenced(rows, sha) && IsOld(blobs[sha], now, minAge)
  }

  /** What a reaping run leaves of the store. */
  function Reaped(blobs: Blobs, rows: seq<Row>, now: int, minAge: int): Blobs
  {
    map sha | sha in blobs && !IsOrphan(blobs, rows, now, minAge, sha) :: blobs[sha]
  }

  datatype Orphan = Orphan(sha: string, size: nat)

  datatype ReapReport = ReapReport(
    orphans: seq<Orphan>, tooYoung: seq<Orphan>, removed: seq<Orphan>, reclaimedBytes: nat)

  function Names(orphans: seq<Orphan>): (names: seq<string>)
    ensures |names| == |orphans| && forall k :: 0 <= k < |names| ==> names[k] == orphans[k].sha
  {
    seq(|orphans|, k requires 0 <= k < |orphans| => orphans[k].sha)
  }

  function TotalSize(orphans: seq<Orphan>): nat
  {
    if orphans == [] then 0 else TotalSize(orphans[..|orphans| - 1]) + orphans[|orphans| - 1].size
  }

  /** The unreferenced blobs of a walk that are old, or that are not. */
  function Unreferenced(
      blobs: Blobs, rows: seq<Row>, now: int, minAge: int, walk: seq<string>, isOld: bool): seq<Orphan>
  {
    if walk == [] then []
    else
      var front, sha := Unreferenced(blobs, rows, now, minAge, walk[..|walk| - 1], isOld), walk[|walk| - 1];
      if sha in blobs && !IsReferenced(rows, sha) && IsOld(blobs[sha], now, minAge) == isOld then
        front + [Orphan(sha, |blobs[sha].bytes|)]
      else front
  }

  /** The directory walk: each blob once, in whatever order. */
  ghost predicate IsWalk(blobs: Blobs, walk: seq<string>)
  {
    && (forall sha :: sha in walk <==> sha in blobs && IsBlobName(sha))
    && forall j, k :: 0 <= j < k < |walk| ==> walk[j] != walk[k]
  }

  method ReferencedShas(table: Table) returns (referenced: set<string>)
    ensures forall sha :: sha in referenced <==> IsReferenced(table.rows, sha)
  {
    var rows := table.rows;
    referenced := {};
    for n := 0 to |rows|
      invariant forall sha :: sha in referenced <==> IsReferenced(rows[..n], sha)
    {
      var row := rows[n];
      forall sha ensures IsReferenced(rows[..n + 1], sha) <==> IsReferenced(rows[..n], sha) || Refers(row, sha) {
        ReferencedStep(rows, n, sha);
      }
      if IsServiceableInSql(row) && row.sha.Some? && row.sha.value != "" {
        referenced := referenced + {row.sha.value};
      }
    }
    assert rows[..|rows|] == rows;
  }

  lemma ReferencedStep(rows: seq<Row>, n: nat, sha: string)
    requires n < |rows|
    ensures IsReferenced(rows[..n + 1], sha) <==> IsReferenced(rows[..n], sha) || Refers(rows[n], sha)
  {
    hide Refers;
    assert forall i :: 0 <= i < n ==> rows[..n + 1][i] == rows[i] == rows[..n][i];
    assert rows[..n + 1][n] == rows[n];
  }

  lemma UnreferencedStep(blobs: Blobs, rows: seq<Row>, now: int, minAge: int, walk: seq<string>, n: nat, isOld: bool)
    requires n < |walk|
    ensures Unreferenced(blobs, rows, now, minAge, walk[..n + 1], isOld)
         == var front := Unreferenced(blobs, rows, now, minAge, walk[..n], isOld);
            if walk[n] in blobs && !IsReferenced(rows, walk[n]) && IsOld(blobs[walk[n]], now, minAge) == isOld then
              front + [Orphan(walk[n], |blobs[walk[n]].bytes|)]
            else front
  {
    assert walk[..n + 1][..n] == walk[..n];
  }

  /** Sixty-four small hexadecimal digits. */
  predicate IsDigestName(name: string)
  {
    |name| == 64 && forall c :: c in name ==> c in "0123456789abcdef"
  }

  /** A succeeded row that was never given up, and whose path is a real one, carries the digest. */
  predicate IsNeeded(rows: seq<Row>, sha: string)
  {
    exists i :: 0 <= i < |rows|
      && rows[i].succeeded && rows[i].stale == None && !("unrecoverable://" <= rows[i].path) && rows[i].sha == Some(sha)
  }

  lemma NeededIsReferenced(rows: seq<Row>, sha: string)
    ensures sha != "" ==> (IsNeeded(rows, sha) <==> IsReferenced(rows, sha))
  {
    if i :| 0 <= i < |rows| && Refers(rows[i], sha) {
      assert rows[i].sha == Some(sha);
    }
  }

  lemma DigestNames(name: string)
    ensures IsDigestName(name) <==> IsBlobName(name)
  {
    if |name| == 64 {
      assert forall k :: 0 <= k < 64 ==> name[k] in name;
      forall c: char ensures c in "0123456789abcdef" <==> IsHexDigit(c) { HexDigits(c); }
    }
  }

  lemma HexDigits(c: char)
    ensures c in "0123456789abcdef" <==> IsHexDigit(c)
  {
    var digits := "0123456789abcdef";
    if '0' <= c <= '9' {
      assert digits[c as int - '0' as int] == c;
    } else if 'a' <= c <= 'f' {
      assert digits[c as int - 'a' as int + 10] == c;
    }
  }

  /** Of the unreferenced blobs the old ones are listed for removal and the others as too young. */
  lemma SortedByAge(blobs: Blobs, rows: seq<Row>, now: int, minAge: int, walk: seq<string>, sha: string)
    requires IsWalk(blobs, walk)
    ensures sha in Names(Unreferenced(blobs, rows, now, minAge, walk, true)) <==>
      sha in blobs && IsDigestName(sha) && !IsNeeded(rows, sha) && now - blobs[sha].mtime >= minAge
    ensures sha in Names(Unreferenced(blobs, rows, now, minAge, walk, false)) <==>
      sha in blobs && IsDigestName(sha) && !IsNeeded(rows, sha) && now - blobs[sha].mtime < minAge
  {
    ListedExactly(blobs, rows, now, minAge, walk, true, sha);
    ListedExactly(blobs, rows, now, minAge, walk, false, sha);
    NeededIsReferenced(rows, sha);
    DigestNames(sha);
    hide IsNeeded, IsReferenced, IsDigestName, Unreferenced;
  }

  lemma {:induction false} SizesAreKnown(
      blobs: Blobs, rows: seq<Row>, now: int, minAge: int, walk: seq<string>, isOld: bool, k: nat)
    requires k < |Unreferenced(blobs, rows, now, minAge, walk, isOld)|
    ensures var orphan := Unreferenced(blobs, rows, now, minAge, walk, isOld)[k];
      orphan.sha in blobs && orphan.size == |blobs[orphan.sha].bytes|
  {
    hide IsReferenced, IsOld;
    if walk != [] && k < |Unreferenced(blobs, rows, now, minAge, walk[..|walk| - 1], isOld)| {
      SizesAreKnown(blobs, rows, now, minAge, walk[..|walk| - 1], isOld, k);
    }
  }

  method Scan(blobs: Blobs, table: Table, walk: seq<string>, now: int, minAge: int) returns (report: ReapReport)
    requires IsWalk(blobs, walk)
    ensures report == ReapReport(
      Unreferenced(blobs, table.rows, now, minAge, walk, true),
      Unreferenced(blobs, table.rows, now, minAge, walk, false), [], 0)
    ensures forall sha :: sha in Names(report.orphans) <==>
      sha in blobs && IsDigestName(sha) && !IsNeeded(table.rows, sha) && now - blobs[sha].mtime >= minAge
    ensures forall sha :: sha in Names(report.tooYoung) <==>
      sha in blobs && IsDigestName(sha) && !IsNeeded(table.rows, sha) && now - blobs[sha].mtime < minAge
    ensures forall k :: 0 <= k < |report.orphans| ==>
      report.orphans[k].sha in blobs && report.orphans[k].size == |blobs[report.orphans[k].sha].bytes|
  {
    var referenced := ReferencedShas(table);
    report := ReapReport([], [], [], 0);
    hide IsReferenced;
    for n := 0 to |walk|
      invariant report == ReapReport(
        Unreferenced(blobs, table.rows, now, minAge, walk[..n], true),
        Unreferenced(blobs, table.rows, now, minAge, walk[..n], false), [], 0)
    {
      UnreferencedStep(blobs, table.rows, now, minAge, walk, n, true);
      UnreferencedStep(blobs, table.rows, now, minAge, walk, n, false);
      hide Unreferenced;
      var sha := walk[n];
      assert sha in walk;
      if sha in referenced {
        continue;
      }
      var orphan := Orphan(sha, |blobs[sha].bytes|);
      if now - blobs[sha].mtime < minAge {
        report := report.(tooYoung := report.tooYoung + [orphan]);
      } else {
        report := report.(orphans := report.orphans + [orphan]);
      }
    }
    assert walk[..|walk|] == walk;
    forall k | 0 <= k < |report.orphans|
      ensures report.orphans[k].sha in blobs && report.orphans[k].size == |blobs[report.orphans[k].sha].bytes|
    {
      SizesAreKnown(blobs, table.rows, now, minAge, walk, true, k);
    }
    forall sha ensures sha in Names(report.orphans) <==>
      sha in blobs && IsDigestName(sha) && !IsNeeded(table.rows, sha) && now - blobs[sha].mtime >= minAge
    {
      SortedByAge(blobs, table.rows, now, minAge, walk, sha);
    }
    forall sha ensures sha in Names(report.tooYoung) <==>
      sha in blobs && IsDigestName(sha) && !IsNeeded(table.rows, sha) && now - blobs[sha].mtime < minAge
    {
      SortedByAge(blobs, table.rows, now, minAge, walk, sha);
    }
  }

  /** Unlinks the orphans of a report, however old it is; what is gone already is not counted. */
  method Apply(store: Store, report: ReapReport) returns (result: ReapReport)
    requires report.removed == [] && report.reclaimedBytes == 0
    modifies store
    ensures store.blobs == old(store.blobs) - (set sha | sha in Names(report.orphans))
    ensures result.orphans == report.orphans && result.reclaimedBytes == TotalSize(result.removed)
    ensures forall orphan :: orphan in result.removed ==> orphan in report.orphans && orphan.sha in old(store.blobs)
    ensures forall orphan :: orphan in report.orphans && orphan.sha in old(store.blobs) ==>
      exists removed :: removed in result.removed && removed.sha == orphan.sha
  {
    result := report;
    for n := 0 to |report.orphans|
      invariant store.blobs == old(store.blobs) - (set sha | sha in Names(report.orphans[..n]))
      invariant result.orphans == report.orphans && result.reclaimedBytes == TotalSize(result.removed)
      invariant forall orphan :: orphan in result.removed ==>
        orphan in report.orphans && orphan.sha in old(store.blobs)
      invariant forall orphan :: orphan in report.orphans[..n] && orphan.sha in old(store.blobs) ==>
        exists removed :: removed in result.removed && removed.sha == orphan.sha
    {
      var orphan := report.orphans[n];
      assert Names(report.orphans[..n + 1]) == Names(report.orphans[..n]) + [orphan.sha];
      var ok := store.Unlink(orphan.sha);
      if ok {
        assert (result.removed + [orphan])[..|result.removed|] == result.removed;
        result := result.(
          removed := result.removed + [orphan], reclaimedBytes := result.reclaimedBytes + orphan.size);
      }
    }
    assert report.orphans[..|report.orphans|] == report.orphans;
  }

  // ---- What a run does to the store -------------------------------------------------------------

  lemma {:induction false} ListedExactly(
      blobs: Blobs, rows: seq<Row>, now: int, minAge: int, walk: seq<string>, isOld: bool, sha: string)
    ensures sha in Names(Unreferenced(blobs, rows, now, minAge, walk, isOld))
       <==> sha in walk && sha in blobs && !IsReferenced(rows, sha) && IsOld(blobs[sha], now, minAge) == isOld
  {
    hide IsReferenced, IsOld;
    if walk != [] {
      var n := |walk| - 1;
      var front := Unreferenced(blobs, rows, now, minAge, walk[..n], isOld);
      ListedExactly(blobs, rows, now, minAge, walk[..n], isOld, sha);
      var last := Orphan(walk[n], if walk[n] in blobs then |blobs[walk[n]].bytes| else 0);
      assert Names(front + [last]) == Names(front) + [walk[n]];
      assert walk == walk[..n] + [walk[n]];
    }
  }

  /** A scan over the whole store, applied at once, removes the orphans and nothing else. */
  lemma AppliedRun(blobs: Blobs, rows: seq<Row>, now: int, minAge: int, walk: seq<string>)
    requires IsWalk(blobs, walk)
    ensures blobs - (set sha | sha in Names(Unreferenced(blobs, rows, now, minAge, walk, true)))
         == Reaped(blobs, rows, now, minAge)
  {
    hide IsReferenced, IsOld, IsBlobName, Unreferenced;
    var listed := Names(Unreferenced(blobs, rows, now, minAge, walk, true));
    forall sha | sha in blobs ensures sha in listed <==> IsOrphan(blobs, rows, now, minAge, sha) {
      ListedExactly(blobs, rows, now, minAge, walk, true, sha);
    }
    assert blobs - (set sha | sha in listed) == Reaped(blobs, rows, now, minAge);
  }

  /** What a run leaves, in numbers and fields: all but the old blobs that no row needs. */
  lemma ReapedExactly(blobs: Blobs, rows: seq<Row>, now: int, minAge: int, sha: string)
    ensures sha in Reaped(blobs, rows, now, minAge) <==>
      sha in blobs && !(IsDigestName(sha) && !IsNeeded(rows, sha) && now - blobs[sha].mtime >= minAge)
    ensures sha in Reaped(blobs, rows, now, minAge) ==> Reaped(blobs, rows, now, minAge)[sha] == blobs[sha]
  {
    NeededIsReferenced(rows, sha);
    DigestNames(sha);
    assert IsDigestName(sha) ==> sha != "";
    hide IsNeeded, IsReferenced, IsDigestName, IsBlobName;
  }

  /**
   * The script is the reaper of the race: of the blobs it has walked, with the digests it has queried, it
   * condemns exactly the orphans of the scan.
   */
  lemma ScanIsTheReaper(
      blobs: Blobs, rows: seq<Row>, now: int, minAge: int, walk: seq<string>, s: ReaperRace.State,
      referenced: set<string>)
    requires IsWalk(blobs, walk) && s.blobs == map sha | sha in blobs :: blobs[sha].mtime
    requires s.reaper == ReaperRace.Sorting(now, (set sha | sha in walk), referenced, {})
    requires forall sha :: sha in walk ==> (sha in referenced <==> IsNeeded(rows, sha))
    ensures var reaper := ReaperRace.Take(minAge, s, ReaperRace.Sort(set sha | sha in walk)).reaper;
      && reaper.Sorting? && reaper.left == {}
      && forall sha :: sha in reaper.orphans <==> sha in Names(Unreferenced(blobs, rows, now, minAge, walk, true))
  {
    hide IsNeeded, Unreferenced;
    forall sha ensures sha in walk <==> sha in blobs && IsDigestName(sha) { DigestNames(sha); }
    forall sha
      ensures sha in Names(Unreferenced(blobs, rows, now, minAge, walk, true)) <==>
        sha in walk && !IsNeeded(rows, sha) && now - blobs[sha].mtime >= minAge
    {
      SortedByAge(blobs, rows, now, minAge, walk, sha);
    }
  }

  /** Several runs over the same table, each at its own time and with its own age limit. */
  function ReapedAgain(blobs: Blobs, rows: seq<Row>, runs: seq<(int, int)>): Blobs
  {
    if runs == [] then blobs
    else Reaped(ReapedAgain(blobs, rows, runs[..|runs| - 1]), rows, runs[|runs| - 1].0, runs[|runs| - 1].1)
  }

  lemma {:induction false} ReferencedBlobSurvives(blobs: Blobs, rows: seq<Row>, runs: seq<(int, int)>, sha: string)
    requires sha in blobs && IsReferenced(rows, sha)
    ensures sha in ReapedAgain(blobs, rows, runs) && ReapedAgain(blobs, rows, runs)[sha] == blobs[sha]
  {
    hide IsReferenced;
    if runs != [] {
      ReferencedBlobSurvives(blobs, rows, runs[..|runs| - 1], sha);
    }
  }
}
