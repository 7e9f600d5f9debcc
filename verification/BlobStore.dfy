/**
 * scripts/materialize_blob_store.py and scripts/reap_blob_store.py: the content-addressed copies of the
 * exported files. A blob is named by the digest of its content.
 */
module BlobStore {
  import opened Wrappers
  import opened ExportRows

  /** The blobs by name. */
  type Blobs = map<string, File>

  /** Every blob holds what its name says. */
  ghost predicate NamesAreDigests(e: Env, blobs: Blobs)
  {
    forall sha :: sha in blobs ==> e.digest(blobs[sha].bytes) == sha
  }

  // ---- Materializing ----------------------------------------------------------------------------

  datatype Kind = NotSucceeded | Unrecoverable | NoDigest | MissingFile | HashMismatch | Candidate

  function KindOf(e: Env, files: Files, row: Row): Kind
  {
    if !row.succeeded then NotSucceeded
    else if IsStale(row) || IsSentinel(row.path) then Unrecoverable
    else if row.sha == None || row.sha.value == "" then NoDigest
    else if e.Locate(row.path) !in files then MissingFile
    else if e.digest(files[e.Locate(row.path)].bytes) != row.sha.value then HashMismatch
    else Candidate
  }

  /** The row's file is there and matches its digest: such a row gets a blob. */
  predicate IsCandidate(e: Env, files: Files, row: Row)
  {
    KindOf(e, files, row) == Candidate
  }

  function Digest(row: Row): string
  {
    if row.sha.Some? then row.sha.value else ""
  }

  /** The digests of the candidate rows, in the order of the rows. */
  function Wanted(e: Env, files: Files, rows: seq<Row>): seq<string>
  {
    if rows == [] then []
    else
      var front, last := Wanted(e, files, rows[..|rows| - 1]), rows[|rows| - 1];
      if IsCandidate(e, files, last) then front + [Digest(last)] else front
  }

  datatype Outcome = Linked | Copied | AlreadyPresent | SameInode

  predicate IsNew(outcome: Outcome)
  {
    outcome == Linked || outcome == Copied
  }

  datatype Action = Action(id: nat, sha: string, outcome: Outcome)

  datatype Report = Report(
    actions: seq<Action>, mismatches: seq<nat>, skippedMissing: nat, skippedNoDigest: nat, skippedUnrecoverable: nat)

  /** The store after the candidates have been materialized: old blobs stay, and each wanted one is there. */
  ghost predicate IsPopulated(e: Env, before: Blobs, after: Blobs, wanted: seq<string>)
  {
    && (forall sha :: sha in before ==> sha in after && after[sha] == before[sha])
    && (forall sha :: sha in after <==> sha in before || sha in wanted)
    && (forall sha :: sha in after && sha !in before ==> e.digest(after[sha].bytes) == sha)
  }

  /** One action for each candidate; it makes a blob exactly when none of that name was there before it. */
  ghost predicate AreActions(before: Blobs, wanted: seq<string>, actions: seq<Action>)
  {
    && |actions| == |wanted|
    && forall k :: 0 <= k < |actions| ==>
         actions[k].sha == wanted[k]
         && (IsNew(actions[k].outcome) <==> wanted[k] !in before && wanted[k] !in wanted[..k])
  }

  lemma WantedStep(e: Env, files: Files, rows: seq<Row>, n: nat)
    requires n < |rows|
    ensures Wanted(e, files, rows[..n + 1])
         == if IsCandidate(e, files, rows[n]) then Wanted(e, files, rows[..n]) + [Digest(rows[n])]
            else Wanted(e, files, rows[..n])
  {
    assert rows[..n + 1][..n] == rows[..n];
  }

  lemma OneMoreAction(before: Blobs, wanted: seq<string>, actions: seq<Action>, last: Action)
    requires AreActions(before, wanted, actions)
    requires IsNew(last.outcome) <==> last.sha !in before && last.sha !in wanted
    ensures AreActions(before, wanted + [last.sha], actions + [last])
  {
    var wanted', actions' := wanted + [last.sha], actions + [last];
    assert wanted'[..|wanted|] == wanted;
    forall k | 0 <= k < |actions'|
      ensures actions'[k].sha == wanted'[k]
      ensures IsNew(actions'[k].outcome) <==> wanted'[k] !in before && wanted'[k] !in wanted'[..k]
    {
      if k < |actions| {
        assert wanted'[..k] == wanted[..k];
      }
    }
  }

  lemma OneMoreBlob(e: Env, before: Blobs, after: Blobs, wanted: seq<string>, sha: string, file: File)
    requires IsPopulated(e, before, after, wanted)
    requires sha !in after ==> e.digest(file.bytes) == sha
    ensures IsPopulated(e, before, if sha in after then after else after[sha := file], wanted + [sha])
  {}

  lemma CandidateMatches(e: Env, files: Files, row: Row)
    requires IsCandidate(e, files, row)
    ensures IsServiceable(row) && row.sha == Some(Digest(row)) && Digest(row) != ""
    ensures e.Locate(row.path) in files && e.digest(files[e.Locate(row.path)].bytes) == Digest(row)
  {}

  /** `source` has its blob: the one that was there, or one with its content. */
  ghost predicate IsPlaced(was: Blobs, blobs: Blobs, source: File, sha: string)
  {
    if sha in was then blobs == was
    else sha in blobs && blobs == was[sha := blobs[sha]] && blobs[sha].bytes == source.bytes
  }

  class Store {
    var blobs: Blobs
    var nextInode: nat

    constructor ()
      ensures blobs == map[]
    {
      blobs, nextInode := map[], 0;
    }

    /** Puts `source` under the name `sha`, unless that name is taken: by a hard link where the file system
        allows one (the blob is then the file itself, its age included), else by a copy. */
    method Materialize(source: File, sha: string, canLink: bool, now: int) returns (outcome: Outcome)
      modifies this
      ensures IsNew(outcome) <==> sha !in old(blobs)
      ensures sha in old(blobs) ==> (outcome == SameInode <==> old(blobs)[sha].inode == source.inode)
      ensures IsPlaced(old(blobs), blobs, source, sha)
      ensures sha !in old(blobs) && canLink ==> outcome == Linked && blobs[sha] == source
      ensures sha !in old(blobs) && !canLink ==> outcome == Copied && blobs[sha].mtime == now
    {
      if sha in blobs {
        return if blobs[sha].inode == source.inode then SameInode else AlreadyPresent;
      }
      if canLink {
        blobs := blobs[sha := source];
        return Linked;
      }
      blobs := blobs[sha := File(nextInode, source.bytes, now)];
      nextInode := nextInode + 1;
      return Copied;
    }

    /** False where the original skips an `OSError`: somebody else has removed the blob. */
    method Unlink(sha: string) returns (ok: bool)
      modifies this
      ensures blobs == old(blobs) - {sha} && (ok <==> sha in old(blobs))
    {
      ok := sha in blobs;
      blobs := blobs - {sha};
    }

    method MaterializeAll(e: Env, table: Table, files: Files, canLink: string -> bool, now: int)
      returns (report: Report)
      modifies this
      ensures var wanted := Wanted(e, files, table.rows);
        IsPopulated(e, old(blobs), blobs, wanted) && AreActions(old(blobs), wanted, report.actions)
      ensures Accounts(e, files, table.rows, report)
    {
      var rows := table.rows;
      report := Report([], [], 0, 0, 0);
      ghost var before := blobs;
      hide *;
      StartMaterializing(e, files, rows, before);
      for n := 0 to |rows|
        invariant Materializing(e, files, rows, n, before, blobs, report)
      {
        var row := rows[n];
        SkipStep(e, files, rows, n, before, blobs, report);
        if !row.succeeded {
          continue;
        }
        if IsStale(row) || IsSentinel(row.path) {
          report := report.(skippedUnrecoverable := report.skippedUnrecoverable + 1);
          continue;
        }
        if row.sha == None || row.sha.value == "" {
          report := report.(skippedNoDigest := report.skippedNoDigest + 1);
          continue;
        }
        var location := e.Locate(row.path);
        if location !in files {
          report := report.(skippedMissing := report.skippedMissing + 1);
          continue;
        }
        var source := files[location];
        if e.digest(source.bytes) != row.sha.value {
          report := report.(mismatches := report.mismatches + [n]);
          continue;
        }
        ghost var was := blobs;
        var outcome := Materialize(source, row.sha.value, canLink(location), now);
        CandidateStep(e, files, rows, n, before, was, report, source, outcome, blobs);
        report := report.(actions := report.actions + [Action(n, row.sha.value, outcome)]);
      }
      FinishMaterializing(e, files, rows, before, blobs, report);
    }
  }

  /** Every row is counted in the report once, by its kind. */
  ghost predicate Accounts(e: Env, files: Files, rows: seq<Row>, report: Report)
  {
    && |report.mismatches| == Count(rows, row => KindOf(e, files, row) == HashMismatch)
    && report.skippedMissing == Count(rows, row => KindOf(e, files, row) == MissingFile)
    && report.skippedNoDigest == Count(rows, row => KindOf(e, files, row) == NoDigest)
    && report.skippedUnrecoverable == Count(rows, row => KindOf(e, files, row) == Unrecoverable)
    && |report.actions| == Count(rows, row => KindOf(e, files, row) == Candidate)
  }

  lemma AccountsStep(e: Env, files: Files, rows: seq<Row>, n: nat, report: Report, action: Action)
    requires n < |rows| && Accounts(e, files, rows[..n], report)
    ensures Accounts(e, files, rows[..n + 1],
      match KindOf(e, files, rows[n])
      case NotSucceeded => report
      case Unrecoverable => report.(skippedUnrecoverable := report.skippedUnrecoverable + 1)
      case NoDigest => report.(skippedNoDigest := report.skippedNoDigest + 1)
      case MissingFile => report.(skippedMissing := report.skippedMissing + 1)
      case HashMismatch => report.(mismatches := report.mismatches + [n])
      case Candidate => report.(actions := report.actions + [action]))
  {
    hide KindOf, Count;
    CountStep(rows, row => KindOf(e, files, row) == HashMismatch, n);
    CountStep(rows, row => KindOf(e, files, row) == MissingFile, n);
    CountStep(rows, row => KindOf(e, files, row) == NoDigest, n);
    CountStep(rows, row => KindOf(e, files, row) == Unrecoverable, n);
    CountStep(rows, row => KindOf(e, files, row) == Candidate, n);
  }

  /** The state of the scan after `n` rows. */
  ghost predicate Materializing(
      e: Env, files: Files, rows: seq<Row>, n: nat, before: Blobs, blobs: Blobs, report: Report)
  {
    && n <= |rows| && Accounts(e, files, rows[..n], report)
    && IsPopulated(e, before, blobs, Wanted(e, files, rows[..n]))
    && AreActions(before, Wanted(e, files, rows[..n]), report.actions)
  }

  lemma StartMaterializing(e: Env, files: Files, rows: seq<Row>, before: Blobs)
    ensures Materializing(e, files, rows, 0, before, before, Report([], [], 0, 0, 0))
  {}

  lemma FinishMaterializing(e: Env, files: Files, rows: seq<Row>, before: Blobs, blobs: Blobs, report: Report)
    requires Materializing(e, files, rows, |rows|, before, blobs, report)
    ensures Accounts(e, files, rows, report) && IsPopulated(e, before, blobs, Wanted(e, files, rows))
    ensures AreActions(before, Wanted(e, files, rows), report.actions)
  {
    hide Accounts, IsPopulated, AreActions, Wanted;
    assert rows[..|rows|] == rows;
  }

  /** A row that is not materialized, by the tests the scan makes. */
  lemma SkipStep(e: Env, files: Files, rows: seq<Row>, n: nat, before: Blobs, blobs: Blobs, report: Report)
    requires n < |rows| && Materializing(e, files, rows, n, before, blobs, report)
    ensures var row := rows[n];
      if !row.succeeded then Materializing(e, files, rows, n + 1, before, blobs, report)
      else if IsStale(row) || IsSentinel(row.path) then
        Materializing(e, files, rows, n + 1, before, blobs,
          report.(skippedUnrecoverable := report.skippedUnrecoverable + 1))
      else if row.sha == None || row.sha.value == "" then
        Materializing(e, files, rows, n + 1, before, blobs, report.(skippedNoDigest := report.skippedNoDigest + 1))
      else if e.Locate(row.path) !in files then
        Materializing(e, files, rows, n + 1, before, blobs, report.(skippedMissing := report.skippedMissing + 1))
      else if e.digest(files[e.Locate(row.path)].bytes) != row.sha.value then
        Materializing(e, files, rows, n + 1, before, blobs, report.(mismatches := report.mismatches + [n]))
      else IsCandidate(e, files, row) && Digest(row) == row.sha.value
  {
    AccountsStep(e, files, rows, n, report, Action(0, "", Linked));
    WantedStep(e, files, rows, n);
    hide Accounts, IsPopulated, AreActions, Wanted, IsStale, IsSentinel, Env.Locate;
  }

  lemma CandidateStep(
      e: Env, files: Files, rows: seq<Row>, n: nat, before: Blobs, was: Blobs, report: Report, source: File,
      outcome: Outcome, blobs: Blobs)
    requires n < |rows| && Materializing(e, files, rows, n, before, was, report) && IsCandidate(e, files, rows[n])
    requires e.digest(source.bytes) == Digest(rows[n]) && IsPlaced(was, blobs, source, Digest(rows[n]))
    requires IsNew(outcome) <==> Digest(rows[n]) !in was
    ensures Materializing(e, files, rows, n + 1, before, blobs,
      report.(actions := report.actions + [Action(n, Digest(rows[n]), outcome)]))
  {
    var sha, wanted := Digest(rows[n]), Wanted(e, files, rows[..n]);
    var action := Action(n, sha, outcome);
    AccountsStep(e, files, rows, n, report, action);
    WantedStep(e, files, rows, n);
    assert sha in was <==> sha in before || sha in wanted;
    OneMoreAction(before, wanted, report.actions, action);
    OneMoreBlob(e, before, was, wanted, sha, if sha in was then was[sha] else blobs[sha]);
    hide Accounts, IsPopulated, AreActions, Wanted, Digest;
  }

  // ---- Repeated runs ----------------------------------------------------------------------------

  /** A digest is wanted exactly when some candidate row carries it. */
  lemma {:induction false} WantedExactly(e: Env, files: Files, rows: seq<Row>, sha: string)
    ensures sha in Wanted(e, files, rows)
       <==> exists i :: 0 <= i < |rows| && IsCandidate(e, files, rows[i]) && Digest(rows[i]) == sha
  {
    hide IsCandidate, Digest;
    if rows != [] {
      var n := |rows| - 1;
      WantedExactly(e, files, rows[..n], sha);
      assert forall i :: 0 <= i < n ==> rows[..n][i] == rows[i];
      if IsCandidate(e, files, rows[n]) && Digest(rows[n]) == sha {
        assert 0 <= n < |rows|;
      }
    }
  }

  /** In the fields of the rows: a digest is wanted exactly when a served row carries it and its file has it. */
  lemma WantedInFields(e: Env, files: Files, rows: seq<Row>, sha: string)
    ensures sha in Wanted(e, files, rows) <==> exists i ::
      && 0 <= i < |rows| && IsServed(rows[i]) && rows[i].sha == Some(sha) && sha != ""
      && Place(e, rows[i]) in files && e.digest(files[Place(e, rows[i])].bytes) == sha
  {
    WantedExactly(e, files, rows, sha);
    hide Wanted;
    forall i | 0 <= i < |rows|
      ensures IsCandidate(e, files, rows[i]) && Digest(rows[i]) == sha <==>
        (IsServed(rows[i]) && rows[i].sha == Some(sha) && sha != ""
         && Place(e, rows[i]) in files && e.digest(files[Place(e, rows[i])].bytes) == sha)
    {}
  }

  /** The kinds of the report in the fields of the row. */
  lemma KindInFields(e: Env, files: Files, row: Row)
    ensures KindOf(e, files, row) ==
      if !row.succeeded then NotSucceeded
      else if !IsServed(row) then Unrecoverable
      else if row.sha == None || row.sha == Some("") then NoDigest
      else if Place(e, row) !in files then MissingFile
      else if Some(e.digest(files[Place(e, row)].bytes)) != row.sha then HashMismatch
      else Candidate
  {}

  /** Over unchanged rows and files a second run makes no blob: it finds every one it wants. */
  lemma SecondRunMakesNothing(
      e: Env, b0: Blobs, b1: Blobs, b2: Blobs, wanted: seq<string>, actions: seq<Action>)
    requires IsPopulated(e, b0, b1, wanted)
    requires IsPopulated(e, b1, b2, wanted) && AreActions(b1, wanted, actions)
    ensures b2 == b1 && forall k :: 0 <= k < |actions| ==> !IsNew(actions[k].outcome)
  {
    hide IsNew;
    forall k | 0 <= k < |actions| ensures !IsNew(actions[k].outcome) {
      assert wanted[k] in wanted;
    }
  }
}
