/** The maintenance scripts together: what holds over every sequence of their steps. */
module ExportLifecycle {
  import opened Wrappers
  import opened ExportRows
  import opened BlobStore
  import ReapBlobs
  import ExportsMigration
  import VerifyExports
  import BackfillExports
  import HealExports

  /** What a process has hashed and not yet linked: where the file was, and what its digest was then. */
  datatype Hashed = Hashed(location: string, sha: string)

  datatype World = World(rows: seq<Row>, files: Files, blobs: Blobs, hashed: map<nat, Hashed>)

  /**
   * A step of a script, of an exporter, or of whoever changes files. `Write` stands for the updates of any
   * report, made from any earlier state. A process `x`, materializer or exporter, first hashes a file and
   * then links what it finds at the same place, or copies it, unless a blob of that name is there by then.
   * `Unlink` removes any blobs.
   */
  datatype Step =
    | Insert(row: Row)
    | Write(plans: seq<Plan>, now: int)
    | Hash(x: nat, location: string)
    | Link(x: nat, copy: Option<File>)
    | GiveUp(x: nat)
    | Unlink(doomed: set<string>)
    | Replace(location: string, file: File)
    | Delete(location: string)

  /** Reasons and digests that scripts write are not empty. */
  predicate IsSound(plan: Plan)
  {
    match plan
    case Mark(_, reason) => reason != ""
    case _ => true
  }

  ghost predicate AreSound(plans: seq<Plan>)
  {
    forall k :: 0 <= k < |plans| ==> IsSound(plans[k])
  }

  ghost predicate Enabled(w: World, step: Step)
  {
    match step
    case Insert(row) => row.stale == None
    case Write(plans, _) => AreSound(plans)
    case Hash(x, location) => x !in w.hashed && location in w.files
    case Link(x, copy) =>
      && x in w.hashed
      && (copy.Some? && w.hashed[x].location in w.files ==>
           copy.value.bytes == w.files[w.hashed[x].location].bytes)
    case GiveUp(x) => x in w.hashed
    case _ => true
  }

  function Take(e: Env, w: World, step: Step): World
  {
    match step
    case Insert(row) => w.(rows := w.rows + [row])
    case Write(plans, now) => w.(rows := Executed(w.rows, plans, now))
    case Hash(x, location) =>
      if location !in w.files then w
      else w.(hashed := w.hashed[x := Hashed(location, e.digest(w.files[location].bytes))])
    case Link(x, copy) => Linked(w, x, copy)
    case GiveUp(x) => w.(hashed := w.hashed - {x})
    case Unlink(doomed) => w.(blobs := w.blobs - doomed)
    case Replace(location, file) => w.(files := w.files[location := file])
    case Delete(location) => w.(files := w.files - {location})
  }

  /** The process links the file that is there now; a file that is gone cannot be linked. */
  function Linked(w: World, x: nat, copy: Option<File>): World
  {
    if x !in w.hashed then w
    else
      var sha, location := w.hashed[x].sha, w.hashed[x].location;
      var rest := w.hashed - {x};
      if sha in w.blobs || location !in w.files then w.(hashed := rest)
      else w.(hashed := rest, blobs := w.blobs[sha := if copy.Some? then copy.value else w.files[location]])
  }

  function After(e: Env, w: World, steps: seq<Step>): World
  {
    if steps == [] then w else Take(e, After(e, w, steps[..|steps| - 1]), steps[|steps| - 1])
  }

  /** Each step is possible when its turn comes. */
  ghost predicate Runs(e: Env, w: World, steps: seq<Step>)
  {
    steps == [] || (Runs(e, w, steps[..|steps| - 1])
                    && Enabled(After(e, w, steps[..|steps| - 1]), steps[|steps| - 1]))
  }

  // ---- The reports the scripts make are sound ---------------------------------------------------

  ghost predicate PicksSoundly(pick: Pick)
  {
    forall id, row :: pick(id, row).Some? ==> IsSound(pick(id, row).value)
  }

  lemma {:induction false} CollectedAreSound(rows: seq<Row>, pick: Pick)
    requires PicksSoundly(pick)
    ensures AreSound(Collect(rows, pick))
  {
    if rows != [] {
      CollectedAreSound(rows[..|rows| - 1], pick);
    }
  }

  lemma BothAreSound(a: seq<Plan>, b: seq<Plan>)
    requires AreSound(a) && AreSound(b)
    ensures AreSound(a + b)
  {}

  /** The reports of the verifier, the backfill and the healer are steps of this machine, at any later time. */
  lemma VerifyReportIsSound(e: Env, files: Files, cutoff: int, hashNull: bool, rows: seq<Row>)
    ensures AreSound(VerifyExports.ReportOf(e, files, cutoff, hashNull, rows).Plans())
  {
    var r := VerifyExports.ReportOf(e, files, cutoff, hashNull, rows);
    CollectedAreSound(rows, VerifyExports.MatchPick(e, files, cutoff, hashNull));
    CollectedAreSound(rows,
      VerifyExports.MarkPick(e, files, cutoff, hashNull, VerifyExports.Mismatch, VerifyExports.DRIFT));
    CollectedAreSound(rows,
      VerifyExports.MarkPick(e, files, cutoff, hashNull, VerifyExports.Missing, VerifyExports.MISSING));
    hide Collect, Count, AreSound, PicksSoundly;
    BothAreSound(r.matched, r.mismatched);
    BothAreSound(r.matched + r.mismatched, r.missing);
  }

  lemma BackfillReportIsSound(e: Env, files: Files, recompute: bool, rows: seq<Row>)
    ensures AreSound(BackfillExports.ReportOf(e, files, recompute, rows).Plans())
  {
    var r := BackfillExports.ReportOf(e, files, recompute, rows);
    CollectedAreSound(rows, BackfillExports.StampPick(e, files, recompute));
    CollectedAreSound(rows, BackfillExports.MissingPick(e, files, recompute));
    hide Collect, Count, AreSound, PicksSoundly;
    BothAreSound(r.computed, r.stale);
  }

  lemma HealReportIsSound(e: Env, files: Files, artifacts: string, rows: seq<Row>)
    ensures AreSound(HealExports.ReportOf(e, files, artifacts, rows).fixable)
  {
    CollectedAreSound(rows, HealExports.FixPick(e, files, artifacts));
    hide Collect, Count, AreSound, PicksSoundly;
  }

  // ---- A stale row stays stale ------------------------------------------------------------------

  /** `rows'` comes after `rows`: no row is lost, and a reason once given is neither cleared nor changed. */
  ghost predicate KeepsReasons(rows: seq<Row>, rows': seq<Row>)
  {
    |rows| <= |rows'| && forall i :: 0 <= i < |rows| && rows[i].stale.Some? ==> rows'[i].stale == rows[i].stale
  }

  lemma {:induction false} ExecutedKeepsReasons(rows: seq<Row>, plans: seq<Plan>, now: int)
    requires AreSound(plans)
    ensures KeepsReasons(rows, Executed(rows, plans, now))
    ensures AllWellStamped(rows) ==> AllWellStamped(Executed(rows, plans, now))
  {
    if plans != [] {
      ExecutedKeepsReasons(rows, plans[..|plans| - 1], now);
      assert IsSound(plans[|plans| - 1]);
    }
  }

  /** Over every sequence of steps reasons stick, and none is empty. */
  lemma {:induction false} ReasonsStickOnEveryRun(e: Env, w: World, steps: seq<Step>)
    requires Runs(e, w, steps)
    ensures KeepsReasons(w.rows, After(e, w, steps).rows)
    ensures AllWellStamped(w.rows) ==> AllWellStamped(After(e, w, steps).rows)
  {
    if steps != [] {
      var front, step := steps[..|steps| - 1], steps[|steps| - 1];
      ReasonsStickOnEveryRun(e, w, front);
      if step.Write? {
        ExecutedKeepsReasons(After(e, w, front).rows, step.plans, step.now);
      }
      hide Executed, WellStamped, IsSound, AreSound, Linked;
    }
  }

  /** The two ways of asking whether a row is stale agree exactly on rows without an empty reason. */
  lemma TestsAgree(row: Row)
    requires row.succeeded && !IsSentinel(row.path)
    ensures (IsServiceable(row) <==> IsServiceableInSql(row)) <==> WellStamped(row)
  {}

  /** From the migration on, in every reachable state, both tests give the same answer for every row. */
  lemma TestsAgreeOnEveryRun(
      e: Env, sqlite: bool, legacy: seq<ExportsMigration.LegacyRow>, w: World, steps: seq<Step>, i: nat)
    requires |w.rows| == |legacy|
    requires forall k :: 0 <= k < |legacy| ==> w.rows[k] == ExportsMigration.Migrated(sqlite, legacy[k])
    requires Runs(e, w, steps) && i < |After(e, w, steps).rows|
    ensures IsServiceable(After(e, w, steps).rows[i]) <==> IsServiceableInSql(After(e, w, steps).rows[i])
  {
    forall k | 0 <= k < |w.rows| ensures WellStamped(w.rows[k]) {
      ExportsMigration.MigratedIsWellStamped(sqlite, legacy[k]);
    }
    ReasonsStickOnEveryRun(e, w, steps);
    assert WellStamped(After(e, w, steps).rows[i]);
    hide After, IsSentinel;
  }

  // ---- What the blobs hold ----------------------------------------------------------------------

  /** What has happened at a place since a process hashed the file there. */
  datatype Since = Untouched | ReplacedBy(file: File) | Gone

  function SinceHash(steps: seq<Step>, x: nat, location: string): Since
  {
    if steps == [] then Untouched
    else
      var before := SinceHash(steps[..|steps| - 1], x, location);
      match steps[|steps| - 1]
      case Hash(y, _) => if y == x then Untouched else before
      case Replace(l, file) => if l == location then ReplacedBy(file) else before
      case Delete(l) => if l == location then Gone else before
      case _ => before
  }

  /** What a pending process goes by is what was there when it hashed, up to what has happened since. */
  ghost predicate IsAccounted(e: Env, w: World, steps: seq<Step>, x: nat)
  {
    x in w.hashed ==>
      var h := w.hashed[x];
      match SinceHash(steps, x, h.location)
      case Untouched => h.location in w.files && e.digest(w.files[h.location].bytes) == h.sha
      case ReplacedBy(file) => h.location in w.files && w.files[h.location] == file
      case Gone => h.location !in w.files
  }

  lemma {:induction false} PendingIsAccounted(e: Env, w: World, steps: seq<Step>, x: nat)
    requires w.hashed == map[] && Runs(e, w, steps)
    ensures IsAccounted(e, After(e, w, steps), steps, x)
  {
    if steps != [] {
      PendingIsAccounted(e, w, steps[..|steps| - 1], x);
      hide IsAccounted, Take, Enabled;
      StepIsAccounted(e, After(e, w, steps[..|steps| - 1]), steps, x);
    }
  }

  lemma StepIsAccounted(e: Env, w: World, steps: seq<Step>, x: nat)
    requires steps != [] && Enabled(w, steps[|steps| - 1]) && IsAccounted(e, w, steps[..|steps| - 1], x)
    ensures IsAccounted(e, Take(e, w, steps[|steps| - 1]), steps, x)
  {
    hide Executed, AreSound;
  }

  /**
   * The last step of the run spoils a blob: a process makes one after somebody has put another file, with
   * another digest, where it had hashed.
   */
  predicate Spoils(e: Env, w: World, steps: seq<Step>, x: nat)
  {
    && x in w.hashed && w.hashed[x].sha !in w.blobs
    && var since := SinceHash(steps, x, w.hashed[x].location);
       since.ReplacedBy? && e.digest(since.file.bytes) != w.hashed[x].sha
  }

  /** The blobs that a run has spoiled and not removed. */
  function Spoiled(e: Env, w: World, steps: seq<Step>): set<string>
  {
    if steps == [] then {}
    else
      var front := steps[..|steps| - 1];
      var before := Spoiled(e, w, front);
      match steps[|steps| - 1]
      case Link(x, _) =>
        if Spoils(e, After(e, w, front), front, x) then before + {After(e, w, front).hashed[x].sha} else before
      case Unlink(doomed) => before - doomed
      case _ => before
  }

  /** Exactly the spoiled blobs are in the store under a name that is not their digest. */
  ghost predicate WrongOnes(e: Env, blobs: Blobs, spoiled: set<string>)
  {
    spoiled <= blobs.Keys && forall sha :: sha in blobs ==> (e.digest(blobs[sha].bytes) != sha <==> sha in spoiled)
  }

  lemma LinkSpoilsOrNot(e: Env, w: World, steps: seq<Step>, x: nat, copy: Option<File>, spoiled: set<string>)
    requires WrongOnes(e, w.blobs, spoiled) && IsAccounted(e, w, steps, x) && Enabled(w, Link(x, copy))
    ensures WrongOnes(e, Take(e, w, Link(x, copy)).blobs,
              if Spoils(e, w, steps, x) then spoiled + {w.hashed[x].sha} else spoiled)
  {
    hide SinceHash;
  }

  lemma {:induction false} SpoiledExactly(e: Env, w: World, steps: seq<Step>)
    requires NamesAreDigests(e, w.blobs) && w.hashed == map[] && Runs(e, w, steps)
    ensures WrongOnes(e, After(e, w, steps).blobs, Spoiled(e, w, steps))
  {
    if steps != [] {
      var front, step := steps[..|steps| - 1], steps[|steps| - 1];
      SpoiledExactly(e, w, front);
      if step.Link? {
        PendingIsAccounted(e, w, front, step.x);
        hide Runs, IsAccounted, Spoils, WrongOnes, Enabled;
        LinkSpoilsOrNot(e, After(e, w, front), front, step.x, step.copy, Spoiled(e, w, front));
      }
    }
  }

  /**
   * From a good store, over every run of processes that hash and link while files are replaced and deleted:
   * each blob holds what its name says if and only if no blob stands that was made from a file put in the
   * place of the hashed one, with another digest, in between.
   */
  lemma NamesStayDigestsExactly(e: Env, w: World, steps: seq<Step>)
    requires NamesAreDigests(e, w.blobs) && w.hashed == map[] && Runs(e, w, steps)
    ensures NamesAreDigests(e, After(e, w, steps).blobs) <==> Spoiled(e, w, steps) == {}
  {
    SpoiledExactly(e, w, steps);
  }

  /** Nobody puts another file where one has been hashed and is yet to be linked. */
  ghost predicate LeavesHashedAlone(e: Env, w: World, steps: seq<Step>)
  {
    steps != [] ==>
      && LeavesHashedAlone(e, w, steps[..|steps| - 1])
      && (steps[|steps| - 1].Replace? ==>
            var before := After(e, w, steps[..|steps| - 1]);
            forall x :: x in before.hashed ==> before.hashed[x].location != steps[|steps| - 1].location)
  }

  lemma {:induction false} UntouchedIfLeftAlone(e: Env, w: World, steps: seq<Step>, x: nat)
    requires w.hashed == map[] && Runs(e, w, steps) && LeavesHashedAlone(e, w, steps)
    ensures x in After(e, w, steps).hashed ==>
      !SinceHash(steps, x, After(e, w, steps).hashed[x].location).ReplacedBy?
  {
    if steps != [] {
      UntouchedIfLeftAlone(e, w, steps[..|steps| - 1], x);
      hide Executed, AreSound;
    }
  }

  lemma {:induction false} NothingIsSpoiled(e: Env, w: World, steps: seq<Step>)
    requires w.hashed == map[] && Runs(e, w, steps) && LeavesHashedAlone(e, w, steps)
    ensures Spoiled(e, w, steps) == {}
  {
    if steps != [] {
      NothingIsSpoiled(e, w, steps[..|steps| - 1]);
      if steps[|steps| - 1].Link? {
        UntouchedIfLeftAlone(e, w, steps[..|steps| - 1], steps[|steps| - 1].x);
      }
      hide After, Runs, SinceHash;
    }
  }

  /** So runs of the materializer, mixed with any other changes of files, keep a good store good. */
  lemma UndisturbedRunsKeepNames(e: Env, w: World, steps: seq<Step>)
    requires NamesAreDigests(e, w.blobs) && w.hashed == map[] && Runs(e, w, steps) && LeavesHashedAlone(e, w, steps)
    ensures NamesAreDigests(e, After(e, w, steps).blobs)
  {
    NothingIsSpoiled(e, w, steps);
    NamesStayDigestsExactly(e, w, steps);
  }

  /** And three steps spoil one: hash, replace, link. */
  lemma ReplacementSpoils(e: Env, w: World, location: string, file: File)
    requires NamesAreDigests(e, w.blobs) && w.hashed == map[] && location in w.files
    requires e.digest(w.files[location].bytes) !in w.blobs
    requires e.digest(file.bytes) != e.digest(w.files[location].bytes)
    ensures var steps := [Hash(0, location), Replace(location, file), Link(0, None)];
      Runs(e, w, steps) && !NamesAreDigests(e, After(e, w, steps).blobs)
  {
    var sha := e.digest(w.files[location].bytes);
    var w1 := Take(e, w, Hash(0, location));
    var w2 := Take(e, w1, Replace(location, file));
    var w3 := Take(e, w2, Link(0, None));
    OneStepMore(e, w, [], Hash(0, location));
    OneStepMore(e, w, [Hash(0, location)], Replace(location, file));
    OneStepMore(e, w, [Hash(0, location), Replace(location, file)], Link(0, None));
    assert [] + [Hash(0, location)] == [Hash(0, location)];
    assert [Hash(0, location)] + [Replace(location, file)] == [Hash(0, location), Replace(location, file)];
    assert [Hash(0, location), Replace(location, file)] + [Link(0, None)]
        == [Hash(0, location), Replace(location, file), Link(0, None)];
    assert sha in w3.blobs && w3.blobs[sha] == file;
  }

  lemma OneStepMore(e: Env, w: World, steps: seq<Step>, step: Step)
    ensures After(e, w, steps + [step]) == Take(e, After(e, w, steps), step)
    ensures Runs(e, w, steps + [step]) <==> Runs(e, w, steps) && Enabled(After(e, w, steps), step)
  {
    assert (steps + [step])[..|steps|] == steps;
  }

  // ---- Blobs that are needed stay ---------------------------------------------------------------

  lemma CandidateRefers(e: Env, files: Files, row: Row)
    requires IsCandidate(e, files, row) && WellStamped(row)
    ensures ReapBlobs.Refers(row, Digest(row))
  {
    CandidateMatches(e, files, row);
  }

  /**
   * A run of the materializer leaves a blob with the right content for every row whose file matches its
   * digest, and no number of reaping runs over the same table takes it away.
   */
  lemma MaterializedBlobsSurviveReaping(
      e: Env, files: Files, rows: seq<Row>, before: Blobs, after: Blobs, runs: seq<(int, int)>, i: nat)
    requires IsPopulated(e, before, after, Wanted(e, files, rows)) && NamesAreDigests(e, before)
    requires i < |rows| && IsCandidate(e, files, rows[i]) && WellStamped(rows[i])
    ensures var left := ReapBlobs.ReapedAgain(after, rows, runs);
      Digest(rows[i]) in left && e.digest(left[Digest(rows[i])].bytes) == Digest(rows[i])
  {
    hide IsCandidate, Digest;
    var sha := Digest(rows[i]);
    WantedExactly(e, files, rows, sha);
    CandidateRefers(e, files, rows[i]);
    assert ReapBlobs.IsReferenced(rows, sha);
    ReapBlobs.ReferencedBlobSurvives(after, rows, runs, sha);
  }

  /** Why the empty reason matters: a row that carries one is served by the scripts, and yet its blob is reaped. */
  lemma EmptyReasonLosesItsBlob(e: Env, files: Files, row: Row, blobs: Blobs, now: int, minAge: int)
    requires IsCandidate(e, files, row) && !WellStamped(row)
    requires Digest(row) in blobs && ReapBlobs.IsBlobName(Digest(row))
    requires ReapBlobs.IsOld(blobs[Digest(row)], now, minAge)
    ensures IsServiceable(row) && Digest(row) !in ReapBlobs.Reaped(blobs, [row], now, minAge)
  {
    CandidateMatches(e, files, row);
  }
}
