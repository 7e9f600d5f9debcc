/**
 * The reaper against exporters that are still at work: scripts/reap_blob_store.py and
 * src/book_agent/infra/storage/blobs.py, step by step. An exporter writes its file, links it into the
 * store under its digest, and commits the row; a blob that is there already is adopted. The materializer
 * gives committed rows their blobs. The reaper looks at the store, then at the table, then at the age of
 * each blob, and unlinks what it has condemned.
 */
module ReaperRace {

  /** An exporter that has not committed: `at` is when its file was written, `own` that it made the blob. */
  datatype Exporter = Written(sha: string, at: int) | Linked(sha: string, at: int, own: bool)

  datatype Reaper =
    | Resting
    | Begun(now: int)
    | Walked(now: int, left: set<string>)
    | Sorting(now: int, left: set<string>, referenced: set<string>, orphans: set<string>)
    | Unlinking(now: int, orphans: set<string>)

  /** `blobs` gives the mtime of each blob, `rows` the digest of each serviceable row; `backed` names the rows
      whose blob was there when they were committed, or has been materialized since. */
  datatype State = State(
    clock: int, blobs: map<string, int>, exporters: map<nat, Exporter>, rows: map<nat, string>, backed: set<nat>,
    reaper: Reaper)

  datatype Step =
    | Tick(to: int)
    | Write(x: nat, sha: string)
    | Link(x: nat, copied: bool)
    | Commit(x: nat)
    | CommitBare(x: nat)
    | Abort(x: nat)
    | Retire(x: nat)
    | Materialize(x: nat, mtime: int)
    | Begin
    | Walk
    | Query
    | Sort(some: set<string>)
    | Apply
    | Unlink(sha: string)
    | Rest

  predicate IsReferenced(s: State, sha: string)
  {
    exists x :: x in s.rows && s.rows[x] == sha
  }

  predicate Enabled(s: State, step: Step)
  {
    match step
    case Tick(to) => s.clock <= to
    case Write(x, _) => x !in s.exporters && x !in s.rows
    case Link(x, _) => x in s.exporters && s.exporters[x].Written?
    case Commit(x) => x in s.exporters && s.exporters[x].Linked?
    // Linking fails only where no blob stands; the row is stamped all the same.
    case CommitBare(x) => x in s.exporters && s.exporters[x].Written? && s.exporters[x].sha !in s.blobs
    case Abort(x) => x in s.exporters
    case Retire(x) => x in s.rows
    // scripts/materialize_blob_store.py gives a committed row its blob, of whatever age its file is.
    case Materialize(x, _) => x in s.rows
    case Begin => s.reaper.Resting?
    case Walk => s.reaper.Begun?
    case Query => s.reaper.Walked?
    case Sort(some) => s.reaper.Sorting? && some <= s.reaper.left
    case Apply => s.reaper.Sorting? && s.reaper.left == {}
    case Unlink(sha) => s.reaper.Unlinking? && sha in s.reaper.orphans
    case Rest => true
  }

  function Take(minAge: int, s: State, step: Step): State
  {
    match step
    case Tick(to) => s.(clock := to)
    case Write(x, sha) => s.(exporters := s.exporters[x := Written(sha, s.clock)])
    case Link(x, copied) => if x in s.exporters && s.exporters[x].Written? then LinkedBy(s, x, copied) else s
    case Commit(x) =>
      if x !in s.exporters then s
      else s.(rows := s.rows[x := s.exporters[x].sha], backed := s.backed + {x}, exporters := s.exporters - {x})
    case CommitBare(x) =>
      if x !in s.exporters then s
      else s.(rows := s.rows[x := s.exporters[x].sha], exporters := s.exporters - {x})
    case Abort(x) => s.(exporters := s.exporters - {x})
    case Retire(x) => s.(rows := s.rows - {x}, backed := s.backed - {x})
    case Materialize(x, mtime) =>
      if x !in s.rows then s
      else s.(backed := s.backed + {x},
              blobs := if s.rows[x] in s.blobs then s.blobs else s.blobs[s.rows[x] := mtime])
    case Begin => s.(reaper := Begun(s.clock))
    case Walk => if s.reaper.Begun? then s.(reaper := Walked(s.reaper.now, s.blobs.Keys)) else s
    case Query =>
      if !s.reaper.Walked? then s
      else s.(reaper := Sorting(s.reaper.now, s.reaper.left, set x | x in s.rows :: s.rows[x], {}))
    case Sort(some) => if s.reaper.Sorting? then s.(reaper := Sorted(minAge, s, some)) else s
    case Apply => if s.reaper.Sorting? then s.(reaper := Unlinking(s.reaper.now, s.reaper.orphans)) else s
    case Unlink(sha) =>
      if !s.reaper.Unlinking? then s
      else s.(blobs := s.blobs - {sha}, reaper := Unlinking(s.reaper.now, s.reaper.orphans - {sha}))
    case Rest => s.(reaper := Resting)
  }

  /** A hard link shows the age of the file it was made from, a copy its own. */
  function LinkedBy(s: State, x: nat, copied: bool): State
    requires x in s.exporters
  {
    var sha, at := s.exporters[x].sha, s.exporters[x].at;
    s.(exporters := s.exporters[x := Linked(sha, at, sha !in s.blobs)],
       blobs := if sha in s.blobs then s.blobs else s.blobs[sha := if copied then s.clock else at])
  }

  /** The reaper sorts some of the blobs it has walked; it asks for their age only now. */
  function Sorted(minAge: int, s: State, some: set<string>): Reaper
    requires s.reaper.Sorting?
  {
    var r := s.reaper;
    r.(left := r.left - some,
       orphans := r.orphans + set sha | sha in some && sha !in r.referenced && sha in s.blobs
                                        && IsOld(minAge, s, r.now, sha))
  }

  predicate IsOld(minAge: int, s: State, now: int, sha: string)
  {
    sha in s.blobs && now - s.blobs[sha] >= minAge
  }

  /** No row that had its blob is without it. */
  ghost predicate IsSafe(s: State)
  {
    forall x :: x in s.backed ==> x in s.rows && s.rows[x] in s.blobs
  }

  /** The condition on exporters: what one has linked and not committed is young, or some row refers to it. */
  ghost predicate IsCovered(minAge: int, s: State)
  {
    forall x :: x in s.exporters && s.exporters[x].Linked? ==>
      !IsOld(minAge, s, s.clock, s.exporters[x].sha) || IsReferenced(s, s.exporters[x].sha)
  }

  // ---- Safety -----------------------------------------------------------------------------------

  predicate IsLinked(s: State, sha: string)
  {
    exists x :: x in s.exporters && s.exporters[x].Linked? && s.exporters[x].sha == sha
  }

  /** Neither a row nor an exporter counts on the blob. */
  predicate IsLoose(s: State, sha: string)
  {
    !IsReferenced(s, sha) && !IsLinked(s, sha)
  }

  /** What the reaper has in hand is there, and what it has condemned or may condemn is loose. */
  ghost predicate ReaperIsRight(minAge: int, s: State)
  {
    match s.reaper
    case Resting => true
    case Begun(now) => now <= s.clock
    case Walked(now, left) => now <= s.clock && left <= s.blobs.Keys
    case Sorting(now, left, referenced, orphans) =>
      && now <= s.clock && left <= s.blobs.Keys
      && (forall sha :: sha in left && sha !in referenced && IsOld(minAge, s, now, sha) ==> IsLoose(s, sha))
      && (forall sha :: sha in orphans ==> IsOld(minAge, s, now, sha) && IsLoose(s, sha))
    case Unlinking(now, orphans) =>
      now <= s.clock && forall sha :: sha in orphans ==> IsOld(minAge, s, now, sha) && IsLoose(s, sha)
  }

  ghost predicate Inv(minAge: int, s: State)
  {
    && IsSafe(s) && ReaperIsRight(minAge, s)
    && (forall x :: x in s.exporters && s.exporters[x].Linked? ==> s.exporters[x].sha in s.blobs)
    && (forall x :: x in s.exporters ==> x !in s.rows)
  }

  /** An old loose blob stays loose while the exporters are covered. */
  lemma OldStaysLoose(minAge: int, s: State, step: Step, now: int, sha: string)
    requires Inv(minAge, s) && IsCovered(minAge, s) && Enabled(s, step) && IsCovered(minAge, Take(minAge, s, step))
    requires now <= s.clock && IsOld(minAge, s, now, sha) && IsLoose(s, sha) && step != Unlink(sha)
    ensures IsOld(minAge, Take(minAge, s, step), now, sha) && IsLoose(Take(minAge, s, step), sha)
  {
    var s' := Take(minAge, s, step);
    assert IsOld(minAge, s', now, sha);
    assert !IsReferenced(s', sha) by {
      if x :| x in s'.rows && s'.rows[x] == sha {
        assert x in s.rows && s.rows[x] == sha;
      }
    }
    if x :| x in s'.exporters && s'.exporters[x].Linked? && s'.exporters[x].sha == sha {
      assert IsOld(minAge, s', s'.clock, sha);
    }
  }

  /** The steps of exporters, rows and the clock leave the reaper right. */
  lemma OthersKeepReaperRight(minAge: int, s: State, step: Step)
    requires Inv(minAge, s) && IsCovered(minAge, s) && Enabled(s, step) && IsCovered(minAge, Take(minAge, s, step))
    requires Take(minAge, s, step).reaper == s.reaper && !step.Unlink?
    ensures ReaperIsRight(minAge, Take(minAge, s, step))
  {
    var s' := Take(minAge, s, step);
    assert s.clock <= s'.clock && s.blobs.Keys <= s'.blobs.Keys;
    match s.reaper
    case Sorting(now, left, referenced, orphans) =>
      forall sha | sha in left && sha !in referenced && IsOld(minAge, s', now, sha) ensures IsLoose(s', sha) {
        assert IsOld(minAge, s, now, sha) by { AgeIsFixed(minAge, s, step, now, sha); }
        OldStaysLoose(minAge, s, step, now, sha);
      }
      forall sha | sha in orphans ensures IsOld(minAge, s', now, sha) && IsLoose(s', sha) {
        OldStaysLoose(minAge, s, step, now, sha);
      }
    case Unlinking(now, orphans) =>
      forall sha | sha in orphans ensures IsOld(minAge, s', now, sha) && IsLoose(s', sha) {
        OldStaysLoose(minAge, s, step, now, sha);
      }
    case _ =>
  }

  /** The age of a blob that stays is fixed. */
  lemma AgeIsFixed(minAge: int, s: State, step: Step, now: int, sha: string)
    requires Enabled(s, step) && sha in s.blobs && !step.Unlink?
    ensures IsOld(minAge, Take(minAge, s, step), now, sha) <==> IsOld(minAge, s, now, sha)
  {}

  lemma QueryIsRight(minAge: int, s: State)
    requires Inv(minAge, s) && IsCovered(minAge, s) && s.reaper.Walked?
    ensures ReaperIsRight(minAge, Take(minAge, s, Query))
  {
    var s' := Take(minAge, s, Query);
    var referenced := set x | x in s.rows :: s.rows[x];
    forall sha | sha in s.reaper.left && sha !in referenced && IsOld(minAge, s', s.reaper.now, sha)
      ensures IsLoose(s', sha)
    {
      assert !IsReferenced(s, sha);
      if x :| x in s.exporters && s.exporters[x].Linked? && s.exporters[x].sha == sha {
        assert IsOld(minAge, s, s.clock, sha);
      }
    }
  }

  lemma SortIsRight(minAge: int, s: State, some: set<string>)
    requires Inv(minAge, s) && s.reaper.Sorting? && some <= s.reaper.left
    ensures ReaperIsRight(minAge, Take(minAge, s, Sort(some)))
  {
    hide IsLinked, IsReferenced, IsSafe;
    var s' := Take(minAge, s, Sort(some));
    forall sha ensures IsLoose(s', sha) <==> IsLoose(s, sha) { SameBut(s, s', sha); }
    forall sha ensures IsOld(minAge, s', s.reaper.now, sha) <==> IsOld(minAge, s, s.reaper.now, sha) {}
    hide IsLoose, IsOld;
  }

  lemma SameBut(s: State, s': State, sha: string)
    requires s'.rows == s.rows && s'.exporters == s.exporters
    ensures IsLoose(s', sha) <==> IsLoose(s, sha)
  {}

  lemma UnlinkIsRight(minAge: int, s: State, sha: string)
    requires Inv(minAge, s) && s.reaper.Unlinking? && sha in s.reaper.orphans
    ensures Inv(minAge, Take(minAge, s, Unlink(sha)))
  {
    var s' := Take(minAge, s, Unlink(sha));
    assert IsLoose(s, sha);
    assert forall x :: x in s.backed ==> s.rows[x] != sha;
    assert forall x :: x in s.exporters && s.exporters[x].Linked? ==> s.exporters[x].sha != sha;
    forall other | other in s'.reaper.orphans ensures IsOld(minAge, s', s'.reaper.now, other) && IsLoose(s', other) {
      SameBut(s, s', other);
    }
  }

  /** Every step keeps the invariant, as long as the exporters are covered. */
  lemma StepKeepsInv(minAge: int, s: State, step: Step)
    requires Inv(minAge, s) && IsCovered(minAge, s) && Enabled(s, step) && IsCovered(minAge, Take(minAge, s, step))
    ensures Inv(minAge, Take(minAge, s, step))
  {
    match step
    case Begin =>
    case Walk =>
    case Query => QueryIsRight(minAge, s);
    case Sort(some) => SortIsRight(minAge, s, some);
    case Apply =>
      hide IsOld;
      forall sha ensures IsLoose(Take(minAge, s, step), sha) <==> IsLoose(s, sha) {
        SameBut(s, Take(minAge, s, step), sha);
      }
    case Unlink(sha) => UnlinkIsRight(minAge, s, sha);
    case Rest =>
    case _ =>
      OthersKeepReaperRight(minAge, s, step);
      hide ReaperIsRight, IsCovered;
  }

  // ---- Runs -------------------------------------------------------------------------------------

  function After(minAge: int, s: State, trace: seq<Step>): State
  {
    if trace == [] then s else Take(minAge, After(minAge, s, trace[..|trace| - 1]), trace[|trace| - 1])
  }

  predicate Runs(minAge: int, s: State, trace: seq<Step>)
  {
    trace == [] ||
    (&& Runs(minAge, s, trace[..|trace| - 1])
     && Enabled(After(minAge, s, trace[..|trace| - 1]), trace[|trace| - 1]))
  }

  /** The exporters are covered in every state of the run. */
  ghost predicate IsCoveredThroughout(minAge: int, s: State, trace: seq<Step>)
  {
    && IsCovered(minAge, After(minAge, s, trace))
    && (trace != [] ==> IsCoveredThroughout(minAge, s, trace[..|trace| - 1]))
  }

  /** No interleaving of one reaper with covered exporters leaves a row without the blob it had. */
  lemma {:induction false} CoveredRunsAreSafe(minAge: int, s: State, trace: seq<Step>)
    requires Inv(minAge, s) && Runs(minAge, s, trace) && IsCoveredThroughout(minAge, s, trace)
    ensures Inv(minAge, After(minAge, s, trace)) && IsSafe(After(minAge, s, trace))
  {
    hide Inv, IsSafe, Enabled, Take, IsCovered;
    if trace != [] {
      CoveredRunsAreSafe(minAge, s, trace[..|trace| - 1]);
      StepKeepsInv(minAge, After(minAge, s, trace[..|trace| - 1]), trace[|trace| - 1]);
    }
    assert IsSafe(After(minAge, s, trace)) by { InvIsSafe(minAge, After(minAge, s, trace)); }
  }

  lemma InvIsSafe(minAge: int, s: State)
    requires Inv(minAge, s)
    ensures IsSafe(s)
  {}

  // ---- The condition is exact -------------------------------------------------------------------

  /** What can happen at once, without new work and without time passing: the reaper runs, exporters commit. */
  predicate IsSettling(step: Step)
  {
    step.Begin? || step.Walk? || step.Query? || step.Sort? || step.Apply? || step.Unlink? || step.Rest? || step.Commit?
  }

  ghost predicate AllSettling(trace: seq<Step>)
  {
    forall k :: 0 <= k < |trace| ==> IsSettling(trace[k])
  }

  /** A row can lose its blob from here, just by the reaper running while the exporters commit. */
  ghost predicate CanLose(minAge: int, s: State)
  {
    exists trace :: Runs(minAge, s, trace) && AllSettling(trace) && !IsSafe(After(minAge, s, trace))
  }

  lemma SettlingKeepsCover(minAge: int, s: State, step: Step)
    requires Inv(minAge, s) && IsCovered(minAge, s) && Enabled(s, step) && IsSettling(step)
    ensures IsCovered(minAge, Take(minAge, s, step))
  {
    var s' := Take(minAge, s, step);
    forall x | x in s'.exporters && s'.exporters[x].Linked? && IsOld(minAge, s', s'.clock, s'.exporters[x].sha)
      ensures IsReferenced(s', s'.exporters[x].sha)
    {
      var sha := s.exporters[x].sha;
      assert IsOld(minAge, s, s.clock, sha);
      var y :| y in s.rows && s.rows[y] == sha;
      assert y in s'.rows && s'.rows[y] == sha;
    }
  }

  lemma {:induction false} SettlingRunsKeepCover(minAge: int, s: State, trace: seq<Step>)
    requires Inv(minAge, s) && IsCovered(minAge, s) && Runs(minAge, s, trace) && AllSettling(trace)
    ensures IsCoveredThroughout(minAge, s, trace) && Inv(minAge, After(minAge, s, trace))
  {
    hide Inv, Enabled, Take, IsCovered, IsSettling;
    if trace != [] {
      var front, step := trace[..|trace| - 1], trace[|trace| - 1];
      SettlingRunsKeepCover(minAge, s, front);
      assert IsSettling(step) by { assert IsSettling(trace[|trace| - 1]); }
      SettlingKeepsCover(minAge, After(minAge, s, front), step);
      StepKeepsInv(minAge, After(minAge, s, front), step);
    }
  }

  lemma {:induction false} RunFromNext(minAge: int, s: State, step: Step, trace: seq<Step>)
    requires Enabled(s, step) && Runs(minAge, Take(minAge, s, step), trace)
    ensures Runs(minAge, s, [step] + trace)
    ensures After(minAge, s, [step] + trace) == After(minAge, Take(minAge, s, step), trace)
  {
    hide Enabled, Take;
    var all := [step] + trace;
    if trace == [] {
      assert all[..|all| - 1] == [];
    } else {
      RunFromNext(minAge, s, step, trace[..|trace| - 1]);
      assert all[..|all| - 1] == [step] + trace[..|trace| - 1];
    }
  }

  lemma LosesOneStepLater(minAge: int, s: State, step: Step)
    requires Enabled(s, step) && IsSettling(step) && CanLose(minAge, Take(minAge, s, step))
    ensures CanLose(minAge, s)
  {
    hide Enabled, Take, IsSafe, IsSettling;
    var next := Take(minAge, s, step);
    var trace :| Runs(minAge, next, trace) && AllSettling(trace) && !IsSafe(After(minAge, next, trace));
    RunFromNext(minAge, s, step, trace);
    hide Runs, After;
    assert AllSettling([step] + trace);
  }

  lemma LosesNow(minAge: int, s: State)
    requires !IsSafe(s)
    ensures CanLose(minAge, s)
  {
    assert Runs(minAge, s, []) && AllSettling([]) && !IsSafe(After(minAge, s, []));
  }

  /** The reaper condemns the blob, the exporter commits, the reaper unlinks. */
  lemma CondemnedAfterSort(minAge: int, s: State, x: nat)
    requires s.reaper.Unlinking? && x in s.exporters && s.exporters[x].Linked? && s.exporters[x].sha in s.reaper.orphans
    ensures CanLose(minAge, s)
  {
    hide CanLose;
    var sha := s.exporters[x].sha;
    var s1 := Take(minAge, s, Commit(x));
    var s2 := Take(minAge, s1, Unlink(sha));
    assert x in s2.backed && s2.rows[x] == sha && sha !in s2.blobs;
    LosesNow(minAge, s2);
    LosesOneStepLater(minAge, s1, Unlink(sha));
    LosesOneStepLater(minAge, s, Commit(x));
  }

  lemma UncoveredCanLose(minAge: int, s: State)
    requires s.reaper.Resting? && !IsCovered(minAge, s)
    ensures CanLose(minAge, s)
  {
    hide CanLose;
    var x :| x in s.exporters && s.exporters[x].Linked? && IsOld(minAge, s, s.clock, s.exporters[x].sha)
             && !IsReferenced(s, s.exporters[x].sha);
    var sha := s.exporters[x].sha;
    var s1 := Take(minAge, s, Begin);
    var s2 := Take(minAge, s1, Walk);
    var s3 := Take(minAge, s2, Query);
    assert sha in s3.reaper.left && sha !in s3.reaper.referenced;
    LosesOnceSorted(minAge, s3, x);
    LosesOneStepLater(minAge, s2, Query);
    LosesOneStepLater(minAge, s1, Walk);
    LosesOneStepLater(minAge, s, Begin);
  }

  lemma LosesOnceSorted(minAge: int, s: State, x: nat)
    requires s.reaper.Sorting? && x in s.exporters && s.exporters[x].Linked?
    requires s.exporters[x].sha in s.reaper.left && s.exporters[x].sha !in s.reaper.referenced
    requires IsOld(minAge, s, s.reaper.now, s.exporters[x].sha)
    ensures CanLose(minAge, s)
  {
    hide CanLose;
    var sha := s.exporters[x].sha;
    var sorted := Take(minAge, s, Sort(s.reaper.left));
    assert sha in sorted.reaper.orphans && sorted.reaper.left == {};
    var unlinking := Take(minAge, sorted, Apply);
    CondemnedAfterSort(minAge, unlinking, x);
    LosesOneStepLater(minAge, sorted, Apply);
    LosesOneStepLater(minAge, s, Sort(s.reaper.left));
  }

  /** With the reaper at rest, a row can lose its blob exactly when some exporter is not covered. */
  lemma LossExactly(minAge: int, s: State)
    requires Inv(minAge, s) && s.reaper.Resting?
    ensures CanLose(minAge, s) <==> !IsCovered(minAge, s)
  {
    if IsCovered(minAge, s) {
      forall trace | Runs(minAge, s, trace) && AllSettling(trace) ensures IsSafe(After(minAge, s, trace)) {
        SettlingRunsKeepCover(minAge, s, trace);
        CoveredRunsAreSafe(minAge, s, trace);
      }
    } else {
      UncoveredCanLose(minAge, s);
    }
  }

  // ---- Who is covered ---------------------------------------------------------------------------

  /** Every exporter that has linked made the blob itself and is not past the age limit since it wrote its file. */
  ghost predicate IsPrompt(minAge: int, s: State)
  {
    forall x :: x in s.exporters && s.exporters[x].Linked? ==>
      s.exporters[x].own && s.clock < s.exporters[x].at + minAge
  }

  /** The blob an exporter made is no older than the exporter's file. */
  ghost predicate OwnIsFresh(s: State)
  {
    && (forall x :: x in s.exporters ==> s.exporters[x].at <= s.clock)
    && (forall x :: x in s.exporters && s.exporters[x].Linked? && s.exporters[x].own ==>
          (s.exporters[x].sha in s.blobs ==> s.blobs[s.exporters[x].sha] >= s.exporters[x].at))
  }

  lemma PromptIsCovered(minAge: int, s: State)
    requires OwnIsFresh(s) && IsPrompt(minAge, s)
    ensures IsCovered(minAge, s)
  {}

  lemma StepKeepsFresh(minAge: int, s: State, step: Step)
    requires Inv(minAge, s) && OwnIsFresh(s) && Enabled(s, step)
    ensures OwnIsFresh(Take(minAge, s, step))
  {
    hide IsSafe, ReaperIsRight;
  }

  ghost predicate IsPromptThroughout(minAge: int, s: State, trace: seq<Step>)
  {
    && IsPrompt(minAge, After(minAge, s, trace))
    && (trace != [] ==> IsPromptThroughout(minAge, s, trace[..|trace| - 1]))
  }

  /**
   * The age gate does what it is for: while exporters link only blobs they made, and commit within the age
   * limit of writing their file, no row loses its blob.
   */
  lemma {:induction false} PromptRunsAreSafe(minAge: int, s: State, trace: seq<Step>)
    requires Inv(minAge, s) && OwnIsFresh(s) && Runs(minAge, s, trace) && IsPromptThroughout(minAge, s, trace)
    ensures var t := After(minAge, s, trace); Inv(minAge, t) && OwnIsFresh(t) && IsSafe(t)
  {
    hide Enabled, Take, IsCovered, OwnIsFresh, IsPrompt, IsSafe, Inv;
    if trace != [] {
      var front, step := trace[..|trace| - 1], trace[|trace| - 1];
      PromptRunsAreSafe(minAge, s, front);
      StepKeepsFresh(minAge, After(minAge, s, front), step);
      PromptIsCovered(minAge, After(minAge, s, front));
      PromptIsCovered(minAge, After(minAge, s, trace));
      StepKeepsInv(minAge, After(minAge, s, front), step);
    }
    InvIsSafe(minAge, After(minAge, s, trace));
  }

  /**
   * But adopting is not covered by it: an exporter that writes again what an old orphan holds links the
   * orphan as it is, and can lose it before any time has passed, however large the age limit.
   */
  lemma AdoptedOrphanCanBeLost(minAge: int, s: State, x: nat, sha: string)
    requires s.reaper.Resting? && x !in s.exporters && x !in s.rows
    requires IsOld(minAge, s, s.clock, sha) && !IsReferenced(s, sha)
    ensures Runs(minAge, s, [Write(x, sha), Link(x, false)])
    ensures var t := After(minAge, s, [Write(x, sha), Link(x, false)]);
      t.clock == s.clock && t.blobs == s.blobs && CanLose(minAge, t)
  {
    hide CanLose;
    var s1 := Take(minAge, s, Write(x, sha));
    var s2 := Take(minAge, s1, Link(x, false));
    var trace := [Write(x, sha), Link(x, false)];
    assert trace[..1] == [Write(x, sha)] && trace[..1][..0] == [];
    assert After(minAge, s, []) == s && After(minAge, s, trace[..1]) == s1 && After(minAge, s, trace) == s2;
    assert Runs(minAge, s, []) && Runs(minAge, s, trace[..1]);
    assert !IsCovered(minAge, s2) by {
      assert x in s2.exporters && s2.exporters[x].Linked? && IsOld(minAge, s2, s2.clock, sha);
      assert !IsReferenced(s2, sha);
    }
    UncoveredCanLose(minAge, s2);
  }
}
