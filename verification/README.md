# Verification of the book-agent scripts

A Dafny model of the parts of the repository whose correctness is not visible from one function body, with
proofs about them:

- **The live runner** (`SliceRunner.dfy` and `DispatchLoop.dfy`, on top of `RunLedger.dfy`): the dispatch loop
  that claims translation work, runs it on worker threads and stops after a given number of successes, while
  deciding from a snapshot that is older than what the workers have committed. The ledger underneath - work
  items, leases, run status - is the tables of `RunControlRepository`, updated in place by a class
  (`RunStore.Store`) whose methods are proved equal to functions on a ledger value; how a run ends is computed
  from the items of its stages and the packets of its document. The loop and its workers are a state machine:
  one step is one transaction or one action of a thread, and the theorems hold over every interleaving.
  `DispatchLoop.Loop` holds the segments of the loop as the code writes them, on top of the store, each proved
  to be a run of that machine.
- **The integrity of exports** (`ExportRows.dfy`, `VerifyExports.dfy`, `BackfillExports.dfy`,
  `HealExports.dfy`, `ExportsMigration.dfy`, `BlobStore.dfy`, `ReapBlobs.dfy`, `ExportLifecycle.dfy`,
  `ReaperRace.dfy`): the `exports` table, the files its rows name, and the content-addressed blobs. Each script
  has a scan and an apply method on the table; a row's fate is a function of the row, and the loops are proved
  to realise it. SHA-256 is an uninterpreted function. `ExportLifecycle` mixes the scripts' steps with changes of
  files, hashing and linking apart. `ReaperRace` takes the reaper, the exporters and the
  materializer apart into the steps between which they can interleave.
- **The chapter exporter** (`Captions.dfy`, `PanelClusters.dfy`, `FigureCaptions.dfy`, `Continuations.dfy`,
  `OrderedLists.dfy`, `ChapterRender.dfy`, `ChapterExport.dfy`, `BulletLists.dfy`): the passes over the blocks of a
  chapter that fill maps and sets, and the render loop that consumes them. A block is named by its position.
- **Aligners and mergers that must not lose text** (`MidSentenceMerge.dfy`, `VisualParagraphs.dfy`,
  `Redistribution.dfy`, on top of `Text.dfy`).
- **Two compact algorithms** (`FigureSweep.dfy`, `ProcessTree.dfy`): clustering as connected components, and
  the descendants of a process.

Code that works by loops over local or stored state is a method with loops, proved against a declarative
description; what the repository promises is proved about that description. Run
`dafny verify dfyconfig.toml` in this directory.

## Where the code does not do what it is for

Each of these is a lemma with the exact condition, not an assumption.

- The loop of the live runner leaves on `succeeded`, `failed`, `paused` and `cancelled`. A run that ends as
  `succeeded_with_warnings` is polled for ever (`LoopEndsUnlessWarned`; when that status is reached,
  `EndsWithWarnings` and `WarningsAreReached`).
- A runner started at or above its limit never asks for the pause, which sits behind a completed future
  (`LateStartNeverPauses`).
- The retry budget bounds reported failures, not lapsed leases (`LapsesAreNotBudgeted`).
- The age gate of the reaper does not protect an exporter that adopts an old orphan blob: the row can lose its
  blob without any time passing (`AdoptedOrphanCanBeLost`; the exact condition is `LossExactly`). The comment at
  `scripts/reap_blob_store.py:23-28` claims otherwise; the model follows the code.
- A second run of the verifier is idle exactly when no stamp expired in between, and the stamps it skipped as
  fresh count too (`VerifyExports.SecondRunIsIdle`).
- Python asks whether a stale reason is truthy, SQL whether it is NULL; they differ exactly on the empty reason,
  and no sequence of steps makes one (`TestsAgree`, `TestsAgreeOnEveryRun`).
- Hashing and linking are two steps; a file replaced in between, and only that, puts a wrong blob under the name
  (`NamesStayDigestsExactly`, `ReplacementSpoils`).
- The exporter loses text whose carrier - the listing, list or chain that takes it along - is not rendered, or is
  rendered as something else (`PrintedExactly`). A continuation is lost when the paragraph it continues ends an
  ordered list, is a listing line, heads a listing, or lies inside a figure (`ContinuationIsPrinted`); the items
  of a list when its first is one of the last three (`ItemIsPrinted`). Either goes with the listing instead when it
  is itself a line of one that begins no later than the chain or the list.
- A caption can be printed below two figures, below a figure and again as a block, or nowhere: the cluster pass does
  not ask whether a caption is consumed or its panels hold others, and a suppressed figure gives free a caption that
  another figure may show. `EveryCaptionOnce` has the exact conditions; `DrawingSharesTheCaption`,
  `SuppressedMasterSpillsTheCaption`, `ReboundCaptionIsLost` and `AbsorbedPanelLosesACaption` are chapters of a few
  blocks that meet them.
- Redistributing a merged translation prints all of it exactly when no source sentence is blank
  (`RedistributedTextIsPrinted`).

## Model

| member | source | states |
|---|---|---|
| RunLedger.ApplyKeepsValid | src/book_agent/infra/repositories/run_control.py:318-614 | Every call keeps active leases and owned items in one-to-one correspondence, so no item is ever held twice. |
| RunLedger.DeadTokenIsInert | src/book_agent/infra/repositories/run_control.py:456-565 | After any calls, a token whose lease has ended is still dead, and start, heartbeat, success and failure with it change nothing. |
| RunLedger.WinsOfApply | src/book_agent/infra/repositories/run_control.py:521-603 | A succeeded item never leaves that status; the number of them grows only when a live token reports success, and then by one. |
| RunLedger.WinsAreConserved | src/book_agent/services/run_execution.py:465-655 | Over every sequence of calls the number of succeeded items is the initial one plus the successes committed. |
| RunLedger.TokenCommitsOnce | src/book_agent/services/run_execution.py:465-518 | A token's second success is never accepted, whatever happens in between. |
| RunLedger.LapsesAreNotBudgeted | src/book_agent/infra/repositories/run_control.py:318-347 | After any number of rounds in which a worker claims an item and is not heard of again, the item waits for its next claim, that many attempts further; no budget ends this. |
| RunLedger.ReportedFailureIsFinal | src/book_agent/services/run_execution.py:555-569 | A reported failure is retried exactly when it is retryable and attempts are left. |
| RunLedger.ItemMoves | src/book_agent/infra/repositories/run_control.py:318-614 | The life of an item in its fields: which call, under which lease, moves it to which status; attempts grow exactly when a failed item is claimed again; nothing goes back to pending. |
| RunLedger.LeaseMoves | src/book_agent/infra/repositories/run_control.py:318-614 | The life of a lease in its fields: made by a claim that succeeds, extended by start and heartbeat, ended by a report of its worker or by being overdue, and never active again. |
| RunLedger.RunMoves | src/book_agent/services/run_execution.py:657-765 | Pausing takes a live run, failing a live or paused one; no call on items or leases moves the run. |
| RunLedger.BudgetMovesRun | src/book_agent/services/run_execution.py:657-765 | Limit by limit: time, progress, cost or tokens pause a live run, failures in a row alone fail a live or paused one, nothing else moves it. |
| RunLedger.ReconciledAsItemsSay | src/book_agent/services/run_execution.py:813-839 | A live run with nothing in hand, and nothing waiting if it is draining, succeeds, succeeds with warnings or fails exactly as the statuses of its items and its packet counts say, the run without packets and items included; any other stays, but for the drained one that pauses. |
| RunLedger.EndsWithWarnings | src/book_agent/orchestrator/stage_status.py:183-466 | The stages amount to a success with warnings exactly when packets and items agree that all is translated, nothing optional is open, and an optional item has failed for good. |
| RunStore.Store.constructor | src/book_agent/infra/repositories/run_control.py:168-206 | Seeded items with no lease are a valid ledger. |
| RunStore.Store.ClaimById | src/book_agent/services/run_execution.py:362-405 | Claims exactly if the run is queued or running and the item pending or retryable; an unknown item is an error. |
| RunStore.Store.ListClaimable | src/book_agent/infra/repositories/run_control.py:289-316 | The first open items of a stage by rank, at most so many, none of them twice and none skipped. |
| RunStore.QueueByRank | src/book_agent/infra/repositories/run_control.py:289-316 | In the fields of the items: what is listed is open, of the stage, and by ascending rank; what is left out is no better, and only for want of room. |
| RunStore.Store.ClaimNext | src/book_agent/services/run_execution.py:334-360 | Whatever others commit between the query and each claim, the first item of the query is claimed that can still be claimed when its turn comes, and none only if none can. |
| RunStore.FirstIsClaimed | src/book_agent/services/run_execution.py:334-360 | With nobody else about, that is the first open item of the stage by rank, and nothing only if none is open. |
| RunStore.Store.StartItem | src/book_agent/infra/repositories/run_control.py:467-494 | Fails exactly on a token without active lease; else the item runs and its lease is extended. |
| RunStore.Store.Heartbeat | src/book_agent/infra/repositories/run_control.py:496-519 | Reports life exactly for an active lease and extends it. |
| RunStore.Store.Release | src/book_agent/infra/repositories/run_control.py:521-565 | Ends the lease; the item changes only while it is still owned. |
| RunStore.Store.CompleteSuccess | src/book_agent/services/run_execution.py:465-518 | Commits exactly for an active lease; else the tables stay as they are. |
| RunStore.Store.CompleteFailure | src/book_agent/services/run_execution.py:555-605 | Accepted exactly for an active lease; the item then waits for a retry or is given up. |
| RunStore.Store.ExpireLease | src/book_agent/infra/repositories/run_control.py:567-603 | Ends an active lease and frees its item; does nothing else on any other token. |
| RunStore.Store.ListOverdue | src/book_agent/infra/repositories/run_control.py:605-614 | All overdue active leases, each once, the earliest first. |
| RunStore.OverdueByExpiry | src/book_agent/infra/repositories/run_control.py:605-614 | In the fields of the leases: exactly the active ones that ended before now, each once, by ascending end. |
| RunStore.Store.ReclaimExpired | src/book_agent/services/run_execution.py:607-655 | Ends all overdue leases and frees exactly their items, reported in the order of expiry. |
| RunStore.LeaseOfEnded | src/book_agent/infra/repositories/run_control.py:567-603 | Ending leases one by one changes the leases of the list and no others. |
| RunStore.ItemOfEnded | src/book_agent/infra/repositories/run_control.py:567-603 | Ending leases one by one frees the items held under them and no others. |
| RunStore.Store.ReconcileTerminalState | src/book_agent/services/run_execution.py:767-868 | As the ledger reconciles; what that makes of the run is ReconciledAsItemsSay. |
| RunStore.Store.EnforceBudget | src/book_agent/services/run_execution.py:657-765 | As the ledger enforces what the budget asks for; what that makes of the run is BudgetMovesRun. |
| SliceRunner.StepKeepsInv | scripts/run_real_book_live.py:985-1102 | Every step of loop, worker, clock and operator keeps: successes = start + popped + won in flight, snapshot between, start + popped + in flight at most the limit. |
| SliceRunner.InvOnEveryRun | scripts/run_real_book_live.py:985-1102 | So these hold in every state of every run. |
| SliceRunner.HousekeepingFreesDeadWork | scripts/run_real_book_live.py:992 | After housekeeping no active lease is overdue; the items that overdue leases held wait for a retry with their attempts as they were; all other items and leases are as before. |
| SliceRunner.HousekeepingRenews | scripts/run_real_book_live.py:993-1011 | The run moves as the budget and then the freed work say; the summary is that of the tables; workers, clock and place in the loop stay. |
| SliceRunner.PopTakesOneOut | scripts/run_real_book_live.py:1073-1084 | One future leaves, its success is counted, the run moves as budget and work say, and the summary is renewed. |
| SliceRunner.IdleLooksAtTheRun | scripts/run_real_book_live.py:1046-1062 | The run moves as its work says; the loop ends exactly on succeeded, failed, paused or cancelled. |
| SliceRunner.DecisionPausesAtTheLimit | scripts/run_real_book_live.py:1085-1102 | The run is paused exactly when the successes seen reach a positive limit and no end is seen; the loop ends exactly on an end seen with nothing in flight. |
| SliceRunner.ClaimsBelowTheLimit | scripts/run_real_book_live.py:1013-1044 | An item can be claimed exactly if it is an open one to translate, the run takes claims, a worker is free, and successes seen plus work in flight lie below a positive limit. |
| SliceRunner.WorkersMakeOneCall | scripts/run_real_book_live.py:576-700 | A claim or a step of a worker is one call on the tables with the lease reaching into the future, and moves that worker only. |
| SliceRunner.LimitHolds | scripts/run_real_book_live.py:523-539 | In every interleaving a runner that starts at or below its limit stays at or below it, and never has more in flight than workers. |
| SliceRunner.PausesAtTheLimit | scripts/run_real_book_live.py:1085-1102 | When the loop asks for the pause, the number of successes is the limit exactly. |
| SliceRunner.NoStuckState | scripts/run_real_book_live.py:1046-1102 | From a start below the limit, no state has nothing in flight, the limit seen and the run still live. |
| SliceRunner.LateStartNeverPauses | scripts/run_real_book_live.py:1013-1061 | From a start at or above the limit nothing is claimed, no count changes and the pause is never asked for; while packets are left, none has failed and the budget holds, it polls on. |
| SliceRunner.StoppedRunLetsGo | scripts/run_real_book_live.py:1046-1131 | Once the run has a status the loop tests for, the loop can drain what is in flight and end. |
| SliceRunner.LoopEndsUnlessWarned | scripts/run_real_book_live.py:1059-1131 | In every reachable state of a stopped run, the loop can end if and only if the run did not succeed with warnings. |
| SliceRunner.WarningsAreReached | scripts/run_real_book_live.py:988-1011 | Where all is translated, nothing optional is open and an optional item has failed for good, one refresh ends the run with warnings, and the loop cannot end from there. |
| SliceRunner.WarnedRunIsPolled | scripts/run_real_book_live.py:917-940 | A runner given a run that has ended with warnings cannot come out of its loop. |
| SliceRunner.ReviewGivenUpIsPolled | scripts/run_real_book_live.py:988-1062 | One such run: its packet translated, its review given up. |
| DispatchLoop.RunsCompose | scripts/run_real_book_live.py:985-1131 | Segments of the loop and steps of the workers between them compose to one run of the machine. |
| DispatchLoop.Loop.constructor | scripts/run_real_book_live.py:959-984 | The loop is entered in an initial state of the machine. |
| DispatchLoop.Loop.RunHousekeeping | scripts/run_real_book_live.py:987-1011 | As one step of the machine, which HousekeepingFreesDeadWork and HousekeepingRenews describe in the fields. |
| DispatchLoop.Loop.FillSlots | scripts/run_real_book_live.py:1013-1044 | A run of claims and nothing else, which stops exactly on busy workers, a used-up slice or nothing to claim. |
| DispatchLoop.Loop.RestIfIdle | scripts/run_real_book_live.py:1046-1062 | With nothing in flight, one possible step of the machine; else nothing happens. |
| DispatchLoop.Loop.TakeOne | scripts/run_real_book_live.py:1073-1102 | Popping a future and deciding on the pause, as the machine does in two steps. |
| DispatchLoop.Loop.TakeFinished | scripts/run_real_book_live.py:1072-1131 | A run of the machine that removes exactly the finished futures, and leaves the loop exactly on a stopped run with nothing in flight. |
| ExportRows.RowOfExecuted | scripts/verify_exports.py:175-209 | A row ends up as the updates for it alone leave it; updates of other rows do not matter. |
| ExportRows.ForCollect | scripts/verify_exports.py:94-174 | A scan plans for a row exactly what its own classification says, and once. |
| ExportRows.Table.Update | scripts/verify_exports.py:175-209 | An update by id changes that row and no other; an unknown id changes nothing. |
| VerifyExports.Scan | scripts/verify_exports.py:94-172 | The report holds every row under its kind, in order. |
| VerifyExports.EveryRowIsReportedOnce | scripts/verify_exports.py:94-172 | The lists and counters together count each serviceable row once. |
| VerifyExports.Apply | scripts/verify_exports.py:175-209 | Refreshes, drift marks and missing marks are executed in that order. |
| VerifyExports.AppliedRunRowByRow | scripts/verify_exports.py:94-209 | After scan and apply each row is refreshed with the digest of its file, marked, or unchanged, as its kind says. |
| VerifyExports.RunInFields | scripts/verify_exports.py:94-209 | In the fields of the row and from the clock: a served row not verified within the time to live is given up as missing or drifted, or carries the digest of its file, verified now; every other row is as before. |
| VerifyExports.ReportInFields | scripts/verify_exports.py:94-172 | A row is listed as matched, drifted or missing exactly if it is to be looked at and its file agrees, differs or is gone. |
| VerifyExports.CountersInFields | scripts/verify_exports.py:94-172 | The two counters are the served rows without a digest that are not to get one, and those verified within the time to live. |
| VerifyExports.SecondRunIsIdle | scripts/verify_exports.py:94-209 | A second run over the same files is idle if and only if no stamp has expired, neither new nor skipped. |
| BackfillExports.Scan | scripts/backfill_export_paths.py:93-151 | The report holds every row under its kind, in order. |
| BackfillExports.EveryRowIsReportedOnce | scripts/backfill_export_paths.py:93-151 | The lists and counters together count each succeeded row once. |
| BackfillExports.AppliedRunRowByRow | scripts/backfill_export_paths.py:93-178 | After scan and apply each row is stamped with digest and size of its file, marked missing, or unchanged. |
| BackfillExports.RunInFields | scripts/backfill_export_paths.py:93-178 | In the fields of the row: a served row that lacks digest, size or time gets those of its file, or is given up as missing; every other row is as before. |
| BackfillExports.ReportInFields | scripts/backfill_export_paths.py:93-151 | A row is listed as computed or missing exactly if it is served and incomplete, or all are recomputed, and its file is there or gone. |
| BackfillExports.CountersInFields | scripts/backfill_export_paths.py:93-151 | The two counters are the complete served rows and the succeeded rows that are not served. |
| BackfillExports.SecondRunIsIdle | scripts/backfill_export_paths.py:93-178 | A second run is idle if and only if it need not recompute or no serviceable file exists. |
| BackfillExports.BackfilledRowMatches | scripts/backfill_export_paths.py:138-167 | Over the same files the verifier takes a row stamped by the backfill for fresh, and for a match once the stamp has expired. |
| BackfillExports.VerifiedAfterBackfill | scripts/verify_exports.py:94-172 | Run after a backfill over the same files, the verifier marks nothing if and only if it would have marked none of the rows that the backfill passed over as stamped; a recomputing backfill passes over none. |
| HealExports.StoredPathLeadsBack | scripts/heal_exports_by_basename.py:98-103 | Storing a resolved location and resolving what is stored leads back to it; what is stored is never the sentinel. |
| HealExports.CandidatesKeepTheName | scripts/heal_exports_by_basename.py:56-62 | A candidate has the name of the stored path and lies below the artifacts of the row's own document. |
| HealExports.FindAgain | scripts/heal_exports_by_basename.py:56-88 | Finds the first existing candidate. |
| HealExports.Scan | scripts/heal_exports_by_basename.py:65-117 | The report holds every row under its kind, in order. |
| HealExports.EveryRowIsReportedOnce | scripts/heal_exports_by_basename.py:65-117 | The lists and the counter together count each succeeded row once. |
| HealExports.AppliedRunRowByRow | scripts/heal_exports_by_basename.py:65-126 | After scan and apply only the paths of fixable rows have changed. |
| HealExports.RunInFields | scripts/heal_exports_by_basename.py:56-120 | In the fields of the row: a succeeded row whose place is empty is pointed at the file of its name below the artifacts of its document, else below its exports, relative to the root where that can be; all else is as before. |
| HealExports.ReportInFields | scripts/heal_exports_by_basename.py:65-117 | A row is fixable or lost exactly if it succeeded, its place is empty, and a file of its name is, or is not, in one of the two places. |
| HealExports.CounterInFields | scripts/heal_exports_by_basename.py:65-117 | The counter is the succeeded rows whose file is in place. |
| HealExports.SecondRunFixesNothing | scripts/heal_exports_by_basename.py:65-126 | A second run fixes nothing and gives up on the same rows. |
| HealExports.HealingKeepsServiceability | scripts/heal_exports_by_basename.py:65-126 | Healing changes whether a row is served exactly for a fixable sentinel row that is not marked stale. |
| ExportsMigration.Upgrade | alembic/versions/20260422_0028_exports_integrity_fields_and_path_check.py:47-105 | In fields: a path below one of four temporary directories, on SQLite in any case of letters, leaves its file name behind the sentinel and a reason; every other row is as it was. The CHECK holds afterwards. |
| ExportsMigration.TempPathsAre | alembic/versions/20260422_0028_exports_integrity_fields_and_path_check.py:39-44 | The patterns take exactly the paths that begin with one of the four directories, on SQLite once letters are made small. |
| ExportsMigration.CheckNeedsTheRewrite | alembic/versions/20260422_0028_exports_integrity_fields_and_path_check.py:18-22 | On the rows as they were the CHECK holds exactly when the rewriting changes none of them. |
| ExportsMigration.MigratedIsWellStamped | alembic/versions/20260422_0028_exports_integrity_fields_and_path_check.py:65-94 | A row is stale afterwards exactly when its path was in a temporary directory; no reason is empty. |
| BlobStore.Store.Materialize | scripts/materialize_blob_store.py:105-121 | A blob already there is left alone; else one with the content of the source appears, the source itself where it can be linked. |
| BlobStore.Store.MaterializeAll | scripts/materialize_blob_store.py:124-183 | The store gains exactly the missing blobs of rows whose file matches, each under its digest; an action makes a blob exactly the first time. |
| BlobStore.WantedExactly | scripts/materialize_blob_store.py:137-170 | A blob is wanted exactly when some serviceable row with a matching file carries its digest. |
| BlobStore.WantedInFields | scripts/materialize_blob_store.py:124-183 | In the fields of the rows: a digest is wanted exactly when a served row carries it and its file has it. |
| BlobStore.KindInFields | scripts/materialize_blob_store.py:124-183 | The kinds by which the report counts, in the fields of the row. |
| BlobStore.SecondRunMakesNothing | scripts/materialize_blob_store.py:105-183 | A second run makes no blob. |
| ReapBlobs.ReferencedShas | scripts/reap_blob_store.py:98-108 | The set of digests of rows that SQL finds serviceable. |
| ReapBlobs.Scan | scripts/reap_blob_store.py:111-145 | Exactly the walked blobs that no succeeded, never given up row with a real path carries are listed: as orphans when their age reaches the limit, else as too young, with their sizes. |
| ReapBlobs.ListedExactly | scripts/reap_blob_store.py:111-145 | A blob is listed exactly when it was walked, is unreferenced and of that age. |
| ReapBlobs.SortedByAge | scripts/reap_blob_store.py:134-137 | Of the unneeded blobs those at least as old as the limit are orphans and the others too young, in numbers. |
| ReapBlobs.ReapedExactly | scripts/reap_blob_store.py:110-180 | A run leaves exactly the blobs that are no digest names, are needed, or are younger than the limit. |
| ReapBlobs.ScanIsTheReaper | scripts/reap_blob_store.py:117-150 | The reaper of the race, given the same walk and the same rows, condemns exactly the orphans of the scan, so that the theorems about the race are about this script. |
| ReapBlobs.Apply | scripts/reap_blob_store.py:169-178 | Removes the listed blobs and no others; what is counted as removed was there, and the bytes are theirs. |
| ReapBlobs.AppliedRun | scripts/reap_blob_store.py:111-178 | Scan and apply together remove exactly the old unreferenced blobs. |
| ReapBlobs.ReferencedBlobSurvives | scripts/reap_blob_store.py:98-178 | No number of runs over the same table touches a referenced blob. |
| ExportLifecycle.ReasonsStickOnEveryRun | scripts/backfill_export_paths.py:170-177 | Over every sequence of updates from any reports, materializing, reaping and changes of files, a reason is never cleared, changed or empty. |
| ExportLifecycle.PendingIsAccounted | scripts/materialize_blob_store.py:150-163 | Where a process has hashed and not yet linked, there is what it hashed, unless somebody has replaced or deleted it since; then there is that. |
| ExportLifecycle.SpoiledExactly | scripts/materialize_blob_store.py:105-163 | The blobs whose content is not their name are exactly those made from a file put, with another digest, in the place of one hashed before, and not removed since. |
| ExportLifecycle.NamesStayDigestsExactly | scripts/materialize_blob_store.py:105-163 | So over every run from a good store, each blob hashes to its name if and only if no such blob stands. |
| ExportLifecycle.UndisturbedRunsKeepNames | scripts/materialize_blob_store.py:105-163 | If nobody replaces a file between its hashing and its linking, every blob hashes to its name, whatever else is replaced, deleted or reaped. |
| ExportLifecycle.ReplacementSpoils | scripts/materialize_blob_store.py:150-163 | Hash, replace, link: three steps from a good store to a wrong blob. |
| ExportLifecycle.VerifyReportIsSound | scripts/verify_exports.py:175-209 | A verify report is such a step, however late it is applied. |
| ExportLifecycle.BackfillReportIsSound | scripts/backfill_export_paths.py:154-178 | So is a backfill report. |
| ExportLifecycle.HealReportIsSound | scripts/heal_exports_by_basename.py:120-126 | So is a heal report. |
| ExportLifecycle.TestsAgreeOnEveryRun | scripts/reap_blob_store.py:98-108 | From the migration on, truthiness in Python and IS NULL in SQL agree on every row of every reachable state. |
| ExportLifecycle.MaterializedBlobsSurviveReaping | scripts/materialize_blob_store.py:124-183 | After a materializing run every matching row has a blob with its digest, and reaping over the same table never takes it. |
| ExportLifecycle.EmptyReasonLosesItsBlob | scripts/materialize_blob_store.py:138-140 | A row with an empty reason would be served, and its blob reaped. |
| ReaperRace.StepKeepsInv | scripts/reap_blob_store.py:111-178 | While linked exporters are covered, what the reaper has condemned is old and counted on by nobody, in every step. |
| ReaperRace.CoveredRunsAreSafe | scripts/reap_blob_store.py:23-28 | No interleaving of one reaper with covered exporters and the materializer leaves a row without the blob it had. |
| ReaperRace.LossExactly | scripts/reap_blob_store.py:23-28 | With the reaper at rest a row can lose its blob, by reaping and committing alone, if and only if some linked exporter's blob is old and unreferenced. |
| ReaperRace.PromptRunsAreSafe | src/book_agent/infra/storage/blobs.py:78-142 | If exporters link only blobs they made and commit within the age limit of writing their file, no row ever loses its blob. |
| ReaperRace.AdoptedOrphanCanBeLost | src/book_agent/infra/storage/blobs.py:78-88 | An exporter that writes again what an old orphan holds can lose its blob without time passing. |
| Captions.NearestCaption | scripts/export_chapter_zh_html.py:1549-1580 | The nearest free eligible caption, the earliest on ties; none only if there is none. |
| Captions.PairCaptions | scripts/export_chapter_zh_html.py:1549-1580 | Every figure in turn has the nearest caption still free, on its page and within ten ordinals; the consumed captions are the paired ones. |
| Captions.PairingIsInjective | scripts/export_chapter_zh_html.py:1549-1580 | No caption serves two figures. |
| Captions.PairingIsMaximal | scripts/export_chapter_zh_html.py:1549-1580 | No unpaired figure and free caption are eligible for each other. |
| Captions.PairingIsUnique | scripts/export_chapter_zh_html.py:1549-1580 | The description leaves only one pairing. |
| Captions.PairsByOrdinal | scripts/export_chapter_zh_html.py:1549-1580 | In pages and ordinals: a pair stands on one page, ten ordinals apart at most; no caption left over for the figure is nearer, or as near and earlier; a figure without had none left. |
| PanelClusters.LooksInner | scripts/export_chapter_zh_html.py:1790-1822 | The look-ahead says yes exactly to a paragraph that a panel or the caption follows soon. |
| PanelClusters.WalkCluster | scripts/export_chapter_zh_html.py:1766-1827 | Finds the caption exactly if there is a cluster from here, with the members between. |
| PanelClusters.DetectClusters | scripts/export_chapter_zh_html.py:1753-1891 | All clusters that no earlier one absorbs, their crops, and exactly the absorbed blocks to skip. |
| PanelClusters.ClustersExactly | scripts/export_chapter_zh_html.py:1753-1827 | A cluster runs from an embedded image over at most eleven blocks to a real caption of its page, with another such image, labels that an image or the caption follows within five blocks, and blocks without a box in between, and begins inside no other. |
| PanelClusters.ClustersAreDisjoint | scripts/export_chapter_zh_html.py:1753-1891 | A later cluster starts after the caption of an earlier one. |
| PanelClusters.AbsorberIsUnique | scripts/export_chapter_zh_html.py:1753-1891 | No block is absorbed twice, and no absorbed block is itself a master. |
| PanelClusters.RangeIsAbsorbed | scripts/export_chapter_zh_html.py:1766-1827 | Every block with a box in the range of a cluster is a panel or inner text of it, on its page. |
| PanelClusters.CropBottom | scripts/export_chapter_zh_html.py:1839-1857 | The clamps amount to the minimum of lowest member + 28 and caption top - 3; members are shown in full exactly when the caption leaves room. |
| PanelClusters.CropShowsMembers | scripts/export_chapter_zh_html.py:1828-1863 | The crop ends above the caption and shows every member, up to that end. |
| PanelClusters.CropInPoints | scripts/export_chapter_zh_html.py:1828-1863 | The crop in points: twelve beyond the members left, above and right; below, 28 beyond the lowest or three above the caption, whichever is higher. |
| FigureCaptions.IndexCaptions | scripts/export_chapter_zh_html.py:1501-1504 | Every anchor of a caption leads to the last caption that carries it. |
| FigureCaptions.LinkPass | scripts/export_chapter_zh_html.py:1519-1530 | Consumes exactly the real captions that some figure is linked to. |
| FigureCaptions.FindIsolated | scripts/export_chapter_zh_html.py:1597-1644 | Exactly the drawings on a known page without caption, link to a real caption, and other figures within two ordinals. |
| FigureCaptions.Misdetected | scripts/export_chapter_zh_html.py:2116-2326 | Yes exactly for an unlinked figure with a tall box around two paragraphs, whose fallback caption is neither close nor leaves room for another crop. |
| FigureCaptions.SuppressSidebars | scripts/export_chapter_zh_html.py:2116-2326 | Suppresses exactly those, each judged by the caption the passes before gave it; their entries leave the dictionary and their captions the consumed set. |
| FigureCaptions.PlanFigures | scripts/export_chapter_zh_html.py:1501-2326 | All passes together: links, greedy pairing, isolated drawings, clusters, misdetected figures. |
| FigureCaptions.ImageAlt | scripts/export_chapter_zh_html.py:2585-2638 | The text below a figure: linked, then fallback caption if translated, the image's own, then linked, then fallback caption in the source language. |
| FigureCaptions.RenderFigures | scripts/export_chapter_zh_html.py:2425-2638 | Exactly the figures that no cluster has absorbed and that are no sidebars, each with its text. |
| FigureCaptions.LinkedExactly | scripts/export_chapter_zh_html.py:1501-1530 | A link leads to the last caption with its anchor, if that is a real one. |
| FigureCaptions.IsolatedExactly | scripts/export_chapter_zh_html.py:1597-1644 | The first kind of sidebar in the fields of the blocks. |
| FigureCaptions.MisdetectedExactly | scripts/export_chapter_zh_html.py:2116-2326 | The second kind in points: 50 high at least, four fifths of two paragraphs inside, its caption more than 40 from either edge and less than 119 down the page. |
| FigureCaptions.AltInOrder | scripts/export_chapter_zh_html.py:2585-2638 | The text below a figure, case by case, from links, pairs and clusters. |
| FigureCaptions.RenderedExactly | scripts/export_chapter_zh_html.py:2425-2449 | A figure is rendered exactly if it is no sidebar of either kind and no cluster has swallowed it. |
| FigureCaptions.NoneTwiceExactly | scripts/export_chapter_zh_html.py:2585-2638 | No caption is printed below two rendered figures, exactly unless two figures show a link to one caption, one shows a link to the caption that the master of a cluster shows, or a cluster's caption was free for and nearest to another figure at its turn and both show it. |
| FigureCaptions.ShownAndBlock | scripts/export_chapter_zh_html.py:2320-2326 | A caption below a figure is also printed as a block exactly if some figure that held it is suppressed as misdetected. |
| FigureCaptions.LostExactly | scripts/export_chapter_zh_html.py:2419-2428 | A caption is printed nowhere exactly if it is consumed and not given free, every figure linked to it is absorbed or shows something else, no master shows it, and the figure paired with it is absorbed, leads a cluster or shows something else. |
| FigureCaptions.EveryCaptionOnce | scripts/export_chapter_zh_html.py:1501-2638 | Every caption of a chapter is printed exactly once if and only if none of these five things happens. |
| FigureCaptions.DrawingSharesTheCaption | scripts/export_chapter_zh_html.py:1870-1874 | A drawing, two embedded panels and their caption: both the drawing and the master of the panels print it. |
| FigureCaptions.ReboundCaptionIsLost | scripts/export_chapter_zh_html.py:1870-1874 | Two panels between two captions: the first caption is printed nowhere, the second once. |
| FigureCaptions.AbsorbedPanelLosesACaption | scripts/export_chapter_zh_html.py:1865-1871 | Two panels, their caption, a drawing and its caption: the second panel takes the last caption, which is printed nowhere, and nothing stands below the drawing. |
| FigureCaptions.SuppressedMasterSpillsTheCaption | scripts/export_chapter_zh_html.py:2324-2326 | A drawing, a panel drawn around two labels, a panel and a caption: the caption is printed below the drawing and as a block. |
| ChapterExport.ExportChapter | scripts/export_chapter_zh_html.py:1501-2648 | Figure passes and text passes on one chapter: what clusters absorb and what is consumed or suppressed is what the text loop drops; the texts come out in order, none twice. |
| ChapterExport.CaptionIsEmitted | scripts/export_chapter_zh_html.py:2419-2428 | A caption with a text comes out as a block exactly if it is not consumed, whatever the text passes do. |
| ChapterExport.CaptionInExport | scripts/export_chapter_zh_html.py:2419-2638 | In the whole export a caption with a text is missing, or comes out both below a figure and as a block, exactly under the conditions for lost and for spilt captions. |
| Continuations.FindNext | scripts/export_chapter_zh_html.py:1982-2027 | The next block past at most two page headers, exactly when there is one. |
| Continuations.FindContinuations | scripts/export_chapter_zh_html.py:1982-2027 | Exactly the cut paragraphs are joined, and exactly the headers between them suppressed. |
| Continuations.ContinuationsExactly | scripts/export_chapter_zh_html.py:1982-2016 | In the fields of the blocks: a paragraph is recorded as going on from another exactly if that one ends openly, it begins with a small letter, and at most two page headers lie between. |
| Continuations.StraddledExactly | scripts/export_chapter_zh_html.py:1982-2016 | The suppressed page headers are those between a continuation and what it continues. |
| Continuations.JoinsIsOneToOne | scripts/export_chapter_zh_html.py:1982-2027 | A paragraph has at most one continuation and continues at most one. |
| Continuations.FollowChain | scripts/export_chapter_zh_html.py:2028-2045 | Following the links from a head terminates with its whole chain. |
| Continuations.BuildChains | scripts/export_chapter_zh_html.py:2028-2045 | Every chain is complete and hangs on its head; exactly the continuations are suppressed. |
| Continuations.ContinuationInItsChain | scripts/export_chapter_zh_html.py:2028-2045 | Every continuation lies in exactly one chain. |
| Continuations.ChainInOrder | scripts/export_chapter_zh_html.py:1982-2045 | A chain is in document order, and only page headers, at most two, lie between neighbours. |
| OrderedLists.GroupOrderedLists | scripts/export_chapter_zh_html.py:2056-2105 | The lists are exactly the maximal runs numbered 1 to k with k at least 3. |
| OrderedLists.ListsExactly | scripts/export_chapter_zh_html.py:2060-2105 | In the fields of the blocks: a list is three or more paragraphs in the open numbered from one, as long as the numbers go on. |
| OrderedLists.RunsAreDisjoint | scripts/export_chapter_zh_html.py:2056-2105 | Maximal runs that meet are the same. |
| Listings.CollectListings | scripts/export_chapter_zh_html.py:2368-2417 | Every listing header has its whole body, and exactly the bodies are taken out. |
| Listings.ListingsExactly | scripts/export_chapter_zh_html.py:2370-2416 | In the fields of the blocks: every header paragraph has the lines right after it, twelve at most. |
| Listings.BodiesAreDisjoint | scripts/export_chapter_zh_html.py:2368-2417 | No line belongs to two listings, and no header to one. |
| ChapterRender.PlanChapter | scripts/export_chapter_zh_html.py:1956-2417 | The passes one after the other leave maps and sets that fit together. |
| ChapterRender.Render | scripts/export_chapter_zh_html.py:2419-2648 | The loop emits, block by block, the pieces the plan assigns. |
| ChapterRender.PrintedInOrder | scripts/export_chapter_zh_html.py:2419-2648 | Whatever roles the blocks play, no text of a paragraph, list or listing is printed twice, and it is printed in document order; captions, which appear at their figures, are not part of this text. |
| ChapterRender.RenderChapter | scripts/export_chapter_zh_html.py:1956-2648 | Passes and loop: the text comes out in document order, no block's twice, and whatever is neither paragraph nor code exactly if it was not set aside. |
| ChapterRender.PrintedExactly | scripts/export_chapter_zh_html.py:2419-2648 | For every plan and every block with text: the text is printed if and only if the earliest block that claims it - as its listing, list or chain - is rendered and, if that heads a listing, the text belongs to the listing. |
| ChapterRender.ContinuationIsPrinted | scripts/export_chapter_zh_html.py:2512-2536 | A continuation that is a line of a listing begun no later than its chain is printed exactly if that header is not dropped; any other is lost in four cases only: the head of its chain ends an ordered list, is a listing line, heads a listing, or is hidden inside a figure. |
| ChapterRender.ItemIsPrinted | scripts/export_chapter_zh_html.py:2537-2563 | An item that is a line of a listing begun no later than its list is printed exactly if that header is not dropped; any other is lost in three cases only: the first item is a listing line, heads a listing (and then prints itself only), or is hidden inside a figure. |
| ChapterRender.LineIsPrinted | scripts/export_chapter_zh_html.py:2456-2472 | A listing line under a header that no earlier pass suppressed is printed exactly if the header is. |
| ChapterRender.PlainIsPrinted | scripts/export_chapter_zh_html.py:2419-2455 | A block that nothing else claims is printed unless it is dropped itself. |
| ChapterRender.OtherIsPrinted | scripts/export_chapter_zh_html.py:2419-2648 | Whatever is neither paragraph nor code, a heading for one, comes out exactly if it is no merged fragment, no part of a figure and not hidden. |
| ChapterRender.LoneTextIsPrinted | scripts/export_chapter_zh_html.py:2419-2648 | So does a paragraph or code block that continues nothing, stands in no list and no listing, and lies in no glued paragraph. |
| ChapterRender.HeaderInsideIsDropped | scripts/export_chapter_zh_html.py:1990-2036 | A page header inside a glued paragraph never comes out. |
| ChapterRender.ListingIsOnePiece | scripts/export_chapter_zh_html.py:2455-2476 | A listing comes out in one piece, the header first. |
| ChapterRender.ListIsOnePiece | scripts/export_chapter_zh_html.py:2537-2563 | A list comes out in one piece, item by item. |
| ChapterRender.GluedParagraphIsOnePiece | scripts/export_chapter_zh_html.py:2512-2536 | A paragraph comes out in one piece with all that is glued to it. |
| ChapterRender.ListTailLosesItsContinuation | scripts/export_chapter_zh_html.py:2086-2091 | A list whose last item goes on in the next block: that block is lost. |
| ChapterRender.ListingLineLosesItsContinuation | scripts/export_chapter_zh_html.py:2452-2472 | A listing cut by a page header: the paragraph after it is lost. |
| BulletLists.SplitTranslatedBulletList | scripts/export_chapter_zh_html.py:988-1013 | The items spell the sentences in order, every item after the first starts with a leader and no leader stands elsewhere; no visible character is lost. |
| BulletLists.ListComesApart | scripts/export_chapter_zh_html.py:988-1013 | A list written out as its items run together, each but the first opening with a leader, comes apart into these items. |
| BulletLists.GroupingIsUnique | scripts/export_chapter_zh_html.py:988-1013 | Sentences and leaders leave one way to group. |
| BulletLists.LeadInCharacters | scripts/export_chapter_zh_html.py:1001 | A leader is one to eighteen characters, none a dash, full stop or line break, and two dashes. |
| MidSentenceMerge.Walk | scripts/generate_zh_markdown.py:577-604 | A walk takes exactly what its start absorbs and leaves the start with its final text. |
| MidSentenceMerge.MergeCutParagraphs | scripts/generate_zh_markdown.py:562-604 | Exactly the absorbed blocks are merged; an absorber holds its text and its non-stray members in order, every other block its own; all walks together take at most n steps. |
| MidSentenceMerge.AbsorberIsUnique | scripts/generate_zh_markdown.py:562-604 | No block has two absorbers. |
| MidSentenceMerge.MergeIsUnique | scripts/generate_zh_markdown.py:562-604 | The description leaves only one merge. |
| MidSentenceMerge.MergedExactly | scripts/generate_zh_markdown.py:557-607 | In the texts: a block is merged away exactly when an unfinished paragraph that stays takes it, a stray fragment or ten characters and more, and every block on the way leaves the grown text unfinished. |
| MidSentenceMerge.FinalTextExactly | scripts/generate_zh_markdown.py:557-607 | The final text is the paragraph's own followed by what the taken blocks add, in document order. |
| VisualParagraphs.SplitIntoVisualParagraphs | scripts/render_bilingual_subset.py:259-289 | Breaks fall exactly after non-final short terminal lines; joined again the paragraphs are the lines, and no visible character is lost. |
| VisualParagraphs.LinesAreFound | scripts/render_bilingual_subset.py:270 | Trimmed lines written one below the other are found again. |
| VisualParagraphs.ThresholdByMedian | scripts/render_bilingual_subset.py:273-274 | A line is short up to 55% of the upper median of the lengths, and up to 20 characters. |
| VisualParagraphs.TerminalInCharacters | scripts/render_bilingual_subset.py:284 | A line ends with a full stop, an exclamation or a question mark, or with a full stop and one closer. |
| Redistribution.AssignBuckets | scripts/render_bilingual_subset.py:828-848 | Each non-blank sentence goes to the first matching paragraph from the cursor on, or to the cursor's; flattened, the buckets are the sentences in order. |
| Redistribution.MatchesVerbatim | scripts/render_bilingual_subset.py:828-848 | Between plain texts a paragraph matches exactly if it holds the sentence, or its first forty characters, verbatim. |
| Redistribution.KeptExactly | scripts/render_bilingual_subset.py:828-836 | Tidy sentences are placed as they are and blank ones left out. |
| Redistribution.PlacesGrow | scripts/render_bilingual_subset.py:828-848 | Bucket indices never decrease. |
| Redistribution.BucketsPartitionSentences | scripts/render_bilingual_subset.py:828-848 | Every sentence is in exactly one bucket, and in order. |
| Redistribution.SplitKeepsText | scripts/render_bilingual_subset.py:547-560 | Splitting a translation loses no visible character and makes no blank part. |
| Redistribution.SplitGivesSentences | scripts/render_bilingual_subset.py:547-560 | Round trip: whole sentences that run together, each with one stop at its end up to a closer, come apart into themselves. |
| Redistribution.SplitEndsWithStops | scripts/render_bilingual_subset.py:547-560 | On every text each part but the last ends with a stop, or with a stop and one closer. |
| Redistribution.ExpandMergedTargets | scripts/render_bilingual_subset.py:563-592 | Redistributes exactly when one target splits into as many parts as there are sentences, each part to its own sentence, else nothing changes; run-together sentences, one for each source sentence, are handed out one by one. |
| Redistribution.EmitParagraph | scripts/render_bilingual_subset.py:850-883 | The printed pairs, bucket by bucket. |
| Redistribution.PairsPrintAllBuckets | scripts/render_bilingual_subset.py:850-883 | Unless a sentence of a bucket is blank, the printed translations are those of all buckets, in order and up to whitespace. |
| Redistribution.PairsPrintAllSources | scripts/render_bilingual_subset.py:850-883 | The printed sources are those of all buckets, and the paragraph itself where a bucket is empty, in order and up to whitespace. |
| Redistribution.PairShowsSource | scripts/render_bilingual_subset.py:850-883 | A pair shows the sources of its own bucket; with one sentence, exactly that sentence and its translation. |
| Redistribution.ZhForExactly | scripts/render_bilingual_subset.py:850-883 | A tidy translation whose commentary is stripped to plain text is printed as it is; without one nothing is. |
| Redistribution.RedistributedTextIsPrinted | scripts/render_bilingual_subset.py:547-883 | After redistribution the printed text is the whole translation up to whitespace if and only if no source sentence is blank. |
| FigureSweep.DbBox | scripts/extract_pdf_images.py:40-47 | The smallest box around all blocks of a cluster. |
| FigureSweep.JoinsIsVerticalGap | scripts/extract_pdf_images.py:76-79 | For blocks taken from top to bottom the horizontal test never changes the outcome. |
| FigureSweep.ClusterBlocksOnPage | scripts/extract_pdf_images.py:56-88 | On every input the clusters partition the blocks, each with the page of its first block; for upright boxes and a positive threshold they are exactly the connected components of "vertical gap below the threshold". |
| FigureSweep.SortIsSorted | scripts/extract_pdf_images.py:64 | The sweep meets the same blocks from the top down. |
| FigureSweep.DifferentClustersAreFar | scripts/extract_pdf_images.py:56-88 | Blocks of different clusters are at least the threshold apart. |
| ProcessTree.BuildChildMap | scripts/watch_real_book_live.py:147-151 | The map holds exactly the parent-to-child rows. |
| ProcessTree.CollectDescendantPids | scripts/watch_real_book_live.py:147-160 | Stops on every table, and collects exactly the pids with a descent from the root, the root included. |
| ProcessTree.ClosedSetHoldsDescents | scripts/watch_real_book_live.py:147-160 | Every set that holds the root and is closed under children holds all of them. |
| ProcessTree.DescendsTransitively | scripts/watch_real_book_live.py:147-160 | Descent is reflexive and transitive. |

## Left out

- Text classifiers of the chapter exporter (page headers, captions, code against prose, list numbers): attributes of a block, given.
- `clean_text` of the Markdown generator, the stray-fragment test and the meta-phrase stripping: functions, given.
- ChapterRender.Render: the gluing of a callout heading to the next paragraph (scripts/export_chapter_zh_html.py:2490-2497), and the HTML around the text are not modelled; the texts below figures are those of FigureCaptions.RenderFigures.
- ChapterRender.PrintedInOrder: a caption is printed at its figure, which may come before or after the place of the caption block; captions are not part of the printed text, and neither is a callout heading.
- ChapterRender.RenderChapter: the same.
- FigureCaptions.PlanFigures: the crops made for figures that the parser has missed, the suppression of labels and the counters of the report; coordinates are real numbers.
- FigureCaptions.ImageAlt: that a text gets the number of its figure back when the translation has lost it.
- ChapterExport.ExportChapter: which headings are fragments and which texts lie inside figures is given; figures are emitted among the texts in the same loop, here in a map beside them.
- `_trim_top_body_text_leak`, `_expand_figure_bbox_to_drawings`, rendering figures from a PDF.
- The carried heading state of the bilingual renderer; its branches other than paragraphs.
- Redistribution.EmitParagraph: the banner of a pending note before the first chunk.
- The heading and image dedupe of the Markdown generator, placeholder rewriting and path dedupe of the image extractor.
- VisualParagraphs.SplitIntoVisualParagraphs: the product of a whole number with the float 0.55, cut to a whole number, is taken as `median * 55 / 100`.
- FigureSweep.ClusterBlocksOnPage: coordinates are real numbers; floating-point rounding is not modelled.
- RunStore.Store.constructor: seeding again, which skips the scopes that have an item already.
- RunStore.Store.ClaimById: the back-off that only repair items carry.
- RunStore.Store.ListClaimable: priority, creation and id of an item are one rank; the query's own scan limit and the back-off of repair items are not modelled.
- RunStore.Store.EnforceBudget: what has been used is given; the counters in the run's detail record and the audit events are left out.
- RunStore.Store.ReconcileTerminalState: the packets of the document are given as counts.
- SliceRunner.LimitHolds: one runner claims for the run; other executors of the same run are not modelled, nor commits whose acknowledgement is lost. The status counts cover all stages, as in the code.
- SliceRunner.LoopEndsUnlessWarned: an interrupt from the keyboard ends the loop too and is not modelled.
- Elapsed time between housekeeping rounds and polling timeouts: the loop's steps may come at any time.
- HealExports.Scan: only regular files count as existing, and symbolic links do not change during a run; the rejection of a healed path by the CHECK is not modelled.
- HealExports.RunInFields: rows whose path has no file name in it.
- BlobStore.Store.MaterializeAll: the dry run, and writing into a file through one of its hard links.
- ReapBlobs.ReferencedShas: the sentinel is matched with its case, as on PostgreSQL; SQLite would also take it in capitals.
- ReapBlobs.Scan: a blob under the wrong prefix directory, and pruning of empty directories.
- ReaperRace.CoveredRunsAreSafe: only one reaper runs at a time.
- ExportLifecycle.SpoiledExactly: a copy of a file is made in one step.
- Reports, progress output, command lines, PDF and model access, the web application.
