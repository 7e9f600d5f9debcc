/**
 * src/book_agent/infra/repositories/run_control.py and services/run_execution.py, run_control.py:
 * the work items of one run, the leases under which workers hold them, and the status of the run.
 */
module RunLedger {

  import opened Wrappers

  datatype ItemStatus = Pending | Leased | Running | Succeeded | RetryableFailed | TerminalFailed | Cancelled

  /** The stages of the pipeline, and the others, which have no part in the outcome of a run. */
  datatype Stage = Translate | Review | BilingualHtml | MergedHtml | OtherStage

  /** `rank` is the item's place in the order of priority, creation and id. */
  datatype Item = Item(stage: Stage, rank: int, status: ItemStatus, attempt: nat) {
    predicate Claimable() { status == Pending || status == RetryableFailed }
    predicate Owned() { status == Leased || status == Running }
  }

  datatype LeaseStatus = Active | Released | Expired

  datatype Lease = Lease(item: nat, status: LeaseStatus, expiresAt: int)

  datatype RunStatus =
    | RunQueued | RunRunning | RunDraining | RunPaused
    | RunSucceeded | RunSucceededWithWarnings | RunFailed | RunCancelled

  datatype StageStatus = NotStarted | StageRunning | StageSucceeded | StageFailed

  /** What the stages of the pipeline amount to. */
  datatype Outcome = StillRunning | AllSucceeded | OptionalStageFailed | RequiredStageFailed

  /** The packets of the document, counted by status. */
  datatype Packets = Packets(total: nat, translated: nat, failed: nat)

  datatype Budget = Budget(
    maxWallClock: Option<int>, maxNoProgress: Option<int>, maxCost: Option<real>, maxTokenIn: Option<int>,
    maxTokenOut: Option<int>, maxConsecutiveFailures: Option<int>)

  datatype Usage = Usage(
    elapsed: int, sinceProgress: int, cost: real, tokenIn: int, tokenOut: int, consecutiveFailures: int)

  /** What the budget asks for. */
  datatype Guard = WithinBudget | PauseRun | FailRun

  predicate Exceeds(used: int, limit: Option<int>)
  {
    limit.Some? && used >= limit.value
  }

  /** Some limit other than that on failures is reached. */
  predicate IsSpent(budget: Budget, usage: Usage)
  {
    || Exceeds(usage.elapsed, budget.maxWallClock) || Exceeds(usage.sinceProgress, budget.maxNoProgress)
    || (budget.maxCost.Some? && usage.cost >= budget.maxCost.value)
    || Exceeds(usage.tokenIn, budget.maxTokenIn) || Exceeds(usage.tokenOut, budget.maxTokenOut)
  }

  /** A spent budget pauses the run; only failures in a row, with everything else in bounds, fail it. */
  function GuardOf(budget: Option<Budget>, usage: Usage): Guard
  {
    if budget == None then WithinBudget
    else if IsSpent(budget.value, usage) then PauseRun
    else if Exceeds(usage.consecutiveFailures, budget.value.maxConsecutiveFailures) then FailRun
    else WithinBudget
  }

  predicate Live(run: RunStatus)
  {
    run == RunQueued || run == RunRunning || run == RunDraining
  }

  // ---- The ledger as a value --------------------------------------------------------------------

  datatype Ledger = Ledger(items: map<nat, Item>, leases: map<nat, Lease>, run: RunStatus) {

    predicate IsActive(token: nat)
    {
      token in leases && leases[token].status == Active
    }

    predicate Holds(token: nat, item: nat)
    {
      IsActive(token) && leases[token].item == item
    }

    /** Active leases and owned items correspond one to one. */
    ghost predicate Valid()
    {
      && (forall t :: t in leases ==> leases[t].item in items)
      && (forall t :: IsActive(t) ==> items[leases[t].item].Owned())
      && (forall t, u :: IsActive(t) && IsActive(u) && leases[t].item == leases[u].item ==> t == u)
      && (forall i :: i in items && items[i].Owned() ==> exists t :: Holds(t, i))
    }

    predicate CanClaim(item: nat, token: nat)
    {
      && (run == RunQueued || run == RunRunning)
      && item in items && items[item].Claimable() && token !in leases
    }
  }

  /** The succeeded items. */
  function Wins(l: Ledger): set<nat>
  {
    set i | i in l.items && l.items[i].status == Succeeded
  }

  /** What one call does. A token is a fresh identifier when its item is claimed. */
  datatype Op =
    | Claim(item: nat, token: nat, expiresAt: int)
    | Start(token: nat, expiresAt: int)
    | Beat(token: nat, expiresAt: int)
    | Succeed(token: nat)
    | Fail(token: nat, retryable: bool, maxRetries: Option<nat>)
    | Reclaim(now: int)
    | Enforce(guard: Guard)
    | Reconcile(packets: Packets)
    | SetRun(run: RunStatus)

  function FailureStatus(attempt: nat, retryable: bool, maxRetries: Option<nat>): ItemStatus
  {
    if retryable && (maxRetries == None || attempt < maxRetries.value) then RetryableFailed else TerminalFailed
  }

  /** The end of a lease: the item follows only if it is still owned. */
  function Settled(l: Ledger, token: nat, lease: LeaseStatus, item: ItemStatus): Ledger
    requires token in l.leases
  {
    var i := l.leases[token].item;
    Ledger(
      if i in l.items && l.items[i].Owned() then l.items[i := l.items[i].(status := item)] else l.items,
      l.leases[token := l.leases[token].(status := lease)], l.run)
  }

  predicate IsOverdue(l: Ledger, token: nat, now: int)
  {
    l.IsActive(token) && l.leases[token].expiresAt < now
  }

  /** Some overdue lease holds the item. */
  predicate IsLapsed(l: Ledger, item: nat, now: int)
  {
    exists t :: t in l.leases && IsOverdue(l, t, now) && l.leases[t].item == item
  }

  function Reclaimed(l: Ledger, now: int): Ledger
  {
    Ledger(
      map i | i in l.items ::
        if l.items[i].Owned() && IsLapsed(l, i, now) then l.items[i].(status := RetryableFailed) else l.items[i],
      map t | t in l.leases :: if IsOverdue(l, t, now) then l.leases[t].(status := Expired) else l.leases[t],
      l.run)
  }

  /** System transitions: a call that is not allowed from the present status changes nothing. */
  function Enforced(run: RunStatus, guard: Guard): RunStatus
  {
    if guard == PauseRun && Live(run) then RunPaused
    else if guard == FailRun && (Live(run) || run == RunPaused) then RunFailed
    else run
  }

  /** A stage's items; cancelled ones do not count. */
  predicate IsOf(item: Item, stage: Stage)
  {
    item.stage == stage && item.status != Cancelled
  }

  predicate HasItem(items: map<nat, Item>, stage: Stage)
  {
    exists i :: i in items && IsOf(items[i], stage)
  }

  predicate HasFailed(items: map<nat, Item>, stage: Stage)
  {
    exists i :: i in items && IsOf(items[i], stage) && items[i].status == TerminalFailed
  }

  predicate AllDone(items: map<nat, Item>, stage: Stage)
  {
    forall i :: i in items && IsOf(items[i], stage) ==> items[i].status == Succeeded
  }

  /** The stage that every run needs: packets and items must agree that it is done. */
  function TranslateStatus(items: map<nat, Item>, packets: Packets): StageStatus
  {
    if packets.total == 0 && !HasItem(items, Translate) then NotStarted
    else if packets.failed > 0 || HasFailed(items, Translate) then StageFailed
    else if packets.total > 0 && packets.translated == packets.total && HasItem(items, Translate)
            && AllDone(items, Translate) then StageSucceeded
    else StageRunning
  }

  /** A stage that the run may do without: it counts once it has items. */
  function OptionalStatus(items: map<nat, Item>, stage: Stage): StageStatus
  {
    if !HasItem(items, stage) then NotStarted
    else if HasFailed(items, stage) then StageFailed
    else if AllDone(items, stage) then StageSucceeded
    else StageRunning
  }

  predicate SomeOptional(items: map<nat, Item>, status: StageStatus)
  {
    || OptionalStatus(items, Review) == status || OptionalStatus(items, BilingualHtml) == status
    || OptionalStatus(items, MergedHtml) == status
  }

  function OutcomeOf(items: map<nat, Item>, packets: Packets): Outcome
  {
    if TranslateStatus(items, packets) == StageFailed then RequiredStageFailed
    else if TranslateStatus(items, packets) != StageSucceeded then StillRunning
    else if SomeOptional(items, StageRunning) then StillRunning
    else if SomeOptional(items, StageFailed) then OptionalStageFailed
    else AllSucceeded
  }

  function Concluded(run: RunStatus, outcome: Outcome): RunStatus
  {
    match outcome
    case RequiredStageFailed => RunFailed
    case AllSucceeded => RunSucceeded
    case OptionalStageFailed => RunSucceededWithWarnings
    case StillRunning => run
  }

  function Reconciled(l: Ledger, packets: Packets): RunStatus
  {
    if !Live(l.run) || (exists i :: i in l.items && l.items[i].Owned()) then l.run
    else if l.run == RunDraining && (exists i :: i in l.items && l.items[i].Claimable()) then RunPaused
    else Concluded(l.run, OutcomeOf(l.items, packets))
  }

  function Apply(l: Ledger, op: Op): Ledger
  {
    match op
    case Claim(item, token, expiresAt) =>
      if !l.CanClaim(item, token) then l
      else
        var again := if l.items[item].status == RetryableFailed then 1 else 0;
        l.(items := l.items[item := l.items[item].(status := Leased, attempt := l.items[item].attempt + again)],
           leases := l.leases[token := Lease(item, Active, expiresAt)])
    case Start(token, expiresAt) =>
      if !l.IsActive(token) then l
      else
        var i := l.leases[token].item;
        Ledger(
          if i in l.items && l.items[i].status == Leased then l.items[i := l.items[i].(status := Running)] else l.items,
          l.leases[token := l.leases[token].(expiresAt := expiresAt)], l.run)
    case Beat(token, expiresAt) =>
      if l.IsActive(token) && l.leases[token].item in l.items && l.items[l.leases[token].item].Owned()
      then l.(leases := l.leases[token := l.leases[token].(expiresAt := expiresAt)])
      else l
    case Succeed(token) =>
      if l.IsActive(token) then Settled(l, token, Released, Succeeded) else l
    case Fail(token, retryable, maxRetries) =>
      if !l.IsActive(token) || l.leases[token].item !in l.items then l
      else Settled(l, token, Released, FailureStatus(l.items[l.leases[token].item].attempt, retryable, maxRetries))
    case Reclaim(now) => Reclaimed(l, now)
    case Enforce(guard) => l.(run := Enforced(l.run, guard))
    case Reconcile(packets) => l.(run := Reconciled(l, packets))
    case SetRun(run) => l.(run := run)
  }

  function Run(l: Ledger, ops: seq<Op>): Ledger
  {
    if ops == [] then l else Apply(Run(l, ops[..|ops| - 1]), ops[|ops| - 1])
  }

  // ---- What every call keeps --------------------------------------------------------------------

  lemma ClaimKeepsValid(l: Ledger, item: nat, token: nat, expiresAt: int)
    requires l.Valid()
    ensures Apply(l, Claim(item, token, expiresAt)).Valid()
  {
    var l' := Apply(l, Claim(item, token, expiresAt));
    if l.CanClaim(item, token) {
      assert forall t :: l.IsActive(t) ==> l.leases[t].item != item;
      assert forall t :: l'.IsActive(t) <==> l.IsActive(t) || t == token;
      forall i | i in l'.items && l'.items[i].Owned() ensures exists t :: l'.Holds(t, i) {
        if i == item {
          assert l'.Holds(token, i);
        } else {
          var t :| l.Holds(t, i);
          assert l'.Holds(t, i);
        }
      }
    }
  }

  lemma StartKeepsValid(l: Ledger, token: nat, expiresAt: int)
    requires l.Valid()
    ensures Apply(l, Start(token, expiresAt)).Valid()
  {
    var l' := Apply(l, Start(token, expiresAt));
    forall i | i in l'.items && l'.items[i].Owned() ensures exists t :: l'.Holds(t, i) {
      var t :| l.Holds(t, i);
      assert l'.Holds(t, i);
    }
  }

  lemma BeatKeepsValid(l: Ledger, token: nat, expiresAt: int)
    requires l.Valid()
    ensures Apply(l, Beat(token, expiresAt)).Valid()
  {
    var l' := Apply(l, Beat(token, expiresAt));
    forall i | i in l'.items && l'.items[i].Owned() ensures exists t :: l'.Holds(t, i) {
      var t :| l.Holds(t, i);
      assert l'.Holds(t, i);
    }
  }

  lemma SettledIsValid(l: Ledger, token: nat, lease: LeaseStatus, item: ItemStatus)
    requires l.Valid() && l.IsActive(token) && lease != Active && item != Leased && item != Running
    ensures Settled(l, token, lease, item).Valid()
  {
    var l' := Settled(l, token, lease, item);
    forall i | i in l'.items && l'.items[i].Owned() ensures exists t :: l'.Holds(t, i) {
      var t :| l.Holds(t, i);
      assert l'.Holds(t, i);
    }
  }

  lemma ReclaimedIsValid(l: Ledger, now: int)
    requires l.Valid()
    ensures Reclaimed(l, now).Valid()
  {
    var l' := Reclaimed(l, now);
    forall t | l'.IsActive(t) ensures l'.items[l'.leases[t].item].Owned() {
      assert l.IsActive(t) && !IsOverdue(l, t, now);
      assert !IsLapsed(l, l.leases[t].item, now);
    }
    forall i | i in l'.items && l'.items[i].Owned() ensures exists t :: l'.Holds(t, i) {
      var t :| l.Holds(t, i);
      assert !IsOverdue(l, t, now);
      assert l'.Holds(t, i);
    }
  }

  /** Every call keeps the correspondence between leases and items. */
  lemma ApplyKeepsValid(l: Ledger, op: Op)
    requires l.Valid()
    ensures Apply(l, op).Valid()
  {
    match op
    case Claim(item, token, expiresAt) => ClaimKeepsValid(l, item, token, expiresAt);
    case Start(token, expiresAt) => StartKeepsValid(l, token, expiresAt);
    case Beat(token, expiresAt) => BeatKeepsValid(l, token, expiresAt);
    case Succeed(token) =>
      if l.IsActive(token) { SettledIsValid(l, token, Released, Succeeded); }
    case Fail(token, retryable, maxRetries) =>
      if l.IsActive(token) {
        SettledIsValid(l, token, Released,
          FailureStatus(l.items[l.leases[token].item].attempt, retryable, maxRetries));
      }
    case Reclaim(now) => ReclaimedIsValid(l, now);
    case Enforce(_) => SameItemsAndLeases(l, Apply(l, op));
    case Reconcile(_) => SameItemsAndLeases(l, Apply(l, op));
    case SetRun(_) => SameItemsAndLeases(l, Apply(l, op));
  }

  lemma SameItemsAndLeases(l: Ledger, l': Ledger)
    requires l.Valid() && l'.items == l.items && l'.leases == l.leases
    ensures l'.Valid()
  {
    forall i | i in l.items && l.items[i].Owned() ensures exists t :: l'.Holds(t, i) {
      var t :| l.Holds(t, i);
      assert l'.Holds(t, i);
    }
  }

  // ---- Fencing ----------------------------------------------------------------------------------

  /** A lease that has ended stays ended, and its token changes nothing any more. */
  lemma {:induction false} DeadTokenIsInert(l: Ledger, token: nat, ops: seq<Op>)
    requires token in l.leases && !l.IsActive(token)
    ensures var l' := Run(l, ops);
      && token in l'.leases && !l'.IsActive(token)
      && Apply(l', Succeed(token)) == l'
      && (forall e :: Apply(l', Start(token, e)) == l' && Apply(l', Beat(token, e)) == l')
      && (forall r, m :: Apply(l', Fail(token, r, m)) == l')
  {
    if ops != [] {
      DeadTokenIsInert(l, token, ops[..|ops| - 1]);
    }
  }

  // ---- Accounting for successes -----------------------------------------------------------------

  predicate Commits(l: Ledger, op: Op)
  {
    op.Succeed? && l.IsActive(op.token)
  }

  /**
   * The number of succeeded items changes only when a live token reports success, and then by one. A
   * succeeded item never leaves that status.
   */
  lemma WinsOfApply(l: Ledger, op: Op)
    requires l.Valid()
    ensures Wins(l) <= Wins(Apply(l, op))
    ensures |Wins(Apply(l, op))| == |Wins(l)| + if Commits(l, op) then 1 else 0
  {
    if Commits(l, op) {
      CommitAddsWin(l, op.token);
    } else {
      SameWins(l, op);
      hide Apply, Ledger.Valid;
    }
  }

  lemma CommitAddsWin(l: Ledger, token: nat)
    requires l.Valid() && l.IsActive(token)
    ensures Wins(l) <= Wins(Apply(l, Succeed(token))) && |Wins(Apply(l, Succeed(token)))| == |Wins(l)| + 1
  {
    var i := l.leases[token].item;
    assert Wins(Apply(l, Succeed(token))) == Wins(l) + {i} && i !in Wins(l);
  }

  lemma SameWins(l: Ledger, op: Op)
    requires l.Valid() && !Commits(l, op)
    ensures Wins(Apply(l, op)) == Wins(l)
  {
    hide Apply, Wins, Ledger.Valid;
    var l' := Apply(l, op);
    forall i: nat ensures i in Wins(l') <==> i in Wins(l) {
      SameWin(l, op, i);
    }
  }

  lemma SameWin(l: Ledger, op: Op, i: nat)
    requires l.Valid() && !Commits(l, op)
    ensures i in Wins(Apply(l, op)) <==> i in Wins(l)
  {
    hide Reconciled, Enforced, IsLapsed;
  }

  /** How many calls of `ops` committed a success. */
  function Committed(l: Ledger, ops: seq<Op>): nat
  {
    if ops == [] then 0
    else
      var front := ops[..|ops| - 1];
      Committed(l, front) + if Commits(Run(l, front), ops[|ops| - 1]) then 1 else 0
  }

  /** Over every run of calls: the ledger stays valid, and successes are conserved. */
  lemma {:induction false} WinsAreConserved(l: Ledger, ops: seq<Op>)
    requires l.Valid()
    ensures Run(l, ops).Valid() && Wins(l) <= Wins(Run(l, ops))
    ensures |Wins(Run(l, ops))| == |Wins(l)| + Committed(l, ops)
  {
    if ops != [] {
      var front := Run(l, ops[..|ops| - 1]);
      WinsAreConserved(l, ops[..|ops| - 1]);
      ApplyKeepsValid(front, ops[|ops| - 1]);
      WinsOfApply(front, ops[|ops| - 1]);
      hide Apply, Ledger.Valid, Wins;
    }
  }

  /** A token commits at most once: after its success every further report of it is ignored. */
  lemma TokenCommitsOnce(l: Ledger, token: nat, ops: seq<Op>)
    requires Commits(l, Succeed(token))
    ensures !Commits(Run(Apply(l, Succeed(token)), ops), Succeed(token))
  {
    DeadTokenIsInert(Apply(l, Succeed(token)), token, ops);
  }

  // ---- The outcome of a run ---------------------------------------------------------------------

  predicate IsOptional(stage: Stage)
  {
    stage == Review || stage == BilingualHtml || stage == MergedHtml
  }

  /** The document is translated, as the packets and the items say. */
  predicate IsTranslated(items: map<nat, Item>, packets: Packets)
  {
    && packets.total > 0 && packets.translated == packets.total && packets.failed == 0
    && HasItem(items, Translate) && AllDone(items, Translate)
  }

  /** Nothing of an optional stage is open any more: it has failed, or all of it has succeeded. */
  predicate IsSettled(items: map<nat, Item>, stage: Stage)
  {
    HasFailed(items, stage) || AllDone(items, stage)
  }

  /**
   * A run ends with warnings exactly when its document is translated, nothing optional is open, and an item of
   * an optional stage has failed for good.
   */
  lemma EndsWithWarnings(items: map<nat, Item>, packets: Packets)
    ensures OutcomeOf(items, packets) == OptionalStageFailed
       <==> && IsTranslated(items, packets)
            && (forall stage :: IsOptional(stage) ==> IsSettled(items, stage))
            && exists stage :: IsOptional(stage) && HasFailed(items, stage)
  {
    assert IsTranslated(items, packets) <==> TranslateStatus(items, packets) == StageSucceeded;
    forall stage | IsOptional(stage)
      ensures OptionalStatus(items, stage) == StageFailed <==> HasFailed(items, stage)
      ensures OptionalStatus(items, stage) == StageRunning <==> !IsSettled(items, stage)
    {}
    hide HasItem, HasFailed, AllDone, IsTranslated, TranslateStatus, OptionalStatus, IsSettled;
    assert IsOptional(Review) && IsOptional(BilingualHtml) && IsOptional(MergedHtml);
  }

  /** Something of the stage has failed for good. */
  ghost predicate HasFailure(items: map<nat, Item>, stage: Stage)
  {
    exists i :: i in items && items[i].stage == stage && items[i].status == TerminalFailed
  }

  /** Everything of the stage has succeeded, but for what was cancelled. */
  ghost predicate IsComplete(items: map<nat, Item>, stage: Stage)
  {
    forall i :: i in items && items[i].stage == stage && items[i].status != Cancelled ==> items[i].status == Succeeded
  }

  ghost predicate HasWork(items: map<nat, Item>, stage: Stage)
  {
    exists i :: i in items && items[i].stage == stage && items[i].status != Cancelled
  }

  /** All packets are translated and so are all items, of which there is one at least. */
  ghost predicate IsAllTranslated(items: map<nat, Item>, packets: Packets)
  {
    && packets.total > 0 && packets.translated == packets.total && packets.failed == 0
    && HasWork(items, Translate) && IsComplete(items, Translate)
  }

  ghost predicate IsIdle(l: Ledger)
  {
    forall i :: i in l.items ==> l.items[i].status != Leased && l.items[i].status != Running
  }

  ghost predicate IsDrained(l: Ledger)
  {
    forall i :: i in l.items ==> l.items[i].status != Pending && l.items[i].status != RetryableFailed
  }

  /** What is to become of a live run with nothing in hand, and nothing waiting if it is draining. */
  ghost predicate EndsAs(items: map<nat, Item>, packets: Packets, was: RunStatus, run: RunStatus)
  {
    && (run == RunSucceeded <==>
          && IsAllTranslated(items, packets)
          && IsComplete(items, Review) && IsComplete(items, BilingualHtml) && IsComplete(items, MergedHtml))
    && (run == RunSucceededWithWarnings <==>
          && IsAllTranslated(items, packets)
          && (HasFailure(items, Review) || IsComplete(items, Review))
          && (HasFailure(items, BilingualHtml) || IsComplete(items, BilingualHtml))
          && (HasFailure(items, MergedHtml) || IsComplete(items, MergedHtml))
          && (HasFailure(items, Review) || HasFailure(items, BilingualHtml) || HasFailure(items, MergedHtml)))
    && (run == RunFailed <==>
          HasFailure(items, Translate) || (packets.failed > 0 && (packets.total > 0 || HasWork(items, Translate))))
    && (run == was || run == RunSucceeded || run == RunSucceededWithWarnings || run == RunFailed)
  }

  /** Reconciling ends a run as its items and packets say; it moves nothing else, and no other run but a drained one. */
  lemma ReconciledAsItemsSay(l: Ledger, packets: Packets)
    ensures var l' := Apply(l, Reconcile(packets));
      && l'.items == l.items && l'.leases == l.leases
      && (l.run == RunQueued || l.run == RunRunning || l.run == RunDraining ==>
            if !IsIdle(l) then l'.run == l.run
            else if l.run == RunDraining && !IsDrained(l) then l'.run == RunPaused
            else EndsAs(l.items, packets, l.run, l'.run))
      && (l.run != RunQueued && l.run != RunRunning && l.run != RunDraining ==> l'.run == l.run)
  {
    hide HasItem, HasFailed, AllDone, EndsAs, OutcomeOf, Concluded;
    ConcludedAsItemsSay(l.items, packets, l.run);
    assert IsIdle(l) <==> !exists i :: i in l.items && l.items[i].Owned();
    assert IsDrained(l) <==> !exists i :: i in l.items && l.items[i].Claimable();
  }

  lemma ConcludedAsItemsSay(items: map<nat, Item>, packets: Packets, run: RunStatus)
    ensures run == RunQueued || run == RunRunning || run == RunDraining ==>
      EndsAs(items, packets, run, Concluded(run, OutcomeOf(items, packets)))
  {
    hide HasItem, HasFailed, AllDone, HasFailure, IsComplete, HasWork;
    StageAsItemsSay(items, Translate);
    StageAsItemsSay(items, Review);
    StageAsItemsSay(items, BilingualHtml);
    StageAsItemsSay(items, MergedHtml);
  }

  lemma StageAsItemsSay(items: map<nat, Item>, stage: Stage)
    ensures HasItem(items, stage) <==> HasWork(items, stage)
    ensures HasFailed(items, stage) <==> HasFailure(items, stage)
    ensures AllDone(items, stage) <==> IsComplete(items, stage)
    ensures HasFailure(items, stage) ==> !IsComplete(items, stage) && HasWork(items, stage)
    ensures !HasWork(items, stage) ==> IsComplete(items, stage)
  {}

  // ---- The diagrams of items, leases and runs ---------------------------------------------------

  /** The token has an active lease on the item. */
  predicate IsHeld(l: Ledger, token: nat, item: nat)
  {
    token in l.leases && l.leases[token].status == Active && l.leases[token].item == item
  }

  /** Some active lease on the item ended before `now`. */
  predicate IsAbandoned(l: Ledger, item: nat, now: int)
  {
    exists t :: t in l.leases && l.leases[t].status == Active && l.leases[t].item == item && l.leases[t].expiresAt < now
  }

  /** The failure may be retried. */
  predicate MayRetry(attempt: nat, op: Op)
    requires op.Fail?
  {
    op.retryable && (op.maxRetries.Some? ==> attempt < op.maxRetries.value)
  }

  /** The call is a claim that succeeds. */
  predicate Claims(l: Ledger, op: Op, item: nat)
  {
    && op.Claim? && op.item == item && op.token !in l.leases && (l.run == RunQueued || l.run == RunRunning)
    && item in l.items && (l.items[item].status == Pending || l.items[item].status == RetryableFailed)
  }

  /**
   * The life of an item: which call moves it to which status, and no other does. Nothing ever goes back to
   * Pending, and the attempts grow by one when a failed item is claimed again.
   */
  lemma ItemMoves(l: Ledger, op: Op, i: nat)
    requires l.Valid() && i in l.items
    ensures i in Apply(l, op).items
    ensures var was, item := l.items[i], Apply(l, op).items[i];
      && item.stage == was.stage && item.rank == was.rank
      && item.attempt == was.attempt + (if Claims(l, op, i) && was.status == RetryableFailed then 1 else 0)
      && (item.status == Leased && was.status != Leased <==> Claims(l, op, i))
      && (item.status == Running && was.status != Running <==>
            op.Start? && IsHeld(l, op.token, i) && was.status == Leased)
      && (item.status == Succeeded && was.status != Succeeded <==> op.Succeed? && IsHeld(l, op.token, i))
      && (item.status == TerminalFailed && was.status != TerminalFailed <==>
            op.Fail? && IsHeld(l, op.token, i) && !MayRetry(was.attempt, op))
      && (item.status == RetryableFailed && was.status != RetryableFailed <==>
            (op.Fail? && IsHeld(l, op.token, i) && MayRetry(was.attempt, op))
            || (op.Reclaim? && IsAbandoned(l, i, op.now)))
      && (item.status == Pending ==> was.status == Pending) && (item.status == Cancelled ==> was.status == Cancelled)
  {
    hide Reconciled, Enforced;
    assert forall t :: IsHeld(l, t, i) ==> l.items[i].Owned();
    if op.Reclaim? {
      assert IsLapsed(l, i, op.now) <==> IsAbandoned(l, i, op.now);
    }
  }

  /** The life of a lease: made by a claim, moved on by start and heartbeat, ended once and for all. */
  lemma LeaseMoves(l: Ledger, op: Op, t: nat)
    requires l.Valid()
    ensures t in Apply(l, op).leases <==> t in l.leases || (op.Claim? && op.token == t && Claims(l, op, op.item))
    ensures t !in l.leases && t in Apply(l, op).leases ==>
      Apply(l, op).leases[t] == Lease(op.item, Active, op.expiresAt)
    ensures t in l.leases ==> var was, lease := l.leases[t], Apply(l, op).leases[t];
      && lease.item == was.item
      && lease.expiresAt == (if (op.Start? || op.Beat?) && op.token == t && was.status == Active then op.expiresAt
                             else was.expiresAt)
      && (lease.status == Active ==> was.status == Active)
      && (lease.status == Released && was.status != Released <==>
            (op.Succeed? || op.Fail?) && op.token == t && was.status == Active)
      && (lease.status == Expired && was.status != Expired <==>
            op.Reclaim? && was.status == Active && was.expiresAt < op.now)
  {
    hide Reconciled, Enforced, IsLapsed;
  }

  /** Calls on items and leases leave the run alone; the budget pauses a live run or fails one that may go on. */
  lemma RunMoves(l: Ledger, op: Op)
    requires !op.Reconcile?
    ensures var run := Apply(l, op).run;
      if op.SetRun? then run == op.run
      else if op.Enforce? && op.guard == PauseRun
              && (l.run == RunQueued || l.run == RunRunning || l.run == RunDraining) then run == RunPaused
      else if op.Enforce? && op.guard == FailRun
              && (l.run == RunQueued || l.run == RunRunning || l.run == RunDraining || l.run == RunPaused)
        then run == RunFailed
      else run == l.run
  {
    hide Reclaimed, Settled;
    assert op.Reclaim? ==> Reclaimed(l, op.now).run == l.run by { ReclaimKeepsRun(l, op); }
    assert op.Succeed? || op.Fail? ==> Apply(l, op).run == l.run by { SettledKeepsRun(l, op); }
  }

  /**
   * A budget, limit by limit: reaching that on time, progress, cost or tokens pauses a live run; reaching that
   * on failures in a row, and no other, fails a run that is live or paused; nothing else moves it.
   */
  lemma BudgetMovesRun(l: Ledger, b: Budget, u: Usage)
    ensures Apply(l, Enforce(GuardOf(None, u))) == l
    ensures var run := Apply(l, Enforce(GuardOf(Some(b), u))).run;
      var spent := (b.maxWallClock.Some? && u.elapsed >= b.maxWallClock.value)
        || (b.maxNoProgress.Some? && u.sinceProgress >= b.maxNoProgress.value)
        || (b.maxCost.Some? && u.cost >= b.maxCost.value)
        || (b.maxTokenIn.Some? && u.tokenIn >= b.maxTokenIn.value)
        || (b.maxTokenOut.Some? && u.tokenOut >= b.maxTokenOut.value);
      var failing := b.maxConsecutiveFailures.Some? && u.consecutiveFailures >= b.maxConsecutiveFailures.value;
      var live := l.run == RunQueued || l.run == RunRunning || l.run == RunDraining;
      if spent && live then run == RunPaused
      else if !spent && failing && (live || l.run == RunPaused) then run == RunFailed
      else run == l.run
  {}

  lemma ReclaimKeepsRun(l: Ledger, op: Op)
    ensures op.Reclaim? ==> Reclaimed(l, op.now).run == l.run
  {}

  lemma SettledKeepsRun(l: Ledger, op: Op)
    ensures op.Succeed? || op.Fail? ==> Apply(l, op).run == l.run
  {}

  // ---- Retries ----------------------------------------------------------------------------------

  /** `n` rounds in which a worker claims the item and is not heard of again. */
  function LapseRounds(item: nat, token: nat, now: int, n: nat): seq<Op>
  {
    if n == 0 then []
    else LapseRounds(item, token, now, n - 1) + [Claim(item, token + n - 1, now + n)] + [Reclaim(now + n + 1)]
  }

  predicate AwaitsRetry(l: Ledger, item: nat, attempt: nat, token: nat)
  {
    && (l.run == RunQueued || l.run == RunRunning) && item in l.items && l.items[item].status == RetryableFailed
    && l.items[item].attempt == attempt && forall t :: t in l.leases ==> t < token
  }

  lemma LapsedRound(l: Ledger, item: nat, attempt: nat, token: nat, expiresAt: int)
    requires AwaitsRetry(l, item, attempt, token)
    ensures var claimed := Apply(l, Claim(item, token, expiresAt));
      AwaitsRetry(Apply(claimed, Reclaim(expiresAt + 1)), item, attempt + 1, token + 1)
  {
    var claimed := Apply(l, Claim(item, token, expiresAt));
    assert IsOverdue(claimed, token, expiresAt + 1);
    assert IsLapsed(claimed, item, expiresAt + 1);
  }

  lemma OneCallMore(l: Ledger, ops: seq<Op>, op: Op)
    ensures Run(l, ops + [op]) == Apply(Run(l, ops), op)
  {
    assert (ops + [op])[..|ops|] == ops;
  }

  /**
   * The retry budget bounds the failures that workers report, not the leases they let lapse: an item whose
   * workers die is claimed again for ever. After `n` rounds it waits for its next claim, `n` attempts further,
   * whatever the budget.
   */
  lemma {:induction false} LapsesAreNotBudgeted(l: Ledger, item: nat, attempt: nat, token: nat, now: int, n: nat)
    requires AwaitsRetry(l, item, attempt, token)
    ensures AwaitsRetry(Run(l, LapseRounds(item, token, now, n)), item, attempt + n, token + n)
  {
    hide AwaitsRetry, Apply;
    if n > 0 {
      LapsesAreNotBudgeted(l, item, attempt, token, now, n - 1);
      var before := LapseRounds(item, token, now, n - 1);
      LapsedRound(Run(l, before), item, attempt + n - 1, token + n - 1, now + n);
      OneCallMore(l, before, Claim(item, token + n - 1, now + n));
      OneCallMore(l, before + [Claim(item, token + n - 1, now + n)], Reclaim(now + n + 1));
      hide Run;
    }
  }

  /** A failure that a worker reports is final exactly when it is not retryable or the budget is spent. */
  lemma ReportedFailureIsFinal(l: Ledger, token: nat, retryable: bool, maxRetries: Option<nat>)
    requires l.Valid() && l.IsActive(token)
    ensures var item := l.leases[token].item;
      var l' := Apply(l, Fail(token, retryable, maxRetries));
      && !l'.items[item].Owned() && l'.items[item].attempt == l.items[item].attempt
      && (l'.items[item].Claimable()
          <==> retryable && (maxRetries.Some? ==> l.items[item].attempt < maxRetries.value))
  {
    assert l.items[l.leases[token].item].Owned();
  }
}

/** The tables themselves, updated in place by the calls of the service. */
module RunStore {
  import opened RunLedger
  import opened Wrappers

  datatype ClaimResult = NoSuchItem | NotClaimed | ClaimedItem(item: nat, attempt: nat)

  /** How many open items one query returns. */
  const QUERY_LIMIT := 32

  /** The item waits to be claimed for the stage. */
  predicate IsOpen(l: Ledger, stage: Stage, item: nat)
  {
    item in l.items && l.items[item].Claimable() && l.items[item].stage == stage
  }

  function RankOf(l: Ledger, item: nat): int
  {
    if item in l.items then l.items[item].rank else 0
  }

  function ExpiryOf(l: Ledger, token: nat): int
  {
    if token in l.leases then l.leases[token].expiresAt else 0
  }

  /** The tokens by the end of their leases, the earliest first. */
  ghost predicate AreByExpiry(l: Ledger, tokens: seq<nat>)
  {
    forall j, k :: 0 <= j < k < |tokens| ==> ExpiryOf(l, tokens[j]) <= ExpiryOf(l, tokens[k])
  }

  /** `ids` in the order of their keys, and none of `rest` before one of them. */
  ghost predicate IsSorted(ids: seq<nat>, rest: set<nat>, key: nat -> int)
  {
    && Distinct(ids)
    && (forall i :: i in rest ==> i !in ids)
    && (forall j, k :: 0 <= j < k < |ids| ==> key(ids[j]) <= key(ids[k]))
    && (forall i, k :: i in rest && 0 <= k < |ids| ==> key(ids[k]) <= key(i))
  }

  function ByRank(l: Ledger): nat -> int
  {
    (i: nat) => RankOf(l, i)
  }

  function ByExpiry(l: Ledger): nat -> int
  {
    (t: nat) => ExpiryOf(l, t)
  }

  /** `ids` are the first open items of a stage by rank, at most `limit`; the others are `rest`. */
  ghost predicate IsQueueBefore(l: Ledger, stage: Stage, limit: nat, ids: seq<nat>, rest: set<nat>)
  {
    && IsSorted(ids, rest, ByRank(l)) && |ids| <= limit && (|ids| == limit || rest == {})
    && forall i: nat :: IsOpen(l, stage, i) <==> i in ids || i in rest
  }

  ghost predicate IsQueue(l: Ledger, stage: Stage, limit: nat, ids: seq<nat>)
  {
    exists rest: set<nat> :: IsQueueBefore(l, stage, limit, ids, rest)
  }

  function OpenItems(l: Ledger, stage: Stage): set<nat>
  {
    set i | i in l.items && IsOpen(l, stage, i)
  }

  function OverdueTokens(l: Ledger, now: int): set<nat>
  {
    set t | t in l.leases && IsOverdue(l, t, now)
  }

  lemma QueueIsDealt(l: Ledger, stage: Stage, limit: nat, ids: seq<nat>, rest: set<nat>)
    requires IsDealt(OpenItems(l, stage), ids, rest, ByRank(l)) && |ids| <= limit && (|ids| == limit || rest == {})
    ensures IsQueue(l, stage, limit, ids)
  {
    assert forall i: nat :: i in OpenItems(l, stage) <==> IsOpen(l, stage, i);
    hide IsSorted, IsOpen, ByRank;
    assert IsQueueBefore(l, stage, limit, ids, rest);
  }

  lemma OverdueIsDealt(l: Ledger, now: int, overdue: seq<nat>)
    requires IsDealt(OverdueTokens(l, now), overdue, {}, ByExpiry(l))
    ensures ListsOverdue(l, overdue, now) && AreByExpiry(l, overdue)
  {
    assert forall t: nat :: t in OverdueTokens(l, now) <==> IsOverdue(l, t, now);
    hide IsOverdue, ExpiryOf;
  }

  /** The query's answer in the fields of the items: open items of the stage by rank, and no better one left out. */
  lemma QueueByRank(l: Ledger, stage: Stage, limit: nat, ids: seq<nat>)
    requires IsQueue(l, stage, limit, ids)
    ensures |ids| <= limit
    ensures forall k :: 0 <= k < |ids| ==>
      && ids[k] in l.items && l.items[ids[k]].stage == stage
      && (l.items[ids[k]].status == Pending || l.items[ids[k]].status == RetryableFailed)
    ensures forall j, k :: 0 <= j < k < |ids| ==> ids[j] != ids[k] && l.items[ids[j]].rank <= l.items[ids[k]].rank
    ensures forall i ::
      && i in l.items && l.items[i].stage == stage && i !in ids
      && (l.items[i].status == Pending || l.items[i].status == RetryableFailed) ==>
        |ids| == limit && forall k :: 0 <= k < |ids| ==> l.items[ids[k]].rank <= l.items[i].rank
  {
    var rest: set<nat> :| IsQueueBefore(l, stage, limit, ids, rest);
    assert forall i: nat :: ByRank(l)(i) == RankOf(l, i);
    assert forall k :: 0 <= k < |ids| ==> IsOpen(l, stage, ids[k]);
    forall i | i in l.items && l.items[i].stage == stage && l.items[i].status in {Pending, RetryableFailed}
      ensures i in ids || i in rest
    {
      assert IsOpen(l, stage, i);
    }
  }

  /** The overdue leases in their fields, each once, the earliest expiry first. */
  lemma OverdueByExpiry(l: Ledger, tokens: seq<nat>, now: int)
    requires ListsOverdue(l, tokens, now) && AreByExpiry(l, tokens)
    ensures forall t :: t in tokens <==> t in l.leases && l.leases[t].status == Active && l.leases[t].expiresAt < now
    ensures forall j, k :: 0 <= j < k < |tokens| ==>
      tokens[j] != tokens[k] && l.leases[tokens[j]].expiresAt <= l.leases[tokens[k]].expiresAt
  {
    assert forall k :: 0 <= k < |tokens| ==> tokens[k] in tokens && IsOverdue(l, tokens[k], now);
  }

  /** No open item of the stage comes before this one. */
  ghost predicate IsFirstOpen(l: Ledger, stage: Stage, item: nat)
  {
    forall i :: IsOpen(l, stage, i) ==> RankOf(l, item) <= RankOf(l, i)
  }

  lemma QueueHead(l: Ledger, stage: Stage, limit: nat, ids: seq<nat>)
    requires IsQueue(l, stage, limit, ids) && limit > 0
    ensures ids == [] ==> forall i :: !IsOpen(l, stage, i)
    ensures forall k :: 0 <= k < |ids| ==> IsOpen(l, stage, ids[k])
    ensures ids != [] ==> IsFirstOpen(l, stage, ids[0])
  {
    hide IsOpen, RankOf;
    var rest: set<nat> :| IsQueueBefore(l, stage, limit, ids, rest);
    if ids != [] {
      forall i: nat | IsOpen(l, stage, i) ensures RankOf(l, ids[0]) <= RankOf(l, i) {
        assert ByRank(l)(ids[0]) <= ByRank(l)(i);
      }
    }
  }

  predicate IsLeast(ids: set<nat>, key: nat -> int, t: nat)
  {
    t in ids && forall u: nat :: u in ids ==> key(t) <= key(u)
  }

  lemma {:induction false} LeastExists(ids: set<nat>, key: nat -> int)
    requires ids != {}
    ensures exists t: nat :: t in ids && IsLeast(ids, key, t)
    decreases |ids|
  {
    var t: nat :| t in ids;
    var rest := ids - {t};
    if rest == {} {
      assert forall u :: u in ids && u != t ==> u in rest;
      assert IsLeast(ids, key, t);
    } else {
      LeastExists(rest, key);
      var m: nat :| m in rest && IsLeast(rest, key, m);
      LeastOfTwo(ids, key, t, rest, m);
    }
  }

  lemma LeastOfTwo(ids: set<nat>, key: nat -> int, t: nat, rest: set<nat>, m: nat)
    requires t in ids && rest == ids - {t} && IsLeast(rest, key, m)
    ensures IsLeast(ids, key, t) || IsLeast(ids, key, m)
  {
    assert forall u: nat :: u in ids ==> u == t || u in rest;
  }

  /** `all` is dealt out between `ids` and `rest`. */
  ghost predicate IsDealt(all: set<nat>, ids: seq<nat>, rest: set<nat>, key: nat -> int)
  {
    IsSorted(ids, rest, key) && forall i: nat :: i in all <==> i in ids || i in rest
  }

  lemma StartDealing(all: set<nat>, key: nat -> int)
    ensures IsDealt(all, [], all, key)
  {}

  lemma TakeLeast(all: set<nat>, ids: seq<nat>, rest: set<nat>, key: nat -> int, t: nat)
    requires IsDealt(all, ids, rest, key) && IsLeast(rest, key, t)
    ensures IsDealt(all, ids + [t], rest - {t}, key)
  {}

  /** The run's status lets items be claimed. */
  predicate TakesClaims(l: Ledger)
  {
    l.run == RunQueued || l.run == RunRunning
  }

  /** The ledger after others have committed `others[..n]`, and nothing else has happened. */
  function Reached(l: Ledger, others: seq<seq<Op>>, n: nat): Ledger
  {
    if n == 0 then l
    else Run(Reached(l, others, n - 1), if n <= |others| then others[n - 1] else [])
  }

  lemma RefusedClaim(l: Ledger, item: nat, token: nat, expiresAt: int)
    requires !l.CanClaim(item, token)
    ensures Apply(l, Claim(item, token, expiresAt)) == l
  {}

  lemma {:induction false} NobodyElse(l: Ledger, n: nat)
    ensures Reached(l, [], n) == l
  {
    if n > 0 {
      NobodyElse(l, n - 1);
    }
  }

  /** With nobody else about, the first open item is claimed, and none only if there is none. */
  lemma FirstIsClaimed(l: Ledger, stage: Stage, token: nat, candidates: seq<nat>, tried: nat)
    requires TakesClaims(l) && IsQueue(l, stage, QUERY_LIMIT, candidates) && tried <= |candidates| && token !in l.leases
    requires forall n: nat :: n < tried ==> !Reached(l, [], n + 1).CanClaim(candidates[n], token)
    ensures tried == 0 && (candidates == [] ==> forall i :: !IsOpen(l, stage, i))
    ensures candidates != [] ==> IsOpen(l, stage, candidates[0]) && IsFirstOpen(l, stage, candidates[0])
  {
    QueueHead(l, stage, QUERY_LIMIT, candidates);
    if tried > 0 {
      NobodyElse(l, 1);
    }
  }

  class Store {
    var items: map<nat, Item>
    var leases: map<nat, Lease>
    var run: RunStatus

    constructor (items: map<nat, Item>)
      requires forall i :: i in items ==> !items[i].Owned()
      ensures View() == Ledger(items, map[], RunQueued) && View().Valid()
    {
      this.items, leases, run := items, map[], RunQueued;
    }

    function View(): Ledger
      reads this
    {
      Ledger(items, leases, run)
    }

    method ClaimById(item: nat, token: nat, now: int, leaseSeconds: int) returns (r: ClaimResult)
      requires token !in leases
      modifies this
      ensures r == NoSuchItem <==> item !in old(items)
      ensures r.ClaimedItem? <==> old(View()).CanClaim(item, token)
      ensures r.ClaimedItem? ==> r.item == item && item in items && r.attempt == items[item].attempt
      ensures View() == Apply(old(View()), Claim(item, token, now + leaseSeconds))
    {
      if item !in items {
        return NoSuchItem;
      }
      if run != RunQueued && run != RunRunning {
        return NotClaimed;
      }
      if !items[item].Claimable() {
        return NotClaimed;
      }
      var attempt := items[item].attempt + if items[item].status == RetryableFailed then 1 else 0;
      items := items[item := items[item].(status := Leased, attempt := attempt)];
      leases := leases[token := Lease(item, Active, now + leaseSeconds)];
      return ClaimedItem(item, attempt);
    }

    /** The query for open items. */
    method ListClaimable(stage: Stage, limit: nat) returns (ids: seq<nat>)
      ensures IsQueue(View(), stage, limit, ids)
    {
      hide *;
      var l := View();
      var rest := OpenItems(l, stage);
      ids := [];
      StartDealing(rest, ByRank(l));
      while rest != {} && |ids| < limit
        invariant |ids| <= limit && IsDealt(OpenItems(l, stage), ids, rest, ByRank(l))
        decreases |rest|
      {
        LeastExists(rest, ByRank(l));
        var first: nat :| first in rest && IsLeast(rest, ByRank(l), first);
        TakeLeast(OpenItems(l, stage), ids, rest, ByRank(l), first);
        ids := ids + [first];
        rest := rest - {first};
      }
      QueueIsDealt(l, stage, limit, ids, rest);
    }

    /** Other connections commit the calls `ops`. */
    method Meanwhile(ops: seq<Op>)
      modifies this
      ensures View() == Run(old(View()), ops)
    {
      var l := Run(View(), ops);
      items, leases, run := l.items, l.leases, l.run;
    }

    /**
     * Claims the first item of the stage that is still claimable when its turn comes. `others[n]` is what other
     * connections commit between the query, or the claim before, and the claim of candidate `n`.
     */
    method ClaimNext(stage: Stage, token: nat, now: int, leaseSeconds: int, others: seq<seq<Op>>)
      returns (r: ClaimResult, ghost candidates: seq<nat>, ghost tried: nat)
      requires forall n: nat :: token !in Reached(View(), others, n).leases
      modifies this
      ensures !TakesClaims(old(View())) ==> candidates == []
      ensures TakesClaims(old(View())) ==> IsQueue(old(View()), stage, QUERY_LIMIT, candidates)
      ensures tried <= |candidates|
      ensures forall n: nat :: n < tried ==> !Reached(old(View()), others, n + 1).CanClaim(candidates[n], token)
      ensures !r.ClaimedItem? ==> tried == |candidates| && View() == Reached(old(View()), others, tried)
      ensures r.ClaimedItem? ==> tried < |candidates| && r.item == candidates[tried]
      ensures r.ClaimedItem? ==> var at := Reached(old(View()), others, tried + 1);
        at.CanClaim(r.item, token) && View() == Apply(at, Claim(r.item, token, now + leaseSeconds))
    {
      hide Apply;
      candidates, tried := [], 0;
      if run != RunQueued && run != RunRunning {
        return NotClaimed, candidates, tried;
      }
      var ids := ListClaimable(stage, QUERY_LIMIT);
      candidates := ids;
      for n := 0 to |ids|
        invariant tried == n && View() == Reached(old(View()), others, n)
        invariant forall k: nat :: k < n ==> !Reached(old(View()), others, k + 1).CanClaim(ids[k], token)
      {
        Meanwhile(if n < |others| then others[n] else []);
        assert View() == Reached(old(View()), others, n + 1);
        r := ClaimById(ids[n], token, now, leaseSeconds);
        if r.ClaimedItem? {
          return;
        }
        RefusedClaim(Reached(old(View()), others, n + 1), ids[n], token, now + leaseSeconds);
        tried := n + 1;
      }
      r := NotClaimed;
    }

    /** False where the original raises: no active lease carries the token. */
    method StartItem(token: nat, now: int, leaseSeconds: int) returns (ok: bool)
      requires View().Valid()
      modifies this
      ensures ok <==> old(View()).IsActive(token)
      ensures View() == Apply(old(View()), Start(token, now + leaseSeconds))
    {
      if token !in leases || leases[token].status != Active {
        return false;
      }
      var item := leases[token].item;
      if items[item].status == Leased {
        items := items[item := items[item].(status := Running)];
      }
      leases := leases[token := leases[token].(expiresAt := now + leaseSeconds)];
      return true;
    }

    method Heartbeat(token: nat, now: int, leaseSeconds: int) returns (alive: bool)
      requires View().Valid()
      modifies this
      ensures alive <==> old(View()).IsActive(token)
      ensures View() == Apply(old(View()), Beat(token, now + leaseSeconds))
    {
      if token !in leases || leases[token].status != Active {
        return false;
      }
      if !items[leases[token].item].Owned() {
        assert false;
        return false;
      }
      leases := leases[token := leases[token].(expiresAt := now + leaseSeconds)];
      return true;
    }

    method Release(token: nat, status: ItemStatus)
      requires View().IsActive(token)
      modifies this
      ensures View() == Settled(old(View()), token, Released, status)
    {
      var item := leases[token].item;
      if item in items && items[item].Owned() {
        items := items[item := items[item].(status := status)];
      }
      leases := leases[token := leases[token].(status := Released)];
    }

    method CompleteSuccess(token: nat) returns (ok: bool)
      modifies this
      ensures ok <==> Commits(old(View()), Succeed(token))
      ensures View() == Apply(old(View()), Succeed(token))
    {
      if token !in leases || leases[token].status != Active {
        return false;
      }
      Release(token, Succeeded);
      return true;
    }

    method CompleteFailure(token: nat, retryable: bool, maxRetries: Option<nat>) returns (ok: bool)
      requires View().Valid()
      modifies this
      ensures ok <==> old(View()).IsActive(token)
      ensures View() == Apply(old(View()), Fail(token, retryable, maxRetries))
    {
      if token !in leases || leases[token].status != Active {
        return false;
      }
      var shouldRetry := retryable && (maxRetries == None || items[leases[token].item].attempt < maxRetries.value);
      Release(token, if shouldRetry then RetryableFailed else TerminalFailed);
      return true;
    }

    method ExpireLease(token: nat) returns (freed: Option<nat>)
      requires View().Valid()
      modifies this
      ensures !old(View()).IsActive(token) ==> freed == None && View() == old(View())
      ensures old(View()).IsActive(token) ==>
        && View() == Settled(old(View()), token, Expired, RetryableFailed)
        && freed.Some? && old(View()).Holds(token, freed.value)
    {
      if token !in leases || leases[token].status != Active {
        return None;
      }
      var item := leases[token].item;
      leases := leases[token := leases[token].(status := Expired)];
      if !items[item].Owned() {
        assert false;
        return None;
      }
      items := items[item := items[item].(status := RetryableFailed)];
      return Some(item);
    }

    /** The query for overdue leases. */
    method ListOverdue(now: int) returns (overdue: seq<nat>)
      ensures ListsOverdue(View(), overdue, now) && AreByExpiry(View(), overdue)
    {
      hide *;
      var l := View();
      var rest := OverdueTokens(l, now);
      overdue := [];
      StartDealing(rest, ByExpiry(l));
      while rest != {}
        invariant IsDealt(OverdueTokens(l, now), overdue, rest, ByExpiry(l))
        decreases |rest|
      {
        LeastExists(rest, ByExpiry(l));
        var first: nat :| first in rest && IsLeast(rest, ByExpiry(l), first);
        TakeLeast(OverdueTokens(l, now), overdue, rest, ByExpiry(l), first);
        overdue := overdue + [first];
        rest := rest - {first};
      }
      OverdueIsDealt(l, now, overdue);
    }

    /** Ends every overdue lease. The items it frees come back, the longest overdue first. */
    method ReclaimExpired(now: int) returns (ghost overdue: seq<nat>, reclaimed: seq<nat>)
      requires View().Valid()
      modifies this
      ensures View() == Apply(old(View()), Reclaim(now))
      ensures ListsOverdue(old(View()), overdue, now) && AreByExpiry(old(View()), overdue)
      ensures |reclaimed| == |overdue| && AreFreed(old(View()), overdue, reclaimed)
    {
      var tokens := ListOverdue(now);
      overdue := tokens;
      ghost var before := View();
      reclaimed := [];
      ReclaimDone(before, overdue, now);
      ReclaimStart(before, overdue);
      assert Distinct(overdue);
      hide *;
      for n := 0 to |tokens|
        invariant Reclaiming(before, overdue, n, View(), reclaimed)
      {
        ReclaimReady(before, overdue, n, View(), reclaimed);
        ghost var was := View();
        var freed := ExpireLease(tokens[n]);
        if freed.Some? {
          ReclaimStep(before, overdue, n, was, reclaimed, freed.value);
          reclaimed := reclaimed + [freed.value];
        }
      }
      ReclaimEnd(before, overdue, View(), reclaimed, now);
    }

    /** What becomes of the run once nothing is owned any more, by its stages. */
    method ReconcileTerminalState(packets: Packets)
      modifies this
      ensures View() == Apply(old(View()), Reconcile(packets))
    {
      if run != RunQueued && run != RunRunning && run != RunDraining {
        return;
      }
      if exists i :: i in items && items[i].Owned() {
        return;
      }
      if run == RunDraining && exists i :: i in items && items[i].Claimable() {
        run := RunPaused;
        return;
      }
      hide OutcomeOf;
      match OutcomeOf(items, packets)
      case RequiredStageFailed => run := RunFailed;
      case AllSucceeded => run := RunSucceeded;
      case OptionalStageFailed => run := RunSucceededWithWarnings;
      case StillRunning =>
    }

    method PauseSystem()
      modifies this
      ensures View() == Apply(old(View()), Enforce(PauseRun))
    {
      if run == RunQueued || run == RunRunning || run == RunDraining {
        run := RunPaused;
      }
    }

    method FailSystem()
      modifies this
      ensures View() == Apply(old(View()), Enforce(FailRun))
    {
      if run == RunQueued || run == RunRunning || run == RunPaused || run == RunDraining {
        run := RunFailed;
      }
    }

    /** The limits in the order in which the service tests them. */
    method EnforceBudget(budget: Option<Budget>, usage: Usage) returns (exceeded: bool)
      modifies this
      ensures View() == Apply(old(View()), Enforce(GuardOf(budget, usage)))
      ensures exceeded <==> GuardOf(budget, usage) != WithinBudget
    {
      if budget == None {
        return false;
      }
      var b := budget.value;
      if b.maxWallClock.Some? && usage.elapsed >= b.maxWallClock.value {
        PauseSystem();
        return true;
      }
      if b.maxNoProgress.Some? && usage.sinceProgress >= b.maxNoProgress.value {
        PauseSystem();
        return true;
      }
      if b.maxCost.Some? && usage.cost >= b.maxCost.value {
        PauseSystem();
        return true;
      }
      if b.maxTokenIn.Some? && usage.tokenIn >= b.maxTokenIn.value {
        PauseSystem();
        return true;
      }
      if b.maxTokenOut.Some? && usage.tokenOut >= b.maxTokenOut.value {
        PauseSystem();
        return true;
      }
      if b.maxConsecutiveFailures.Some? && usage.consecutiveFailures >= b.maxConsecutiveFailures.value {
        FailSystem();
        return true;
      }
      return false;
    }
  }

  /** The ledger once the leases of `tokens` have ended, one after the other. */
  ghost function Ended(l: Ledger, tokens: seq<nat>): (r: Ledger)
    requires forall t :: t in tokens ==> t in l.leases
    ensures r.leases.Keys == l.leases.Keys && r.items.Keys == l.items.Keys && r.run == l.run
    decreases |tokens|
  {
    if tokens == [] then l
    else Settled(Ended(l, tokens[..|tokens| - 1]), tokens[|tokens| - 1], Expired, RetryableFailed)
  }

  /** `overdue` lists the overdue leases, each once. */
  ghost predicate ListsOverdue(l: Ledger, overdue: seq<nat>, now: int)
  {
    Distinct(overdue) && forall t :: t in overdue <==> IsOverdue(l, t, now)
  }

  ghost predicate HeldByOne(l: Ledger, tokens: seq<nat>, item: nat)
  {
    exists t :: t in tokens && l.Holds(t, item)
  }

  lemma OneMoreHolder(l: Ledger, tokens: seq<nat>, last: nat, item: nat)
    ensures HeldByOne(l, tokens + [last], item) <==> HeldByOne(l, tokens, item) || l.Holds(last, item)
  {
    var more := tokens + [last];
    assert forall t :: t in more <==> t in tokens || t == last;
  }

  ghost predicate Distinct(tokens: seq<nat>)
  {
    forall j, k :: 0 <= j < k < |tokens| ==> tokens[j] != tokens[k]
  }

  ghost predicate AllActive(l: Ledger, tokens: seq<nat>)
  {
    forall t :: t in tokens ==> l.IsActive(t)
  }

  lemma {:induction false} LeaseOfEnded(l: Ledger, tokens: seq<nat>, t: nat)
    requires AllActive(l, tokens) && t in l.leases
    ensures Ended(l, tokens).leases[t] == if t in tokens then l.leases[t].(status := Expired) else l.leases[t]
    decreases |tokens|
  {
    if tokens != [] {
      assert tokens == tokens[..|tokens| - 1] + [tokens[|tokens| - 1]];
      LeaseOfEnded(l, tokens[..|tokens| - 1], t);
    }
  }

  lemma {:induction false} EndedIsValid(l: Ledger, tokens: seq<nat>)
    requires l.Valid() && AllActive(l, tokens) && Distinct(tokens)
    ensures Ended(l, tokens).Valid()
    decreases |tokens|
  {
    hide Ledger.Valid, Settled;
    if tokens != [] {
      var front := tokens[..|tokens| - 1];
      EndedIsValid(l, front);
      NextIsActive(l, tokens, |front|);
      assert tokens[..|tokens|] == tokens;
      SettledIsValid(Ended(l, front), tokens[|front|], Expired, RetryableFailed);
    }
  }

  /** Ending some leases leaves the others as they were. */
  lemma NextIsActive(l: Ledger, tokens: seq<nat>, n: nat)
    requires l.Valid() && AllActive(l, tokens) && Distinct(tokens) && n < |tokens|
    ensures AllActive(l, tokens[..n]) && Distinct(tokens[..n])
    ensures Ended(l, tokens[..n]).IsActive(tokens[n])
    ensures Ended(l, tokens[..n]).leases[tokens[n]] == l.leases[tokens[n]]
  {
    hide Ledger.Valid, Ended;
    assert tokens[n] in tokens && tokens[n] !in tokens[..n];
    assert l.IsActive(tokens[n]);
    LeaseOfEnded(l, tokens[..n], tokens[n]);
  }

  /** The items of the ended leases, and no others, come back for a retry. */
  lemma {:induction false} ItemOfEnded(l: Ledger, tokens: seq<nat>, i: nat)
    requires l.Valid() && AllActive(l, tokens) && i in l.items
    ensures Ended(l, tokens).items[i] ==
      if HeldByOne(l, tokens, i) then l.items[i].(status := RetryableFailed) else l.items[i]
    decreases |tokens|
  {
    if tokens != [] {
      var front, last := tokens[..|tokens| - 1], tokens[|tokens| - 1];
      assert tokens == front + [last];
      ItemOfEnded(l, front, i);
      assert last in tokens && l.IsActive(last);
      LeaseOfEnded(l, front, last);
      hide Ledger.Valid;
      OneMoreHolder(l, front, last, i);
      hide HeldByOne, Ledger.IsActive, AllActive;
    }
  }

  /** The items that the leases listed first held, in the order of the list. */
  ghost predicate AreFreed(l: Ledger, overdue: seq<nat>, items: seq<nat>)
  {
    |items| <= |overdue| && forall k :: 0 <= k < |items| ==> l.Holds(overdue[k], items[k])
  }

  lemma OneMoreFreed(l: Ledger, overdue: seq<nat>, items: seq<nat>, item: nat)
    requires |items| < |overdue| && AreFreed(l, overdue, items) && l.Holds(overdue[|items|], item)
    ensures AreFreed(l, overdue, items + [item])
  {}

  /** The loop over the overdue leases, `n` of them ended: the tables, and the items freed so far. */
  ghost predicate Reclaiming(l: Ledger, overdue: seq<nat>, n: nat, l': Ledger, freed: seq<nat>)
  {
    && n <= |overdue| && AllActive(l, overdue) && AllActive(l, overdue[..n]) && l' == Ended(l, overdue[..n])
    && |freed| == n && AreFreed(l, overdue, freed)
  }

  lemma ReclaimStart(l: Ledger, overdue: seq<nat>)
    requires AllActive(l, overdue)
    ensures Reclaiming(l, overdue, 0, l, [])
  {}

  lemma ReclaimReady(l: Ledger, overdue: seq<nat>, n: nat, l': Ledger, freed: seq<nat>)
    requires l.Valid() && Distinct(overdue) && Reclaiming(l, overdue, n, l', freed) && n < |overdue|
    ensures l'.Valid() && l'.IsActive(overdue[n])
  {
    hide Ledger.Valid, Ended, AreFreed;
    NextIsActive(l, overdue, n);
    EndedIsValid(l, overdue[..n]);
  }

  lemma ReclaimStep(l: Ledger, overdue: seq<nat>, n: nat, l': Ledger, freed: seq<nat>, item: nat)
    requires l.Valid() && Distinct(overdue) && Reclaiming(l, overdue, n, l', freed) && n < |overdue|
    requires l'.Holds(overdue[n], item)
    ensures Reclaiming(l, overdue, n + 1, Settled(l', overdue[n], Expired, RetryableFailed), freed + [item])
  {
    hide Ledger.Valid, AreFreed, Settled;
    NextIsActive(l, overdue, n);
    OneMoreFreed(l, overdue, freed, item);
    assert overdue[..n + 1] == overdue[..n] + [overdue[n]];
    assert overdue[..n + 1][..n] == overdue[..n];
  }

  lemma ReclaimEnd(l: Ledger, overdue: seq<nat>, l': Ledger, freed: seq<nat>, now: int)
    requires l.Valid() && ListsOverdue(l, overdue, now) && Reclaiming(l, overdue, |overdue|, l', freed)
    ensures l' == Apply(l, Reclaim(now)) && |freed| == |overdue| && AreFreed(l, overdue, freed)
  {
    hide AreFreed, Ledger.Valid, Ended, ListsOverdue;
    ReclaimDone(l, overdue, now);
    assert overdue[..|overdue|] == overdue;
  }

  lemma ReclaimDone(l: Ledger, overdue: seq<nat>, now: int)
    requires l.Valid() && ListsOverdue(l, overdue, now)
    ensures AllActive(l, overdue) && Distinct(overdue) && Ended(l, overdue) == Apply(l, Reclaim(now))
  {
    hide Ended;
    var e, r := Ended(l, overdue), Reclaimed(l, now);
    forall t | t in l.leases ensures e.leases[t] == r.leases[t] {
      LeaseOfEnded(l, overdue, t);
    }
    assert e.leases == r.leases;
    forall i | i in l.items ensures e.items[i] == r.items[i] {
      ItemOfEnded(l, overdue, i);
      LapsedIsHeld(l, overdue, i, now);
    }
    assert e.items == r.items;
  }

  lemma LapsedIsHeld(l: Ledger, overdue: seq<nat>, i: nat, now: int)
    requires l.Valid() && i in l.items && ListsOverdue(l, overdue, now)
    ensures l.items[i].Owned() && IsLapsed(l, i, now) <==> HeldByOne(l, overdue, i)
  {
    if t :| t in overdue && l.Holds(t, i) {
      assert IsOverdue(l, t, now);
    }
    if IsLapsed(l, i, now) {
      var t :| t in l.leases && IsOverdue(l, t, now) && l.leases[t].item == i;
      assert t in overdue && l.Holds(t, i);
    }
  }
}
