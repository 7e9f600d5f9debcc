/**
 * scripts/run_real_book_live.py: the dispatch loop of the live runner, which claims work, runs it on
 * worker threads and stops a run after a given number of successes. The loop decides from a snapshot of
 * the counts, taken earlier; workers commit in between. One step of this machine is one transaction or
 * one action of a thread.
 */
module SliceRunner {
  import opened RunLedger
  import opened Wrappers

  datatype Options = Options(limit: Option<int>, workers: nat, leaseSeconds: int, maxRetries: Option<nat>)

  /** The part of the run summary that the loop reads. */
  datatype Summary = Summary(succeeded: nat, run: RunStatus)

  /** A worker thread: queued, translating, handling an exception, or returned. */
  datatype Worker = Submitted | Working | Failing | Returned(won: bool)

  datatype Pc = Dispatching | Deciding | Exited

  /** `popped` counts the successes among the futures already taken out of `inflight`. */
  datatype State = State(db: Ledger, clock: int, seen: Summary, inflight: map<nat, Worker>, popped: nat, pc: Pc)

  /** The statuses on which the loop ends. */
  const STOP: set<RunStatus> := {RunSucceeded, RunFailed, RunPaused, RunCancelled}

  predicate IsLimited(o: Options)
  {
    o.limit.Some? && o.limit.value > 0
  }

  predicate SliceTargetReached(o: Options, seen: Summary)
  {
    IsLimited(o) && seen.succeeded >= o.limit.value
  }

  predicate SliceClaimBudgetExhausted(o: Options, seen: Summary, inflight: nat)
  {
    IsLimited(o) && seen.succeeded + inflight >= o.limit.value
  }

  function SummaryOf(db: Ledger): Summary
  {
    Summary(|Wins(db)|, db.run)
  }

  const NO_PACKETS := Packets(0, 0, 0)

  // ---- The steps --------------------------------------------------------------------------------

  datatype Step =
    | Tick(now: int)
    // The loop.
    | Housekeep(guard: Guard, packets: Packets)
    | ClaimNext(item: nat, token: nat)
    | Idle(packets: Packets)
    | Pop(token: nat, guard: Guard, packets: Packets)
    | Decide
    // A worker thread and its heartbeat.
    | Begin(token: nat)
    | HeartbeatStep(token: nat)
    | Commit(token: nat)
    | Raise(token: nat)
    | Report(token: nat, retryable: bool, pause: bool)
    | GiveUp(token: nat)
    // Someone else sets the status of the run.
    | Operator(run: RunStatus)

  predicate Enabled(o: Options, s: State, step: Step)
  {
    match step
    case Tick(now) => s.clock <= now
    case Housekeep(_, _) => s.pc == Dispatching
    case ClaimNext(item, token) =>
      && s.pc == Dispatching && |s.inflight| < o.workers && s.db.CanClaim(item, token)
      && s.db.items[item].stage == Translate
      && !SliceClaimBudgetExhausted(o, s.seen, |s.inflight|) && !SliceTargetReached(o, s.seen)
    case Idle(_) => s.pc == Dispatching && s.inflight == map[]
    case Pop(token, _, _) => s.pc == Dispatching && token in s.inflight && s.inflight[token].Returned?
    case Decide => s.pc == Deciding
    case Begin(token) => token in s.inflight && s.inflight[token] == Submitted && s.db.IsActive(token)
    case HeartbeatStep(token) => token in s.inflight && s.inflight[token] == Working
    case Commit(token) => token in s.inflight && s.inflight[token] == Working && s.db.IsActive(token)
    case Raise(token) => token in s.inflight && (s.inflight[token] == Submitted || s.inflight[token] == Working)
    case Report(token, _, _) => token in s.inflight && s.inflight[token] == Failing && s.db.IsActive(token)
    case GiveUp(token) => token in s.inflight && s.inflight[token] == Failing
    case Operator(_) => true
  }

  function With(s: State, token: nat, worker: Worker): State
  {
    s.(inflight := s.inflight[token := worker])
  }

  function Budgeted(db: Ledger, guard: Guard, packets: Packets): Ledger
  {
    Apply(Apply(db, Enforce(guard)), Reconcile(packets))
  }

  function Called(s: State, op: Op): State
  {
    s.(db := Apply(s.db, op))
  }

  function Moved(s: State, token: nat, worker: Worker, op: Op): State
  {
    With(Called(s, op), token, worker)
  }

  function Housekept(s: State, guard: Guard, packets: Packets): State
  {
    var db := Budgeted(Apply(s.db, Reclaim(s.clock)), guard, packets);
    s.(db := db, seen := SummaryOf(db))
  }

  function Claimed(o: Options, s: State, item: nat, token: nat): State
  {
    Moved(s, token, Submitted, Claim(item, token, s.clock + o.leaseSeconds))
  }

  /** Nothing in flight: the loop looks at the run and leaves or sleeps. */
  function Idled(s: State, packets: Packets): State
  {
    var db := Apply(s.db, Reconcile(packets));
    s.(db := db, seen := SummaryOf(db), pc := if db.run in STOP then Exited else Dispatching)
  }

  function Popped(s: State, token: nat, guard: Guard, packets: Packets): State
  {
    var db := Budgeted(s.db, guard, packets);
    var won := if token in s.inflight && s.inflight[token] == Returned(true) then 1 else 0;
    s.(db := db, seen := SummaryOf(db), inflight := s.inflight - {token}, popped := s.popped + won, pc := Deciding)
  }

  /** After a pop: pause the run if the target is reached, and leave if it has stopped and nothing is in flight. */
  function Decided(o: Options, s: State): State
  {
    var pauses := SliceTargetReached(o, s.seen) && s.seen.run !in STOP;
    var db := if pauses then Apply(s.db, Enforce(PauseRun)) else s.db;
    var seen := if pauses then SummaryOf(db) else s.seen;
    s.(db := db, seen := seen, pc := if seen.run in STOP && s.inflight == map[] then Exited else Dispatching)
  }

  function Reported(o: Options, s: State, token: nat, retryable: bool, pause: bool): State
  {
    var db := Apply(s.db, Fail(token, retryable, o.maxRetries));
    With(s, token, Returned(false)).(db := if pause then Apply(db, Enforce(PauseRun)) else db)
  }

  function Take(o: Options, s: State, step: Step): State
  {
    match step
    case Tick(now) => s.(clock := now)
    case Housekeep(guard, packets) => Housekept(s, guard, packets)
    case ClaimNext(item, token) => Claimed(o, s, item, token)
    case Idle(packets) => Idled(s, packets)
    case Pop(token, guard, packets) => Popped(s, token, guard, packets)
    case Decide => Decided(o, s)
    case Begin(token) => Moved(s, token, Working, Start(token, s.clock + o.leaseSeconds))
    case HeartbeatStep(token) => Called(s, Beat(token, s.clock + o.leaseSeconds))
    case Commit(token) => Moved(s, token, Returned(true), Succeed(token))
    case Raise(token) => With(s, token, Failing)
    case Report(token, retryable, pause) => Reported(o, s, token, retryable, pause)
    case GiveUp(token) => With(s, token, Returned(false))
    case Operator(run) => Called(s, SetRun(run))
  }

  /** Each step of `trace` is possible when its turn comes. */
  predicate Runs(o: Options, s: State, trace: seq<Step>)
  {
    trace == [] ||
    (Runs(o, s, trace[..|trace| - 1]) && Enabled(o, After(o, s, trace[..|trace| - 1]), trace[|trace| - 1]))
  }

  function After(o: Options, s: State, trace: seq<Step>): State
  {
    if trace == [] then s else Take(o, After(o, s, trace[..|trace| - 1]), trace[|trace| - 1])
  }

  /** The loop is about to be entered: the summary is fresh and nothing is in flight. */
  ghost predicate IsInitial(s: State)
  {
    s.db.Valid() && s.seen == SummaryOf(s.db) && s.inflight == map[] && s.popped == 0 && s.pc == Dispatching
  }

  // ---- Counting ---------------------------------------------------------------------------------

  /** Futures not yet popped whose worker committed a success. */
  function WonInFlight(inflight: map<nat, Worker>): set<nat>
  {
    set t | t in inflight && inflight[t] == Returned(true)
  }

  lemma WonOfUpdate(inflight: map<nat, Worker>, token: nat, worker: Worker)
    requires token in inflight ==> inflight[token] != Returned(true)
    ensures |WonInFlight(inflight[token := worker])|
         == |WonInFlight(inflight)| + if worker == Returned(true) then 1 else 0
    ensures |inflight[token := worker]| == |inflight| + if token in inflight then 0 else 1
  {
    var more := inflight[token := worker];
    if worker == Returned(true) {
      assert WonInFlight(more) == WonInFlight(inflight) + {token};
    } else {
      assert WonInFlight(more) == WonInFlight(inflight);
    }
    SizeOfUpdate(inflight, token, worker);
  }

  lemma SizeOfUpdate(inflight: map<nat, Worker>, token: nat, worker: Worker)
    ensures |inflight[token := worker]| == |inflight| + if token in inflight then 0 else 1
  {
    assert inflight[token := worker].Keys == inflight.Keys + {token};
  }

  lemma WonOfRemoval(inflight: map<nat, Worker>, token: nat)
    requires token in inflight
    ensures |WonInFlight(inflight - {token})|
         == |WonInFlight(inflight)| - if inflight[token] == Returned(true) then 1 else 0
    ensures |inflight - {token}| == |inflight| - 1
  {
    var less := inflight - {token};
    assert WonInFlight(inflight) == WonInFlight(less) + if inflight[token] == Returned(true) then {token} else {};
    assert inflight.Keys == less.Keys + {token};
  }

  lemma WonIsInFlight(inflight: map<nat, Worker>)
    ensures |WonInFlight(inflight)| <= |inflight|
  {
    SubsetIsSmaller(WonInFlight(inflight), inflight.Keys);
  }

  lemma SubsetIsSmaller(a: set<nat>, b: set<nat>)
    requires a <= b
    ensures |a| <= |b|
  {
    assert b == a + (b - a);
  }

  /**
   * What holds between steps, with `start` successes at the beginning. Every success is accounted for:
   * by the start, by a popped future or by one still in flight. The snapshot may be stale, but it has
   * seen every popped success.
   */
  ghost predicate Inv(o: Options, start: nat, s: State)
  {
    && s.db.Valid()
    && (forall t :: t in s.inflight ==> t in s.db.leases)
    && |Wins(s.db)| == start + s.popped + |WonInFlight(s.inflight)|
    && start + s.popped <= s.seen.succeeded <= |Wins(s.db)|
    && |s.inflight| <= o.workers
  }

  /** The claims still open never reach past the limit. */
  ghost predicate Budget(o: Options, start: nat, s: State)
  {
    IsLimited(o) ==> start + s.popped + |s.inflight| <= o.limit.value
  }

  /** The tables changed without a new success. */
  ghost predicate Keeps(l: Ledger, l': Ledger)
  {
    l'.Valid() && |Wins(l')| == |Wins(l)| && forall t :: t in l.leases ==> t in l'.leases
  }

  lemma LedgerStep(l: Ledger, op: Op)
    requires l.Valid() && !Commits(l, op)
    ensures Keeps(l, Apply(l, op)) && Apply(l, op).Valid()
  {
    ApplyKeepsValid(l, op);
    WinsOfApply(l, op);
  }

  lemma KeepsTwice(a: Ledger, b: Ledger, c: Ledger)
    requires Keeps(a, b) && Keeps(b, c)
    ensures Keeps(a, c)
  {}

  lemma BudgetedKeeps(l: Ledger, guard: Guard, packets: Packets)
    requires l.Valid()
    ensures Keeps(l, Budgeted(l, guard, packets))
  {
    hide Apply, Ledger.Valid, Keeps;
    LedgerStep(l, Enforce(guard));
    LedgerStep(Apply(l, Enforce(guard)), Reconcile(packets));
    KeepsTwice(l, Apply(l, Enforce(guard)), Budgeted(l, guard, packets));
  }

  lemma HousekeepingKeeps(l: Ledger, now: int, guard: Guard, packets: Packets)
    requires l.Valid()
    ensures Keeps(l, Budgeted(Apply(l, Reclaim(now)), guard, packets))
  {
    hide Apply, Budgeted, Ledger.Valid, Keeps;
    LedgerStep(l, Reclaim(now));
    BudgetedKeeps(Apply(l, Reclaim(now)), guard, packets);
    KeepsTwice(l, Apply(l, Reclaim(now)), Budgeted(Apply(l, Reclaim(now)), guard, packets));
  }

  lemma ReportKeeps(l: Ledger, token: nat, retryable: bool, maxRetries: Option<nat>, pause: bool)
    requires l.Valid()
    ensures var db := Apply(l, Fail(token, retryable, maxRetries));
      Keeps(l, if pause then Apply(db, Enforce(PauseRun)) else db)
  {
    hide Apply, Ledger.Valid, Keeps;
    var db := Apply(l, Fail(token, retryable, maxRetries));
    LedgerStep(l, Fail(token, retryable, maxRetries));
    LedgerStep(db, Enforce(PauseRun));
    KeepsTwice(l, db, Apply(db, Enforce(PauseRun)));
  }

  // One lemma for each way in which the counts move.

  /** The in-flight table stays; the snapshot stays or is renewed. */
  lemma LedgerChanges(o: Options, start: nat, s: State, s': State)
    requires Inv(o, start, s) && Budget(o, start, s) && s'.inflight == s.inflight && s'.popped == s.popped
    requires Keeps(s.db, s'.db) && (s'.seen == s.seen || s'.seen == SummaryOf(s'.db))
    ensures Inv(o, start, s') && Budget(o, start, s')
  {
    hide Ledger.Valid, Wins, WonInFlight;
  }

  /** One more future is in flight. */
  lemma FutureAdded(o: Options, start: nat, s: State, token: nat, s': State)
    requires Inv(o, start, s) && Budget(o, start, s) && token !in s.db.leases && token in s'.db.leases
    requires |s.inflight| < o.workers && !SliceClaimBudgetExhausted(o, s.seen, |s.inflight|)
    requires Keeps(s.db, s'.db) && s'.seen == s.seen && s'.popped == s.popped
    requires s'.inflight == s.inflight[token := Submitted]
    ensures Inv(o, start, s') && Budget(o, start, s')
  {
    hide Ledger.Valid, Wins, WonInFlight;
    WonOfUpdate(s.inflight, token, Submitted);
  }

  /** A future leaves the table; a success of it is counted, and the snapshot renewed. */
  lemma FuturePopped(o: Options, start: nat, s: State, token: nat, s': State)
    requires Inv(o, start, s) && Budget(o, start, s) && token in s.inflight
    requires Keeps(s.db, s'.db) && s'.seen == SummaryOf(s'.db)
    requires s'.popped == s.popped + if s.inflight[token] == Returned(true) then 1 else 0
    requires s'.inflight == s.inflight - {token}
    ensures Inv(o, start, s') && Budget(o, start, s')
  {
    hide Ledger.Valid, Wins, WonInFlight;
    WonOfRemoval(s.inflight, token);
  }

  /** A worker moves on without committing a success. */
  lemma WorkerMoves(o: Options, start: nat, s: State, token: nat, worker: Worker, s': State)
    requires Inv(o, start, s) && Budget(o, start, s) && token in s.inflight && s.inflight[token] != Returned(true)
    requires worker != Returned(true) && Keeps(s.db, s'.db) && s'.seen == s.seen && s'.popped == s.popped
    requires s'.inflight == s.inflight[token := worker]
    ensures Inv(o, start, s') && Budget(o, start, s')
  {
    hide Ledger.Valid, Wins, WonInFlight;
    WonOfUpdate(s.inflight, token, worker);
  }

  /** A worker commits a success. */
  lemma WorkerWins(o: Options, start: nat, s: State, token: nat, s': State)
    requires Inv(o, start, s) && Budget(o, start, s) && token in s.inflight && s.inflight[token] != Returned(true)
    requires s'.db.Valid() && |Wins(s'.db)| == |Wins(s.db)| + 1 && forall t :: t in s.db.leases ==> t in s'.db.leases
    requires s'.seen == s.seen && s'.popped == s.popped && s'.inflight == s.inflight[token := Returned(true)]
    ensures Inv(o, start, s') && Budget(o, start, s')
  {
    hide Ledger.Valid, Wins, WonInFlight;
    WonOfUpdate(s.inflight, token, Returned(true));
  }

  lemma CommitWins(l: Ledger, token: nat)
    requires l.Valid() && l.IsActive(token)
    ensures var l' := Apply(l, Succeed(token));
      l'.Valid() && |Wins(l')| == |Wins(l)| + 1 && forall t :: t in l.leases ==> t in l'.leases
  {
    ApplyKeepsValid(l, Succeed(token));
    WinsOfApply(l, Succeed(token));
  }

  lemma ClaimAddsLease(l: Ledger, item: nat, token: nat, expiresAt: int)
    requires l.CanClaim(item, token)
    ensures token !in l.leases && token in Apply(l, Claim(item, token, expiresAt)).leases
  {}

  lemma HousekeepKeepsInv(o: Options, start: nat, s: State, guard: Guard, packets: Packets)
    requires Inv(o, start, s) && Budget(o, start, s)
    ensures Inv(o, start, Housekept(s, guard, packets)) && Budget(o, start, Housekept(s, guard, packets))
  {
    HousekeepingKeeps(s.db, s.clock, guard, packets);
    hide Apply, Keeps, Budgeted, Inv, Budget, SummaryOf;
    LedgerChanges(o, start, s, Housekept(s, guard, packets));
  }

  lemma ClaimKeepsInv(o: Options, start: nat, s: State, item: nat, token: nat)
    requires Inv(o, start, s) && Budget(o, start, s) && s.db.CanClaim(item, token)
    requires |s.inflight| < o.workers && !SliceClaimBudgetExhausted(o, s.seen, |s.inflight|)
    ensures Inv(o, start, Claimed(o, s, item, token)) && Budget(o, start, Claimed(o, s, item, token))
  {
    hide Apply, Keeps, SliceClaimBudgetExhausted, Ledger.CanClaim, Ledger.Valid, Wins, WonInFlight;
    ClaimAddsLease(s.db, item, token, s.clock + o.leaseSeconds);
    LedgerStep(s.db, Claim(item, token, s.clock + o.leaseSeconds));
    hide Inv, Budget;
    FutureAdded(o, start, s, token, Claimed(o, s, item, token));
  }

  lemma IdleKeepsInv(o: Options, start: nat, s: State, packets: Packets)
    requires Inv(o, start, s) && Budget(o, start, s)
    ensures Inv(o, start, Idled(s, packets)) && Budget(o, start, Idled(s, packets))
  {
    LedgerStep(s.db, Reconcile(packets));
    hide Apply, Keeps, Inv, Budget, SummaryOf;
    LedgerChanges(o, start, s, Idled(s, packets));
  }

  lemma PopKeepsInv(o: Options, start: nat, s: State, token: nat, guard: Guard, packets: Packets)
    requires Inv(o, start, s) && Budget(o, start, s) && token in s.inflight
    ensures Inv(o, start, Popped(s, token, guard, packets)) && Budget(o, start, Popped(s, token, guard, packets))
  {
    BudgetedKeeps(s.db, guard, packets);
    hide Budgeted, Keeps, Inv, Budget, SummaryOf;
    FuturePopped(o, start, s, token, Popped(s, token, guard, packets));
  }

  lemma DecideKeepsInv(o: Options, start: nat, s: State)
    requires Inv(o, start, s) && Budget(o, start, s)
    ensures Inv(o, start, Decided(o, s)) && Budget(o, start, Decided(o, s))
  {
    LedgerStep(s.db, Enforce(PauseRun));
    Unchanged(s.db);
    hide Apply, Keeps, Inv, Budget, SummaryOf, SliceTargetReached;
    LedgerChanges(o, start, s, Decided(o, s));
  }

  lemma ReportKeepsInv(o: Options, start: nat, s: State, token: nat, retryable: bool, pause: bool)
    requires Inv(o, start, s) && Budget(o, start, s) && token in s.inflight && s.inflight[token] == Failing
    ensures Inv(o, start, Reported(o, s, token, retryable, pause))
    ensures Budget(o, start, Reported(o, s, token, retryable, pause))
  {
    ReportKeeps(s.db, token, retryable, o.maxRetries, pause);
    hide Apply, Keeps, Inv, Budget;
    WorkerMoves(o, start, s, token, Returned(false), Reported(o, s, token, retryable, pause));
  }

  lemma LoopStepKeepsInv(o: Options, start: nat, s: State, step: Step)
    requires Inv(o, start, s) && Budget(o, start, s) && Enabled(o, s, step)
    requires step.Housekeep? || step.ClaimNext? || step.Idle? || step.Pop? || step.Decide?
    ensures Inv(o, start, Take(o, s, step)) && Budget(o, start, Take(o, s, step))
  {
    hide Inv, Budget, Housekept, Claimed, Idled, Popped, Decided, Reported, With, Moved, Called;
    match step
    case Housekeep(guard, packets) => HousekeepKeepsInv(o, start, s, guard, packets);
    case ClaimNext(item, token) => ClaimKeepsInv(o, start, s, item, token);
    case Idle(packets) => IdleKeepsInv(o, start, s, packets);
    case Pop(token, guard, packets) => PopKeepsInv(o, start, s, token, guard, packets);
    case Decide => DecideKeepsInv(o, start, s);
  }

  lemma CallKeepsInv(o: Options, start: nat, s: State, op: Op)
    requires Inv(o, start, s) && Budget(o, start, s) && !op.Succeed?
    ensures Inv(o, start, Called(s, op)) && Budget(o, start, Called(s, op))
  {
    LedgerStep(s.db, op);
    hide Apply, Keeps, Inv, Budget;
    LedgerChanges(o, start, s, Called(s, op));
  }

  lemma BeginKeepsInv(o: Options, start: nat, s: State, token: nat, op: Op)
    requires Inv(o, start, s) && Budget(o, start, s) && token in s.inflight && s.inflight[token] == Submitted
    requires op.Start?
    ensures Inv(o, start, Moved(s, token, Working, op)) && Budget(o, start, Moved(s, token, Working, op))
  {
    LedgerStep(s.db, op);
    hide Apply, Keeps, Inv, Budget;
    WorkerMoves(o, start, s, token, Working, Moved(s, token, Working, op));
  }

  lemma CommitKeepsInv(o: Options, start: nat, s: State, token: nat)
    requires Inv(o, start, s) && Budget(o, start, s) && token in s.inflight && s.inflight[token] == Working
    requires s.db.IsActive(token)
    ensures Inv(o, start, Moved(s, token, Returned(true), Succeed(token)))
    ensures Budget(o, start, Moved(s, token, Returned(true), Succeed(token)))
  {
    CommitWins(s.db, token);
    hide Apply, Inv, Budget, Ledger.Valid, Wins;
    WorkerWins(o, start, s, token, Moved(s, token, Returned(true), Succeed(token)));
  }

  lemma LocalMoveKeepsInv(o: Options, start: nat, s: State, token: nat, worker: Worker)
    requires Inv(o, start, s) && Budget(o, start, s) && token in s.inflight && s.inflight[token] != Returned(true)
    requires worker != Returned(true)
    ensures Inv(o, start, With(s, token, worker)) && Budget(o, start, With(s, token, worker))
  {
    Unchanged(s.db);
    hide Keeps, Inv, Budget;
    WorkerMoves(o, start, s, token, worker, With(s, token, worker));
  }

  lemma TickKeepsInv(o: Options, start: nat, s: State, now: int)
    requires Inv(o, start, s) && Budget(o, start, s)
    ensures Inv(o, start, s.(clock := now)) && Budget(o, start, s.(clock := now))
  {}

  lemma ThreadStepKeepsInv(o: Options, start: nat, s: State, step: Step)
    requires Inv(o, start, s) && Budget(o, start, s) && Enabled(o, s, step)
    requires !(step.Housekeep? || step.ClaimNext? || step.Idle? || step.Pop? || step.Decide?)
    ensures Inv(o, start, Take(o, s, step)) && Budget(o, start, Take(o, s, step))
  {
    hide Inv, Budget, Housekept, Claimed, Idled, Popped, Decided, Reported, With, Moved, Called;
    match step
    case Tick(now) => TickKeepsInv(o, start, s, now);
    case HeartbeatStep(token) => CallKeepsInv(o, start, s, Beat(token, s.clock + o.leaseSeconds));
    case Operator(run) => CallKeepsInv(o, start, s, SetRun(run));
    case Begin(token) => BeginKeepsInv(o, start, s, token, Start(token, s.clock + o.leaseSeconds));
    case Commit(token) => CommitKeepsInv(o, start, s, token);
    case Raise(token) => LocalMoveKeepsInv(o, start, s, token, Failing);
    case Report(token, retryable, pause) => ReportKeepsInv(o, start, s, token, retryable, pause);
    case GiveUp(token) => LocalMoveKeepsInv(o, start, s, token, Returned(false));
  }

  lemma Unchanged(l: Ledger)
    requires l.Valid()
    ensures Keeps(l, l)
  {}

  /** Every step keeps the count. */
  lemma StepKeepsInv(o: Options, start: nat, s: State, step: Step)
    requires Inv(o, start, s) && Budget(o, start, s) && Enabled(o, s, step)
    ensures Inv(o, start, Take(o, s, step)) && Budget(o, start, Take(o, s, step))
  {
    hide *;
    if step.Housekeep? || step.ClaimNext? || step.Idle? || step.Pop? || step.Decide? {
      LoopStepKeepsInv(o, start, s, step);
    } else {
      ThreadStepKeepsInv(o, start, s, step);
    }
  }

  lemma {:induction false} InvOnEveryRun(o: Options, s: State, trace: seq<Step>)
    requires IsInitial(s) && Runs(o, s, trace)
    requires IsLimited(o) ==> |Wins(s.db)| <= o.limit.value
    ensures Inv(o, |Wins(s.db)|, After(o, s, trace)) && Budget(o, |Wins(s.db)|, After(o, s, trace))
    decreases |trace|
  {
    hide Inv, Budget, Enabled, Take;
    if trace == [] {
      InvAtStart(o, s);
    } else {
      var front, step := trace[..|trace| - 1], trace[|trace| - 1];
      InvOnEveryRun(o, s, front);
      StepKeepsInv(o, |Wins(s.db)|, After(o, s, front), step);
    }
  }

  lemma InvAtStart(o: Options, s: State)
    requires IsInitial(s) && (IsLimited(o) ==> |Wins(s.db)| <= o.limit.value)
    ensures Inv(o, |Wins(s.db)|, s) && Budget(o, |Wins(s.db)|, s)
  {
    assert WonInFlight(s.inflight) == {};
  }

  // ---- What the steps do to the tables ----------------------------------------------------------

  /** Item `i` is held under an active lease that ended before `now`. */
  predicate IsDeadWork(db: Ledger, i: nat, now: int)
  {
    exists t :: t in db.leases
      && db.leases[t].status == Active && db.leases[t].expiresAt < now && db.leases[t].item == i
  }

  /**
   * Housekeeping takes work away from dead workers, and from no others: afterwards no active lease is overdue, an
   * item that one of those held waits for a retry with its attempts as they were, and every other item and every
   * other lease is as before.
   */
  lemma HousekeepingFreesDeadWork(o: Options, s: State, guard: Guard, packets: Packets)
    requires s.db.Valid()
    ensures var t := Take(o, s, Housekeep(guard, packets));
      && t.db.items.Keys == s.db.items.Keys && t.db.leases.Keys == s.db.leases.Keys
      && (forall k :: k in t.db.leases && t.db.leases[k].status == Active ==> t.db.leases[k].expiresAt >= s.clock)
      && (forall k :: k in s.db.leases && s.db.leases[k].status == Active && s.db.leases[k].expiresAt < s.clock ==>
            t.db.leases[k] == s.db.leases[k].(status := Expired))
      && (forall k :: k in s.db.leases && !(s.db.leases[k].status == Active && s.db.leases[k].expiresAt < s.clock) ==>
            t.db.leases[k] == s.db.leases[k])
      && (forall i :: i in s.db.items && IsDeadWork(s.db, i, s.clock) ==>
            t.db.items[i] == s.db.items[i].(status := RetryableFailed))
      && (forall i :: i in s.db.items && !IsDeadWork(s.db, i, s.clock) ==> t.db.items[i] == s.db.items[i])
  {
    hide Reclaimed, Take, IsDeadWork, Ledger.Valid;
    TablesAreReclaimed(o, s, guard, packets);
    ReclaimInFields(s.db, s.clock);
  }

  lemma TablesAreReclaimed(o: Options, s: State, guard: Guard, packets: Packets)
    ensures var db, reclaimed := Take(o, s, Housekeep(guard, packets)).db, Reclaimed(s.db, s.clock);
      db.items == reclaimed.items && db.leases == reclaimed.leases
  {
    hide Reclaimed;
  }

  lemma ReclaimInFields(l: Ledger, now: int)
    requires l.Valid()
    ensures var l' := Reclaimed(l, now);
      && l'.items.Keys == l.items.Keys && l'.leases.Keys == l.leases.Keys
      && (forall k :: k in l'.leases && l'.leases[k].status == Active ==> l'.leases[k].expiresAt >= now)
      && (forall k :: k in l.leases && l.leases[k].status == Active && l.leases[k].expiresAt < now ==>
            l'.leases[k] == l.leases[k].(status := Expired))
      && (forall k :: k in l.leases && !(l.leases[k].status == Active && l.leases[k].expiresAt < now) ==>
            l'.leases[k] == l.leases[k])
      && (forall i :: i in l.items && IsDeadWork(l, i, now) ==>
            l'.items[i] == l.items[i].(status := RetryableFailed))
      && (forall i :: i in l.items && !IsDeadWork(l, i, now) ==> l'.items[i] == l.items[i])
  {
    hide Ledger.Valid, IsDeadWork, IsLapsed;
    forall i ensures IsDeadWork(l, i, now) <==> IsLapsed(l, i, now) { DeadWorkIsLapsed(l, i, now); }
    forall i | IsDeadWork(l, i, now) ensures i in l.items && l.items[i].Owned() { DeadWorkIsLapsed(l, i, now); }
  }

  lemma DeadWorkIsLapsed(l: Ledger, i: nat, now: int)
    requires l.Valid()
    ensures IsDeadWork(l, i, now) <==> IsLapsed(l, i, now)
    ensures IsDeadWork(l, i, now) ==> i in l.items && l.items[i].Owned()
  {}

  /** A run between its start and its end. */
  predicate IsOngoing(run: RunStatus)
  {
    run == RunQueued || run == RunRunning || run == RunDraining
  }

  /** What the budget and then the state of the work make of a run. */
  ghost predicate Becomes(l: Ledger, guard: Guard, packets: Packets, run: RunStatus)
  {
    if guard == PauseRun && IsOngoing(l.run) then run == RunPaused
    else if guard == FailRun && (IsOngoing(l.run) || l.run == RunPaused) then run == RunFailed
    else if !IsOngoing(l.run) || !IsIdle(l) then run == l.run
    else if l.run == RunDraining && !IsDrained(l) then run == RunPaused
    else EndsAs(l.items, packets, l.run, run)
  }

  lemma BudgetedAsWorkSays(l: Ledger, guard: Guard, packets: Packets)
    ensures var l' := Budgeted(l, guard, packets);
      l'.items == l.items && l'.leases == l.leases && Becomes(l, guard, packets, l'.run)
  {
    var enforced := Apply(l, Enforce(guard));
    RunMoves(l, Enforce(guard));
    ReconciledAsItemsSay(enforced, packets);
    assert enforced == l.(run := enforced.run);
    hide Apply, EndsAs;
    assert IsIdle(enforced) <==> IsIdle(l);
    assert IsDrained(enforced) <==> IsDrained(l);
  }

  /** The summary is that of the tables: how many items have succeeded, and how the run stands. */
  predicate IsUpToDate(seen: Summary, db: Ledger)
  {
    seen.run == db.run && seen.succeeded == |set i | i in db.items && db.items[i].status == Succeeded|
  }

  lemma SummaryIsUpToDate(db: Ledger)
    ensures IsUpToDate(SummaryOf(db), db)
  {
    assert Wins(db) == set i | i in db.items && db.items[i].status == Succeeded;
  }

  /** The steps of the loop in the fields of the state, apart from the tables after housekeeping. */
  lemma HousekeepingRenews(o: Options, s: State, guard: Guard, packets: Packets)
    ensures var t := Take(o, s, Housekeep(guard, packets));
      && Becomes(t.db.(run := s.db.run), guard, packets, t.db.run) && IsUpToDate(t.seen, t.db)
      && t.inflight == s.inflight && t.popped == s.popped && t.clock == s.clock && t.pc == s.pc
  {
    hide Becomes, IsUpToDate, SummaryOf, Budgeted;
    var reclaimed := Apply(s.db, Reclaim(s.clock));
    var t := Take(o, s, Housekeep(guard, packets));
    BudgetedAsWorkSays(reclaimed, guard, packets);
    SummaryIsUpToDate(t.db);
    assert t.db.(run := s.db.run) == reclaimed;
  }

  lemma PopTakesOneOut(o: Options, s: State, token: nat, guard: Guard, packets: Packets)
    requires Enabled(o, s, Pop(token, guard, packets))
    ensures var t := Take(o, s, Pop(token, guard, packets));
      && t.db.items == s.db.items && t.db.leases == s.db.leases
      && Becomes(s.db, guard, packets, t.db.run) && IsUpToDate(t.seen, t.db)
      && t.inflight == s.inflight - {token} && t.clock == s.clock && t.pc == Deciding
      && t.popped == s.popped + if s.inflight[token] == Returned(true) then 1 else 0
  {
    hide Becomes, IsUpToDate, SummaryOf, Budgeted;
    BudgetedAsWorkSays(s.db, guard, packets);
    SummaryIsUpToDate(Take(o, s, Pop(token, guard, packets)).db);
  }

  lemma IdleLooksAtTheRun(o: Options, s: State, packets: Packets)
    ensures var t := Take(o, s, Idle(packets));
      && t.db.items == s.db.items && t.db.leases == s.db.leases
      && Becomes(s.db, WithinBudget, packets, t.db.run) && IsUpToDate(t.seen, t.db)
      && t.inflight == s.inflight && t.popped == s.popped && t.clock == s.clock
      && (t.pc == Exited <==> t.db.run in {RunSucceeded, RunFailed, RunPaused, RunCancelled})
      && (t.pc != Exited ==> t.pc == Dispatching)
  {
    hide EndsAs, IsUpToDate, SummaryOf, Apply, IsIdle, IsDrained;
    ReconciledAsItemsSay(s.db, packets);
    SummaryIsUpToDate(Take(o, s, Idle(packets)).db);
  }

  /** After a pop the run is paused exactly when the successes seen reach a positive limit and no end is seen. */
  lemma DecisionPausesAtTheLimit(o: Options, s: State)
    ensures var t := Take(o, s, Decide);
      var ended := {RunSucceeded, RunFailed, RunPaused, RunCancelled};
      var pauses := o.limit.Some? && o.limit.value > 0 && s.seen.succeeded >= o.limit.value && s.seen.run !in ended;
      && t.db.items == s.db.items && t.db.leases == s.db.leases
      && t.db.run == (if pauses && IsOngoing(s.db.run) then RunPaused else s.db.run)
      && (if pauses then IsUpToDate(t.seen, t.db) else t.seen == s.seen)
      && t.inflight == s.inflight && t.popped == s.popped && t.clock == s.clock
      && (t.pc == Exited <==> t.seen.run in ended && s.inflight == map[]) && (t.pc != Exited ==> t.pc == Dispatching)
  {
    hide IsUpToDate, SummaryOf;
    RunMoves(s.db, Enforce(PauseRun));
    SummaryIsUpToDate(Take(o, s, Decide).db);
  }

  /** An item can be claimed exactly while work seen and in flight stays below a positive limit and a worker is free. */
  lemma ClaimsBelowTheLimit(o: Options, s: State, item: nat, token: nat)
    ensures Enabled(o, s, ClaimNext(item, token)) <==>
      && s.pc == Dispatching && |s.inflight| < o.workers && s.db.run in {RunQueued, RunRunning}
      && item in s.db.items && s.db.items[item].stage == Translate
      && s.db.items[item].status in {Pending, RetryableFailed} && token !in s.db.leases
      && (o.limit.Some? && o.limit.value > 0 ==> s.seen.succeeded + |s.inflight| < o.limit.value)
  {}

  /** The claims of the loop and the steps of the workers: one call each, and one worker that moves on. */
  lemma WorkersMakeOneCall(o: Options, s: State, step: Step)
    requires Enabled(o, s, step)
    requires !step.Housekeep? && !step.Pop? && !step.Idle? && !step.Decide? && !step.Tick? && !step.Operator?
    ensures var t := Take(o, s, step);
      && t.seen == s.seen && t.popped == s.popped && t.pc == s.pc && t.clock == s.clock
      && t.inflight == (if step.HeartbeatStep? then s.inflight else s.inflight[step.token :=
           if step.ClaimNext? then Submitted else if step.Begin? then Working else if step.Raise? then Failing
           else Returned(step.Commit?)])
      && (step.ClaimNext? ==> t.db == Apply(s.db, Claim(step.item, step.token, s.clock + o.leaseSeconds)))
      && (step.Begin? ==> t.db == Apply(s.db, Start(step.token, s.clock + o.leaseSeconds)))
      && (step.HeartbeatStep? ==> t.db == Apply(s.db, Beat(step.token, s.clock + o.leaseSeconds)))
      && (step.Commit? ==> t.db == Apply(s.db, Succeed(step.token)))
      && (step.Raise? || step.GiveUp? ==> t.db == s.db)
      && (step.Report? ==>
            var failed := Apply(s.db, Fail(step.token, step.retryable, o.maxRetries));
            t.db == failed.(run := if step.pause && IsOngoing(s.db.run) then RunPaused else s.db.run))
  {
    if step.Report? {
      var failed := Apply(s.db, Fail(step.token, step.retryable, o.maxRetries));
      RunMoves(s.db, Fail(step.token, step.retryable, o.maxRetries));
      RunMoves(failed, Enforce(PauseRun));
      assert Apply(failed, Enforce(PauseRun)) == failed.(run := Apply(failed, Enforce(PauseRun)).run);
    }
  }

  // ---- The limit holds --------------------------------------------------------------------------

  /**
   * A runner that starts at or below its limit never drives the number of successes above it, in any
   * interleaving of claims, commits, refreshes, expiries and outside changes of the run's status; and it
   * never has more in flight than workers.
   */
  lemma LimitHolds(o: Options, s: State, trace: seq<Step>)
    requires IsInitial(s) && Runs(o, s, trace)
    requires IsLimited(o) ==> |Wins(s.db)| <= o.limit.value
    ensures var t := After(o, s, trace);
      && (IsLimited(o) ==> |Wins(t.db)| <= o.limit.value)
      && |t.inflight| <= o.workers
      && |Wins(s.db)| <= t.seen.succeeded <= |Wins(t.db)|
  {
    InvOnEveryRun(o, s, trace);
    WonIsInFlight(After(o, s, trace).inflight);
  }

  /** When the loop asks for the pause, the number of successes is the limit exactly. */
  lemma PausesAtTheLimit(o: Options, s: State, trace: seq<Step>)
    requires IsInitial(s) && Runs(o, s, trace) && IsLimited(o) && |Wins(s.db)| <= o.limit.value
    requires After(o, s, trace).pc == Deciding && SliceTargetReached(o, After(o, s, trace).seen)
    ensures |Wins(After(o, s, trace).db)| == o.limit.value == After(o, s, trace).seen.succeeded
  {
    LimitHolds(o, s, trace);
  }

  // ---- The loop does not hang short of its pause ------------------------------------------------

  predicate IsOperator(step: Step)
  {
    step.Operator?
  }

  ghost predicate WithoutOperator(trace: seq<Step>)
  {
    forall k :: 0 <= k < |trace| ==> !IsOperator(trace[k])
  }

  /** Without an operator a run that has stopped stays stopped. */
  lemma StoppedIsStable(o: Options, s: State, step: Step)
    requires !step.Operator?
    ensures !Live(s.db.run) ==> !Live(Take(o, s, step).db.run)
    ensures s.db.run in STOP ==> Take(o, s, step).db.run in STOP
    ensures s.db.run == RunSucceededWithWarnings ==> Take(o, s, step).db.run == RunSucceededWithWarnings
  {}

  /** Once the popped futures reach the limit, the run has stopped or the pause is next. */
  ghost predicate PauseIsDue(o: Options, start: nat, s: State)
  {
    IsLimited(o) && start + s.popped >= o.limit.value && s.pc != Deciding ==> !Live(s.db.run)
  }

  /** The loop does not see a stop that the run has not made, and leaves on nothing else. */
  ghost predicate SeenIsPast(s: State)
  {
    (s.seen.run in STOP ==> s.db.run in STOP) && (s.pc == Exited ==> s.seen.run in STOP)
  }

  lemma PauseStaysDue(o: Options, start: nat, s: State, step: Step)
    requires Inv(o, start, s) && PauseIsDue(o, start, s) && SeenIsPast(s) && Enabled(o, s, step) && !step.Operator?
    ensures PauseIsDue(o, start, Take(o, s, step))
  {
    hide Inv, Apply, Ledger.Valid, Wins, SummaryOf, Enabled;
    if step.Decide? {
      DecideMakesThePause(o, start, s);
    } else if !step.Pop? {
      StoppedIsStable(o, s, step);
      OnlyPopCounts(o, s, step);
    }
  }

  lemma OnlyPopCounts(o: Options, s: State, step: Step)
    requires Enabled(o, s, step) && !step.Pop? && !step.Decide?
    ensures Take(o, s, step).popped == s.popped && (Take(o, s, step).pc == s.pc || s.pc == Dispatching)
  {
    hide Apply, SummaryOf;
  }

  lemma DecideMakesThePause(o: Options, start: nat, s: State)
    requires Inv(o, start, s) && SeenIsPast(s)
    ensures PauseIsDue(o, start, Decided(o, s))
  {
    hide Ledger.Valid, Wins, WonInFlight;
    PausedIsStopped(s.db);
  }

  lemma PausedIsStopped(db: Ledger)
    ensures !Live(Apply(db, Enforce(PauseRun)).run)
  {}

  lemma SeenStaysPast(o: Options, s: State, step: Step)
    requires SeenIsPast(s) && Enabled(o, s, step) && !step.Operator?
    ensures SeenIsPast(Take(o, s, step))
  {
    StoppedIsStable(o, s, step);
    hide Ledger.Valid, Wins, WonInFlight, Reconciled, Reclaimed, Settled;
  }

  lemma WithoutOperatorBefore(trace: seq<Step>)
    requires trace != [] && WithoutOperator(trace)
    ensures WithoutOperator(trace[..|trace| - 1]) && !trace[|trace| - 1].Operator?
  {
    assert !IsOperator(trace[|trace| - 1]);
  }

  lemma {:induction false} SeenIsPastOnEveryRun(o: Options, s: State, trace: seq<Step>)
    requires IsInitial(s) && Runs(o, s, trace) && WithoutOperator(trace)
    ensures SeenIsPast(After(o, s, trace))
    decreases |trace|
  {
    hide Enabled, Take, WithoutOperator;
    if trace != [] {
      WithoutOperatorBefore(trace);
      SeenIsPastOnEveryRun(o, s, trace[..|trace| - 1]);
      hide SeenIsPast;
      SeenStaysPast(o, After(o, s, trace[..|trace| - 1]), trace[|trace| - 1]);
    }
  }

  lemma {:induction false} PauseIsDueOnEveryRun(o: Options, s: State, trace: seq<Step>)
    requires IsInitial(s) && Runs(o, s, trace) && WithoutOperator(trace)
    requires IsLimited(o) ==> |Wins(s.db)| < o.limit.value
    ensures PauseIsDue(o, |Wins(s.db)|, After(o, s, trace))
    decreases |trace|
  {
    hide Inv, Budget, Enabled, Take, WithoutOperator;
    if trace != [] {
      WithoutOperatorBefore(trace);
      PauseIsDueOnEveryRun(o, s, trace[..|trace| - 1]);
      InvOnEveryRun(o, s, trace[..|trace| - 1]);
      SeenIsPastOnEveryRun(o, s, trace[..|trace| - 1]);
      hide PauseIsDue, SeenIsPast;
      PauseStaysDue(o, |Wins(s.db)|, After(o, s, trace[..|trace| - 1]), trace[|trace| - 1]);
    }
  }

  /**
   * No runner that starts below its limit is ever back at the top of the loop with nothing in flight,
   * the limit reached and the run still going: something has stopped the run by then.
   */
  lemma NoStuckState(o: Options, s: State, trace: seq<Step>)
    requires IsInitial(s) && Runs(o, s, trace) && WithoutOperator(trace)
    requires IsLimited(o) && |Wins(s.db)| < o.limit.value
    ensures var t := After(o, s, trace);
      t.pc == Dispatching && t.inflight == map[] && SliceTargetReached(o, t.seen) ==> !Live(t.db.run)
  {
    InvOnEveryRun(o, s, trace);
    PauseIsDueOnEveryRun(o, s, trace);
    WonIsInFlight(After(o, s, trace).inflight);
  }

  // ---- A runner that starts at its limit --------------------------------------------------------

  /** There are packets left to translate, and none has failed. */
  predicate IsUntranslated(packets: Packets)
  {
    packets.failed == 0 && packets.translated < packets.total
  }

  /** Nothing outside the loop's own pause moves the run. */
  predicate IsQuiet(step: Step)
  {
    match step
    case Housekeep(guard, packets) => guard == WithinBudget && IsUntranslated(packets)
    case Idle(packets) => IsUntranslated(packets)
    case Operator(_) => false
    case _ => true
  }

  ghost predicate Inert(o: Options, start: nat, s: State)
  {
    && s.db.Valid() && s.inflight == map[] && s.pc != Deciding && |Wins(s.db)| == start <= s.seen.succeeded
  }

  /** A run on which translation goes on: live, not draining, and no item of it given up. */
  predicate GoesOn(s: State)
  {
    (s.db.run == RunQueued || s.db.run == RunRunning) && !HasFailed(s.db.items, Translate) && s.pc == Dispatching
  }

  lemma UntranslatedStillRuns(l: Ledger, packets: Packets)
    requires IsUntranslated(packets) && !HasFailed(l.items, Translate) && (l.run == RunQueued || l.run == RunRunning)
    ensures Reconciled(l, packets) == l.run
  {
    assert OutcomeOf(l.items, packets) == StillRunning;
  }

  lemma ReclaimGivesNothingUp(l: Ledger, now: int)
    requires !HasFailed(l.items, Translate)
    ensures !HasFailed(Apply(l, Reclaim(now)).items, Translate)
  {}

  lemma InertStep(o: Options, start: nat, s: State, step: Step)
    requires IsLimited(o) && start >= o.limit.value && Inert(o, start, s) && Enabled(o, s, step)
    ensures Inert(o, start, Take(o, s, step))
    ensures !step.ClaimNext? && !step.Decide?
  {
    match step
    case Housekeep(guard, packets) => HousekeepingKeeps(s.db, s.clock, guard, packets);
    case Idle(packets) => LedgerStep(s.db, Reconcile(packets));
    case Operator(run) => LedgerStep(s.db, SetRun(run));
    case _ =>
  }

  lemma QuietStep(o: Options, start: nat, s: State, step: Step)
    requires IsLimited(o) && start >= o.limit.value && Inert(o, start, s) && Enabled(o, s, step)
    requires IsQuiet(step) && GoesOn(s)
    ensures GoesOn(Take(o, s, step)) && Take(o, s, step).db.run == s.db.run
  {
    InertStep(o, start, s, step);
    match step
    case Housekeep(guard, packets) =>
      ReclaimGivesNothingUp(s.db, s.clock);
      UntranslatedStillRuns(Apply(s.db, Reclaim(s.clock)), packets);
      hide Reconciled, HasFailed, Reclaimed;
    case Idle(packets) =>
      UntranslatedStillRuns(s.db, packets);
      hide Reconciled, HasFailed;
    case _ =>
  }

  /**
   * A runner that starts at or above its limit claims nothing, changes no count and never asks for the
   * pause, which sits behind a completed future. As long as nothing else stops the run, it polls for ever.
   */
  lemma {:induction false} LateStartNeverPauses(o: Options, s: State, trace: seq<Step>)
    requires IsInitial(s) && Runs(o, s, trace)
    requires IsLimited(o) && |Wins(s.db)| >= o.limit.value
    ensures Inert(o, |Wins(s.db)|, After(o, s, trace))
    ensures forall k :: 0 <= k < |trace| ==> !trace[k].ClaimNext? && !trace[k].Decide?
    ensures GoesOn(s) && (forall k :: 0 <= k < |trace| ==> IsQuiet(trace[k]))
      ==> GoesOn(After(o, s, trace)) && After(o, s, trace).db.run == s.db.run
    decreases |trace|
  {
    hide Enabled, Take, Inert, IsQuiet, GoesOn;
    if trace == [] {
      InertAtStart(o, s);
    } else {
      var front, step := trace[..|trace| - 1], trace[|trace| - 1];
      LateStartNeverPauses(o, s, front);
      assert trace == front + [step];
      InertStep(o, |Wins(s.db)|, After(o, s, front), step);
      if IsQuiet(step) && GoesOn(After(o, s, front)) {
        QuietStep(o, |Wins(s.db)|, After(o, s, front), step);
      }
    }
  }

  lemma InertAtStart(o: Options, s: State)
    requires IsInitial(s)
    ensures Inert(o, |Wins(s.db)|, s) && s.pc == Dispatching
  {}

  // ---- When the loop can end --------------------------------------------------------------------

  /** The runner can come out of its loop from here without anybody else's help. */
  ghost predicate CanExit(o: Options, s: State)
  {
    exists trace :: Runs(o, s, trace) && WithoutOperator(trace) && After(o, s, trace).pc == Exited
  }

  lemma {:induction false} RunFromNext(o: Options, s: State, step: Step, trace: seq<Step>)
    requires Enabled(o, s, step) && Runs(o, Take(o, s, step), trace)
    ensures Runs(o, s, [step] + trace) && After(o, s, [step] + trace) == After(o, Take(o, s, step), trace)
    decreases |trace|
  {
    hide Enabled, Take;
    var all := [step] + trace;
    if trace == [] {
      assert all[..|all| - 1] == [];
    } else {
      RunFromNext(o, s, step, trace[..|trace| - 1]);
      assert all[..|all| - 1] == [step] + trace[..|trace| - 1];
    }
  }

  lemma ExitOneStepLater(o: Options, s: State, step: Step)
    requires Enabled(o, s, step) && !step.Operator? && CanExit(o, Take(o, s, step))
    ensures CanExit(o, s)
  {
    var trace :| Runs(o, Take(o, s, step), trace) && WithoutOperator(trace)
                 && After(o, Take(o, s, step), trace).pc == Exited;
    hide Enabled, Take, Runs, After;
    RunFromNext(o, s, step, trace);
    assert WithoutOperator([step] + trace);
  }

  lemma ExitNow(o: Options, s: State)
    requires s.pc == Exited
    ensures CanExit(o, s)
  {
    assert Runs(o, s, []) && WithoutOperator([]) && After(o, s, []).pc == Exited;
  }

  /** How far a worker is from being popped when everything it does fails. */
  function Distance(worker: Worker): nat
  {
    match worker
    case Returned(_) => 0
    case Failing => 1
    case _ => 2
  }

  /** Once the run has stopped, the loop can drain what is in flight and leave. */
  lemma {:induction false} StoppedRunLetsGo(o: Options, s: State)
    requires s.db.run in STOP
    ensures CanExit(o, s)
    decreases |s.inflight|, if s.pc == Deciding then 4 else 3
  {
    hide CanExit;
    if s.pc == Exited {
      ExitNow(o, s);
    } else if s.pc == Deciding {
      StoppedIsStable(o, s, Decide);
      StoppedRunLetsGo(o, Decided(o, s));
      ExitOneStepLater(o, s, Decide);
    } else if s.inflight == map[] {
      StoppedIsStable(o, s, Idle(NO_PACKETS));
      ExitNow(o, Idled(s, NO_PACKETS));
      ExitOneStepLater(o, s, Idle(NO_PACKETS));
    } else {
      var token :| token in s.inflight;
      DrainOne(o, s, token);
    }
  }

  lemma {:induction false} DrainOne(o: Options, s: State, token: nat)
    requires s.db.run in STOP && s.pc == Dispatching && token in s.inflight
    ensures CanExit(o, s)
    decreases |s.inflight|, Distance(s.inflight[token])
  {
    hide CanExit, Apply, WonInFlight, SummaryOf;
    match s.inflight[token]
    case Returned(_) =>
      var pop := Pop(token, WithinBudget, NO_PACKETS);
      StoppedIsStable(o, s, pop);
      WonOfRemoval(s.inflight, token);
      StoppedRunLetsGo(o, Take(o, s, pop));
      ExitOneStepLater(o, s, pop);
    case Failing =>
      SizeOfUpdate(s.inflight, token, Returned(false));
      DrainOne(o, Take(o, s, GiveUp(token)), token);
      ExitOneStepLater(o, s, GiveUp(token));
    case _ =>
      SizeOfUpdate(s.inflight, token, Failing);
      DrainOne(o, Take(o, s, Raise(token)), token);
      ExitOneStepLater(o, s, Raise(token));
  }

  /** A run that has ended with warnings, and a loop that is still going. */
  ghost predicate IsWarned(s: State)
  {
    s.db.run == RunSucceededWithWarnings && s.seen.run !in STOP && s.pc != Exited
  }

  lemma WarnedStep(o: Options, s: State, step: Step)
    requires IsWarned(s) && !step.Operator?
    ensures IsWarned(Take(o, s, step))
  {
    StoppedIsStable(o, s, step);
    hide Ledger.Valid, Wins, WonInFlight, Reconciled, Reclaimed, Settled;
  }

  lemma {:induction false} WarnedForEver(o: Options, s: State, trace: seq<Step>)
    requires IsWarned(s) && WithoutOperator(trace)
    ensures IsWarned(After(o, s, trace))
    decreases |trace|
  {
    hide Take, WithoutOperator, IsWarned;
    if trace != [] {
      WithoutOperatorBefore(trace);
      WarnedForEver(o, s, trace[..|trace| - 1]);
      WarnedStep(o, After(o, s, trace[..|trace| - 1]), trace[|trace| - 1]);
    }
  }

  /**
   * From every reachable state in which the run has stopped, the loop can still end exactly when the run
   * did not end with warnings: that status is missing from the ones the loop tests for, so it polls a
   * finished run for ever.
   */
  lemma LoopEndsUnlessWarned(o: Options, s: State, trace: seq<Step>)
    requires IsInitial(s) && Runs(o, s, trace) && WithoutOperator(trace)
    requires !Live(After(o, s, trace).db.run)
    ensures CanExit(o, After(o, s, trace)) <==> After(o, s, trace).db.run != RunSucceededWithWarnings
  {
    var t := After(o, s, trace);
    SeenIsPastOnEveryRun(o, s, trace);
    if t.db.run != RunSucceededWithWarnings {
      StoppedRunLetsGo(o, t);
    } else {
      assert IsWarned(t);
      forall more | Runs(o, t, more) && WithoutOperator(more) ensures After(o, t, more).pc != Exited {
        WarnedForEver(o, t, more);
      }
    }
  }

  /**
   * The status is really reached: where the document is translated, nothing optional is open and an item of an
   * optional stage has failed for good, one refresh takes a live run there, and the loop does not end.
   */
  lemma WarningsAreReached(o: Options, s: State, packets: Packets, stage: Stage)
    requires IsInitial(s) && Live(s.db.run)
    requires s.db.run == RunDraining ==> forall i :: i in s.db.items ==> !s.db.items[i].Claimable()
    requires forall i :: i in s.db.items ==> !s.db.items[i].Owned()
    requires IsTranslated(s.db.items, packets) && IsOptional(stage) && HasFailed(s.db.items, stage)
    requires forall other :: IsOptional(other) ==> IsSettled(s.db.items, other)
    ensures Runs(o, s, [Housekeep(WithinBudget, packets)])
    ensures var t := After(o, s, [Housekeep(WithinBudget, packets)]);
      t.db.run == RunSucceededWithWarnings && !CanExit(o, t)
  {
    var trace := [Housekeep(WithinBudget, packets)];
    assert trace[..0] == [];
    assert After(o, s, trace) == Take(o, After(o, s, []), trace[0]);
    assert Runs(o, s, trace) <==> Runs(o, s, []) && Enabled(o, After(o, s, []), trace[0]);
    NothingToReclaim(s.db, s.clock);
    EndsWithWarnings(s.db.items, packets);
    hide OutcomeOf, IsTranslated, IsSettled, HasFailed, CanExit;
    LoopEndsUnlessWarned(o, s, trace);
  }

  lemma NothingToReclaim(l: Ledger, now: int)
    requires l.Valid() && forall i :: i in l.items ==> !l.items[i].Owned()
    ensures Apply(l, Reclaim(now)) == l
  {
    assert Reclaimed(l, now).items == l.items && Reclaimed(l, now).leases == l.leases;
  }

  /** A runner given a run that has ended with warnings already never comes out of its loop. */
  lemma WarnedRunIsPolled(o: Options, s: State)
    requires IsInitial(s) && s.db.run == RunSucceededWithWarnings
    ensures !CanExit(o, s)
  {
    assert Runs(o, s, []) && WithoutOperator([]) && After(o, s, []) == s;
    LoopEndsUnlessWarned(o, s, []);
  }

  /** Such a run: its one packet is translated, and its review has been given up. */
  const REVIEW_GIVEN_UP :=
    Ledger(map[0 := Item(Translate, 0, Succeeded, 0), 1 := Item(Review, 1, TerminalFailed, 3)], map[], RunRunning)

  lemma ReviewGivenUpIsPolled(o: Options, clock: int)
    ensures var s := State(REVIEW_GIVEN_UP, clock, SummaryOf(REVIEW_GIVEN_UP), map[], 0, Dispatching);
      var trace := [Housekeep(WithinBudget, Packets(1, 1, 0))];
      IsInitial(s) && Runs(o, s, trace) && !CanExit(o, After(o, s, trace))
  {
    var s := State(REVIEW_GIVEN_UP, clock, SummaryOf(REVIEW_GIVEN_UP), map[], 0, Dispatching);
    var items := REVIEW_GIVEN_UP.items;
    assert 0 in items && IsOf(items[0], Translate);
    assert 1 in items && IsOf(items[1], Review);
    hide CanExit, Runs, After;
    WarningsAreReached(o, s, Packets(1, 1, 0), Review);
  }
}
