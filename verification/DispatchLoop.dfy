/**
 * scripts/run_real_book_live.py: the segments of the dispatch loop as the code writes them. Each segment is
 * proved to be a run of the machine in `SliceRunner`, so what holds over every run holds for the loop.
 */
module DispatchLoop {
  import opened RunLedger
  import opened RunStore
  import opened SliceRunner
  import opened Wrappers

  /** What the loop finds when it asks: what has been used, and how far the packets are. */
  datatype Findings = Findings(usage: Usage, packets: Packets)

  ghost predicate IsRun(o: Options, s: State, trace: seq<Step>, t: State)
  {
    Runs(o, s, trace) && After(o, s, trace) == t
  }

  lemma NoStep(o: Options, s: State)
    ensures IsRun(o, s, [], s)
  {}

  /** A run goes on with one more step. */
  lemma OneStepMore(o: Options, s: State, trace: seq<Step>, t: State, step: Step)
    requires IsRun(o, s, trace, t) && Enabled(o, t, step)
    ensures IsRun(o, s, trace + [step], Take(o, t, step))
  {
    assert (trace + [step])[..|trace|] == trace;
  }

  /** Segments of the loop, and whatever the workers do between them, make up one run. */
  lemma {:induction false} RunsCompose(o: Options, s: State, a: seq<Step>, t: State, b: seq<Step>, u: State)
    requires IsRun(o, s, a, t) && IsRun(o, t, b, u)
    ensures IsRun(o, s, a + b, u)
    decreases |b|
  {
    if b == [] {
      assert a + b == a;
    } else {
      var front, step := b[..|b| - 1], b[|b| - 1];
      RunsCompose(o, s, a, t, front, After(o, t, front));
      OneStepMore(o, s, a + front, After(o, t, front), step);
      assert a + b == (a + front) + [step];
    }
  }

  /** Why the loop stops claiming: all workers are busy, the slice is used up, or nothing can be claimed. */
  ghost predicate IsFilled(o: Options, s: State)
  {
    || |s.inflight| >= o.workers || SliceClaimBudgetExhausted(o, s.seen, |s.inflight|) || SliceTargetReached(o, s.seen)
    || forall item, token :: IsOpen(s.db, Translate, item) ==> !s.db.CanClaim(item, token)
  }

  ghost predicate OnlyClaims(trace: seq<Step>)
  {
    forall k :: 0 <= k < |trace| ==> trace[k].ClaimNext?
  }

  /** Every identifier in use is smaller than `token`. */
  ghost predicate IsFresh(s: State, token: nat)
  {
    (forall t :: t in s.db.leases ==> t < token) && forall t :: t in s.inflight ==> t < token
  }

  lemma ClaimIsEnabled(o: Options, s: State, item: nat, token: nat)
    requires s.pc == Dispatching && IsFresh(s, token) && IsOpen(s.db, Translate, item) && s.db.CanClaim(item, token)
    requires |s.inflight| < o.workers
    requires !SliceClaimBudgetExhausted(o, s.seen, |s.inflight|) && !SliceTargetReached(o, s.seen)
    ensures Enabled(o, s, ClaimNext(item, token))
    ensures var t := Take(o, s, ClaimNext(item, token));
      && IsFresh(t, token + 1) && |t.inflight| == |s.inflight| + 1 && t.pc == Dispatching && t.seen == s.seen
      && t.clock == s.clock
  {
    SizeOfUpdate(s.inflight, token, Submitted);
  }

  /** The loop over a store of work items and leases, and its own variables. */
  class Loop {
    const store: Store
    const budget: Option<Budget>
    var clock: int
    var seen: Summary
    var inflight: map<nat, Worker>
    ghost var popped: nat
    var exited: bool

    constructor (store: Store, budget: Option<Budget>, clock: int)
      requires store.View().Valid()
      ensures this.store == store && this.budget == budget
      ensures IsInitial(View()) && View().db == store.View() && !exited
    {
      this.store, this.budget, this.clock := store, budget, clock;
      seen, inflight, popped, exited := SummaryOf(store.View()), map[], 0, false;
    }

    ghost function View(): State
      reads this, store
    {
      State(store.View(), clock, seen, inflight, popped, if exited then Exited else Dispatching)
    }

    ghost function GuardBy(f: Findings): Guard
    {
      GuardOf(budget, f.usage)
    }

    /** Lapsed leases come back, the budget and the stages are looked at, and the summary is renewed. */
    method RunHousekeeping(o: Options, f: Findings)
      requires !exited && store.View().Valid()
      modifies this, store
      ensures Enabled(o, old(View()), Housekeep(GuardBy(f), f.packets))
      ensures View() == Take(o, old(View()), Housekeep(GuardBy(f), f.packets))
    {
      hide Apply, SummaryOf, GuardOf, Ledger.Valid;
      ghost var overdue, reclaimed := store.ReclaimExpired(clock);
      var exceeded := store.EnforceBudget(budget, f.usage);
      store.ReconcileTerminalState(f.packets);
      seen := SummaryOf(store.View());
    }

    /** Claims until the workers are busy, the slice is used up, or nothing is claimable. */
    method FillSlots(o: Options, firstToken: nat) returns (ghost trace: seq<Step>)
      requires !exited && IsFresh(View(), firstToken)
      modifies this, store
      ensures IsRun(o, old(View()), trace, View()) && OnlyClaims(trace) && IsFilled(o, View())
      ensures |inflight| == old(|inflight|) + |trace| && seen == old(seen) && !exited
    {
      trace := [];
      var token := firstToken;
      NoStep(o, View());
      while |inflight| < o.workers
        invariant IsRun(o, old(View()), trace, View()) && OnlyClaims(trace) && IsFresh(View(), token)
        invariant |inflight| == old(|inflight|) + |trace| && seen == old(seen) && !exited
        decreases o.workers - |inflight|
      {
        if SliceClaimBudgetExhausted(o, seen, |inflight|) {
          break;
        }
        if SliceTargetReached(o, seen) {
          break;
        }
        ghost var was := View();
        var claimed := ClaimHere(o, token);
        if claimed == None {
          break;
        }
        hide *;
        ClaimIsEnabled(o, was, claimed.value, token);
        OneStepMore(o, old(View()), trace, was, ClaimNext(claimed.value, token));
        trace := trace + [ClaimNext(claimed.value, token)];
        token := token + 1;
      }
    }

    /** Claims an item for a new worker, if there is one; `token` identifies the lease. */
    method ClaimHere(o: Options, token: nat) returns (claimed: Option<nat>)
      requires !exited && IsFresh(View(), token)
      modifies this, store
      ensures !exited && seen == old(seen)
      ensures claimed == None ==> View() == old(View())
      ensures claimed == None ==> forall i, t :: IsOpen(store.View(), Translate, i) ==> !store.View().CanClaim(i, t)
      ensures claimed.Some? ==> View() == Take(o, old(View()), ClaimNext(claimed.value, token))
      ensures claimed.Some? ==> IsOpen(old(store.View()), Translate, claimed.value)
      ensures claimed.Some? ==> old(store.View()).CanClaim(claimed.value, token)
    {
      hide Apply;
      ghost var was := store.View();
      forall n: nat ensures Reached(was, [], n) == was { NobodyElse(was, n); }
      var r;
      ghost var candidates, tried;
      r, candidates, tried := store.ClaimNext(Translate, token, clock, o.leaseSeconds, []);
      if TakesClaims(was) {
        FirstIsClaimed(was, Translate, token, candidates, tried);
      }
      if !r.ClaimedItem? {
        forall i, t | IsOpen(was, Translate, i) ensures !was.CanClaim(i, t) {
          assert was.CanClaim(i, t) ==> was.CanClaim(i, token);
        }
        return None;
      }
      inflight := inflight[token := Submitted];
      return Some(r.item);
    }

    /** With nothing in flight the loop looks at the run, and leaves or sleeps. */
    method RestIfIdle(o: Options, packets: Packets) returns (idle: bool)
      requires !exited
      modifies this, store
      ensures idle <==> old(inflight) == map[]
      ensures !idle ==> View() == old(View())
      ensures idle ==> Enabled(o, old(View()), Idle(packets)) && View() == Take(o, old(View()), Idle(packets))
    {
      hide Apply;
      if inflight != map[] {
        return false;
      }
      store.ReconcileTerminalState(packets);
      seen := SummaryOf(store.View());
      exited := seen.run in STOP;
      return true;
    }

    /** One finished future: it is taken out, the summary renewed, and the run paused if the slice is done. */
    method TakeOne(o: Options, token: nat, f: Findings)
      requires !exited && token in inflight && inflight[token].Returned?
      modifies this, store
      ensures View() == Decided(o, Popped(old(View()), token, GuardBy(f), f.packets))
    {
      hide Apply, GuardOf, SliceTargetReached;
      ghost var won := if inflight[token] == Returned(true) then 1 else 0;
      popped := popped + won;
      inflight := inflight - {token};
      var exceeded := store.EnforceBudget(budget, f.usage);
      store.ReconcileTerminalState(f.packets);
      seen := SummaryOf(store.View());
      if SliceTargetReached(o, seen) && seen.run !in STOP {
        store.PauseSystem();
        seen := SummaryOf(store.View());
      }
      exited := seen.run in STOP && inflight == map[];
    }

    /** All finished futures in turn; the loop ends on a stopped run once nothing is in flight. */
    method TakeFinished(o: Options, done: seq<nat>, findings: seq<Findings>) returns (ghost trace: seq<Step>)
      requires !exited && |findings| == |done| && AreReturned(inflight, done)
      modifies this, store
      ensures IsRun(o, old(View()), trace, View())
      ensures inflight == old(inflight) - Tokens(done)
      ensures done == [] ==> View() == old(View())
      ensures done != [] ==> (exited <==> seen.run in STOP && inflight == map[])
    {
      trace := [];
      NoStep(o, View());
      for n := 0 to |done|
        invariant IsRun(o, old(View()), trace, View()) && inflight == old(inflight) - Tokens(done[..n])
        invariant n == 0 ==> View() == old(View())
        invariant n > 0 ==> (exited <==> seen.run in STOP && inflight == map[])
        invariant n < |done| ==> !exited
      {
        ghost var was, pop := View(), Pop(done[n], GuardBy(findings[n]), findings[n].packets);
        assert done[n] in inflight;
        PopIsEnabled(o, was, done[n], GuardBy(findings[n]), findings[n].packets);
        OneStepMore(o, old(View()), trace, was, pop);
        OneStepMore(o, old(View()), trace + [pop], Take(o, was, pop), Decide);
        trace := trace + [pop] + [Decide];
        TakeOne(o, done[n], findings[n]);
        OneTaken(old(inflight), was.inflight, done, n);
        if seen.run in STOP && inflight == map[] {
          break;
        }
      }
      assert done[..|done|] == done;
    }
  }

  ghost function Tokens(done: seq<nat>): set<nat>
  {
    set t | t in done
  }

  /** Finished futures, each listed once. */
  ghost predicate AreReturned(inflight: map<nat, Worker>, done: seq<nat>)
  {
    && (forall k :: 0 <= k < |done| ==> done[k] in inflight && inflight[done[k]].Returned?)
    && forall j, k :: 0 <= j < k < |done| ==> done[j] != done[k]
  }

  lemma PopIsEnabled(o: Options, s: State, token: nat, guard: Guard, packets: Packets)
    requires s.pc == Dispatching && token in s.inflight && s.inflight[token].Returned?
    ensures Enabled(o, s, Pop(token, guard, packets))
    ensures var t := Take(o, s, Pop(token, guard, packets));
      t == Popped(s, token, guard, packets) && Enabled(o, t, Decide) && Take(o, t, Decide) == Decided(o, t)
  {}

  lemma OneTaken(all: map<nat, Worker>, left: map<nat, Worker>, done: seq<nat>, n: nat)
    requires n < |done| && AreReturned(all, done) && left == all - Tokens(done[..n])
    ensures left - {done[n]} == all - Tokens(done[..n + 1])
    ensures n + 1 < |done| ==> left - {done[n]} != map[]
  {
    assert done[..n + 1] == done[..n] + [done[n]];
    assert Tokens(done[..n + 1]) == Tokens(done[..n]) + {done[n]};
    if n + 1 < |done| {
      assert done[n + 1] in all && done[n + 1] !in done[..n + 1];
      assert done[n + 1] in left - {done[n]};
    }
  }
}
