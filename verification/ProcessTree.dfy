// The process-table walk of the live monitor: which pids descend from a runner.

/** scripts/watch_real_book_live.py: the worklist that collects a runner's process subtree. */
module ProcessTree {

  datatype Process = Process(pid: int, ppid: int)

  // ---- Specification: reachability along parent-to-child rows ---------------------------------

  ghost predicate IsChild(processes: seq<Process>, parent: int, child: int)
  {
    exists k :: 0 <= k < |processes| && processes[k] == Process(child, parent)
  }

  /** A descent from `root` to `pid`: each step is a row of the table. */
  ghost predicate IsDescent(processes: seq<Process>, root: int, path: seq<int>, pid: int)
  {
    && |path| > 0 && path[0] == root && path[|path| - 1] == pid
    && forall k :: 0 < k < |path| ==> IsChild(processes, path[k - 1], path[k])
  }

  ghost predicate Descends(processes: seq<Process>, root: int, pid: int)
  {
    exists path :: IsDescent(processes, root, path, pid)
  }

  ghost predicate ClosedUnderChildren(processes: seq<Process>, pids: set<int>)
  {
    forall k :: 0 <= k < |processes| && processes[k].ppid in pids ==> processes[k].pid in pids
  }

  lemma DescentExtends(processes: seq<Process>, root: int, parent: int, child: int)
    requires Descends(processes, root, parent) && IsChild(processes, parent, child)
    ensures Descends(processes, root, child)
  {
    var path :| IsDescent(processes, root, path, parent);
    assert IsDescent(processes, root, path + [child], child);
  }

  /** Every closed set holding the root holds every descendant: the subtree is the least such set. */
  lemma {:induction false} ClosedSetHoldsDescents(
      processes: seq<Process>, root: int, path: seq<int>, pid: int, pids: set<int>)
    requires root in pids && ClosedUnderChildren(processes, pids)
    requires IsDescent(processes, root, path, pid)
    ensures pid in pids
    decreases |path|
  {
    if |path| > 1 {
      var parent := path[|path| - 2];
      assert IsDescent(processes, root, path[..|path| - 1], parent);
      ClosedSetHoldsDescents(processes, root, path[..|path| - 1], parent, pids);
      assert IsChild(processes, path[|path| - 2], path[|path| - 1]);
    }
  }

  /** Reachability is reflexive and transitive, so the collected subtree of a descendant is contained in it. */
  lemma DescendsTransitively(processes: seq<Process>, a: int, b: int, c: int)
    requires Descends(processes, a, b) && Descends(processes, b, c)
    ensures Descends(processes, a, a) && Descends(processes, a, c)
  {
    assert IsDescent(processes, a, [a], a);
    var p :| IsDescent(processes, a, p, b);
    var q :| IsDescent(processes, b, q, c);
    var r := p + q[1..];
    forall k | 0 < k < |r| ensures IsChild(processes, r[k - 1], r[k]) {
      if k >= |p| {
        assert r[k] == q[k - |p| + 1];
        assert r[k - 1] == q[k - |p|];
      }
    }
    assert IsDescent(processes, a, r, c);
  }

  // ---- The algorithm --------------------------------------------------------------------------

  /** The children recorded for `pid`; a pid without an entry has none. */
  function Children(childMap: map<int, seq<int>>, pid: int): seq<int>
  {
    if pid in childMap then childMap[pid] else []
  }

  ghost predicate Indexes(childMap: map<int, seq<int>>, processes: seq<Process>)
  {
    forall parent, child :: child in Children(childMap, parent) <==> IsChild(processes, parent, child)
  }

  method BuildChildMap(processes: seq<Process>) returns (childMap: map<int, seq<int>>)
    ensures Indexes(childMap, processes)
  {
    childMap := map[];
    for n := 0 to |processes|
      invariant Indexes(childMap, processes[..n])
    {
      var process := processes[n];
      ghost var before := childMap;
      childMap := childMap[process.ppid := Children(childMap, process.ppid) + [process.pid]];
      forall parent, child
        ensures child in Children(childMap, parent) <==> IsChild(processes[..n + 1], parent, child)
      {
        assert child in Children(childMap, parent)
          <==> child in Children(before, parent) || process == Process(child, parent);
        ExtendTable(processes, n, parent, child);
      }
    }
    assert processes[..|processes|] == processes;
  }

  lemma ExtendTable(processes: seq<Process>, n: nat, parent: int, child: int)
    requires n < |processes|
    ensures IsChild(processes[..n + 1], parent, child)
       <==> IsChild(processes[..n], parent, child) || processes[n] == Process(child, parent)
  {
    if IsChild(processes[..n], parent, child) {
      var k :| 0 <= k < n && processes[..n][k] == Process(child, parent);
      assert processes[..n + 1][k] == Process(child, parent);
    }
    if processes[n] == Process(child, parent) {
      assert processes[..n + 1][n] == Process(child, parent);
    }
  }

  ghost function Pids(processes: seq<Process>): set<int>
  {
    set process | process in processes :: process.pid
  }

  lemma ChildIsListed(processes: seq<Process>, parent: int, child: int)
    requires IsChild(processes, parent, child)
    ensures child in Pids(processes)
  {
    var k :| 0 <= k < |processes| && processes[k] == Process(child, parent);
    assert processes[k] in processes;
  }

  /** Nothing is collected without a descent from the root. */
  ghost predicate Sound(processes: seq<Process>, root: int, pids: set<int>)
  {
    forall pid :: pid in pids ==> Descends(processes, root, pid)
  }

  /** Rows whose parent is collected have a collected child, except rows under a pid of `waiting`. */
  ghost predicate Explored(processes: seq<Process>, pids: set<int>, waiting: seq<int>)
  {
    forall k :: 0 <= k < |processes| && processes[k].ppid in pids && processes[k].ppid !in waiting
      ==> processes[k].pid in pids
  }

  lemma SoundGrows(processes: seq<Process>, root: int, pids: set<int>, parent: int, child: int)
    requires Sound(processes, root, pids) && parent in pids && IsChild(processes, parent, child)
    ensures Sound(processes, root, pids + {child})
  {
    DescentExtends(processes, root, parent, child);
  }

  /** Once every row under `pid` is followed, `pid` need not wait any longer. */
  lemma ExploredShrinks(
      processes: seq<Process>, childMap: map<int, seq<int>>, pids: set<int>, waiting: seq<int>, pid: int)
    requires Indexes(childMap, processes)
    requires Explored(processes, pids, waiting + [pid])
    requires forall k :: 0 <= k < |Children(childMap, pid)| ==> Children(childMap, pid)[k] in pids
    ensures Explored(processes, pids, waiting)
  {
    forall k | 0 <= k < |processes| && processes[k].ppid in pids && processes[k].ppid !in waiting
      ensures processes[k].pid in pids
    {
      if processes[k].ppid == pid {
        assert IsChild(processes, pid, processes[k].pid);
        assert processes[k].pid in Children(childMap, pid);
      } else {
        assert processes[k].ppid !in waiting + [pid];
      }
    }
  }

  /**
   * The frontier loop. It stops on every table, cyclic ones and ones that repeat a pid included,
   * because each push puts a new pid of the table into `descendants`.
   */
  method CollectDescendantPids(processes: seq<Process>, rootPid: int) returns (descendants: set<int>)
    ensures forall pid :: pid in descendants <==> Descends(processes, rootPid, pid)
  {
    var childMap := BuildChildMap(processes);
    descendants := {rootPid};
    var frontier := [rootPid];
    ghost var universe := {rootPid} + Pids(processes);
    StartWalk(processes, rootPid, universe);
    hide *;
    while frontier != []
      invariant Walking(processes, rootPid, universe, descendants, frontier)
      decreases Uncollected(universe, descendants), |frontier|
    {
      var pid := frontier[|frontier| - 1];
      PopPid(processes, rootPid, universe, descendants, frontier);
      frontier := frontier[..|frontier| - 1];
      ghost var before, remaining := descendants, frontier;
      var children := Children(childMap, pid);
      for n := 0 to |children|
        invariant Exploring(processes, rootPid, universe, descendants, frontier, pid)
        invariant before <= descendants && forall k :: 0 <= k < n ==> children[k] in descendants
        invariant descendants == before ==> frontier == remaining
      {
        var childPid := children[n];
        if childPid !in descendants {
          PushChild(processes, rootPid, universe, childMap, descendants, frontier, pid, childPid);
          descendants := descendants + {childPid};
          frontier := frontier + [childPid];
        }
      }
      PidDone(processes, rootPid, universe, childMap, descendants, frontier, pid);
      if descendants != before {
        SmallerComplement(processes, rootPid, universe, before, descendants, frontier);
      }
    }
    WalkDone(processes, rootPid, universe, descendants);
  }

  /** The state of the walk: what is collected is sound, and explored except under the pids still waiting. */
  ghost predicate Walking(processes: seq<Process>, root: int, universe: set<int>, pids: set<int>, waiting: seq<int>)
  {
    && universe == {root} + Pids(processes) && root in pids && pids <= universe
    && (forall k :: 0 <= k < |waiting| ==> waiting[k] in pids)
    && Sound(processes, root, pids) && Explored(processes, pids, waiting)
  }

  /** The same while the children of `pid`, popped last, are being followed. */
  ghost predicate Exploring(
      processes: seq<Process>, root: int, universe: set<int>, pids: set<int>, waiting: seq<int>, pid: int)
  {
    Walking(processes, root, universe, pids, waiting + [pid])
  }

  lemma PopPid(processes: seq<Process>, root: int, universe: set<int>, pids: set<int>, waiting: seq<int>)
    requires waiting != [] && Walking(processes, root, universe, pids, waiting)
    ensures Exploring(processes, root, universe, pids, waiting[..|waiting| - 1], waiting[|waiting| - 1])
  {
    hide Walking;
    assert waiting == waiting[..|waiting| - 1] + [waiting[|waiting| - 1]];
  }

  lemma StartWalk(processes: seq<Process>, root: int, universe: set<int>)
    requires universe == {root} + Pids(processes)
    ensures Walking(processes, root, universe, {root}, [root])
  {
    assert IsDescent(processes, root, [root], root);
  }

  lemma PushChild(
      processes: seq<Process>, root: int, universe: set<int>, childMap: map<int, seq<int>>,
      pids: set<int>, waiting: seq<int>, pid: int, child: int)
    requires Indexes(childMap, processes) && child in Children(childMap, pid)
    requires Exploring(processes, root, universe, pids, waiting, pid)
    ensures Exploring(processes, root, universe, pids + {child}, waiting + [child], pid)
  {
    hide Sound, Children;
    assert IsChild(processes, pid, child);
    hide IsChild;
    ChildIsListed(processes, pid, child);
    assert (waiting + [pid])[|waiting|] == pid;
    SoundGrows(processes, root, pids, pid, child);
    forall k | 0 <= k < |waiting| ensures waiting[k] in pids { assert (waiting + [pid])[k] == waiting[k]; }
    forall p | p !in waiting + [child] + [pid] ensures p !in waiting + [pid] && p != child {
      assert (waiting + [child] + [pid])[|waiting|] == child;
    }
  }

  lemma PidDone(
      processes: seq<Process>, root: int, universe: set<int>, childMap: map<int, seq<int>>,
      pids: set<int>, waiting: seq<int>, pid: int)
    requires Indexes(childMap, processes) && Exploring(processes, root, universe, pids, waiting, pid)
    requires forall k :: 0 <= k < |Children(childMap, pid)| ==> Children(childMap, pid)[k] in pids
    ensures Walking(processes, root, universe, pids, waiting)
  {
    hide Sound, Indexes, Explored, Children;
    ExploredShrinks(processes, childMap, pids, waiting, pid);
    forall k | 0 <= k < |waiting| ensures waiting[k] in pids { assert (waiting + [pid])[k] == waiting[k]; }
  }

  lemma WalkDone(processes: seq<Process>, root: int, universe: set<int>, pids: set<int>)
    requires Walking(processes, root, universe, pids, [])
    ensures forall pid :: pid in pids <==> Descends(processes, root, pid)
  {
    hide IsDescent;
    assert ClosedUnderChildren(processes, pids);
    forall pid | Descends(processes, root, pid) ensures pid in pids {
      var path :| IsDescent(processes, root, path, pid);
      ClosedSetHoldsDescents(processes, root, path, pid, pids);
    }
  }

  /** What the walk has still to collect: the measure that makes it stop. */
  ghost function Uncollected(universe: set<int>, pids: set<int>): nat
  {
    |universe - pids|
  }

  lemma SmallerComplement(
      processes: seq<Process>, root: int, universe: set<int>, small: set<int>, big: set<int>, waiting: seq<int>)
    requires small <= big && small != big && Walking(processes, root, universe, big, waiting)
    ensures Uncollected(universe, big) < Uncollected(universe, small)
  {
    hide Sound, Explored;
    assert |big - small| > 0 by {
      assert big == small + (big - small);
    }
    assert universe - small == (universe - big) + (big - small);
  }
}
