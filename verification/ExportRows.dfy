/** The rows of the `exports` table, the files they name, and the UPDATEs the maintenance scripts issue. */
module ExportRows {
  import opened Wrappers

  /** Stands in for a path that cannot be served any more. */
  const SENTINEL := "unrecoverable://"

  predicate IsSentinel(path: string)
  {
    SENTINEL <= path
  }

  /** A row; it is named by its position in the table. `verified` is a point in time. */
  datatype Row = Row(
    succeeded: bool, document: string, path: string,
    sha: Option<string>, byteCount: Option<nat>, verified: Option<int>, stale: Option<string>)

  datatype File = File(inode: nat, bytes: string, mtime: int)

  predicate IsAbsolute(path: string)
  {
    path != [] && path[0] == '/'
  }

  /** No empty component, as in any resolved path. */
  predicate IsClean(path: string)
  {
    forall k :: 0 <= k < |path| - 1 ==> !(path[k] == '/' && path[k + 1] == '/')
  }

  /** The part after the last slash. */
  function Basename(path: string): (name: string)
    ensures '/' !in name && |name| <= |path| && path[|path| - |name|..] == name
    ensures |name| < |path| ==> path[|path| - |name| - 1] == '/'
  {
    if path == [] || path[|path| - 1] == '/' then []
    else
      var front := path[..|path| - 1];
      var name := Basename(front);
      assert path == front + [path[|path| - 1]];
      name + [path[|path| - 1]]
  }

  /**
   * What the scripts take from the machine: the repository root, how an absolute path resolves, and
   * SHA-256, of which only matters that its text is never empty.
   */
  datatype Env = Env(root: string, canon: string -> string, digest: string -> string) {

    ghost predicate Valid()
    {
      && IsAbsolute(root) && canon(root) == root && root[|root| - 1] != '/'
      && (forall p :: canon(canon(p)) == canon(p) && IsAbsolute(canon(p)) && IsClean(canon(p)))
      && (forall b :: digest(b) != "")
    }

    /** Where a stored path leads: relative paths start at the repository root. */
    function Locate(path: string): string
    {
      canon(if IsAbsolute(path) then path else root + "/" + path)
    }
  }

  /** A file system: resolved locations and what is there. */
  type Files = map<string, File>

  // ---- Which rows count -------------------------------------------------------------------------

  /** The scripts' test for a stale row: the truth value of the reason. */
  predicate IsStale(row: Row)
  {
    row.stale.Some? && row.stale.value != ""
  }

  predicate IsServiceable(row: Row)
  {
    row.succeeded && !IsStale(row) && !IsSentinel(row.path)
  }

  /** The same question as SQL asks it: `stale_reason IS NULL`. */
  predicate IsServiceableInSql(row: Row)
  {
    row.succeeded && row.stale == None && !IsSentinel(row.path)
  }

  /** A reason, once given, is not empty. */
  predicate WellStamped(row: Row)
  {
    row.stale != Some("")
  }

  ghost predicate AllWellStamped(rows: seq<Row>)
  {
    forall i :: 0 <= i < |rows| ==> WellStamped(rows[i])
  }

  // What the scripts look for in a row, written out.

  /** A succeeded row with a real path and no reason against it, or an empty one. */
  predicate IsServed(row: Row)
  {
    row.succeeded && (row.stale == None || row.stale == Some("")) && !("unrecoverable://" <= row.path)
  }

  /** The row's path, made absolute at the repository root and resolved. */
  function Place(e: Env, row: Row): string
  {
    e.canon(if row.path != [] && row.path[0] == '/' then row.path else e.root + "/" + row.path)
  }

  /** The row with a reason against it, unless it has one. */
  function GivenUp(row: Row, reason: string): Row
  {
    Row(row.succeeded, row.document, row.path, row.sha, row.byteCount, row.verified,
        if row.stale == None then Some(reason) else row.stale)
  }

  // ---- Updates ----------------------------------------------------------------------------------

  /** One UPDATE statement, apart from the time it writes. */
  datatype Plan =
    | Refresh(id: nat, seed: Option<string>)
    | Stamp(id: nat, sha: string, byteCount: nat)
    | Mark(id: nat, reason: string)
    | Repoint(id: nat, path: string)

  function Change(row: Row, plan: Plan, now: int): Row
  {
    match plan
    case Refresh(_, seed) => row.(sha := if seed.Some? then seed else row.sha, verified := Some(now))
    case Stamp(_, sha, byteCount) => row.(sha := Some(sha), byteCount := Some(byteCount), verified := Some(now))
    // COALESCE: a reason already there wins.
    case Mark(_, reason) => row.(stale := if row.stale == None then Some(reason) else row.stale)
    case Repoint(_, path) => row.(path := path)
  }

  function Updated(rows: seq<Row>, plan: Plan, now: int): (r: seq<Row>)
    ensures |r| == |rows|
  {
    if plan.id < |rows| then rows[plan.id := Change(rows[plan.id], plan, now)] else rows
  }

  function Executed(rows: seq<Row>, plans: seq<Plan>, now: int): (r: seq<Row>)
    ensures |r| == |rows|
  {
    if plans == [] then rows
    else Updated(Executed(rows, plans[..|plans| - 1], now), plans[|plans| - 1], now)
  }

  /** The plans for one row, in order. */
  function For(plans: seq<Plan>, id: nat): seq<Plan>
  {
    if plans == [] then []
    else
      var front, last := For(plans[..|plans| - 1], id), plans[|plans| - 1];
      if last.id == id then front + [last] else front
  }

  function Changed(row: Row, plans: seq<Plan>, now: int): Row
  {
    if plans == [] then row
    else Change(Changed(row, plans[..|plans| - 1], now), plans[|plans| - 1], now)
  }

  lemma OnePlan(row: Row, plans: seq<Plan>, now: int)
    ensures plans == [] ==> Changed(row, plans, now) == row
    ensures |plans| == 1 ==> Changed(row, plans, now) == Change(row, plans[0], now)
  {
    assert |plans| == 1 ==> plans[..0] == [];
  }

  /** Rows do not affect each other: a row ends up as the plans for it leave it. */
  lemma {:induction false} RowOfExecuted(rows: seq<Row>, plans: seq<Plan>, now: int, id: nat)
    requires id < |rows|
    ensures Executed(rows, plans, now)[id] == Changed(rows[id], For(plans, id), now)
  {
    if plans != [] {
      var front, last := plans[..|plans| - 1], plans[|plans| - 1];
      hide Change, Changed;
      RowOfExecuted(rows, front, now, id);
      OneMorePlan(rows[id], For(front, id), last, now);
    }
  }

  lemma OneMorePlan(row: Row, plans: seq<Plan>, last: Plan, now: int)
    ensures Changed(row, plans + [last], now) == Change(Changed(row, plans, now), last, now)
  {
    assert (plans + [last])[..|plans|] == plans;
  }

  lemma {:induction false} ForConcat(a: seq<Plan>, b: seq<Plan>, id: nat)
    ensures For(a + b, id) == For(a, id) + For(b, id)
  {
    if b == [] {
      assert a + b == a;
    } else {
      assert (a + b)[..|a + b| - 1] == a + b[..|b| - 1];
      ForConcat(a, b[..|b| - 1], id);
    }
  }

  lemma {:induction false} ExecutedConcat(rows: seq<Row>, a: seq<Plan>, b: seq<Plan>, now: int)
    ensures Executed(rows, a + b, now) == Executed(Executed(rows, a, now), b, now)
  {
    if b == [] {
      assert a + b == a;
    } else {
      assert (a + b)[..|a + b| - 1] == a + b[..|b| - 1];
      ExecutedConcat(rows, a, b[..|b| - 1], now);
    }
  }

  // ---- Scans ------------------------------------------------------------------------------------

  /** What a scan decides for the row with the given name. */
  type Pick = (nat, Row) -> Option<Plan>

  /** The plans a scan makes, in the order of the rows. */
  function Collect(rows: seq<Row>, pick: Pick): seq<Plan>
  {
    if rows == [] then []
    else
      var n := |rows| - 1;
      Collect(rows[..n], pick) + Picked(pick, n, rows[n])
  }

  function Count(rows: seq<Row>, counted: Row -> bool): nat
  {
    if rows == [] then 0
    else Count(rows[..|rows| - 1], counted) + if counted(rows[|rows| - 1]) then 1 else 0
  }

  ghost predicate NamesItsRow(pick: Pick)
  {
    forall k, row :: pick(k, row).Some? ==> pick(k, row).value.id == k
  }

  /** What a pick contributes for one row. */
  function Picked(pick: Pick, id: nat, row: Row): seq<Plan>
  {
    match pick(id, row) case Some(plan) => [plan] case None => []
  }

  lemma ForPicked(pick: Pick, n: nat, row: Row, id: nat)
    requires NamesItsRow(pick)
    ensures For(Picked(pick, n, row), id) == if id == n then Picked(pick, n, row) else []
  {
    var plans := Picked(pick, n, row);
    if plans != [] {
      assert plans[..0] == [] && plans[0].id == n;
      assert [] + [plans[0]] == plans;
    }
  }

  lemma {:induction false} ForCollect(rows: seq<Row>, pick: Pick, id: nat)
    requires NamesItsRow(pick)
    ensures For(Collect(rows, pick), id) == if id < |rows| then Picked(pick, id, rows[id]) else []
  {
    if rows != [] {
      ForCollect(rows[..|rows| - 1], pick, id);
      ForCollectStep(rows, pick, id);
      hide *;
    }
  }

  lemma ForCollectStep(rows: seq<Row>, pick: Pick, id: nat)
    requires NamesItsRow(pick) && rows != []
    ensures var front := rows[..|rows| - 1];
      For(Collect(rows, pick), id) ==
        if id == |rows| - 1 then For(Collect(front, pick), id) + Picked(pick, id, rows[id])
        else For(Collect(front, pick), id)
  {
    hide For, Picked, NamesItsRow;
    var n := |rows| - 1;
    ForConcat(Collect(rows[..n], pick), Picked(pick, n, rows[n]), id);
    ForPicked(pick, n, rows[n], id);
    NoPlans(For(Collect(rows[..n], pick), id));
  }

  /** Some plan is for the row. */
  predicate IsListed(plans: seq<Plan>, id: nat)
  {
    exists k :: 0 <= k < |plans| && plans[k].id == id
  }

  lemma {:induction false} ListedHasPlans(plans: seq<Plan>, id: nat)
    ensures IsListed(plans, id) <==> For(plans, id) != []
  {
    if plans != [] {
      var front, last := plans[..|plans| - 1], plans[|plans| - 1];
      ListedHasPlans(front, id);
      assert IsListed(plans, id) <==> IsListed(front, id) || last.id == id by {
        assert plans[|plans| - 1] == last;
        assert forall k :: 0 <= k < |front| ==> front[k] == plans[k];
      }
    }
  }

  /** A scan lists exactly the rows it makes a plan for. */
  lemma ListedExactly(rows: seq<Row>, pick: Pick, id: nat)
    requires NamesItsRow(pick)
    ensures IsListed(Collect(rows, pick), id) <==> id < |rows| && pick(id, rows[id]).Some?
  {
    ListedHasPlans(Collect(rows, pick), id);
    ForCollect(rows, pick, id);
    hide Collect, For, NamesItsRow;
  }

  /** Rows that two tests agree on are counted alike. */
  lemma {:induction false} CountedAlike(rows: seq<Row>, a: Row -> bool, b: Row -> bool)
    requires forall row :: a(row) == b(row)
    ensures Count(rows, a) == Count(rows, b)
  {
    if rows != [] {
      CountedAlike(rows[..|rows| - 1], a, b);
    }
  }

  lemma NoPlans(plans: seq<Plan>)
    ensures plans + [] == plans && [] + plans == plans
  {}

  ghost predicate PicksNone(rows: seq<Row>, pick: Pick)
  {
    forall k :: 0 <= k < |rows| ==> Picked(pick, k, rows[k]) == []
  }

  lemma {:induction false} NothingCollected(rows: seq<Row>, pick: Pick)
    ensures Collect(rows, pick) == [] <==> PicksNone(rows, pick)
  {
    hide PicksNone, Picked;
    PicksNoneStep(rows, pick);
    if rows != [] {
      var n := |rows| - 1;
      NothingCollected(rows[..n], pick);
      assert |Collect(rows, pick)| == |Collect(rows[..n], pick)| + |Picked(pick, n, rows[n])|;
    }
  }

  lemma PicksNoneStep(rows: seq<Row>, pick: Pick)
    ensures PicksNone(rows, pick)
       <==> rows == [] || (PicksNone(rows[..|rows| - 1], pick) && Picked(pick, |rows| - 1, rows[|rows| - 1]) == [])
  {
    hide Picked;
    if rows != [] {
      assert forall k :: 0 <= k < |rows| - 1 ==> rows[..|rows| - 1][k] == rows[k];
    }
  }

  lemma CollectStep(rows: seq<Row>, pick: Pick, n: nat)
    requires n < |rows|
    ensures Collect(rows[..n + 1], pick)
         == Collect(rows[..n], pick) + Picked(pick, n, rows[n])
  {
    assert rows[..n + 1][..n] == rows[..n];
  }

  lemma CountStep(rows: seq<Row>, counted: Row -> bool, n: nat)
    requires n < |rows|
    ensures Count(rows[..n + 1], counted) == Count(rows[..n], counted) + if counted(rows[n]) then 1 else 0
  {
    assert rows[..n + 1][..n] == rows[..n];
  }

  /** The table, as the scripts update it. */
  class Table {
    var rows: seq<Row>

    constructor (rows: seq<Row>)
      ensures this.rows == rows
    {
      this.rows := rows;
    }

    /** UPDATE ... WHERE id = :id; an unknown id updates nothing. */
    method Update(plan: Plan, now: int)
      modifies this
      ensures rows == Updated(old(rows), plan, now)
    {
      if plan.id < |rows| {
        rows := rows[plan.id := Change(rows[plan.id], plan, now)];
      }
    }

    method UpdateAll(plans: seq<Plan>, now: int)
      modifies this
      ensures rows == Executed(old(rows), plans, now)
    {
      for n := 0 to |plans|
        invariant rows == Executed(old(rows), plans[..n], now)
      {
        assert plans[..n + 1][..n] == plans[..n];
        Update(plans[n], now);
      }
      assert plans[..|plans|] == plans;
    }
  }
}
