/**
 Claiming until nothing is left: both repositories' claims as runs of one abstract step, the result
 of a drain whatever the order of selection, and why no task is ever lost.
 */
module TaskDrain {
  import opened Wrappers
  import opened TaskModel
  import opened TaskQueue
  import opened QueueSafety

  type Table = map<TaskKey, Task>

  predicate NothingEligible(rows: Table, now: int, lease: int) {
    forall id :: id in rows ==> !Eligible(rows[id], now, lease)
  }

  /** The abstract step: look at one eligible task, and finalise or take it. */
  function Pick(rows: Table, id: TaskKey, who: string, now: int, lease: int): Table
    requires id in rows
  {
    rows[id := ClaimEffect(rows[id], who, now, lease)]
  }

  ghost predicate Picks(rows: Table, ids: seq<TaskKey>, rows': Table, who: string, now: int, lease: int)
    decreases |ids|
  {
    if ids == [] then rows == rows'
    else
      && ids[0] in rows && Eligible(rows[ids[0]], now, lease)
      && Picks(Pick(rows, ids[0], who, now, lease), ids[1..], rows', who, now, lease)
  }

  // ----- the in-memory claim ---------------------------------------------------------------------

  predicate AllIn(keys: seq<TaskKey>, rows: Table) {
    forall i :: 0 <= i < |keys| ==> keys[i] in rows
  }

  /** One in-memory claim: scan from position `from` in insertion order, finalise what is over, stop at
      the first task that can be taken. */
  function Scan(order: seq<TaskKey>, from: nat, rows: Table, who: string, now: int, lease: int)
      : (r: (Table, Option<TaskKey>))
    requires from <= |order| && AllIn(order, rows)
    decreases |order| - from
  {
    if from == |order| then (rows, None)
    else if !Eligible(rows[order[from]], now, lease) then Scan(order, from + 1, rows, who, now, lease)
    else if Takes(rows[order[from]], now, lease) then (Pick(rows, order[from], who, now, lease), Some(order[from]))
    else Scan(order, from + 1, Pick(rows, order[from], who, now, lease), who, now, lease)
  }

  /** A finalised task is over, and no longer eligible. */
  lemma FinalisedIsTerminal(t: Task, who: string, now: int, lease: int)
    requires Eligible(t, now, lease) && !Takes(t, now, lease)
    ensures Terminal(ClaimEffect(t, who, now, lease)) && !Eligible(ClaimEffect(t, who, now, lease), now, lease)
  {}

  /** An in-memory claim is a run of finalising picks, then at most one taking pick; when it hands
      nothing out, nothing it scanned is eligible any more. */
  lemma {:induction false} ScanIsPicks(order: seq<TaskKey>, from: nat, rows: Table, who: string, now: int, lease: int)
      returns (ids: seq<TaskKey>)
    requires from <= |order| && AllIn(order, rows)
    requires forall i, j :: 0 <= i < j < |order| ==> order[i] != order[j]
    ensures var (rows', claimed) := Scan(order, from, rows, who, now, lease);
            && Picks(rows, ids, rows', who, now, lease)
            && rows'.Keys == rows.Keys
            && (forall id :: id in ids ==> id in order[from..])
            && (forall id :: id in rows && id !in ids ==> rows'[id] == rows[id])
            && (forall i :: 0 <= i < |ids| - 1 ==> ids[i] in rows && !Takes(rows[ids[i]], now, lease))
            && (claimed.Some? ==>
                  && ids != [] && claimed.value == ids[|ids| - 1]
                  && claimed.value in rows && Takes(rows[claimed.value], now, lease))
            && (claimed.None? ==>
                  && (forall i :: 0 <= i < |ids| ==> ids[i] in rows && !Takes(rows[ids[i]], now, lease))
                  && (forall i :: from <= i < |order| ==> !Eligible(rows'[order[i]], now, lease)))
    decreases |order| - from
  {
    if from == |order| {
      ids := [];
    } else {
      var id := order[from];
      assert order[from..] == [id] + order[from + 1..];
      if !Eligible(rows[id], now, lease) {
        ids := ScanIsPicks(order, from + 1, rows, who, now, lease);
        assert id !in order[from + 1..];
      } else if Takes(rows[id], now, lease) {
        ids := [id];
        assert ids[1..] == [];
      } else {
        FinalisedIsTerminal(rows[id], who, now, lease);
        var rest := ScanIsPicks(order, from + 1, Pick(rows, id, who, now, lease), who, now, lease);
        assert id !in order[from + 1..];
        ids := [id] + rest;
        assert ids[1..] == rest;
      }
    }
  }

  /** A scan goes through the tasks in their order: it finalises the eligible ones that are over, takes the
      first one that can be taken, and does not look at those behind it. */
  lemma {:induction false} ScanTakesFirst(order: seq<TaskKey>, from: nat, rows: Table,
                                          who: string, now: int, lease: int)
      returns (stop: nat)
    requires from <= |order| && AllIn(order, rows) && forall i, j :: 0 <= i < j < |order| ==> order[i] != order[j]
    ensures from <= stop <= |order|
    ensures forall i :: from <= i < stop && Eligible(rows[order[i]], now, lease) ==> !Takes(rows[order[i]], now, lease)
    ensures var (rows', claimed) := Scan(order, from, rows, who, now, lease);
            && rows'.Keys == rows.Keys
            && (if stop < |order| then
                  && claimed == Some(order[stop])
                  && Eligible(rows[order[stop]], now, lease) && Takes(rows[order[stop]], now, lease)
                  && rows'[order[stop]] == ClaimEffect(rows[order[stop]], who, now, lease)
                else claimed.None?)
            && (forall i :: from <= i < stop ==>
                  rows'[order[i]] == if Eligible(rows[order[i]], now, lease)
                                     then ClaimEffect(rows[order[i]], who, now, lease) else rows[order[i]])
            && (forall id :: id in rows && (forall i :: from <= i <= stop && i < |order| ==> order[i] != id) ==>
                  rows'[id] == rows[id])
    decreases |order| - from
  {
    if from == |order| {
      stop := from;
    } else if Eligible(rows[order[from]], now, lease) && Takes(rows[order[from]], now, lease) {
      stop := from;
    } else {
      var next := if Eligible(rows[order[from]], now, lease) then Pick(rows, order[from], who, now, lease) else rows;
      stop := ScanTakesFirst(order, from + 1, next, who, now, lease);
      assert forall i :: from < i < |order| ==> next[order[i]] == rows[order[i]];
    }
  }

  // ----- draining at one moment --------------------------------------------------------------------

  function DrainRow(t: Task, who: string, now: int, lease: int): Task {
    if Eligible(t, now, lease) then ClaimEffect(t, who, now, lease) else t
  }

  /** A scan's look at one position, in terms of the row it leaves there. */
  lemma ScanUnfolds(order: seq<TaskKey>, from: nat, rows: Table, who: string, now: int, lease: int)
    requires from < |order| && AllIn(order, rows)
    ensures var t := rows[order[from]];
            var rows' := rows[order[from] := DrainRow(t, who, now, lease)];
            && AllIn(order, rows')
            && Scan(order, from, rows, who, now, lease) ==
               if Eligible(t, now, lease) && Takes(t, now, lease) then (rows', Some(order[from]))
               else Scan(order, from + 1, rows', who, now, lease)
  {
    var t := rows[order[from]];
    if !Eligible(t, now, lease) {
      assert rows[order[from] := t] == rows;
    }
  }

  function DrainTable(rows: Table, who: string, now: int, lease: int): Table {
    map id | id in rows :: DrainRow(rows[id], who, now, lease)
  }

  /** Every claim, of either repository, keeps what the table will look like once drained. */
  lemma {:induction false} PicksKeepDrain(rows: Table, ids: seq<TaskKey>, rows': Table,
                                          who: string, now: int, lease: int)
    requires 0 < lease && Picks(rows, ids, rows', who, now, lease)
    ensures DrainTable(rows', who, now, lease) == DrainTable(rows, who, now, lease)
    decreases |ids|
  {
    if ids == [] {
    } else {
      var mid := Pick(rows, ids[0], who, now, lease);
      assert DrainRow(mid[ids[0]], who, now, lease) == mid[ids[0]];
      assert DrainTable(mid, who, now, lease) == DrainTable(rows, who, now, lease);
      PicksKeepDrain(mid, ids[1..], rows', who, now, lease);
    }
  }

  /** With a positive lease, draining a table at one moment has one result, whatever the repository
      and whatever order it selects in: every eligible task was finalised or taken exactly once. */
  lemma DrainIsOrderFree(rows: Table, ids: seq<TaskKey>, rows': Table, who: string, now: int, lease: int)
    requires 0 < lease && Picks(rows, ids, rows', who, now, lease) && NothingEligible(rows', now, lease)
    ensures rows' == DrainTable(rows, who, now, lease)
  {
    PicksKeepDrain(rows, ids, rows', who, now, lease);
    assert DrainTable(rows', who, now, lease) == rows';
  }

  // ----- draining by several workers -----------------------------------------------------------------

  /** Picks, each with the name of the worker it is for. */
  ghost predicate PicksBy(rows: Table, picks: seq<(TaskKey, string)>, rows': Table, now: int, lease: int)
    decreases |picks|
  {
    if picks == [] then rows == rows'
    else
      && picks[0].0 in rows && Eligible(rows[picks[0].0], now, lease)
      && PicksBy(Pick(rows, picks[0].0, picks[0].1, now, lease), picks[1..], rows', now, lease)
  }

  /** A task but for who has it. */
  function Unsigned(t: Task): Task {
    t.(lockedBy := None)
  }

  function EligibleKeys(rows: Table, now: int, lease: int): set<TaskKey> {
    set id | id in rows && Eligible(rows[id], now, lease)
  }

  lemma {:induction false} PicksByKeepDrain(rows: Table, picks: seq<(TaskKey, string)>, rows': Table,
                                            who: string, now: int, lease: int)
    requires 0 < lease && PicksBy(rows, picks, rows', now, lease)
    ensures rows'.Keys == rows.Keys
    ensures forall id :: id in rows ==>
              Unsigned(DrainRow(rows'[id], who, now, lease)) == Unsigned(DrainRow(rows[id], who, now, lease))
    ensures |picks| + |EligibleKeys(rows', now, lease)| == |EligibleKeys(rows, now, lease)|
    decreases |picks|
  {
    if picks == [] {
    } else {
      var (id, worker) := picks[0];
      var mid := Pick(rows, id, worker, now, lease);
      assert !Eligible(mid[id], now, lease);
      assert EligibleKeys(mid, now, lease) == EligibleKeys(rows, now, lease) - {id};
      PicksByKeepDrain(mid, picks[1..], rows', who, now, lease);
    }
  }

  /** With a positive lease a drain by any number of workers, in any order, takes one pick for every
      task that was eligible, and ends in the same table but for the names of the workers. */
  lemma DrainIsWorkerFree(rows: Table, picks: seq<(TaskKey, string)>, rows': Table, who: string, now: int, lease: int)
    requires 0 < lease && PicksBy(rows, picks, rows', now, lease) && NothingEligible(rows', now, lease)
    ensures rows'.Keys == rows.Keys
    ensures forall id :: id in rows ==> Unsigned(rows'[id]) == Unsigned(DrainTable(rows, who, now, lease)[id])
    ensures |picks| == |EligibleKeys(rows, now, lease)| <= |rows|
  {
    PicksByKeepDrain(rows, picks, rows', who, now, lease);
    assert EligibleKeys(rows', now, lease) == {};
    SubsetIsSmaller(EligibleKeys(rows, now, lease), rows.Keys);
    assert |rows.Keys| == |rows|;
  }

  lemma {:induction false} SubsetIsSmaller(a: set<TaskKey>, b: set<TaskKey>)
    requires a <= b
    ensures |a| <= |b|
    decreases |a|
  {
    if a == {} {
    } else {
      var x :| x in a;
      SubsetIsSmaller(a - {x}, b - {x});
    }
  }

  /** With a lease of zero a drain never ends: a task just taken is eligible at once. */
  lemma ZeroLeaseKeepsEligible(t: Task, who: string, now: int, lease: int)
    requires Eligible(t, now, lease) && Takes(t, now, lease)
    ensures Eligible(ClaimEffect(t, who, now, lease), now, lease) <==> lease <= 0
  {}

  /** In-memory claims repeated until one hands nothing out. */
  ghost predicate MemoryDrain(order: seq<TaskKey>, tables: seq<Table>, who: string, now: int, lease: int) {
    && |tables| >= 2
    && (forall i :: 0 <= i < |tables| ==> AllIn(order, tables[i]))
    && (forall i, j :: 0 <= i < j < |tables| && j == i + 1 ==>
          tables[j] == Scan(order, 0, tables[i], who, now, lease).0)
    && Scan(order, 0, tables[|tables| - 2], who, now, lease).1.None?
  }

  /** One SQL claim: some eligible row, whichever the ordering and the row locks let through. */
  ghost predicate SqlClaim(rows: Table, rows': Table, who: string, now: int, lease: int) {
    exists id :: id in rows && Eligible(rows[id], now, lease) && rows' == Pick(rows, id, who, now, lease)
  }

  /** SQL claims repeated until no row is eligible. */
  ghost predicate SqlDrain(tables: seq<Table>, who: string, now: int, lease: int) {
    && tables != []
    && (forall i, j :: 0 <= i < j < |tables| && j == i + 1 ==> SqlClaim(tables[i], tables[j], who, now, lease))
    && NothingEligible(tables[|tables| - 1], now, lease)
  }

  lemma {:induction false} MemoryDrainKeeps(order: seq<TaskKey>, tables: seq<Table>, n: nat,
                                            who: string, now: int, lease: int)
    requires 0 < lease && MemoryDrain(order, tables, who, now, lease) && n < |tables|
    requires forall i, j :: 0 <= i < j < |order| ==> order[i] != order[j]
    ensures DrainTable(tables[n], who, now, lease) == DrainTable(tables[0], who, now, lease)
    ensures tables[n].Keys == tables[0].Keys
  {
    if n == 0 {
    } else {
      var before := tables[n - 1];
      MemoryDrainKeeps(order, tables, n - 1, who, now, lease);
      assert tables[n] == Scan(order, 0, before, who, now, lease).0;
      var ids := ScanIsPicks(order, 0, before, who, now, lease);
      PicksKeepDrain(before, ids, tables[n], who, now, lease);
    }
  }

  lemma MemoryDrainEnds(order: seq<TaskKey>, tables: seq<Table>, who: string, now: int, lease: int)
    requires 0 < lease && MemoryDrain(order, tables, who, now, lease)
    requires forall i, j :: 0 <= i < j < |order| ==> order[i] != order[j]
    requires forall id :: id in tables[0] ==> id in order
    ensures NothingEligible(tables[|tables| - 1], now, lease)
  {
    var last := tables[|tables| - 1];
    var before := tables[|tables| - 2];
    MemoryDrainKeeps(order, tables, |tables| - 1, who, now, lease);
    assert last == Scan(order, 0, before, who, now, lease).0;
    var ids := ScanIsPicks(order, 0, before, who, now, lease);
    forall id | id in last ensures !Eligible(last[id], now, lease) {
      assert id in tables[0];
      var k :| 0 <= k < |order| && order[k] == id;
      assert !Eligible(last[order[k]], now, lease);
    }
  }

  lemma {:induction false} SqlDrainKeeps(tables: seq<Table>, n: nat, who: string, now: int, lease: int)
    requires 0 < lease && SqlDrain(tables, who, now, lease) && n < |tables|
    ensures DrainTable(tables[n], who, now, lease) == DrainTable(tables[0], who, now, lease)
  {
    if n == 0 {
    } else {
      var before := tables[n - 1];
      SqlDrainKeeps(tables, n - 1, who, now, lease);
      assert SqlClaim(before, tables[n], who, now, lease);
      var id :| id in before && Eligible(before[id], now, lease) && tables[n] == Pick(before, id, who, now, lease);
      assert [id][1..] == [];
      PicksKeepDrain(before, [id], tables[n], who, now, lease);
    }
  }

  lemma NothingEligibleIsDrained(rows: Table, who: string, now: int, lease: int)
    requires NothingEligible(rows, now, lease)
    ensures DrainTable(rows, who, now, lease) == rows
  {}

  /** The two repositories drain the same table to the same table. */
  lemma StoresDrainAlike(order: seq<TaskKey>, inMemory: seq<Table>, sql: seq<Table>, who: string, now: int, lease: int)
    requires 0 < lease && MemoryDrain(order, inMemory, who, now, lease) && SqlDrain(sql, who, now, lease)
    requires inMemory[0] == sql[0]
    requires forall i, j :: 0 <= i < j < |order| ==> order[i] != order[j]
    requires forall id :: id in inMemory[0] ==> id in order
    ensures inMemory[|inMemory| - 1] == sql[|sql| - 1] == DrainTable(sql[0], who, now, lease)
  {
    MemoryDrainKeeps(order, inMemory, |inMemory| - 1, who, now, lease);
    MemoryDrainEnds(order, inMemory, who, now, lease);
    NothingEligibleIsDrained(inMemory[|inMemory| - 1], who, now, lease);
    SqlDrainKeeps(sql, |sql| - 1, who, now, lease);
    NothingEligibleIsDrained(sql[|sql| - 1], who, now, lease);
  }

  // ----- no task is lost ------------------------------------------------------------------------------

  /** When a task that is not over can next be claimed. */
  function ReleaseTime(t: Task, lease: int): int
    requires t.availableAt.Some? && (t.status.Running? ==> t.lockedAt.Some?)
  {
    if t.status.Running? then t.lockedAt.value + lease else t.availableAt.value
  }

  lemma EligibleIffReleased(t: Task, now: int, lease: int)
    requires WellFormed(t) && !Terminal(t)
    ensures Eligible(t, now, lease) <==> ReleaseTime(t, lease) <= now
  {}

  /** In every reachable state every task that is not over can be claimed by any idle worker, at its
      release time or now if that has passed; nothing else has to happen first. */
  lemma NoTaskIsLost(cfg: Config, s: State, id: TaskKey, w: Worker, who: string) returns (steps: seq<Step>, s': State)
    requires Safe(cfg) && Reachable(cfg, s) && id in s.rows && !Terminal(s.rows[id]) && PhaseOf(s, w).Idle?
    ensures WellFormed(s.rows[id])
    ensures var release := ReleaseTime(s.rows[id], cfg.lease);
            && Run(cfg, s, steps, s')
            && s'.clock == (if release <= s.clock then s.clock else release)
            && Enabled(cfg, s', Claim(w, id, who, s'.clock))
  {
    ReachableInv(cfg, s);
    var release := ReleaseTime(s.rows[id], cfg.lease);
    EligibleIffReleased(s.rows[id], if release <= s.clock then s.clock else release, cfg.lease);
    steps, s' := RunStep(cfg, s, [], s, Tick(if release <= s.clock then 0 else release - s.clock));
  }

  /** The task after drains at the given moments, if every worker crashes right after its claim. */
  function CrashDrains(t: Task, who: string, moments: seq<int>, lease: int): Task
    decreases |moments|
  {
    if moments == [] then t else CrashDrains(DrainRow(t, who, moments[0], lease), who, moments[1..], lease)
  }

  /** Each drain comes at or after the task's release time of that moment. */
  predicate PastReleases(t: Task, who: string, moments: seq<int>, lease: int)
    decreases |moments|
  {
    moments == [] || Terminal(t)
    || (Eligible(t, moments[0], lease) && PastReleases(DrainRow(t, who, moments[0], lease), who, moments[1..], lease))
  }

  /** However often workers crash, a task ends after exactly one drain more than it has attempts
      left, or after the first if it carries a cancel request. */
  lemma {:induction false} CrashDrainsEnd(t: Task, who: string, moments: seq<int>, lease: int)
    requires WellFormed(t) && PastReleases(t, who, moments, lease)
    ensures WellFormed(CrashDrains(t, who, moments, lease))
    ensures Terminal(CrashDrains(t, who, moments, lease)) <==>
              || Terminal(t)
              || |moments| >= t.maxAttempts - t.attempts + 1
              || (t.cancelRequested && moments != [])
    decreases |moments|
  {
    if moments == [] {
    } else {
      if Eligible(t, moments[0], lease) {
        ClaimKeepsWellFormed(t, who, moments[0], lease);
      }
      CrashDrainsEnd(DrainRow(t, who, moments[0], lease), who, moments[1..], lease);
    }
  }

  function DrainTables(rows: Table, who: string, moments: seq<int>, lease: int): Table
    decreases |moments|
  {
    if moments == [] then rows else DrainTables(DrainTable(rows, who, moments[0], lease), who, moments[1..], lease)
  }

  lemma {:induction false} DrainTablesRowwise(rows: Table, who: string, moments: seq<int>, lease: int)
    ensures DrainTables(rows, who, moments, lease).Keys == rows.Keys
    ensures forall id :: id in rows ==>
              DrainTables(rows, who, moments, lease)[id] == CrashDrains(rows[id], who, moments, lease)
    decreases |moments|
  {
    if moments == [] {
    } else {
      DrainTablesRowwise(DrainTable(rows, who, moments[0], lease), who, moments[1..], lease);
    }
  }

  /** So a queue whose workers crash after every claim still finishes every task it held. */
  lemma CrashingQueueFinishes(rows: Table, who: string, moments: seq<int>, lease: int)
    requires RowsOk(rows)
    requires forall id :: id in rows ==> PastReleases(rows[id], who, moments, lease)
    requires forall id :: id in rows ==> |moments| > rows[id].maxAttempts - rows[id].attempts
    ensures DrainTables(rows, who, moments, lease).Keys == rows.Keys
    ensures forall id :: id in rows ==> Terminal(DrainTables(rows, who, moments, lease)[id])
  {
    DrainTablesRowwise(rows, who, moments, lease);
    forall id | id in rows ensures Terminal(DrainTables(rows, who, moments, lease)[id]) {
      CrashDrainsEnd(rows[id], who, moments, lease);
    }
  }
}
