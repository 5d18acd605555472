/**
 The same termination argument as one number for the whole queue.
 */
module QueueTermination {
  import opened TaskModel
  import opened TaskQueue
  import opened QueueSafety

  ghost function TotalRank(rows: map<TaskKey, Task>): int {
    if rows == map[] then 0
    else
      var id :| id in rows;
      Rank(rows[id]) + TotalRank(rows - {id})
  }

  lemma {:induction false} TotalRankSplits(rows: map<TaskKey, Task>, id: TaskKey)
    requires id in rows
    ensures TotalRank(rows) == Rank(rows[id]) + TotalRank(rows - {id})
    decreases |rows|
  {
    var first :| first in rows && TotalRank(rows) == Rank(rows[first]) + TotalRank(rows - {first});
    if first != id {
      TotalRankSplits(rows - {first}, id);
      TotalRankSplits(rows - {id}, first);
      assert rows - {first} - {id} == rows - {id} - {first};
    }
  }

  lemma {:induction false} TotalRankFalls(rows: map<TaskKey, Task>, rows': map<TaskKey, Task>)
    requires rows.Keys == rows'.Keys
    requires forall id :: id in rows ==> Rank(rows'[id]) <= Rank(rows[id])
    ensures TotalRank(rows') <= TotalRank(rows)
    ensures TotalRank(rows') == TotalRank(rows) ==> forall id :: id in rows ==> Rank(rows'[id]) == Rank(rows[id])
    decreases |rows|
  {
    if rows == map[] {
      assert rows' == map[];
    } else {
      var id :| id in rows;
      TotalRankSplits(rows, id);
      TotalRankSplits(rows', id);
      TotalRankFalls(rows - {id}, rows' - {id});
      assert forall x :: x in rows ==> x == id || x in rows - {id};
    }
  }

  lemma TotalFallsIffMoved(rows: map<TaskKey, Task>, rows': map<TaskKey, Task>)
    requires rows.Keys == rows'.Keys
    requires forall id :: id in rows ==>
               && Rank(rows'[id]) <= Rank(rows[id])
               && (Rank(rows'[id]) < Rank(rows[id]) <==> Moved(rows[id], rows'[id]))
    ensures TotalRank(rows') <= TotalRank(rows)
    ensures TotalRank(rows') < TotalRank(rows) <==> exists id :: id in rows && Moved(rows[id], rows'[id])
  {
    TotalRankFalls(rows, rows');
    if !exists id :: id in rows && Moved(rows[id], rows'[id]) {
      TotalRankFalls(rows', rows);
    }
  }

  lemma StepSpendsRank(cfg: Config, s: State, step: Step, id: TaskKey)
    requires Safe(cfg) && Inv(cfg, s) && Enabled(cfg, s, step) && id in s.rows
    ensures var s' := Next(cfg, s, step);
            && id in s'.rows && Rank(s'.rows[id]) <= Rank(s.rows[id])
            && (Rank(s'.rows[id]) < Rank(s.rows[id]) <==> Moved(s.rows[id], s'.rows[id]))
  {
    StepAdvances(cfg, s, step, id);
  }

  lemma StepKeepsKeys(cfg: Config, s: State, step: Step)
    requires Enabled(cfg, s, step) && !step.Create?
    ensures Next(cfg, s, step).rows.Keys == s.rows.Keys
  {}

  /** Claims, reclaims, retries, finishes, expiries and effective cancels lower the total rank of the
      queue; every other step but a creation leaves it alone. */
  lemma StepSpendsTotalRank(cfg: Config, s: State, step: Step)
    requires Safe(cfg) && Reachable(cfg, s) && Enabled(cfg, s, step) && !step.Create?
    ensures var rows' := Next(cfg, s, step).rows;
            && rows'.Keys == s.rows.Keys
            && TotalRank(rows') <= TotalRank(s.rows)
            && (TotalRank(rows') < TotalRank(s.rows) <==> exists id :: id in s.rows && Moved(s.rows[id], rows'[id]))
  {
    ReachableInv(cfg, s);
    StepKeepsKeys(cfg, s, step);
    var rows' := Next(cfg, s, step).rows;
    forall id | id in s.rows
      ensures Rank(rows'[id]) <= Rank(s.rows[id])
      ensures Rank(rows'[id]) < Rank(s.rows[id]) <==> Moved(s.rows[id], rows'[id])
    {
      StepSpendsRank(cfg, s, step, id);
    }
    TotalFallsIffMoved(s.rows, rows');
  }
}
