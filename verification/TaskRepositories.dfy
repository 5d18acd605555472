/**
 The two task stores and the worker's own methods, written as the program writes them: field by field,
 in place. Each method is proved against the row functions of TaskModel.
 */
module TaskRepositories {
  import opened Wrappers
  import opened TaskModel
  import opened TaskDrain

  /** The mutable task object the service and its workers pass around. */
  class BackgroundTask {
    const key: TaskKey
    const maxAttempts: int
    var status: Status
    var progress: int
    var errorCode: Option<string>
    var result: Option<string>
    var attempts: int
    var availableAt: Option<int>
    var lockedAt: Option<int>
    var lockedBy: Option<string>
    var cancelRequested: bool
    var finishedAt: Option<int>

    function Value(): Task
      reads this
    {
      Task(status, progress, errorCode, result, attempts, maxAttempts, availableAt, lockedAt, lockedBy,
           cancelRequested, finishedAt)
    }

    constructor (key: TaskKey, t: Task)
      ensures this.key == key && Value() == t
    {
      this.key := key;
      maxAttempts := t.maxAttempts;
      status, progress, errorCode, result := t.status, t.progress, t.errorCode, t.result;
      attempts, availableAt := t.attempts, t.availableAt;
      lockedAt, lockedBy := t.lockedAt, t.lockedBy;
      cancelRequested, finishedAt := t.cancelRequested, t.finishedAt;
    }

    /** A claim's look at one task: pass it by, finalise it, or take it. */
    method Visit(workerId: string, now: int, lease: int) returns (taken: bool)
      modifies this
      ensures Value() == DrainRow(old(Value()), workerId, now, lease)
      ensures taken == (old(Eligible(Value(), now, lease)) && old(Takes(Value(), now, lease)))
    {
      var available := availableAt.GetOr(now);
      var stale := status.Running? && lockedAt.Some? && lockedAt.value <= now - lease;
      if !stale && (!(status.Queued? || status.RetryWait?) || available > now) {
        return false;
      }
      if cancelRequested {
        status := Cancelled;
        finishedAt := Some(now);
        return false;
      }
      if stale && attempts >= maxAttempts {
        status := Failed;
        errorCode := Some("TASK_LEASE_EXPIRED");
        finishedAt := Some(now);
        return false;
      }
      status := Running;
      attempts := attempts + 1;
      progress := if progress > 5 then progress else 5;
      lockedBy := Some(workerId);
      lockedAt := Some(now);
      return true;
    }

    /** The part of `succeed` before the save. */
    method MarkSucceeded(value: string, now: int)
      modifies this
      ensures Value() == Succeed(old(Value()), value, now)
    {
      status := Succeeded;
      progress := 100;
      result := Some(value);
      errorCode := None;
      lockedAt := None;
      lockedBy := None;
      finishedAt := Some(now);
    }

    /** The part of `fail` before the save. */
    method MarkFailed(code: string, retryDelay: int, now: int)
      modifies this
      ensures Value() == Fail(old(Value()), code, retryDelay, now)
    {
      errorCode := Some(code);
      lockedAt := None;
      lockedBy := None;
      if cancelRequested {
        status := Cancelled;
        finishedAt := Some(now);
      } else if attempts < maxAttempts {
        status := RetryWait;
        availableAt := Some(now + if retryDelay > 0 then retryDelay else 0);
      } else {
        status := Failed;
        finishedAt := Some(now);
      }
    }

    /** What the worker does to its task object after the handler, up to the save. `latestFlag` is
        the cancel flag of the task as read back from the store. */
    method Complete(o: Outcome, latestFlag: bool, retryDelay: int, now: int)
      modifies this
      ensures Value() == FinishTask(old(Value()), o, latestFlag, retryDelay, now)
    {
      match o
      case NoHandler =>
        attempts := maxAttempts;
        MarkFailed("TASK_HANDLER_NOT_FOUND", 0, now);
      case Returned(value) =>
        if latestFlag {
          cancelRequested := true;
          MarkFailed("TASK_CANCELLED", 0, now);
        } else {
          MarkSucceeded(value, now);
        }
      case RaisedCancelled =>
        cancelRequested := true;
        MarkFailed("TASK_CANCELLED", 0, now);
      case RaisedTimeout =>
        MarkFailed("TASK_TIMEOUT", retryDelay, now);
      case RaisedInvalid =>
        attempts := maxAttempts;
        MarkFailed("INVALID_TASK_PAYLOAD", 0, now);
      case RaisedOther =>
        MarkFailed("TASK_EXECUTION_FAILED", retryDelay, now);
    }
  }

  /** The in-memory store: an insertion-ordered dictionary of task objects, shared with the workers. */
  class InMemoryTaskRepository {
    var order: seq<TaskKey>
    var tasks: map<TaskKey, BackgroundTask>

    ghost predicate Valid()
      reads this
    {
      && (forall i, j :: 0 <= i < j < |order| ==> order[i] != order[j])
      && (forall k :: k in tasks <==> k in order)
      && (forall k :: k in tasks ==> tasks[k].key == k)
    }

    ghost function Rows(): (rows: Table)
      reads this, tasks.Values
    {
      map k | k in tasks :: tasks[k].Value()
    }

    constructor ()
      ensures Valid() && tasks == map[] && order == []
    {
      order, tasks := [], map[];
    }

    method SaveTask(task: BackgroundTask)
      requires Valid()
      modifies this
      ensures Valid() && tasks == old(tasks)[task.key := task]
      ensures Rows() == old(Rows())[task.key := task.Value()]
      ensures order == if task.key in old(tasks) then old(order) else old(order) + [task.key]
    {
      if task.key !in tasks {
        order := order + [task.key];
      }
      tasks := tasks[task.key := task];
      Put(task);
    }

    /** After one object is put under its key, the table has its row. */
    twostate lemma Put(task: BackgroundTask)
      requires tasks == old(tasks)[task.key := task]
      requires unchanged(task) && forall k :: k in old(tasks) ==> unchanged(old(tasks)[k])
      ensures Rows() == old(Rows())[task.key := task.Value()]
    {}

    /** Saving a claimed task puts the object back under its key; a missing key is an error. */
    method SaveClaimedTask(task: BackgroundTask) returns (found: bool)
      requires Valid()
      modifies this`tasks
      ensures Valid() && found == (task.key in old(tasks))
      ensures tasks == if found then old(tasks)[task.key := task] else old(tasks)
      ensures Rows() == if found then old(Rows())[task.key := task.Value()] else old(Rows())
    {
      found := task.key in tasks;
      if found {
        tasks := tasks[task.key := task];
        Put(task);
      }
    }

    method RequestTaskCancel(key: TaskKey, now: int) returns (task: BackgroundTask?)
      requires Valid()
      modifies tasks.Values
      ensures Valid() && (task == null <==> key !in tasks)
      ensures task != null ==> task == tasks[key]
      ensures Rows() == if key in tasks then old(Rows())[key := CancelEffect(old(Rows())[key], now)] else old(Rows())
    {
      if key !in tasks {
        return null;
      }
      task := tasks[key];
      task.cancelRequested := true;
      if task.status.Queued? || task.status.RetryWait? {
        task.status := Cancelled;
        task.finishedAt := Some(now);
      }
      Rewritten(key);
    }

    /** Scan the tasks in insertion order, finalise those that are over, hand out the first that can
        be taken. The object handed out is the stored object. */
    method ClaimNextTask(workerId: string, now: int, lease: int) returns (claimed: BackgroundTask?)
      requires Valid()
      modifies tasks.Values
      ensures AllIn(order, Rows()) && old(AllIn(order, Rows()))
      ensures var (rows, taken) := old(Scan(order, 0, Rows(), workerId, now, lease));
              && Rows() == rows
              && (claimed == null <==> taken.None?)
              && (claimed != null ==>
                    taken == Some(claimed.key) && claimed.key in tasks && claimed == tasks[claimed.key])
    {
      ghost var r := Scan(order, 0, Rows(), workerId, now, lease);
      for i := 0 to |order|
        invariant AllIn(order, Rows())
        invariant Scan(order, i, Rows(), workerId, now, lease) == r
      {
        var taken := VisitAt(i, workerId, now, lease);
        if taken {
          return tasks[order[i]];
        }
      }
      return null;
    }

    /** One turn of the scan. */
    method VisitAt(i: nat, workerId: string, now: int, lease: int) returns (taken: bool)
      requires Valid() && i < |order|
      modifies tasks.Values
      ensures AllIn(order, Rows()) && old(AllIn(order, Rows()))
      ensures old(Scan(order, i, Rows(), workerId, now, lease)) ==
              if taken then (Rows(), Some(order[i])) else Scan(order, i + 1, Rows(), workerId, now, lease)
    {
      ScanUnfolds(order, i, Rows(), workerId, now, lease);
      taken := tasks[order[i]].Visit(workerId, now, lease);
      Rewritten(order[i]);
    }

    /** After one task object is rewritten, the table is the old one with that row replaced. */
    twostate lemma Rewritten(key: TaskKey)
      requires old(Valid()) && key in old(tasks) && tasks == old(tasks)
      requires forall k :: k in tasks && k != key ==> unchanged(tasks[k])
      ensures Rows() == old(Rows())[key := tasks[key].Value()]
    {}

    /** Read the flag back and finish the stored object. */
    method CompleteStored(task: BackgroundTask, o: Outcome, retryDelay: int, now: int)
      requires Valid() && task.key in tasks && tasks[task.key] == task
      modifies task
      ensures Rows() == old(Rows())[task.key :=
                FinishTask(old(Rows())[task.key], o, old(Rows())[task.key].cancelRequested, retryDelay, now)]
    {
      var latest := tasks[task.key];
      task.Complete(o, latest.cancelRequested, retryDelay, now);
      Rewritten(task.key);
    }

    /** The worker's last step in this store. Its task object is the stored one, so reading the flag
        back, finishing and saving is one rewrite of the row. */
    method FinishClaimed(task: BackgroundTask, o: Outcome, retryDelay: int, now: int)
      requires Valid() && task.key in tasks && tasks[task.key] == task
      modifies this`tasks, task
      ensures Valid() && tasks == old(tasks)
      ensures Rows() == old(Rows())[task.key :=
                FinishTask(old(Rows())[task.key], o, old(Rows())[task.key].cancelRequested, retryDelay, now)]
    {
      assert tasks[task.key := task] == tasks;
      CompleteStored(task, o, retryDelay, now);
      ghost var finished := Rows();
      assert finished[task.key := task.Value()] == finished;
      var found := SaveClaimedTask(task);
    }
  }

  /** One row of the `background_tasks` table. */
  datatype Row = Row(task: Task, createdAt: int, version: nat)

  /** The SQL store. A row-locking transaction is one atomic method; `skipped` are the rows that other
      transactions hold locked at that moment. */
  class SqlTaskRepository {
    var rows: map<TaskKey, Row>

    function Table(): Table
      reads this
    {
      map k | k in rows :: rows[k].task
    }

    constructor ()
      ensures rows == map[]
    {
      rows := map[];
    }

    /** No row goes, and none changes the time it was created. */
    twostate predicate KeepsCreation()
      reads this
    {
      forall k :: k in old(rows) ==> k in rows && rows[k].createdAt == old(rows)[k].createdAt
    }

    /** The order of the claim's select. */
    static predicate Before(a: Row, b: Row, now: int) {
      var x, y := a.task.availableAt.GetOr(now), b.task.availableAt.GetOr(now);
      x < y || (x == y && a.createdAt <= b.createdAt)
    }

    static lemma FirstExists(rows: map<TaskKey, Row>, candidates: set<TaskKey>, now: int) returns (first: TaskKey)
      requires candidates != {} && candidates <= rows.Keys
      ensures first in candidates && forall k :: k in candidates ==> Before(rows[first], rows[k], now)
    {
      first :| first in candidates;
      if candidates != {first} {
        var best := FirstExists(rows, candidates - {first}, now);
        if !Before(rows[first], rows[best], now) {
          first := best;
        }
        assert candidates == candidates - {first} + {first};
      }
    }

    /** The rows the claim's select may return, before its ordering. */
    predicate Candidate(k: TaskKey, skipped: set<TaskKey>, now: int, lease: int)
      reads this
    {
      k in rows && k !in skipped && Eligible(rows[k].task, now, lease)
    }

    /** The select: the first unlocked eligible row by (available_at, created_at). */
    method SelectFirst(now: int, lease: int, skipped: set<TaskKey>) returns (picked: Option<TaskKey>)
      ensures picked.None? <==> forall k :: !Candidate(k, skipped, now, lease)
      ensures picked.Some? ==>
                && Candidate(picked.value, skipped, now, lease)
                && (forall k :: Candidate(k, skipped, now, lease) ==>
                      var (first, other) := (rows[picked.value], rows[k]);
                      && first.task.availableAt.GetOr(now) <= other.task.availableAt.GetOr(now)
                      && (first.task.availableAt.GetOr(now) == other.task.availableAt.GetOr(now) ==>
                            first.createdAt <= other.createdAt))
    {
      var candidates := set k | k in rows && k !in skipped && Eligible(rows[k].task, now, lease);
      if candidates == {} {
        assert forall k :: Candidate(k, skipped, now, lease) ==> k in candidates;
        return None;
      }
      ghost var first := FirstExists(rows, candidates, now);
      var key :| key in candidates && forall k :: k in candidates ==> Before(rows[key], rows[k], now);
      assert Candidate(key, skipped, now, lease);
      assert forall k :: Candidate(k, skipped, now, lease) ==> k in candidates && Before(rows[key], rows[k], now);
      picked := Some(key);
    }

    /** Finalise or take the first row, and hand out a fresh copy of what was taken. */
    method ClaimNextTask(workerId: string, now: int, lease: int, skipped: set<TaskKey>)
        returns (claimed: BackgroundTask?, picked: Option<TaskKey>)
      modifies this
      ensures picked.None? <==> forall k :: !old(Candidate(k, skipped, now, lease))
      ensures picked.None? ==> claimed == null && rows == old(rows)
      ensures picked.Some? ==>
                && old(Candidate(picked.value, skipped, now, lease))
                && (forall k :: old(Candidate(k, skipped, now, lease)) ==>
                      var (first, other) := (old(rows)[picked.value], old(rows)[k]);
                      && first.task.availableAt.GetOr(now) <= other.task.availableAt.GetOr(now)
                      && (first.task.availableAt.GetOr(now) == other.task.availableAt.GetOr(now) ==>
                            first.createdAt <= other.createdAt))
                && Table() == Pick(old(Table()), picked.value, workerId, now, lease)
                && (claimed != null <==> Takes(old(rows)[picked.value].task, now, lease))
      ensures claimed != null ==>
                picked == Some(claimed.key) && fresh(claimed) && claimed.Value() == Table()[claimed.key]
      ensures KeepsCreation()
      ensures forall k :: k in old(rows) && k in rows ==>
                rows[k].version == old(rows)[k].version + if picked == Some(k) then 1 else 0
    {
      picked := SelectFirst(now, lease, skipped);
      assert forall k :: old(Candidate(k, skipped, now, lease)) <==> Candidate(k, skipped, now, lease);
      if picked.None? {
        return null, None;
      }
      var key := picked.value;
      assert Candidate(key, skipped, now, lease);
      var row := rows[key];
      var task := row.task;
      if task.cancelRequested {
        task := task.(status := Cancelled, finishedAt := Some(now));
        rows := rows[key := row.(task := task, version := row.version + 1)];
        return null, picked;
      }
      if task.status.Running? && task.attempts >= task.maxAttempts {
        task := task.(status := Failed, errorCode := Some("TASK_LEASE_EXPIRED"), finishedAt := Some(now));
        rows := rows[key := row.(task := task, version := row.version + 1)];
        return null, picked;
      }
      task := task.(status := Running, attempts := task.attempts + 1,
                    progress := if task.progress > 5 then task.progress else 5,
                    lockedBy := Some(workerId), lockedAt := Some(now));
      rows := rows[key := row.(task := task, version := row.version + 1)];
      claimed := new BackgroundTask(key, task);
    }

    /** The task id is the table's primary key, so an id is taken once for all tenants. */
    predicate TakenByOther(key: TaskKey)
      reads this
    {
      exists k :: k in rows && k.taskId == key.taskId && k.tenantId != key.tenantId
    }

    /** The first save of a task inserts its row, a later one overwrites all its columns, and an id of
        another tenant is refused. */
    method SaveTask(task: BackgroundTask, now: int) returns (saved: bool)
      modifies this
      ensures saved == !old(TakenByOther(task.key))
      ensures Table() == if !saved then old(Table()) else
                old(Table())[task.key := task.Value().(availableAt := Some(task.availableAt.GetOr(now)))]
      ensures forall k :: TakenByOther(k) <==>
                old(TakenByOther(k)) || (saved && k.taskId == task.key.taskId && k.tenantId != task.key.tenantId)
      ensures KeepsCreation()
      ensures saved && task.key !in old(rows) ==>
                task.key in rows && rows[task.key].createdAt == now
    {
      if exists k :: k in rows && k.taskId == task.key.taskId && k.tenantId != task.key.tenantId {
        return false;
      }
      saved := true;
      var value := task.Value();
      var stored := value.(availableAt := Some(value.availableAt.GetOr(now)));
      if task.key !in rows {
        rows := rows[task.key := Row(stored, now, 1)];
      } else {
        var row := rows[task.key];
        rows := rows[task.key := row.(task := stored, version := row.version + 1)];
      }
      assert task.key in rows;
    }

    /** Overwrite the row with the worker's copy, all columns but `attempts` and `max_attempts`, and
        without looking at who holds it. */
    method SaveClaimedTask(task: BackgroundTask, now: int) returns (found: bool)
      modifies this
      ensures found == (task.key in old(rows)) && KeepsCreation()
      ensures Table() == if found then old(Table())[task.key := SaveClaimed(old(Table())[task.key], task.Value(), now)]
                         else old(Table())
    {
      found := task.key in rows;
      if found {
        var row := rows[task.key];
        var saved := row.task.(status := task.status, progress := task.progress, errorCode := task.errorCode,
                               result := task.result, availableAt := Some(task.availableAt.GetOr(now)),
                               lockedAt := task.lockedAt, lockedBy := task.lockedBy,
                               cancelRequested := task.cancelRequested, finishedAt := task.finishedAt);
        rows := rows[task.key := row.(task := saved, version := row.version + 1)];
      }
    }

    method RequestTaskCancel(key: TaskKey, now: int) returns (task: BackgroundTask?)
      modifies this
      ensures KeepsCreation() && (task == null <==> key !in old(rows))
      ensures Table() == if key in old(rows) then old(Table())[key := CancelEffect(old(Table())[key], now)]
                         else old(Table())
      ensures task != null ==> task.key == key && fresh(task) && task.Value() == Table()[key]
    {
      if key !in rows {
        return null;
      }
      var row := rows[key];
      var updated := row.task.(cancelRequested := true);
      if updated.status.Queued? || updated.status.RetryWait? {
        updated := updated.(status := Cancelled, finishedAt := Some(now));
      }
      rows := rows[key := row.(task := updated, version := row.version + 1)];
      task := new BackgroundTask(key, updated);
    }
  }

  // ----- the order of an SQL drain ----------------------------------------------------------------

  /** With no row locked, the row a claim picks: eligible, available first, and among those created
      first. */
  ghost predicate PickedFirst(rows: map<TaskKey, Row>, id: TaskKey, now: int, lease: int) {
    && id in rows && Eligible(rows[id].task, now, lease)
    && forall k :: k in rows && Eligible(rows[k].task, now, lease) ==> NotAfter(rows[id], rows[k], now)
  }

  predicate NotAfter(a: Row, b: Row, now: int) {
    var x, y := a.task.availableAt.GetOr(now), b.task.availableAt.GetOr(now);
    x < y || (x == y && a.createdAt <= b.createdAt)
  }

  /** Claims by one worker at one moment, one after the other. */
  ghost predicate ClaimsInTurn(rows: map<TaskKey, Row>, ids: seq<TaskKey>, who: string, now: int, lease: int)
    decreases |ids|
  {
    || ids == []
    || (&& PickedFirst(rows, ids[0], now, lease)
        && ClaimsInTurn(AfterPick(rows, ids[0], who, now, lease), ids[1..], who, now, lease))
  }

  function AfterPick(rows: map<TaskKey, Row>, id: TaskKey, who: string, now: int, lease: int): map<TaskKey, Row>
    requires id in rows
  {
    var row := rows[id];
    rows[id := row.(task := ClaimEffect(row.task, who, now, lease), version := row.version + 1)]
  }

  /** With a positive lease the picks of a drain are different tasks, in the order in which they became
      available, and among those that became available together in the order of creation. */
  lemma {:induction false} DrainGoesInOrder(rows: map<TaskKey, Row>, ids: seq<TaskKey>,
                                            who: string, now: int, lease: int)
    requires 0 < lease && ClaimsInTurn(rows, ids, who, now, lease)
    ensures forall i :: 0 <= i < |ids| ==> ids[i] in rows && Eligible(rows[ids[i]].task, now, lease)
    ensures forall i, j :: 0 <= i < j < |ids| ==>
              var (a, b) := (rows[ids[i]], rows[ids[j]]);
              && ids[i] != ids[j] && a.task.availableAt.GetOr(now) <= b.task.availableAt.GetOr(now)
              && (a.task.availableAt.GetOr(now) == b.task.availableAt.GetOr(now) ==> a.createdAt <= b.createdAt)
    decreases |ids|
  {
    if ids == [] {
    } else {
      var id, rest := ids[0], ids[1..];
      var after := AfterPick(rows, id, who, now, lease);
      DrainGoesInOrder(after, rest, who, now, lease);
      assert !Eligible(after[id].task, now, lease);
      forall i | 0 < i < |ids| ensures ids[i] in rows && ids[i] != id && after[ids[i]] == rows[ids[i]] {
        assert ids[i] == rest[i - 1];
      }
      forall i, j | 0 <= i < j < |ids| ensures ids[i] != ids[j] && NotAfter(rows[ids[i]], rows[ids[j]], now) {
        if i > 0 { assert ids[i] == rest[i - 1] && ids[j] == rest[j - 1]; }
      }
    }
  }
}
