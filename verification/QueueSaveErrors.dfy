/**
 What the worker does if the save of a success raises. The error is taken for one of the handler's: the
 same task object, already marked succeeded, is failed and saved again. Only the SQL store's saves can
 raise. The first save may have been committed or not.
 */
module QueueSaveErrors {
  import opened TaskModel
  import Q = TaskQueue
  import QueueSafety

  type Worker = Q.Worker

  /** A worker between the save that raised and its second one, with what it is going to save. */
  datatype Raised = Raised(id: TaskKey, task: Task, committed: bool)

  datatype State = State(queue: Q.State, raised: map<Worker, Raised>)

  /** `reason` is the branch that catches the error. A worker that gives up between its two saves has
      crashed. */
  datatype Step =
    | Plain(step: Q.Step)
    | SaveRaises(w: Worker, committed: bool, reason: Outcome)
    | SecondSave(w: Worker)
    | GiveUp(w: Worker)

  const INIT := State(Q.INIT, map[])

  /** The worker of a step of the queue is not between its two saves. */
  predicate Free(s: State, step: Q.Step) {
    step.Claim? || step.Start? || step.Finish? || step.Persist? || step.Crash? ==> step.w !in s.raised
  }

  predicate Caught(reason: Outcome) {
    reason.RaisedTimeout? || reason.RaisedInvalid? || reason.RaisedOther?
  }

  predicate Enabled(cfg: Q.Config, s: State, step: Step) {
    match step
    case Plain(q) => Q.Enabled(cfg, s.queue, q) && Free(s, q)
    case SaveRaises(w, _, reason) =>
      && cfg.store.Snapshot? && w !in s.raised && Caught(reason)
      && Q.CanPersist(cfg, s.queue, Q.PhaseOf(s.queue, w)) && Q.PhaseOf(s.queue, w).task.status.Succeeded?
    case SecondSave(w) => w in s.raised && s.raised[w].id in s.queue.rows
    case GiveUp(w) => w in s.raised
  }

  /** In the queue a save that raises is a save, or nothing. */
  function FirstSave(committed: bool, w: Worker): Q.Step {
    if committed then Q.Persist(w) else Q.Crash(w)
  }

  function Next(cfg: Q.Config, s: State, step: Step): State
    requires Enabled(cfg, s, step)
  {
    match step
    case Plain(q) => s.(queue := Q.Next(cfg, s.queue, q))
    case SaveRaises(w, committed, reason) =>
      var p := Q.PhaseOf(s.queue, w);
      var failed := FinishTask(p.task, reason, false, cfg.retryDelay, s.queue.clock);
      State(Q.Next(cfg, s.queue, FirstSave(committed, w)), s.raised[w := Raised(p.id, failed, committed)])
    case SecondSave(w) =>
      var r := s.raised[w];
      var saved := SaveClaimed(s.queue.rows[r.id], r.task, s.queue.clock);
      State(s.queue.(rows := s.queue.rows[r.id := saved]), s.raised - {w})
    case GiveUp(w) => s.(raised := s.raised - {w})
  }

  ghost predicate Run(cfg: Q.Config, s: State, steps: seq<Step>, s': State)
    decreases |steps|
  {
    if steps == [] then s == s'
    else Enabled(cfg, s, steps[0]) && Run(cfg, Next(cfg, s, steps[0]), steps[1..], s')
  }

  predicate NoSecondSave(steps: seq<Step>) {
    forall i :: 0 <= i < |steps| ==> !steps[i].SecondSave?
  }

  /** What the second save would write has a result without a success. A first save that was committed
      has finished its task for good. */
  predicate RaisedOk(rows: map<TaskKey, Task>, r: Raised) {
    && r.task.result.Some? && !r.task.status.Succeeded?
    && (r.committed ==> r.id in rows && Terminal(rows[r.id]))
  }

  /** As long as no second save is done, the queue is as if saves never raised. */
  ghost predicate Inv(cfg: Q.Config, s: State) {
    Q.Inv(cfg, s.queue) && forall w :: w in s.raised ==> RaisedOk(s.queue.rows, s.raised[w])
  }

  lemma RaisedStaysOk(cfg: Q.Config, q: Q.State, step: Q.Step, r: Raised)
    requires Q.Safe(cfg) && Q.Inv(cfg, q) && Q.Enabled(cfg, q, step) && RaisedOk(q.rows, r)
    ensures RaisedOk(Q.Next(cfg, q, step).rows, r)
  {
    if r.committed { QueueSafety.StepAdvances(cfg, q, step, r.id); }
  }

  lemma QueueStepKeepsInv(cfg: Q.Config, s: State, step: Q.Step)
    requires Q.Safe(cfg) && Inv(cfg, s) && Q.Enabled(cfg, s.queue, step)
    ensures Inv(cfg, s.(queue := Q.Next(cfg, s.queue, step)))
  {
    Q.StepKeepsInv(cfg, s.queue, step);
    forall w | w in s.raised ensures RaisedOk(Q.Next(cfg, s.queue, step).rows, s.raised[w]) {
      RaisedStaysOk(cfg, s.queue, step, s.raised[w]);
    }
  }

  lemma SaveRaisesOk(cfg: Q.Config, s: State, w: Worker, committed: bool, reason: Outcome)
    requires Q.Safe(cfg) && Q.Inv(cfg, s.queue) && Enabled(cfg, s, SaveRaises(w, committed, reason))
    ensures var s' := Next(cfg, s, SaveRaises(w, committed, reason)); RaisedOk(s'.queue.rows, s'.raised[w])
  {
    assert Q.HolderOk(cfg, s.queue, Q.PhaseOf(s.queue, w));
  }

  lemma StepKeepsInv(cfg: Q.Config, s: State, step: Step)
    requires Q.Safe(cfg) && Inv(cfg, s) && Enabled(cfg, s, step) && !step.SecondSave?
    ensures Inv(cfg, Next(cfg, s, step))
  {
    match step
    case Plain(q) => QueueStepKeepsInv(cfg, s, q);
    case SaveRaises(w, committed, reason) =>
      QueueStepKeepsInv(cfg, s, FirstSave(committed, w));
      SaveRaisesOk(cfg, s, w, committed, reason);
    case GiveUp(_) =>
  }

  lemma {:induction false} RunKeepsInv(cfg: Q.Config, s: State, steps: seq<Step>, s': State)
    requires Q.Safe(cfg) && Inv(cfg, s) && Run(cfg, s, steps, s') && NoSecondSave(steps)
    ensures Inv(cfg, s')
    decreases |steps|
  {
    if steps == [] {
    } else {
      StepKeepsInv(cfg, s, steps[0]);
      RunKeepsInv(cfg, Next(cfg, s, steps[0]), steps[1..], s');
    }
  }

  /** Every task is well-formed at every moment of the run. */
  ghost predicate WellFormedThroughout(cfg: Q.Config, s: State, steps: seq<Step>)
    decreases |steps|
  {
    && Q.RowsOk(s.queue.rows)
    && (steps == [] || !Enabled(cfg, s, steps[0])
        || WellFormedThroughout(cfg, Next(cfg, s, steps[0]), steps[1..]))
  }

  lemma SecondSaveIsIllFormed(cfg: Q.Config, s: State, w: Worker)
    requires Inv(cfg, s) && Enabled(cfg, s, SecondSave(w))
    ensures !WellFormed(Next(cfg, s, SecondSave(w)).queue.rows[s.raised[w].id])
  {}

  lemma {:induction false} WellFormedUnlessSecond(cfg: Q.Config, s: State, steps: seq<Step>, s': State)
    requires Q.Safe(cfg) && Inv(cfg, s) && Run(cfg, s, steps, s')
    ensures WellFormedThroughout(cfg, s, steps) <==> NoSecondSave(steps)
    decreases |steps|
  {
    if steps == [] {
    } else {
      if steps[0].SecondSave? {
        SecondSaveIsIllFormed(cfg, s, steps[0].w);
        assert !Q.RowsOk(Next(cfg, s, steps[0]).queue.rows);
      } else {
        StepKeepsInv(cfg, s, steps[0]);
        WellFormedUnlessSecond(cfg, Next(cfg, s, steps[0]), steps[1..], s');
        assert NoSecondSave(steps) <==> NoSecondSave(steps[1..]);
      }
    }
  }

  /** Over whole runs: every task stays well-formed exactly if no worker saves a second time after the
      save of a success raised. */
  lemma WellFormedIffNoSecondSave(cfg: Q.Config, steps: seq<Step>, s: State)
    requires Q.Safe(cfg) && Run(cfg, INIT, steps, s)
    ensures WellFormedThroughout(cfg, INIT, steps) <==> NoSecondSave(steps)
  {
    WellFormedUnlessSecond(cfg, INIT, steps, s);
  }

  /** A step takes nothing back from a finished task: it may set its cancel flag, and no more. */
  ghost predicate KeepsFinished(s: Q.State, s': Q.State) {
    forall id :: id in s.rows && Terminal(s.rows[id]) ==>
      id in s'.rows && s'.rows[id] == s.rows[id].(cancelRequested := s'.rows[id].cancelRequested)
  }

  lemma QueueStepKeepsAllFinished(cfg: Q.Config, s: Q.State, step: Q.Step)
    requires Q.Safe(cfg) && Q.Inv(cfg, s) && Q.Enabled(cfg, s, step)
    ensures KeepsFinished(s, Q.Next(cfg, s, step))
  {
    forall id | id in s.rows && Terminal(s.rows[id])
      ensures id in Q.Next(cfg, s, step).rows
      ensures var row := Q.Next(cfg, s, step).rows[id]; row == s.rows[id].(cancelRequested := row.cancelRequested)
    {
      QueueSafety.StepAdvances(cfg, s, step, id);
    }
  }

  /** In every run up to its first second save, a step changes a finished task exactly if it is a second
      save of a task that is finished by then; which it is for certain if the first save was committed. */
  lemma FinishedIsChangedIff(cfg: Q.Config, steps: seq<Step>, s: State, step: Step)
    requires Q.Safe(cfg) && Run(cfg, INIT, steps, s) && NoSecondSave(steps) && Enabled(cfg, s, step)
    ensures !KeepsFinished(s.queue, Next(cfg, s, step).queue) <==>
            step.SecondSave? && Terminal(s.queue.rows[s.raised[step.w].id])
    ensures step.SecondSave? && s.raised[step.w].committed ==> Terminal(s.queue.rows[s.raised[step.w].id])
  {
    RunKeepsInv(cfg, INIT, steps, s);
    match step
    case Plain(q) => QueueStepKeepsAllFinished(cfg, s.queue, q);
    case SaveRaises(w, committed, _) => QueueStepKeepsAllFinished(cfg, s.queue, FirstSave(committed, w));
    case SecondSave(w) =>
      var id := s.raised[w].id;
      assert WellFormed(s.queue.rows[id]);
      assert Next(cfg, s, step).queue.rows[id].result.Some?;
    case GiveUp(_) =>
  }

  lemma {:induction false} RunSnoc(cfg: Q.Config, s: State, steps: seq<Step>, mid: State, last: Step)
      returns (all: seq<Step>, s': State)
    requires Run(cfg, s, steps, mid) && Enabled(cfg, mid, last)
    ensures all == steps + [last] && s' == Next(cfg, mid, last) && Run(cfg, s, all, s')
    decreases |steps|
  {
    all, s' := steps + [last], Next(cfg, mid, last);
    if steps == [] {
      assert all[1..] == [];
    } else {
      var _, _ := RunSnoc(cfg, Next(cfg, s, steps[0]), steps[1..], mid, last);
      assert all[1..] == steps[1..] + [last];
    }
  }

  /** A first attempt has ended well and is about to be saved. */
  lemma AboutToSucceed(cfg: Q.Config, id: TaskKey) returns (steps: seq<Step>, s: State)
    requires cfg.store.Snapshot?
    ensures Run(cfg, INIT, steps, s) && NoSecondSave(steps) && s.raised == map[] && s.queue.clock == 0
    ensures id in s.queue.rows && s.queue.rows[id] == ClaimEffect(NewTask(2, 0), "a", 0, cfg.lease)
    ensures var p := Q.PhaseOf(s.queue, 1);
            && p.Saving? && p.id == id && p.claimedAt == 0 && p.handlerTime == 0
            && p.task == Succeed(s.queue.rows[id], "done", 0)
  {
    steps, s := RunSnoc(cfg, INIT, [], INIT, Plain(Q.Create(id, 2)));
    steps, s := RunSnoc(cfg, INIT, steps, s, Plain(Q.Claim(1, id, "a", 0)));
    steps, s := RunSnoc(cfg, INIT, steps, s, Plain(Q.Start(1)));
    steps, s := RunSnoc(cfg, INIT, steps, s, Plain(Q.Finish(1, Returned("done"), 0)));
  }

  /** It does happen: the save of a success is committed, raises, and the finished task is put up for
      another attempt. */
  lemma FinishedCanBeReopened(cfg: Q.Config, id: TaskKey) returns (steps: seq<Step>, s: State, reopened: State)
    requires cfg.store.Snapshot?
    ensures Run(cfg, INIT, steps, s) && NoSecondSave(steps) && Enabled(cfg, s, SecondSave(1))
    ensures reopened == Next(cfg, s, SecondSave(1))
    ensures id in s.queue.rows && s.queue.rows[id].status.Succeeded?
    ensures id in reopened.queue.rows && reopened.queue.rows[id].status.RetryWait?
  {
    steps, s := AboutToSucceed(cfg, id);
    steps, s := RunSnoc(cfg, INIT, steps, s, SaveRaises(1, true, RaisedOther));
    reopened := Next(cfg, s, SecondSave(1));
  }
}
