/**
 What the queue does with what happened: a created task waits, a cancel takes effect, an attempt leaves
 the task as it ended, a result is one that some handler returned, and every handler start is counted.
 */
module QueueOutcomes {
  import opened Wrappers
  import opened TaskModel
  import opened TaskQueue
  import opened QueueSafety

  /** The task a step may rewrite. */
  function Subject(s: State, step: Step): Option<TaskKey> {
    match step
    case Create(id, _) => Some(id)
    case Cancel(id) => Some(id)
    case Claim(_, id, _, _) => Some(id)
    case Finish(w, _, _) => if PhaseOf(s, w).Idle? then None else Some(PhaseOf(s, w).id)
    case Persist(w) => if PhaseOf(s, w).Idle? then None else Some(PhaseOf(s, w).id)
    case _ => None
  }

  lemma OtherRowsStay(cfg: Config, s: State, step: Step, id: TaskKey)
    requires Enabled(cfg, s, step) && Subject(s, step) != Some(id)
    ensures id in Next(cfg, s, step).rows <==> id in s.rows
    ensures id in s.rows ==> Next(cfg, s, step).rows[id] == s.rows[id]
  {}

  /** A worker can crash at any moment; it forgets what it was doing, and the store stays as it is. */
  lemma CrashForgets(cfg: Config, s: State, w: Worker)
    ensures Enabled(cfg, s, Crash(w))
    ensures PhaseOf(Next(cfg, s, Crash(w)), w).Idle? && Next(cfg, s, Crash(w)).rows == s.rows
  {}

  /** Any idle worker may claim any task that was eligible at its clock reading, in any name. */
  lemma ClaimIsOpen(cfg: Config, s: State, w: Worker, id: TaskKey, who: string, readAt: int)
    requires PhaseOf(s, w).Idle? && id in s.rows && readAt <= s.clock && Eligible(s.rows[id], readAt, cfg.lease)
    ensures Enabled(cfg, s, Claim(w, id, who, readAt))
  {}

  /** A created task waits for its first attempt from that moment on. */
  lemma CreatedTaskWaits(cfg: Config, s: State, id: TaskKey, maxAttempts: int, moment: int)
    requires Enabled(cfg, s, Create(id, maxAttempts))
    ensures var s' := Next(cfg, s, Create(id, maxAttempts));
            && id in s'.rows && s'.rows[id].status.Queued? && s'.rows[id].maxAttempts == maxAttempts
            && s'.rows[id].attempts == 0 && (Eligible(s'.rows[id], moment, cfg.lease) <==> s.clock <= moment)
  {
    NewTaskIsReady(maxAttempts, s.clock, moment, cfg.lease);
  }

  /** A cancel request finishes a waiting task at once, is pending on a running one, and only flags one
      that is over. */
  lemma CancelTakesEffect(cfg: Config, s: State, id: TaskKey)
    requires Safe(cfg) && Reachable(cfg, s) && id in s.rows
    ensures var (t, t') := (s.rows[id], Next(cfg, s, Cancel(id)).rows[id]);
            && t'.cancelRequested
            && t'.(cancelRequested := t.cancelRequested, status := t.status, finishedAt := t.finishedAt) == t
            && (if t.status.Queued? || t.status.RetryWait? then t'.status.Cancelled? && t'.finishedAt == Some(s.clock)
                else t'.status == t.status && t'.finishedAt == t.finishedAt)
  {
    ReachableInv(cfg, s);
    CancelSays(s.rows[id], s.clock);
  }

  /** A claim hands the task out in the name, and at the time, of the claimer, as its next attempt; or it
      finishes a task that was cancelled or has no attempt left. */
  lemma ClaimTakesEffect(cfg: Config, s: State, w: Worker, id: TaskKey, who: string, readAt: int)
    requires Safe(cfg) && Reachable(cfg, s) && Enabled(cfg, s, Claim(w, id, who, readAt))
    ensures var (t, s') := (s.rows[id], Next(cfg, s, Claim(w, id, who, readAt)));
            if t.cancelRequested || (t.status.Running? && t.attempts == t.maxAttempts) then
              && PhaseOf(s', w).Idle? && s'.rows[id].finishedAt == Some(readAt)
              && s'.rows[id].status == (if t.cancelRequested then Cancelled else Failed)
            else
              && s'.rows[id].status.Running? && s'.rows[id].attempts == t.attempts + 1
              && s'.rows[id].lockedBy == Some(who) && s'.rows[id].lockedAt == Some(readAt)
              && PhaseOf(s', w) == Claimed(id, t.attempts + 1, readAt, s'.rows[id])
  {
    ReachableInv(cfg, s);
    ClaimKeepsWellFormed(s.rows[id], who, readAt, cfg.lease);
    ClaimSays(s.rows[id], who, readAt, cfg.lease);
  }

  /** In the shared store an attempt leaves the task as it ended. */
  lemma SharedStoresOutcome(cfg: Config, s: State, w: Worker, o: Outcome, endedAt: int)
    requires Safe(cfg) && cfg.store.Shared? && Reachable(cfg, s) && Enabled(cfg, s, Finish(w, o, endedAt))
    ensures var id := PhaseOf(s, w).id;
            var (t, t') := (s.rows[id], Next(cfg, s, Finish(w, o, endedAt)).rows[id]);
            && EndsAs(t, o, t.cancelRequested, cfg.retryDelay, s.clock, t')
            && t'.attempts == if o.NoHandler? || o.RaisedInvalid? then t.maxAttempts else t.attempts
  {
    ReachableInv(cfg, s);
    SafeWrites(cfg, s, Finish(w, o, endedAt));
    FinishSays(s.rows[PhaseOf(s, w).id], o, s.rows[PhaseOf(s, w).id].cancelRequested, cfg.retryDelay, s.clock);
  }

  predicate OtherWorkers(steps: seq<Step>, w: Worker) {
    forall i :: 0 <= i < |steps| ==>
      steps[i].Tick? || steps[i].Create? || steps[i].Cancel? || steps[i].w != w
  }

  lemma {:induction false} OthersKeepPhase(cfg: Config, s: State, steps: seq<Step>, s': State, w: Worker)
    requires Run(cfg, s, steps, s') && OtherWorkers(steps, w)
    ensures PhaseOf(s', w) == PhaseOf(s, w)
    decreases |steps|
  {
    if steps == [] {
    } else {
      assert OtherWorkers(steps[1..], w);
      assert PhaseOf(Next(cfg, s, steps[0]), w) == PhaseOf(s, w);
      OthersKeepPhase(cfg, Next(cfg, s, steps[0]), steps[1..], s', w);
    }
  }

  /** In the snapshot store the save of an attempt leaves the task as the attempt ended, however long ago
      and whatever happened since, under the number the attempt was claimed with. */
  lemma SnapshotStoresOutcome(cfg: Config, s: State, w: Worker, o: Outcome, endedAt: int, steps: seq<Step>, s': State)
    requires Safe(cfg) && cfg.store.Snapshot? && Reachable(cfg, s) && Enabled(cfg, s, Finish(w, o, endedAt))
    requires Run(cfg, Next(cfg, s, Finish(w, o, endedAt)), steps, s') && OtherWorkers(steps, w)
    requires Enabled(cfg, s', Persist(w))
    ensures var (id, epoch) := (PhaseOf(s, w).id, PhaseOf(s, w).epoch);
            && id in s.rows && id in s'.rows && s'.rows[id].attempts == epoch
            && var (t, t') := (s'.rows[id], Next(cfg, s', Persist(w)).rows[id]);
               && EndsAs(t.(cancelRequested := false), o, s.rows[id].cancelRequested, cfg.retryDelay, s.clock, t')
               && t'.attempts == epoch
  {
    ReachableInv(cfg, s);
    var ended := ReachStep(cfg, s, Finish(w, o, endedAt));
    StepKeepsInv(cfg, s, Finish(w, o, endedAt));
    RunKeepsInv(cfg, ended, steps, s');
    OthersKeepPhase(cfg, ended, steps, s', w);
    assert HolderOk(cfg, s', PhaseOf(s', w));
    PersistWritesSnapshot(cfg, s', w);
  }

  // ----- results ------------------------------------------------------------------------------------------

  /** Some step of the run ended an attempt with this result. */
  ghost predicate WasReturned(steps: seq<Step>, result: string) {
    exists i :: 0 <= i < |steps| && steps[i].Finish? && steps[i].outcome == Returned(result)
  }

  ghost predicate Sourced(t: Task, done: seq<Step>) {
    t.result.Some? ==> WasReturned(done, t.result.value)
  }

  ghost predicate ResultsOk(s: State, done: seq<Step>) {
    && (forall id :: id in s.rows ==> Sourced(s.rows[id], done))
    && (forall w :: w in s.workers && !s.workers[w].Idle? ==> Sourced(s.workers[w].task, done))
  }

  lemma ReturnedStays(done: seq<Step>, step: Step, result: string)
    requires WasReturned(done, result)
    ensures WasReturned(done + [step], result)
  {
    var i :| 0 <= i < |done| && done[i].Finish? && done[i].outcome == Returned(result);
    assert (done + [step])[i] == done[i];
  }

  lemma SourcedStays(t: Task, done: seq<Step>, step: Step)
    requires Sourced(t, done)
    ensures Sourced(t, done + [step])
  {
    if t.result.Some? { ReturnedStays(done, step, t.result.value); }
  }

  /** Only a handler that returned leaves a new result, and then it is the step's own. */
  lemma FinishedIsSourced(t: Task, step: Step, latestFlag: bool, retryDelay: int, now: int, done: seq<Step>)
    requires step.Finish? && Sourced(t, done)
    ensures Sourced(FinishTask(t, step.outcome, latestFlag, retryDelay, now), done + [step])
  {
    SourcedStays(t, done, step);
    assert (done + [step])[|done|] == step;
  }

  lemma RowStaysSourced(cfg: Config, s: State, step: Step, done: seq<Step>, id: TaskKey)
    requires Enabled(cfg, s, step) && ResultsOk(s, done) && id in Next(cfg, s, step).rows
    ensures Sourced(Next(cfg, s, step).rows[id], done + [step])
  {
    if id in s.rows { SourcedStays(s.rows[id], done, step); }
    match step
    case Finish(w, _, _) =>
      if cfg.store.Shared? && id == PhaseOf(s, w).id {
        FinishedIsSourced(s.rows[id], step, s.rows[id].cancelRequested, cfg.retryDelay, s.clock, done);
      }
    case Persist(w) => SourcedStays(PhaseOf(s, w).task, done, step);
    case _ =>
  }

  lemma HeldStaysSourced(cfg: Config, s: State, step: Step, done: seq<Step>, w: Worker)
    requires Enabled(cfg, s, step) && ResultsOk(s, done)
    requires w in Next(cfg, s, step).workers && !Next(cfg, s, step).workers[w].Idle?
    ensures Sourced(Next(cfg, s, step).workers[w].task, done + [step])
  {
    if !PhaseOf(s, w).Idle? { SourcedStays(PhaseOf(s, w).task, done, step); }
    match step
    case Claim(_, id, _, _) => SourcedStays(s.rows[id], done, step);
    case Finish(x, _, _) =>
      if x == w && cfg.store.Snapshot? {
        var p := PhaseOf(s, w);
        FinishedIsSourced(p.task, step, s.rows[p.id].cancelRequested, cfg.retryDelay, s.clock, done);
      }
    case _ =>
  }

  lemma StepKeepsResults(cfg: Config, s: State, step: Step, done: seq<Step>)
    requires Enabled(cfg, s, step) && ResultsOk(s, done)
    ensures ResultsOk(Next(cfg, s, step), done + [step])
  {
    var s' := Next(cfg, s, step);
    forall id | id in s'.rows ensures Sourced(s'.rows[id], done + [step]) {
      RowStaysSourced(cfg, s, step, done, id);
    }
    forall w | w in s'.workers && !s'.workers[w].Idle? ensures Sourced(s'.workers[w].task, done + [step]) {
      HeldStaysSourced(cfg, s, step, done, w);
    }
  }

  lemma {:induction false} RunKeepsResults(cfg: Config, s: State, done: seq<Step>, steps: seq<Step>, s': State)
    requires Run(cfg, s, steps, s') && ResultsOk(s, done)
    ensures ResultsOk(s', done + steps)
    decreases |steps|
  {
    if steps == [] {
      assert done + [] == done;
    } else {
      StepKeepsResults(cfg, s, steps[0], done);
      RunKeepsResults(cfg, Next(cfg, s, steps[0]), done + [steps[0]], steps[1..], s');
      assert done + [steps[0]] + steps[1..] == done + steps;
    }
  }

  /** Over whole runs: the result of a task is one that a handler returned. */
  lemma ResultsWereReturned(cfg: Config, steps: seq<Step>, s: State, id: TaskKey)
    requires Run(cfg, INIT, steps, s) && id in s.rows && s.rows[id].result.Some?
    ensures WasReturned(steps, s.rows[id].result.value)
  {
    RunKeepsResults(cfg, INIT, [], steps, s);
    assert [] + steps == steps;
  }

  // ----- starts -------------------------------------------------------------------------------------------

  /** How many steps of a run start a handler of the task. */
  ghost function StartsOf(cfg: Config, s: State, steps: seq<Step>, id: TaskKey): nat
    decreases |steps|
  {
    if steps == [] || !Enabled(cfg, s, steps[0]) then 0
    else
      (if steps[0].Start? && PhaseOf(s, steps[0].w).id == id then 1 else 0)
      + StartsOf(cfg, Next(cfg, s, steps[0]), steps[1..], id)
  }

  lemma {:induction false} StartsAreRecorded(cfg: Config, s: State, steps: seq<Step>, s': State, id: TaskKey)
    requires Safe(cfg) && Inv(cfg, s) && Run(cfg, s, steps, s')
    ensures id in s'.starts ==>
              |s'.starts[id]| == (if id in s.starts then |s.starts[id]| else 0) + StartsOf(cfg, s, steps, id)
    ensures id in s.starts ==> id in s'.starts
    decreases |steps|
  {
    if steps == [] {
    } else {
      var mid := Next(cfg, s, steps[0]);
      StepKeepsInv(cfg, s, steps[0]);
      StartsAreRecorded(cfg, mid, steps[1..], s', id);
      if steps[0].Start? { assert HolderOk(cfg, s, PhaseOf(s, steps[0].w)); }
    }
  }

  /** Over whole runs a task's handler is started at most `max_attempts` times. */
  lemma HandlerStartsAreBounded(cfg: Config, steps: seq<Step>, s: State, id: TaskKey)
    requires Safe(cfg) && Run(cfg, INIT, steps, s) && id in s.rows
    ensures StartsOf(cfg, INIT, steps, id) <= s.rows[id].attempts <= s.rows[id].maxAttempts
  {
    RunKeepsInv(cfg, INIT, steps, s);
    StartsAreRecorded(cfg, INIT, steps, s, id);
    assert Reachable(cfg, s);
    AttemptsAreBounded(cfg, s, id);
  }
}
