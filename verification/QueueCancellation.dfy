/**
 How final a cancel request is. In the shared-object store it always is. In the snapshot store the
 worker's save writes back the cancel flag of its own copy, so a request can be lost; the lemmas say
 exactly when.
 */
module QueueCancellation {
  import opened TaskModel
  import opened TaskQueue
  import opened QueueSafety

  /** A task whose cancel was requested while an attempt was in progress, and is not over. */
  predicate CancelPending(s: State, id: TaskKey) {
    id in s.rows && s.rows[id].cancelRequested && !Terminal(s.rows[id])
  }

  /** The attempt ended without hearing of a request: before there was one, or by a timeout, an error,
      an invalid payload or a missing handler, after which nobody looks. */
  predicate EndedUnaware(p: Phase)
    requires p.Saving?
  {
    !p.outcome.RaisedCancelled? && (!p.asked || !p.outcome.Returned?)
  }

  /** The step saves the copy of an attempt at this task that ended so. */
  predicate SavesUnaware(cfg: Config, s: State, step: Step, id: TaskKey) {
    cfg.store.Snapshot? && step.Persist? && PhaseOf(s, step.w).Saving? && PhaseOf(s, step.w).id == id
    && EndedUnaware(PhaseOf(s, step.w))
  }

  lemma CancelStandsAtStep(cfg: Config, s: State, step: Step, id: TaskKey)
    requires Safe(cfg) && Inv(cfg, s) && Enabled(cfg, s, step) && CancelPending(s, id)
    ensures CancelStands(s.rows[id], Next(cfg, s, step).rows[id]) <==> !SavesUnaware(cfg, s, step, id)
  {
    assert WellFormed(s.rows[id]);
    match step
    case Finish(w, o, endedAt) =>
      assert HolderOk(cfg, s, PhaseOf(s, w));
      if cfg.store.Shared? && PhaseOf(s, w).id == id {
        FinishKeepsWellFormed(s.rows[id], o, true, cfg.retryDelay, s.clock);
      }
    case Persist(w) =>
      assert HolderOk(cfg, s, PhaseOf(s, w));
    case _ =>
  }

  ghost predicate EverSavedUnaware(cfg: Config, s: State, steps: seq<Step>, id: TaskKey)
    decreases |steps|
  {
    && steps != [] && Enabled(cfg, s, steps[0])
    && (SavesUnaware(cfg, s, steps[0], id) || EverSavedUnaware(cfg, Next(cfg, s, steps[0]), steps[1..], id))
  }

  /** The request that was pending in `first` stands at every moment of the run. */
  ghost predicate StandsThroughout(cfg: Config, s: State, steps: seq<Step>, first: Task, id: TaskKey)
    decreases |steps|
  {
    && id in s.rows && CancelStands(first, s.rows[id])
    && (steps == [] || !Enabled(cfg, s, steps[0])
        || StandsThroughout(cfg, Next(cfg, s, steps[0]), steps[1..], first, id))
  }

  lemma {:induction false} StandsUnlessUnaware(cfg: Config, s: State, steps: seq<Step>, s': State,
                                               first: Task, id: TaskKey)
    requires Safe(cfg) && Inv(cfg, s) && Run(cfg, s, steps, s')
    requires id in s.rows && CancelStands(first, s.rows[id])
    ensures StandsThroughout(cfg, s, steps, first, id) <==> !EverSavedUnaware(cfg, s, steps, id)
    ensures StandsThroughout(cfg, s, steps, first, id) ==> id in s'.rows && CancelStands(first, s'.rows[id])
    decreases |steps|
  {
    if steps == [] {
    } else {
      var mid := Next(cfg, s, steps[0]);
      StepKeepsInv(cfg, s, steps[0]);
      StepAdvances(cfg, s, steps[0], id);
      if s.rows[id].status.Running? {
        CancelStandsAtStep(cfg, s, steps[0], id);
      } else if steps[0].Persist? {
        assert HolderOk(cfg, s, PhaseOf(s, steps[0].w));
        InTimeIsLive(cfg, s, PhaseOf(s, steps[0].w), PhaseOf(s, steps[0].w).handlerTime);
      }
      if id in mid.rows && CancelStands(first, mid.rows[id]) {
        StandsUnlessUnaware(cfg, mid, steps[1..], s', first, id);
      }
    }
  }

  /** Once a cancel is pending, in every continuation: it is lost exactly if the snapshot store saves an
      attempt that ended without hearing of it. Until then the task is never claimed again, and can only
      end cancelled. */
  lemma CancelIsLostIff(cfg: Config, s: State, steps: seq<Step>, s': State, id: TaskKey)
    requires Safe(cfg) && Reachable(cfg, s) && Run(cfg, s, steps, s') && CancelPending(s, id)
    ensures !StandsThroughout(cfg, s, steps, s.rows[id], id) <==> EverSavedUnaware(cfg, s, steps, id)
  {
    ReachableInv(cfg, s);
    assert WellFormed(s.rows[id]);
    StandsUnlessUnaware(cfg, s, steps, s', s.rows[id], id);
  }

  /** The worker's attempt at the task, with this number, has ended but is not saved. */
  predicate HasEnded(p: Phase, id: TaskKey, epoch: int) {
    p.Saving? && p.id == id && p.epoch == epoch
  }

  /** Where the worker stands with its attempt, if that had `ended` when the request came, or not. */
  ghost predicate Ordered(cfg: Config, s: State, w: Worker, id: TaskKey, epoch: int, ended: bool)
    requires id in s.rows
  {
    var p := PhaseOf(s, w);
    !p.Idle? && p.id == id && p.epoch == epoch && Live(cfg, s, p) ==>
      if ended then p.Saving? && !p.asked
      else if p.Saving? then p.asked
      else s.rows[id].cancelRequested
  }

  lemma PersistKeepsOrdered(cfg: Config, s: State, x: Worker, w: Worker, id: TaskKey, epoch: int, ended: bool)
    requires Safe(cfg) && Inv(cfg, s) && CanPersist(cfg, s, PhaseOf(s, x))
    requires id in s.rows && Ordered(cfg, s, w, id, epoch, ended)
    ensures Ordered(cfg, PersistStep(s, x), w, id, epoch, ended)
  {
    assert !PhaseOf(s, w).Idle? ==> HolderOk(cfg, s, PhaseOf(s, w));
    PersistWritesSnapshot(cfg, s, x);
  }

  lemma ClaimKeepsOrdered(cfg: Config, s: State, step: Step, w: Worker, id: TaskKey, epoch: int, ended: bool)
    requires Inv(cfg, s) && Enabled(cfg, s, step) && step.Claim?
    requires id in s.rows && epoch <= s.rows[id].attempts && Ordered(cfg, s, w, id, epoch, ended)
    ensures Ordered(cfg, Next(cfg, s, step), w, id, epoch, ended)
  {
    assert !PhaseOf(s, w).Idle? ==> HolderOk(cfg, s, PhaseOf(s, w));
  }

  lemma FinishKeepsOrdered(cfg: Config, s: State, step: Step, w: Worker, id: TaskKey, epoch: int, ended: bool)
    requires cfg.store.Snapshot? && Enabled(cfg, s, step) && step.Finish?
    requires id in s.rows && Ordered(cfg, s, w, id, epoch, ended)
    ensures Ordered(cfg, Next(cfg, s, step), w, id, epoch, ended)
  {}

  lemma OrderedAtStep(cfg: Config, s: State, step: Step, w: Worker, id: TaskKey, epoch: int, ended: bool)
    requires Safe(cfg) && cfg.store.Snapshot? && Inv(cfg, s) && Enabled(cfg, s, step)
    requires id in s.rows && epoch <= s.rows[id].attempts && Ordered(cfg, s, w, id, epoch, ended)
    ensures id in Next(cfg, s, step).rows && Ordered(cfg, Next(cfg, s, step), w, id, epoch, ended)
  {
    match step
    case Persist(x) => PersistKeepsOrdered(cfg, s, x, w, id, epoch, ended);
    case Claim(_, _, _, _) => ClaimKeepsOrdered(cfg, s, step, w, id, epoch, ended);
    case Finish(_, _, _) => FinishKeepsOrdered(cfg, s, step, w, id, epoch, ended);
    case _ =>
  }

  lemma {:induction false} OrderedFor(cfg: Config, s: State, steps: seq<Step>, s': State,
                                      w: Worker, id: TaskKey, epoch: int, ended: bool)
    requires Safe(cfg) && cfg.store.Snapshot? && Inv(cfg, s) && Run(cfg, s, steps, s')
    requires id in s.rows && epoch <= s.rows[id].attempts && Ordered(cfg, s, w, id, epoch, ended)
    ensures id in s'.rows && Ordered(cfg, s', w, id, epoch, ended)
    decreases |steps|
  {
    if steps == [] {
    } else {
      StepKeepsInv(cfg, s, steps[0]);
      StepAdvances(cfg, s, steps[0], id);
      OrderedAtStep(cfg, s, steps[0], w, id, epoch, ended);
      OrderedFor(cfg, Next(cfg, s, steps[0]), steps[1..], s', w, id, epoch, ended);
    }
  }

  /** `asked` is the order of two events, over any run: when the attempt that was in progress at the
      first request is saved, it was asked exactly if it had not ended when the request came. */
  lemma AskedIffEndedAfterRequest(cfg: Config, s: State, id: TaskKey, steps: seq<Step>, s': State, w: Worker)
    requires Safe(cfg) && cfg.store.Snapshot? && Reachable(cfg, s)
    requires id in s.rows && s.rows[id].status.Running? && !s.rows[id].cancelRequested
    requires Run(cfg, CancelStep(s, id), steps, s') && CanPersist(cfg, s', PhaseOf(s', w))
    requires PhaseOf(s', w).id == id && PhaseOf(s', w).epoch == s.rows[id].attempts
    ensures PhaseOf(s', w).asked <==> !HasEnded(PhaseOf(s, w), id, s.rows[id].attempts)
  {
    var epoch, ended := s.rows[id].attempts, HasEnded(PhaseOf(s, w), id, s.rows[id].attempts);
    ReachableInv(cfg, s);
    StepKeepsInv(cfg, s, Cancel(id));
    assert !PhaseOf(s, w).Idle? ==> HolderOk(cfg, s, PhaseOf(s, w));
    OrderedFor(cfg, CancelStep(s, id), steps, s', w, id, epoch, ended);
    RunKeepsInv(cfg, CancelStep(s, id), steps, s');
    assert HolderOk(cfg, s', PhaseOf(s', w));
    InTimeIsLive(cfg, s', PhaseOf(s', w), PhaseOf(s', w).handlerTime);
  }

  lemma {:induction false} SharedSavesNoCopies(cfg: Config, s: State, steps: seq<Step>, id: TaskKey)
    requires cfg.store.Shared?
    ensures !EverSavedUnaware(cfg, s, steps, id)
    decreases |steps|
  {
    if steps == [] || !Enabled(cfg, s, steps[0]) {
    } else {
      SharedSavesNoCopies(cfg, Next(cfg, s, steps[0]), steps[1..], id);
    }
  }

  /** In the shared-object store a cancel is final: success, timeout, error, a missing handler or an
      expired lease all lead to `cancelled`, and the task is never claimed again. */
  lemma SharedCancelIsFinal(cfg: Config, s: State, steps: seq<Step>, s': State, id: TaskKey)
    requires Safe(cfg) && cfg.store.Shared? && Reachable(cfg, s) && Run(cfg, s, steps, s') && CancelPending(s, id)
    ensures id in s'.rows && CancelStands(s.rows[id], s'.rows[id])
    ensures Terminal(s'.rows[id]) ==> s'.rows[id].status.Cancelled?
  {
    ReachableInv(cfg, s);
    assert WellFormed(s.rows[id]);
    SharedSavesNoCopies(cfg, s, steps, id);
    StandsUnlessUnaware(cfg, s, steps, s', s.rows[id], id);
  }

  /** Which runs of a handler leave the flag in the worker's snapshot: those in which the worker was
      told, by the handler or by the read it makes after a handler that returned. A timeout, an
      error, an invalid payload or a missing handler never looks. */
  lemma SnapshotCarriesFlagIff(cfg: Config, s: State, w: Worker, o: Outcome, endedAt: int)
    requires Safe(cfg) && cfg.store.Snapshot? && Reachable(cfg, s) && Enabled(cfg, s, Finish(w, o, endedAt))
    ensures var p := PhaseOf(Next(cfg, s, Finish(w, o, endedAt)), w);
            && p.Saving?
            && (p.task.cancelRequested <==>
                o.RaisedCancelled? || (o.Returned? && s.rows[p.id].cancelRequested))
            && (p.task.status.Cancelled? <==> p.task.cancelRequested)
  {
    ReachableInv(cfg, s);
    var p := PhaseOf(s, w);
    assert HolderOk(cfg, s, p);
    FinishKeepsWellFormed(p.task, o, s.rows[p.id].cancelRequested, cfg.retryDelay, s.clock);
  }

  /** A cancel arrives while the handler of the first attempt runs. */
  lemma CancelWhileRunning(cfg: Config, id: TaskKey, taken: Task) returns (s: State)
    requires taken == ClaimEffect(NewTask(2, 0), "a", 0, cfg.lease)
    ensures Reachable(cfg, s) && CancelPending(s, id) && s.clock == 0 && id in s.starts
    ensures s.rows[id] == taken.(cancelRequested := true)
    ensures PhaseOf(s, 1) == Handling(id, 1, 0, taken, 0) && PhaseOf(s, 2).Idle?
  {
    InitReachable(cfg);
    s := ReachStep(cfg, INIT, Create(id, 2));
    s := ReachStep(cfg, s, Claim(1, id, "a", 0));
    s := ReachStep(cfg, s, Start(1));
    s := ReachStep(cfg, s, Cancel(id));
  }

  /** The handler then fails without having looked, and the save overwrites the request. */
  lemma PendingCancelIsOverwritten(cfg: Config, id: TaskKey) returns (s: State, steps: seq<Step>, s': State)
    requires cfg.store.Snapshot?
    ensures Reachable(cfg, s) && CancelPending(s, id) && Run(cfg, s, steps, s')
    ensures s'.clock == 0 && PhaseOf(s', 2).Idle? && id in s'.starts && id in s'.rows
    ensures s'.rows[id] ==
            Fail(ClaimEffect(NewTask(2, 0), "a", 0, cfg.lease), "TASK_EXECUTION_FAILED", cfg.retryDelay, 0)
  {
    var taken := ClaimEffect(NewTask(2, 0), "a", 0, cfg.lease);
    s := CancelWhileRunning(cfg, id, taken);
    steps, s' := RunStep(cfg, s, [], s, Finish(1, RaisedOther, 0));
    var snap := Fail(taken, "TASK_EXECUTION_FAILED", cfg.retryDelay, 0);
    assert PhaseOf(s', 1) == Saving(id, 1, 0, snap, 0, RaisedOther, true, 0);
    steps, s' := RunStep(cfg, s, steps, s', Persist(1));
  }

  /** The snapshot store can lose an accepted cancel: the request is stored while the task runs, the
      failing attempt's save clears the flag, and the retry succeeds. */
  lemma SnapshotCancelCanBeLost(cfg: Config, id: TaskKey) returns (s: State, steps: seq<Step>, s': State)
    requires cfg.store.Snapshot?
    ensures Reachable(cfg, s) && CancelPending(s, id) && Run(cfg, s, steps, s')
    ensures id in s'.rows && s'.rows[id].status.Succeeded? && !s'.rows[id].cancelRequested
  {
    s, steps, s' := PendingCancelIsOverwritten(cfg, id);
    var wait := if cfg.retryDelay > 0 then cfg.retryDelay else 0;
    steps, s' := RunStep(cfg, s, steps, s', Tick(wait));
    steps, s' := RunStep(cfg, s, steps, s', Claim(2, id, "b", wait));
    steps, s' := RunStep(cfg, s, steps, s', Start(2));
    steps, s' := RunStep(cfg, s, steps, s', Finish(2, Returned("done"), wait));
    steps, s' := RunStep(cfg, s, steps, s', Persist(2));
  }
}
