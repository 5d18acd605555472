/**
 What the queue guarantees over whole runs, and exactly which hypothesis each guarantee needs.
 */
module QueueSafety {
  import opened TaskModel
  import opened TaskQueue

  // ----- runs ----------------------------------------------------------------------------------

  lemma {:induction false} RunKeepsInv(cfg: Config, s: State, steps: seq<Step>, s': State)
    requires Safe(cfg) && Inv(cfg, s) && Run(cfg, s, steps, s')
    ensures Inv(cfg, s')
    decreases |steps|
  {
    if steps == [] {
    } else {
      StepKeepsInv(cfg, s, steps[0]);
      RunKeepsInv(cfg, Next(cfg, s, steps[0]), steps[1..], s');
    }
  }

  /** Well-formedness of every stored task, and all of the protocol's invariant, in every run. */
  lemma ReachableInv(cfg: Config, s: State)
    requires Safe(cfg) && Reachable(cfg, s)
    ensures Inv(cfg, s)
    ensures forall id :: id in s.rows ==> WellFormed(s.rows[id])
  {
    var steps :| Run(cfg, INIT, steps, s);
    RunKeepsInv(cfg, INIT, steps, s);
  }

  lemma {:induction false} RunSnoc(cfg: Config, s: State, steps: seq<Step>, s': State, last: Step)
    requires Run(cfg, s, steps, s') && Enabled(cfg, s', last)
    ensures Run(cfg, s, steps + [last], Next(cfg, s', last))
    decreases |steps|
  {
    var all := steps + [last];
    if steps == [] {
      assert all[1..] == [];
    } else {
      RunSnoc(cfg, Next(cfg, s, steps[0]), steps[1..], s', last);
      assert all[1..] == steps[1..] + [last];
    }
  }

  lemma RunStep(cfg: Config, s: State, steps: seq<Step>, mid: State, step: Step) returns (steps': seq<Step>, s': State)
    requires Run(cfg, s, steps, mid) && Enabled(cfg, mid, step)
    ensures s' == Next(cfg, mid, step) && Run(cfg, s, steps', s')
  {
    RunSnoc(cfg, s, steps, mid, step);
    steps', s' := steps + [step], Next(cfg, mid, step);
  }

  lemma ReachStep(cfg: Config, s: State, step: Step) returns (s': State)
    requires Reachable(cfg, s) && Enabled(cfg, s, step)
    ensures s' == Next(cfg, s, step) && Reachable(cfg, s')
  {
    var steps :| Run(cfg, INIT, steps, s);
    RunSnoc(cfg, INIT, steps, s, step);
    s' := Next(cfg, s, step);
  }

  lemma InitReachable(cfg: Config)
    ensures Reachable(cfg, INIT)
  {
    assert Run(cfg, INIT, [], INIT);
  }

  // ----- what one step does to one task ----------------------------------------------------------

  lemma FinishAdvances(cfg: Config, s: State, w: Worker, o: Outcome, endedAt: int)
    requires Safe(cfg) && Inv(cfg, s) && cfg.store.Shared? && CanFinish(cfg, s, PhaseOf(s, w), o, endedAt)
    ensures var id := PhaseOf(s, w).id; RowStep(s.rows[id], SharedFinishStep(cfg, s, w, o).rows[id])
  {}

  lemma PersistAdvances(cfg: Config, s: State, w: Worker)
    requires Safe(cfg) && Inv(cfg, s) && CanPersist(cfg, s, PhaseOf(s, w))
    ensures var id := PhaseOf(s, w).id; RowStep(s.rows[id], PersistStep(s, w).rows[id])
  {}

  lemma StaysPut(t: Task)
    requires WellFormed(t)
    ensures RowStep(t, t)
  {}

  lemma StepAdvances(cfg: Config, s: State, step: Step, id: TaskKey)
    requires Safe(cfg) && Inv(cfg, s) && Enabled(cfg, s, step) && id in s.rows
    ensures id in Next(cfg, s, step).rows && RowStep(s.rows[id], Next(cfg, s, step).rows[id])
  {
    StaysPut(s.rows[id]);
    match step
    case Cancel(x) => CancelKeepsWellFormed(s.rows[x], s.clock);
    case Claim(w, x, who, readAt) => ClaimKeepsWellFormed(s.rows[x], who, readAt, cfg.lease);
    case Finish(w, o, endedAt) => if cfg.store.Shared? { FinishAdvances(cfg, s, w, o, endedAt); }
    case Persist(w) => PersistAdvances(cfg, s, w);
    case _ =>
  }

  // ----- exclusive ownership ---------------------------------------------------------------------

  /** The steps that write a worker's outcome into the store. */
  predicate Writes(cfg: Config, step: Step) {
    if cfg.store.Shared? then step.Finish? else step.Persist?
  }

  /** Every write of a worker's outcome, in every run, meets the attempt that worker claimed, still
      running, although the write never checks it. */
  ghost predicate WritesMeetTheirAttempt(cfg: Config) {
    forall s, step ::
      Reachable(cfg, s) && Enabled(cfg, s, step) && Writes(cfg, step) ==> Owns(s, PhaseOf(s, step.w))
  }

  lemma OwnershipIsExclusive(cfg: Config, s: State, w1: Worker, w2: Worker)
    requires Safe(cfg) && Reachable(cfg, s) && w1 != w2
    requires Live(cfg, s, PhaseOf(s, w1)) && Live(cfg, s, PhaseOf(s, w2))
    ensures Owns(s, PhaseOf(s, w1)) && PhaseOf(s, w1).id != PhaseOf(s, w2).id
  {
    ReachableInv(cfg, s);
    assert HolderOk(cfg, s, PhaseOf(s, w1)) && HolderOk(cfg, s, PhaseOf(s, w2));
  }

  lemma SafeWrites(cfg: Config, s: State, step: Step)
    requires Safe(cfg) && Reachable(cfg, s) && Enabled(cfg, s, step) && Writes(cfg, step)
    ensures Owns(s, PhaseOf(s, step.w))
  {
    ReachableInv(cfg, s);
    var p := PhaseOf(s, step.w);
    assert HolderOk(cfg, s, p);
    InTimeIsLive(cfg, s, p, if step.Finish? then HandlerTime(p, step.endedAt) else p.handlerTime);
  }

  /** A first attempt under way. */
  lemma FirstAttempt(cfg: Config, id: TaskKey, maxAttempts: int, elapsed: nat) returns (s: State)
    requires 1 <= maxAttempts
    ensures Reachable(cfg, s) && s.clock == elapsed && id in s.rows && PhaseOf(s, 2).Idle?
    ensures s.rows[id] == ClaimEffect(NewTask(maxAttempts, 0), "a", 0, cfg.lease)
    ensures PhaseOf(s, 1) == Handling(id, 1, 0, s.rows[id], 0)
  {
    InitReachable(cfg);
    s := ReachStep(cfg, INIT, Create(id, maxAttempts));
    s := ReachStep(cfg, s, Claim(1, id, "a", 0));
    s := ReachStep(cfg, s, Start(1));
    s := ReachStep(cfg, s, Tick(elapsed));
  }

  /** The run behind both "only if" halves: worker 1 claims, stays within its time allowance, and is
      still about to write when the lease is over and worker 2 comes along. */
  lemma Overtaken(cfg: Config, id: TaskKey, maxAttempts: int, o: Outcome) returns (s: State, write: Step)
    requires !Safe(cfg) && 1 <= maxAttempts && !o.NoHandler?
    ensures Reachable(cfg, s) && Enabled(cfg, s, write) && Writes(cfg, write) && write.w == 1
    ensures id in s.rows && PhaseOf(s, 1).id == id && PhaseOf(s, 1).epoch == 1
    ensures s.rows[id] == ClaimEffect(ClaimEffect(NewTask(maxAttempts, 0), "a", 0, cfg.lease), "b", s.clock, cfg.lease)
    ensures s.clock == cfg.timeout + cfg.slack
    ensures write == (if cfg.store.Shared? then Finish(1, o, cfg.timeout) else Persist(1))
    ensures cfg.store.Snapshot? ==>
              PhaseOf(s, 1).task ==
              FinishTask(ClaimEffect(NewTask(maxAttempts, 0), "a", 0, cfg.lease), o, false, cfg.retryDelay, s.clock)
  {
    s := FirstAttempt(cfg, id, maxAttempts, cfg.timeout + cfg.slack);
    if cfg.store.Snapshot? {
      s := ReachStep(cfg, s, Finish(1, o, cfg.timeout));
    }
    s := ReachStep(cfg, s, Claim(2, id, "b", s.clock));
    write := if cfg.store.Shared? then Finish(1, o, cfg.timeout) else Persist(1);
  }

  /** The lease rule is not only enough, it is needed: for every configuration, unfenced writes are
      safe exactly when a worker's whole time allowance is shorter than the lease. */
  lemma WritesMeetTheirAttemptIffSafe(cfg: Config)
    ensures WritesMeetTheirAttempt(cfg) <==> Safe(cfg)
  {
    if Safe(cfg) {
      forall s, step | Reachable(cfg, s) && Enabled(cfg, s, step) && Writes(cfg, step)
        ensures Owns(s, PhaseOf(s, step.w))
      {
        SafeWrites(cfg, s, step);
      }
    } else {
      var s, write := Overtaken(cfg, TaskKey("t", "1"), 2, RaisedOther);
      assert s.rows[TaskKey("t", "1")].attempts == 2;
      assert !Owns(s, PhaseOf(s, write.w));
    }
  }

  // ----- terminal states -------------------------------------------------------------------------

  /** A finished task never changes again, but for its cancel flag. */
  ghost predicate FinishedStaysFinished(cfg: Config) {
    forall s, steps, s', id ::
      Reachable(cfg, s) && Run(cfg, s, steps, s') && id in s.rows && Terminal(s.rows[id]) ==>
        id in s'.rows && s'.rows[id] == s.rows[id].(cancelRequested := s'.rows[id].cancelRequested)
  }

  /** Over any stretch of any run a task only advances. */
  lemma {:induction false} RunAdvances(cfg: Config, s: State, steps: seq<Step>, s': State, id: TaskKey)
    requires Safe(cfg) && Inv(cfg, s) && Run(cfg, s, steps, s') && id in s.rows
    ensures id in s'.rows && Advances(s.rows[id], s'.rows[id])
    decreases |steps|
  {
    if steps == [] {
      assert WellFormed(s.rows[id]);
    } else {
      var mid := Next(cfg, s, steps[0]);
      StepAdvances(cfg, s, steps[0], id);
      StepKeepsInv(cfg, s, steps[0]);
      RunAdvances(cfg, mid, steps[1..], s', id);
    }
  }

  lemma FinishedStaysFinishedIffSafe(cfg: Config)
    ensures FinishedStaysFinished(cfg) <==> Safe(cfg)
  {
    if Safe(cfg) {
      forall s, steps, s', id | Reachable(cfg, s) && Run(cfg, s, steps, s') && id in s.rows && Terminal(s.rows[id])
        ensures id in s'.rows && s'.rows[id] == s.rows[id].(cancelRequested := s'.rows[id].cancelRequested)
      {
        ReachableInv(cfg, s);
        RunAdvances(cfg, s, steps, s', id);
      }
    } else {
      var id := TaskKey("t", "1");
      var s, write := Overtaken(cfg, id, 1, Returned("done"));
      var s' := Next(cfg, s, write);
      assert s.rows[id].status.Failed? && s'.rows[id].status.Succeeded?;
      assert Run(cfg, s', [], s');
      assert Run(cfg, s, [write], s') by { assert [write][1..] == []; }
    }
  }

  // ----- attempts and handler starts ---------------------------------------------------------------

  lemma {:induction false} DistinctInRange(xs: seq<int>, n: nat)
    requires Distinct(xs) && Within(xs, n)
    ensures |xs| <= n
  {
    if xs == [] {
      return;
    }
    assert 1 <= xs[0] <= n;
    if exists i :: 0 <= i < |xs| && xs[i] == n {
      var i :| 0 <= i < |xs| && xs[i] == n;
      var rest := xs[..i] + xs[i + 1..];
      forall k | 0 <= k < |rest| ensures 1 <= rest[k] <= n - 1 {
        assert rest[k] == xs[if k < i then k else k + 1];
      }
      DistinctInRange(rest, n - 1);
    } else {
      DistinctInRange(xs, n - 1);
    }
  }

  /** No task is ever attempted, and no handler ever started, more than `max_attempts` times. The
      starts counted here include those of workers that were too slow. */
  lemma AttemptsAreBounded(cfg: Config, s: State, id: TaskKey)
    requires Safe(cfg) && Reachable(cfg, s) && id in s.rows
    ensures id in s.starts
    ensures |s.starts[id]| <= s.rows[id].attempts <= s.rows[id].maxAttempts
  {
    ReachableInv(cfg, s);
    DistinctInRange(s.starts[id], s.rows[id].attempts);
  }

  // ----- termination ---------------------------------------------------------------------------------

  /** How many steps of a run change a task's status or attempt number. */
  ghost function Moves(cfg: Config, s: State, steps: seq<Step>, id: TaskKey): nat
    decreases |steps|
  {
    if steps == [] || !Enabled(cfg, s, steps[0]) then 0
    else
      var mid := Next(cfg, s, steps[0]);
      (if id in s.rows && id in mid.rows && Moved(s.rows[id], mid.rows[id]) then 1 else 0)
      + Moves(cfg, mid, steps[1..], id)
  }

  lemma {:induction false} MovesSpendRank(cfg: Config, s: State, steps: seq<Step>, s': State, id: TaskKey)
    requires Safe(cfg) && Inv(cfg, s) && Run(cfg, s, steps, s') && id in s.rows
    ensures id in s'.rows && Moves(cfg, s, steps, id) + Rank(s'.rows[id]) <= Rank(s.rows[id])
    decreases |steps|
  {
    if steps == [] {
    } else {
      StepAdvances(cfg, s, steps[0], id);
      StepKeepsInv(cfg, s, steps[0]);
      MovesSpendRank(cfg, Next(cfg, s, steps[0]), steps[1..], s', id);
    }
  }

  lemma MovesBeforeCreation(cfg: Config, s: State, steps: seq<Step>, s': State, id: TaskKey)
    requires Safe(cfg) && Inv(cfg, s) && Run(cfg, s, steps, s') && id !in s.rows && id in s'.rows
    ensures Moves(cfg, s, steps, id) <= 2 * s'.rows[id].maxAttempts
    decreases |steps|
  {
    if steps == [] {
    } else {
      var mid := Next(cfg, s, steps[0]);
      StepKeepsInv(cfg, s, steps[0]);
      if id in mid.rows {
        MovesSpendRank(cfg, mid, steps[1..], s', id);
        RunAdvances(cfg, mid, steps[1..], s', id);
        assert WellFormed(s'.rows[id]) by { RunKeepsInv(cfg, mid, steps[1..], s'); }
      } else {
        MovesBeforeCreation(cfg, mid, steps[1..], s', id);
      }
    }
  }

  /** From its creation on, whatever the workers do, a task changes visibly at most
      `2 * max_attempts` times. */
  lemma MovesAreBounded(cfg: Config, steps: seq<Step>, s: State, id: TaskKey)
    requires Safe(cfg) && Run(cfg, INIT, steps, s) && id in s.rows
    ensures Moves(cfg, INIT, steps, id) <= 2 * s.rows[id].maxAttempts
  {
    MovesBeforeCreation(cfg, INIT, steps, s, id);
  }
}
