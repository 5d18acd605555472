/**
 The queue as a state machine: any number of workers claim, run, finish, save, crash and reclaim
 tasks while callers create and cancel them. One machine covers both stores. With `Shared` the
 worker's task object is the stored object, so finishing writes the store at once; with `Snapshot`
 the worker holds a copy and a later, separate transaction overwrites the row with it.

 No write looks at `locked_by`. Everything below rests on the timing hypothesis `Safe`.
 */
module TaskQueue {
  import opened Wrappers
  import opened TaskModel

  type Worker = nat

  datatype Store = Shared | Snapshot

  /** `timeout` bounds a handler's run; `slack` bounds all the other time a worker may spend between
      its claim and the write that ends the attempt. A worker slower than that counts as crashed. */
  datatype Config = Config(store: Store, lease: int, timeout: nat, slack: nat, retryDelay: int)

  ghost predicate Safe(cfg: Config) {
    cfg.timeout + cfg.slack < cfg.lease
  }

  /** `outcome`, `asked` and `at` are history: how the attempt ended, whether the task carried a cancel
      request by then, and when. */
  datatype Phase =
    | Idle
    | Claimed(id: TaskKey, epoch: int, claimedAt: int, task: Task)
    | Handling(id: TaskKey, epoch: int, claimedAt: int, task: Task, startedAt: int)
    | Saving(id: TaskKey, epoch: int, claimedAt: int, task: Task, handlerTime: int,
             outcome: Outcome, asked: bool, at: int)

  /** `starts` is history: for each task the attempts whose handler was started, in order. */
  datatype State = State(
    clock: int,
    rows: map<TaskKey, Task>,
    workers: map<Worker, Phase>,
    starts: map<TaskKey, seq<int>>)

  datatype Step =
    | Tick(elapsed: nat)
    | Create(newId: TaskKey, maxAttempts: int)
    | Cancel(target: TaskKey)
    | Claim(w: Worker, candidate: TaskKey, who: string, readAt: int)
    | Start(w: Worker)
    | Finish(w: Worker, outcome: Outcome, endedAt: int)
    | Persist(w: Worker)
    | Crash(w: Worker)

  const INIT := State(0, map[], map[], map[])

  function PhaseOf(s: State, w: Worker): Phase {
    if w in s.workers then s.workers[w] else Idle
  }

  predicate InTime(cfg: Config, s: State, claimedAt: int, handlerTime: int) {
    s.clock - claimedAt - handlerTime <= cfg.slack
  }

  /** How long the handler of the attempt that `Finish` ends has run. */
  function HandlerTime(p: Phase, endedAt: int): int {
    if p.Handling? then endedAt - p.startedAt else 0
  }

  predicate CanClaim(cfg: Config, s: State, w: Worker, id: TaskKey, readAt: int) {
    PhaseOf(s, w).Idle? && id in s.rows && readAt <= s.clock && Eligible(s.rows[id], readAt, cfg.lease)
  }

  /** The handler ended within the timeout; in the shared store finishing is also the write. */
  predicate CanFinish(cfg: Config, s: State, p: Phase, o: Outcome, endedAt: int) {
    && (if o.NoHandler? then p.Claimed? else
          p.Handling? && p.startedAt <= endedAt <= s.clock && endedAt - p.startedAt <= cfg.timeout)
    && p.id in s.rows
    && (cfg.store.Shared? ==> InTime(cfg, s, p.claimedAt, HandlerTime(p, endedAt)))
  }

  predicate CanPersist(cfg: Config, s: State, p: Phase) {
    p.Saving? && p.id in s.rows && InTime(cfg, s, p.claimedAt, p.handlerTime)
  }

  predicate Enabled(cfg: Config, s: State, step: Step) {
    match step
    case Tick(_) => true
    case Create(id, maxAttempts) => id !in s.rows && 1 <= maxAttempts
    case Cancel(id) => id in s.rows
    case Claim(w, id, who, readAt) => CanClaim(cfg, s, w, id, readAt)
    case Start(w) => PhaseOf(s, w).Claimed? && PhaseOf(s, w).id in s.starts
    case Finish(w, o, endedAt) => CanFinish(cfg, s, PhaseOf(s, w), o, endedAt)
    case Persist(w) => CanPersist(cfg, s, PhaseOf(s, w))
    case Crash(w) => true
  }

  function CreateStep(s: State, id: TaskKey, maxAttempts: int): State {
    s.(rows := s.rows[id := NewTask(maxAttempts, s.clock)], starts := s.starts[id := []])
  }

  function CancelStep(s: State, id: TaskKey): State
    requires id in s.rows
  {
    s.(rows := s.rows[id := CancelEffect(s.rows[id], s.clock)])
  }

  function ClaimStep(cfg: Config, s: State, w: Worker, id: TaskKey, who: string, readAt: int): State
    requires id in s.rows
  {
    var row := ClaimEffect(s.rows[id], who, readAt, cfg.lease);
    s.(rows := s.rows[id := row],
       workers := s.workers[w := if row.status.Running? then Claimed(id, row.attempts, readAt, row) else Idle])
  }

  function StartStep(s: State, w: Worker): State
    requires PhaseOf(s, w).Claimed? && PhaseOf(s, w).id in s.starts
  {
    var p := PhaseOf(s, w);
    s.(workers := s.workers[w := Handling(p.id, p.epoch, p.claimedAt, p.task, s.clock)],
       starts := s.starts[p.id := s.starts[p.id] + [p.epoch]])
  }

  /** In the shared store the task object is the row: reading the flag, finishing and saving are one. */
  function SharedFinishStep(cfg: Config, s: State, w: Worker, o: Outcome): State
    requires !PhaseOf(s, w).Idle? && PhaseOf(s, w).id in s.rows
  {
    var id := PhaseOf(s, w).id;
    var row := s.rows[id];
    s.(rows := s.rows[id := FinishTask(row, o, row.cancelRequested, cfg.retryDelay, s.clock)],
       workers := s.workers[w := Idle])
  }

  /** In the snapshot store the worker finishes its copy; only the flag is read from the row. */
  function SnapshotFinishStep(cfg: Config, s: State, w: Worker, o: Outcome, endedAt: int): State
    requires (PhaseOf(s, w).Claimed? || PhaseOf(s, w).Handling?) && PhaseOf(s, w).id in s.rows
  {
    var p := PhaseOf(s, w);
    var asked := s.rows[p.id].cancelRequested;
    var snap := FinishTask(p.task, o, asked, cfg.retryDelay, s.clock);
    s.(workers := s.workers[w :=
            Saving(p.id, p.epoch, p.claimedAt, snap, HandlerTime(p, endedAt), o, asked, s.clock)])
  }

  function PersistStep(s: State, w: Worker): State
    requires PhaseOf(s, w).Saving? && PhaseOf(s, w).id in s.rows
  {
    var p := PhaseOf(s, w);
    s.(rows := s.rows[p.id := SaveClaimed(s.rows[p.id], p.task, s.clock)],
       workers := s.workers[w := Idle])
  }

  function Next(cfg: Config, s: State, step: Step): State
    requires Enabled(cfg, s, step)
  {
    match step
    case Tick(d) => s.(clock := s.clock + d)
    case Create(id, maxAttempts) => CreateStep(s, id, maxAttempts)
    case Cancel(id) => CancelStep(s, id)
    case Claim(w, id, who, readAt) => ClaimStep(cfg, s, w, id, who, readAt)
    case Start(w) => StartStep(s, w)
    case Finish(w, o, endedAt) =>
      if cfg.store.Shared? then SharedFinishStep(cfg, s, w, o) else SnapshotFinishStep(cfg, s, w, o, endedAt)
    case Persist(w) => PersistStep(s, w)
    case Crash(w) => s.(workers := s.workers[w := Idle])
  }

  ghost predicate Run(cfg: Config, s: State, steps: seq<Step>, s': State)
    decreases |steps|
  {
    if steps == [] then s == s'
    else Enabled(cfg, s, steps[0]) && Run(cfg, Next(cfg, s, steps[0]), steps[1..], s')
  }

  ghost predicate Reachable(cfg: Config, s: State) {
    exists steps :: Run(cfg, INIT, steps, s)
  }

  // ----- the invariant -------------------------------------------------------------------------

  /** The lease of the claim that put a worker in this phase is not over. */
  predicate Live(cfg: Config, s: State, p: Phase) {
    !p.Idle? && s.clock < p.claimedAt + cfg.lease
  }

  /** The stored task is still running the very attempt this worker claimed. */
  predicate Owns(s: State, p: Phase)
    requires !p.Idle?
  {
    && p.id in s.rows
    && s.rows[p.id].status.Running?
    && s.rows[p.id].attempts == p.epoch
    && s.rows[p.id].lockedAt == Some(p.claimedAt)
  }

  ghost predicate RowsOk(rows: map<TaskKey, Task>) {
    forall id :: id in rows ==> WellFormed(rows[id])
  }

  /** What a worker of the snapshot store carries: the row as claimed, then that row finished. */
  ghost predicate SnapOk(cfg: Config, s: State, p: Phase)
    requires !p.Idle? && p.id in s.rows
  {
    var row := s.rows[p.id];
    && p.task.maxAttempts == row.maxAttempts
    && (if p.Saving? then
          && 0 <= p.handlerTime <= cfg.timeout
          && !p.task.status.Running? && !p.task.status.Queued?
          && WellFormed(p.task.(attempts := p.epoch))
          && (p.task.status.Cancelled? <==> p.task.cancelRequested)
          && (p.task.cancelRequested <==> p.outcome.RaisedCancelled? || (p.outcome.Returned? && p.asked))
          && (Live(cfg, s, p) ==>
                && row.progress <= p.task.progress && (p.asked ==> row.cancelRequested)
                && EndsAs(row.(cancelRequested := false), p.outcome, p.asked, cfg.retryDelay, p.at, p.task))
        else
          && WellFormed(p.task) && p.task.status.Running? && p.task.attempts == p.epoch
          && !p.task.cancelRequested
          && (Live(cfg, s, p) ==> row == p.task.(cancelRequested := row.cancelRequested)))
  }

  ghost predicate HolderOk(cfg: Config, s: State, p: Phase)
    requires !p.Idle?
  {
    && p.id in s.rows
    && 1 <= p.epoch <= s.rows[p.id].attempts
    && p.claimedAt <= s.clock
    && (Live(cfg, s, p) ==> Owns(s, p))
    && (if cfg.store.Shared? then !p.Saving? else SnapOk(cfg, s, p))
    && (p.Claimed? ==> p.id in s.starts && p.epoch !in s.starts[p.id])
  }

  ghost predicate HoldersOk(cfg: Config, s: State) {
    forall w :: w in s.workers && !s.workers[w].Idle? ==> HolderOk(cfg, s, s.workers[w])
  }

  /** No two workers ever hold the same attempt of the same task, crashed and slow ones included. */
  ghost predicate DistinctEpochs(workers: map<Worker, Phase>) {
    forall w1, w2 ::
      (&& w1 in workers && w2 in workers && w1 != w2
       && !workers[w1].Idle? && !workers[w2].Idle? && workers[w1].id == workers[w2].id)
      ==> workers[w1].epoch != workers[w2].epoch
  }

  predicate Distinct(xs: seq<int>) {
    forall i, j :: 0 <= i < j < |xs| ==> xs[i] != xs[j]
  }

  predicate Within(xs: seq<int>, n: int) {
    forall i :: 0 <= i < |xs| ==> 1 <= xs[i] <= n
  }

  ghost predicate StartsOk(starts: map<TaskKey, seq<int>>, rows: map<TaskKey, Task>) {
    && starts.Keys == rows.Keys
    && forall id :: id in starts ==> Distinct(starts[id]) && Within(starts[id], rows[id].attempts)
  }

  ghost predicate Inv(cfg: Config, s: State) {
    RowsOk(s.rows) && HoldersOk(cfg, s) && DistinctEpochs(s.workers) && StartsOk(s.starts, s.rows)
  }

  /** A worker that keeps its attempt, or gives it up, does not disturb the others' epochs. */
  lemma SameHoldKeepsDistinct(workers: map<Worker, Phase>, w: Worker, p: Phase)
    requires DistinctEpochs(workers)
    requires p.Idle? || (w in workers && !workers[w].Idle? && p.id == workers[w].id && p.epoch == workers[w].epoch)
    ensures DistinctEpochs(workers[w := p])
  {}

  lemma RowUpdateKeepsStarts(starts: map<TaskKey, seq<int>>, rows: map<TaskKey, Task>, id: TaskKey, row: Task)
    requires StartsOk(starts, rows) && id in rows && rows[id].attempts <= row.attempts
    ensures StartsOk(starts, rows[id := row])
  {}

  // ----- every step keeps it -------------------------------------------------------------------

  lemma ClaimKeepsHolder(cfg: Config, s: State, w: Worker, id: TaskKey, who: string, readAt: int, p: Phase)
    requires RowsOk(s.rows) && CanClaim(cfg, s, w, id, readAt) && !p.Idle? && HolderOk(cfg, s, p)
    ensures HolderOk(cfg, ClaimStep(cfg, s, w, id, who, readAt), p)
  {}

  lemma ClaimIsNewEpoch(cfg: Config, s: State, w: Worker, p: Phase)
    requires HoldersOk(cfg, s) && DistinctEpochs(s.workers)
    requires p.Idle? || (p.id in s.rows && p.epoch == s.rows[p.id].attempts + 1)
    ensures DistinctEpochs(s.workers[w := p])
  {}

  lemma ClaimKeepsInv(cfg: Config, s: State, w: Worker, id: TaskKey, who: string, readAt: int)
    requires Inv(cfg, s) && CanClaim(cfg, s, w, id, readAt)
    ensures Inv(cfg, ClaimStep(cfg, s, w, id, who, readAt))
  {
    var s' := ClaimStep(cfg, s, w, id, who, readAt);
    ClaimKeepsWellFormed(s.rows[id], who, readAt, cfg.lease);
    RowUpdateKeepsStarts(s.starts, s.rows, id, s'.rows[id]);
    assert DistinctEpochs(s'.workers) by { ClaimIsNewEpoch(cfg, s, w, s'.workers[w]); }
    forall w' | w' in s'.workers && !s'.workers[w'].Idle?
      ensures HolderOk(cfg, s', s'.workers[w'])
    {
      if w' != w { ClaimKeepsHolder(cfg, s, w, id, who, readAt, s.workers[w']); }
    }
  }

  lemma CancelKeepsHolder(cfg: Config, s: State, id: TaskKey, p: Phase)
    requires RowsOk(s.rows) && id in s.rows && !p.Idle? && HolderOk(cfg, s, p)
    ensures HolderOk(cfg, CancelStep(s, id), p)
  {}

  lemma CancelKeepsInv(cfg: Config, s: State, id: TaskKey)
    requires Inv(cfg, s) && id in s.rows
    ensures Inv(cfg, CancelStep(s, id))
  {
    var s' := CancelStep(s, id);
    CancelKeepsWellFormed(s.rows[id], s.clock);
    RowUpdateKeepsStarts(s.starts, s.rows, id, s'.rows[id]);
    forall w | w in s.workers && !s.workers[w].Idle? ensures HolderOk(cfg, s', s.workers[w]) {
      CancelKeepsHolder(cfg, s, id, s.workers[w]);
    }
  }

  lemma StartKeepsInv(cfg: Config, s: State, w: Worker)
    requires Inv(cfg, s) && PhaseOf(s, w).Claimed? && PhaseOf(s, w).id in s.starts
    ensures Inv(cfg, StartStep(s, w))
  {
    var s', p := StartStep(s, w), PhaseOf(s, w);
    assert HolderOk(cfg, s, p);
    SameHoldKeepsDistinct(s.workers, w, s'.workers[w]);
    forall w' | w' in s'.workers && !s'.workers[w'].Idle? ensures HolderOk(cfg, s', s'.workers[w']) {
      assert HolderOk(cfg, s, s.workers[w']);
      assert w' != w && s.workers[w'].id == p.id ==> s.workers[w'].epoch != p.epoch;
    }
  }

  /** A write that ends an attempt comes before the lease is over, so it meets its own attempt. */
  lemma InTimeIsLive(cfg: Config, s: State, p: Phase, handlerTime: int)
    requires Safe(cfg) && !p.Idle? && handlerTime <= cfg.timeout && InTime(cfg, s, p.claimedAt, handlerTime)
    ensures Live(cfg, s, p)
  {}

  /** In the shared store a finish rewrites the row; no other live worker can be looking at it. */
  lemma SharedFinishKeepsHolder(cfg: Config, s: State, w: Worker, o: Outcome, endedAt: int, w': Worker)
    requires Safe(cfg) && cfg.store.Shared? && Inv(cfg, s) && CanFinish(cfg, s, PhaseOf(s, w), o, endedAt)
    requires w' in s.workers && w' != w && !s.workers[w'].Idle?
    ensures HolderOk(cfg, SharedFinishStep(cfg, s, w, o), s.workers[w'])
  {}

  lemma SharedFinishKeepsInv(cfg: Config, s: State, w: Worker, o: Outcome, endedAt: int)
    requires Safe(cfg) && cfg.store.Shared? && Inv(cfg, s) && CanFinish(cfg, s, PhaseOf(s, w), o, endedAt)
    ensures Inv(cfg, SharedFinishStep(cfg, s, w, o))
  {
    var s', p := SharedFinishStep(cfg, s, w, o), PhaseOf(s, w);
    InTimeIsLive(cfg, s, p, HandlerTime(p, endedAt));
    FinishKeepsWellFormed(s.rows[p.id], o, s.rows[p.id].cancelRequested, cfg.retryDelay, s.clock);
    SameHoldKeepsDistinct(s.workers, w, Idle);
    RowUpdateKeepsStarts(s.starts, s.rows, p.id, s'.rows[p.id]);
    forall w' | w' in s'.workers && !s'.workers[w'].Idle?
      ensures HolderOk(cfg, s', s'.workers[w'])
    {
      SharedFinishKeepsHolder(cfg, s, w, o, endedAt, w');
    }
  }

  lemma SnapshotFinishKeepsInv(cfg: Config, s: State, w: Worker, o: Outcome, endedAt: int)
    requires cfg.store.Snapshot? && Inv(cfg, s) && CanFinish(cfg, s, PhaseOf(s, w), o, endedAt)
    ensures Inv(cfg, SnapshotFinishStep(cfg, s, w, o, endedAt))
  {
    var s', p := SnapshotFinishStep(cfg, s, w, o, endedAt), PhaseOf(s, w);
    assert HolderOk(cfg, s, p);
    FinishKeepsWellFormed(p.task, o, s.rows[p.id].cancelRequested, cfg.retryDelay, s.clock);
    FinishSays(p.task, o, s.rows[p.id].cancelRequested, cfg.retryDelay, s.clock);
    SameHoldKeepsDistinct(s.workers, w, s'.workers[w]);
    forall w' | w' in s'.workers && !s'.workers[w'].Idle? ensures HolderOk(cfg, s', s'.workers[w']) {
      if w' != w { assert HolderOk(cfg, s, s.workers[w']); }
    }
  }

  /** A save in time writes exactly the finished copy, with the row's own attempt number. */
  lemma PersistWritesSnapshot(cfg: Config, s: State, w: Worker)
    requires Safe(cfg) && Inv(cfg, s) && CanPersist(cfg, s, PhaseOf(s, w))
    ensures var p := PhaseOf(s, w);
            && Live(cfg, s, p) && Owns(s, p)
            && PersistStep(s, w).rows[p.id] == p.task.(attempts := p.epoch)
  {}

  lemma PersistKeepsHolder(cfg: Config, s: State, w: Worker, w': Worker)
    requires Safe(cfg) && Inv(cfg, s) && CanPersist(cfg, s, PhaseOf(s, w))
    requires w' in s.workers && w' != w && !s.workers[w'].Idle?
    ensures HolderOk(cfg, PersistStep(s, w), s.workers[w'])
  {}

  lemma PersistKeepsInv(cfg: Config, s: State, w: Worker)
    requires Safe(cfg) && Inv(cfg, s) && CanPersist(cfg, s, PhaseOf(s, w))
    ensures Inv(cfg, PersistStep(s, w))
  {
    var s' := PersistStep(s, w);
    PersistWritesSnapshot(cfg, s, w);
    SameHoldKeepsDistinct(s.workers, w, Idle);
    RowUpdateKeepsStarts(s.starts, s.rows, PhaseOf(s, w).id, s'.rows[PhaseOf(s, w).id]);
    forall w' | w' in s'.workers && !s'.workers[w'].Idle?
      ensures HolderOk(cfg, s', s'.workers[w'])
    {
      PersistKeepsHolder(cfg, s, w, w');
    }
  }

  lemma CreateKeepsInv(cfg: Config, s: State, id: TaskKey, maxAttempts: int)
    requires Inv(cfg, s) && id !in s.rows && 1 <= maxAttempts
    ensures Inv(cfg, CreateStep(s, id, maxAttempts))
  {}

  lemma StepKeepsInv(cfg: Config, s: State, step: Step)
    requires Safe(cfg) && Inv(cfg, s) && Enabled(cfg, s, step)
    ensures Inv(cfg, Next(cfg, s, step))
  {
    match step
    case Tick(_) =>
    case Create(id, maxAttempts) => CreateKeepsInv(cfg, s, id, maxAttempts);
    case Cancel(id) => CancelKeepsInv(cfg, s, id);
    case Claim(w, id, who, readAt) => ClaimKeepsInv(cfg, s, w, id, who, readAt);
    case Start(w) => StartKeepsInv(cfg, s, w);
    case Finish(w, o, endedAt) =>
      if cfg.store.Shared? {
        SharedFinishKeepsInv(cfg, s, w, o, endedAt);
      } else {
        SnapshotFinishKeepsInv(cfg, s, w, o, endedAt);
      }
    case Persist(w) => PersistKeepsInv(cfg, s, w);
    case Crash(_) =>
  }
}
