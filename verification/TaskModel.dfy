/**
 The value of one background task and every way the program rewrites it: the claim, the cancel
 request, the two ways of finishing, and the row overwrite of the SQL store. Times are integers on
 one monotone clock (read them as microseconds); results and error codes are strings.
 */
module TaskModel {
  import opened Wrappers

  datatype Status = Queued | Running | RetryWait | Succeeded | Failed | Cancelled

  datatype TaskKey = TaskKey(tenantId: string, taskId: string)

  datatype Task = Task(
    status: Status,
    progress: int,
    errorCode: Option<string>,
    result: Option<string>,
    attempts: int,
    maxAttempts: int,
    availableAt: Option<int>,
    lockedAt: Option<int>,
    lockedBy: Option<string>,
    cancelRequested: bool,
    finishedAt: Option<int>)

  /** How a claimed task's run ends, seen from the worker. */
  datatype Outcome =
    | NoHandler
    | Returned(result: string)
    | RaisedCancelled
    | RaisedTimeout
    | RaisedInvalid
    | RaisedOther

  predicate Terminal(t: Task) {
    t.status.Succeeded? || t.status.Failed? || t.status.Cancelled?
  }

  predicate Waiting(t: Task) {
    t.status.Queued? || t.status.RetryWait?
  }

  function NewTask(maxAttempts: int, now: int): Task {
    Task(Queued, 0, None, None, 0, maxAttempts, Some(now), None, None, false, None)
  }

  // ----- claim ---------------------------------------------------------------------------------

  predicate StaleRunning(t: Task, now: int, lease: int) {
    t.status.Running? && t.lockedAt.Some? && t.lockedAt.value <= now - lease
  }

  predicate Eligible(t: Task, now: int, lease: int) {
    StaleRunning(t, now, lease) || (Waiting(t) && t.availableAt.GetOr(now) <= now)
  }

  /** What a claim that looks at an eligible task writes: finalise it, or take it. */
  function ClaimEffect(t: Task, who: string, now: int, lease: int): Task {
    if t.cancelRequested then
      t.(status := Cancelled, finishedAt := Some(now))
    else if StaleRunning(t, now, lease) && t.attempts >= t.maxAttempts then
      t.(status := Failed, errorCode := Some("TASK_LEASE_EXPIRED"), finishedAt := Some(now))
    else
      t.(status := Running,
         attempts := t.attempts + 1,
         progress := if t.progress > 5 then t.progress else 5,
         lockedBy := Some(who),
         lockedAt := Some(now))
  }

  /** Does a claim hand an eligible task out, rather than finalise it? */
  predicate Takes(t: Task, now: int, lease: int) {
    !t.cancelRequested && !(StaleRunning(t, now, lease) && t.attempts >= t.maxAttempts)
  }

  // ----- cancel and finish ---------------------------------------------------------------------

  function CancelEffect(t: Task, now: int): Task {
    var flagged := t.(cancelRequested := true);
    if Waiting(t) then flagged.(status := Cancelled, finishedAt := Some(now)) else flagged
  }

  function Succeed(t: Task, result: string, now: int): Task {
    t.(status := Succeeded, progress := 100, result := Some(result), errorCode := None,
       lockedAt := None, lockedBy := None, finishedAt := Some(now))
  }

  function Fail(t: Task, code: string, retryDelay: int, now: int): Task {
    var released := t.(errorCode := Some(code), lockedAt := None, lockedBy := None);
    if t.cancelRequested then
      released.(status := Cancelled, finishedAt := Some(now))
    else if t.attempts < t.maxAttempts then
      released.(status := RetryWait, availableAt := Some(now + if retryDelay > 0 then retryDelay else 0))
    else
      released.(status := Failed, finishedAt := Some(now))
  }

  /** What the worker does to its task object once the handler is over; `latestFlag` is the cancel
      flag it reads back after a handler that returned. */
  function FinishTask(t: Task, o: Outcome, latestFlag: bool, retryDelay: int, now: int): Task {
    match o
    case NoHandler => Fail(t.(attempts := t.maxAttempts), "TASK_HANDLER_NOT_FOUND", 0, now)
    case Returned(result) =>
      if latestFlag then Fail(t.(cancelRequested := true), "TASK_CANCELLED", 0, now)
      else Succeed(t, result, now)
    case RaisedCancelled => Fail(t.(cancelRequested := true), "TASK_CANCELLED", 0, now)
    case RaisedTimeout => Fail(t, "TASK_TIMEOUT", retryDelay, now)
    case RaisedInvalid => Fail(t.(attempts := t.maxAttempts), "INVALID_TASK_PAYLOAD", 0, now)
    case RaisedOther => Fail(t, "TASK_EXECUTION_FAILED", retryDelay, now)
  }

  /** The SQL store overwrites a row with a worker's snapshot, all but the two attempt columns. */
  function SaveClaimed(row: Task, snap: Task, now: int): Task {
    snap.(attempts := row.attempts, maxAttempts := row.maxAttempts,
          availableAt := Some(snap.availableAt.GetOr(now)))
  }

  // ----- well-formedness, rank and progress ----------------------------------------------------

  ghost predicate WellFormed(t: Task) {
    && 1 <= t.maxAttempts
    && 0 <= t.attempts <= t.maxAttempts
    && 0 <= t.progress <= 100
    && t.availableAt.Some?
    && (Waiting(t) ==>
          t.lockedAt.None? && t.lockedBy.None? && !t.cancelRequested && t.attempts < t.maxAttempts)
    && (t.status.Queued? ==> t.attempts == 0)
    && (t.status.RetryWait? ==> 1 <= t.attempts && t.errorCode.Some?)
    && (t.status.Running? ==> t.lockedAt.Some? && t.lockedBy.Some? && 1 <= t.attempts && 5 <= t.progress)
    && (t.finishedAt.Some? <==> Terminal(t))
    && (t.result.Some? <==> t.status.Succeeded?)
    && (t.progress == 100 <==> t.status.Succeeded?)
    && (t.status.Failed? ==> t.errorCode.Some?)
    && (t.status.Succeeded? ==> t.errorCode.None?)
    && (t.status.Cancelled? ==> t.cancelRequested)
  }

  /** Twice the attempts left, and one more while an attempt is in progress. */
  function Rank(t: Task): int {
    if Terminal(t) then 0
    else 2 * (t.maxAttempts - t.attempts) + if t.status.Running? then 1 else 0
  }

  /** A change an observer of the queue sees: another status, or another attempt. */
  predicate Moved(before: Task, after: Task) {
    before.status != after.status || before.attempts != after.attempts
  }

  /** The history of one task read between any two moments: nothing is taken back, and a finished
      task keeps everything but its cancel flag, which a late request may still set. */
  ghost predicate Advances(before: Task, after: Task) {
    && after.maxAttempts == before.maxAttempts
    && before.attempts <= after.attempts
    && before.progress <= after.progress
    && (Terminal(before) ==>
          && after == before.(cancelRequested := after.cancelRequested)
          && (before.cancelRequested ==> after.cancelRequested))
    && 0 <= Rank(after) <= Rank(before)
  }

  /** One step of one task, which besides advancing pays for every visible change with rank. */
  ghost predicate RowStep(before: Task, after: Task) {
    Advances(before, after) && (Moved(before, after) ==> Rank(after) < Rank(before))
  }

  /** A requested cancel is still standing: the attempt in progress goes on, or it is cancelled. */
  ghost predicate CancelStands(before: Task, after: Task) {
    && after.cancelRequested
    && (|| after.status.Cancelled?
        || (after.status.Running? && after.attempts == before.attempts && after.lockedAt == before.lockedAt))
  }

  /** The code an attempt that does not succeed leaves behind. */
  function ErrorCode(o: Outcome): string {
    match o
    case NoHandler => "TASK_HANDLER_NOT_FOUND"
    case Returned(_) => "TASK_CANCELLED"
    case RaisedCancelled => "TASK_CANCELLED"
    case RaisedTimeout => "TASK_TIMEOUT"
    case RaisedInvalid => "INVALID_TASK_PAYLOAD"
    case RaisedOther => "TASK_EXECUTION_FAILED"
  }

  /** What an attempt leaves of a task when it ends at `at`, asked to cancel or not. Only a handler that
      returned unasked succeeds, with what it returned. A cancelled task is not tried again, nor is one
      whose payload is invalid or that has no handler; a timeout or any other error is, after the delay,
      while attempts are left. The attempt number is not part of it. */
  ghost predicate EndsAs(before: Task, o: Outcome, asked: bool, retryDelay: int, at: int, after: Task) {
    && after.lockedAt.None? && after.lockedBy.None? && after.maxAttempts == before.maxAttempts
    && if o.Returned? && !asked then
         && after.status.Succeeded? && after.result == Some(o.result) && after.errorCode.None?
         && after.progress == 100 && after.finishedAt == Some(at)
         && after.availableAt == before.availableAt && after.cancelRequested == before.cancelRequested
       else
         && after.result == before.result && after.progress == before.progress
         && after.errorCode == Some(ErrorCode(o))
         && (after.cancelRequested <==> before.cancelRequested || o.RaisedCancelled? || o.Returned?)
         && if && (o.RaisedTimeout? || o.RaisedOther?) && before.attempts < before.maxAttempts
               && !after.cancelRequested
            then
              && after.status.RetryWait? && after.finishedAt == before.finishedAt
              && after.availableAt == Some(at + (if retryDelay > 0 then retryDelay else 0))
            else
              && after.status == (if after.cancelRequested then Cancelled else Failed)
              && after.finishedAt == Some(at) && after.availableAt == before.availableAt
  }

  /** A new task waits for its first attempt from its creation on. */
  lemma NewTaskIsReady(maxAttempts: int, now: int, moment: int, lease: int)
    requires 1 <= maxAttempts
    ensures var t := NewTask(maxAttempts, now);
            && WellFormed(t) && t.status.Queued? && t.attempts == 0 && t.maxAttempts == maxAttempts && t.progress == 0
            && t.errorCode.None? && (Eligible(t, moment, lease) <==> now <= moment)
  {}

  /** A claim writes the name and the time of the claimer, one more attempt, and at least the progress of
      a task that has begun; or it finishes the task, and says why it failed if it was not cancelled. */
  lemma ClaimSays(t: Task, who: string, now: int, lease: int)
    requires WellFormed(t) && Eligible(t, now, lease)
    ensures var t' := ClaimEffect(t, who, now, lease);
            && t'.maxAttempts == t.maxAttempts && t'.availableAt == t.availableAt
            && t'.result == t.result && t'.cancelRequested == t.cancelRequested
            && if t'.status.Running? then
                 && t'.lockedBy == Some(who) && t'.lockedAt == Some(now) && t'.attempts == t.attempts + 1
                 && t'.progress == (if t.progress < 5 then 5 else t.progress)
                 && t'.errorCode == t.errorCode && t'.finishedAt.None?
               else
                 && t'.finishedAt == Some(now) && t'.lockedBy == t.lockedBy && t'.lockedAt == t.lockedAt
                 && t'.attempts == t.attempts && t'.progress == t.progress
                 && if t.cancelRequested then t'.status.Cancelled? && t'.errorCode == t.errorCode
                    else t'.status.Failed? && t'.errorCode == Some("TASK_LEASE_EXPIRED") && t.attempts == t.maxAttempts
  {}

  /** A cancel request ends a waiting task at once and leaves anything but the flag of another alone. */
  lemma CancelSays(t: Task, now: int)
    requires WellFormed(t)
    ensures var t' := CancelEffect(t, now);
            && t'.cancelRequested
            && t'.(cancelRequested := t.cancelRequested, status := t.status, finishedAt := t.finishedAt) == t
            && (if t.status.Queued? || t.status.RetryWait? then t'.status.Cancelled? && t'.finishedAt == Some(now)
                else t'.status == t.status && t'.finishedAt == t.finishedAt)
  {}

  lemma FinishSays(t: Task, o: Outcome, latestFlag: bool, retryDelay: int, now: int)
    requires t.status.Running? && (o.Returned? && t.cancelRequested ==> latestFlag)
    ensures var t' := FinishTask(t, o, latestFlag, retryDelay, now);
            && EndsAs(t, o, latestFlag, retryDelay, now, t')
            && t'.attempts == if o.NoHandler? || o.RaisedInvalid? then t.maxAttempts else t.attempts
  {}

  /** An overwritten row is the copy, but for the attempt columns, which stay the row's. */
  lemma SaveClaimedSays(row: Task, snap: Task, now: int)
    ensures var t := SaveClaimed(row, snap, now);
            && t.attempts == row.attempts && t.maxAttempts == row.maxAttempts
            && t.(attempts := snap.attempts, maxAttempts := snap.maxAttempts, availableAt := snap.availableAt) == snap
            && t.availableAt == (if snap.availableAt.Some? then snap.availableAt else Some(now))
  {}

  lemma ClaimKeepsWellFormed(t: Task, who: string, now: int, lease: int)
    requires WellFormed(t) && Eligible(t, now, lease)
    ensures var t' := ClaimEffect(t, who, now, lease);
            && WellFormed(t') && RowStep(t, t') && Moved(t, t')
            && (t'.status.Running? <==> Takes(t, now, lease))
            && (t'.status.Running? ==> t'.attempts == t.attempts + 1 && t'.lockedAt == Some(now) && !t'.cancelRequested)
  {}

  lemma CancelKeepsWellFormed(t: Task, now: int)
    requires WellFormed(t)
    ensures var t' := CancelEffect(t, now);
            WellFormed(t') && RowStep(t, t') && (!Terminal(t) ==> CancelStands(t, t'))
  {}

  lemma FinishKeepsWellFormed(t: Task, o: Outcome, latestFlag: bool, retryDelay: int, now: int)
    requires WellFormed(t) && t.status.Running?
    requires o.Returned? && t.cancelRequested ==> latestFlag
    ensures var t' := FinishTask(t, o, latestFlag, retryDelay, now);
            && !t'.status.Running? && !t'.status.Queued?
            && WellFormed(t') && WellFormed(t'.(attempts := t.attempts))
            && RowStep(t, t') && RowStep(t, t'.(attempts := t.attempts))
            && (t'.status.Cancelled? <==> t'.cancelRequested)
            && (t'.cancelRequested <==> t.cancelRequested || o.RaisedCancelled? || (o.Returned? && latestFlag))
  {}

  /** A save that raises inside `succeed` is caught and followed by `fail` on the same object; what
      that second save writes is never a well-formed task. */
  lemma FailAfterSucceedIsIllFormed(t: Task, result: string, code: string, retryDelay: int, then1: int, then2: int)
    requires WellFormed(t) && t.status.Running?
    ensures var t' := Fail(Succeed(t, result, then1), code, retryDelay, then2);
            !WellFormed(t') && t'.result.Some? && !t'.status.Succeeded?
  {}
}
