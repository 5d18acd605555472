/**
 Where things come from, over whole runs: every event of the log from a step that drew or judged, every
 delivery from a draft that was drawn and a verdict that was given, every call of the connector from a
 step that called it.
 */
module WriteHistory {
  import opened Wrappers
  import opened Drafts
  import opened ReviewedWrites
  import opened WriteSafety

  ghost predicate WasDrawn(steps: seq<Step>, t: Target, content: Content) {
    exists i :: 0 <= i < |steps| && steps[i] == Generating(t, content)
  }

  ghost predicate WasGiven(steps: seq<Step>, t: Target, approve: bool, note: Option<string>) {
    exists i :: 0 <= i < |steps| && steps[i].Reviewing? && steps[i].which == t
                && steps[i].verdict == approve && steps[i].comment == note
  }

  ghost predicate EventSourced(e: Event, done: seq<Step>) {
    WasDrawn(done, e.target, e.content) && (e.Reviewed? ==> WasGiven(done, e.target, e.approved, e.comment))
  }

  ghost predicate PhaseSourced(p: Phase, done: seq<Step>) {
    p.ReviewSaving? ==> WasGiven(done, p.target, p.approve, p.note)
  }

  ghost predicate Sourced(s: State, done: seq<Step>) {
    && (forall i :: 0 <= i < |s.drafts.log| ==> EventSourced(s.drafts.log[i], done))
    && (forall c :: c in s.clients ==> PhaseSourced(s.clients[c], done))
  }

  lemma DrawnStays(done: seq<Step>, step: Step, t: Target, content: Content)
    requires WasDrawn(done, t, content)
    ensures WasDrawn(done + [step], t, content)
  {
    var i :| 0 <= i < |done| && done[i] == Generating(t, content);
    assert (done + [step])[i] == done[i];
  }

  lemma GivenStays(done: seq<Step>, step: Step, t: Target, approve: bool, note: Option<string>)
    requires WasGiven(done, t, approve, note)
    ensures WasGiven(done + [step], t, approve, note)
  {
    var i :| 0 <= i < |done| && done[i].Reviewing? && done[i].which == t
             && done[i].verdict == approve && done[i].comment == note;
    assert (done + [step])[i] == done[i];
  }

  lemma EventStaysSourced(e: Event, done: seq<Step>, step: Step)
    requires EventSourced(e, done)
    ensures EventSourced(e, done + [step])
  {
    DrawnStays(done, step, e.target, e.content);
    if e.Reviewed? { GivenStays(done, step, e.target, e.approved, e.comment); }
  }

  /** What a draft says was drawn. */
  lemma ContentWasDrawn(cfg: Config, s: State, done: seq<Step>, ref: Ref)
    requires Inv(cfg, s) && Sourced(s, done) && ref < |s.drafts.heap|
    ensures WasDrawn(done, s.drafts.heap[ref].target, s.drafts.heap[ref].content)
  {
    var d := s.drafts.heap[ref];
    assert DraftOk(s.drafts, d);
    assert EventSourced(s.drafts.log[d.basis], done);
  }

  /** The event a step logs is its own. */
  lemma NewEventIsSourced(cfg: Config, s: State, step: Step, done: seq<Step>)
    requires Inv(cfg, s) && Enabled(cfg, s, step) && Sourced(s, done)
    ensures var (log, log') := (s.drafts.log, Next(cfg, s, step).drafts.log);
            log' == log || (log' == log + [log'[|log|]] && EventSourced(log'[|log|], done + [step]))
  {
    assert (done + [step])[|done|] == step;
    match step
    case Reviewing(_, t, _, _) =>
      assert StoredOk(cfg.shared, s.drafts, t);
      ContentWasDrawn(cfg, s, done, s.drafts.table[t]);
      DrawnStays(done, step, t, StoredDraft(s, t).content);
    case ReviewSave(c) =>
      var p := PhaseOf(s, c);
      assert PhaseOk(cfg, s, p);
      ContentWasDrawn(cfg, s, done, p.ref);
      DrawnStays(done, step, p.target, s.drafts.heap[p.ref].content);
      GivenStays(done, step, p.target, p.approve, p.note);
    case _ =>
  }

  lemma PhaseStaysSourced(cfg: Config, s: State, step: Step, done: seq<Step>, c: Client)
    requires Enabled(cfg, s, step) && Sourced(s, done) && c in Next(cfg, s, step).clients
    ensures PhaseSourced(Next(cfg, s, step).clients[c], done + [step])
  {
    assert (done + [step])[|done|] == step;
    var p := PhaseOf(s, c);
    if p.ReviewSaving? { GivenStays(done, step, p.target, p.approve, p.note); }
  }

  lemma StepKeepsSourced(cfg: Config, s: State, step: Step, done: seq<Step>)
    requires Inv(cfg, s) && Enabled(cfg, s, step) && Sourced(s, done)
    ensures Sourced(Next(cfg, s, step), done + [step])
  {
    var s' := Next(cfg, s, step);
    NewEventIsSourced(cfg, s, step, done);
    forall i | 0 <= i < |s'.drafts.log| ensures EventSourced(s'.drafts.log[i], done + [step]) {
      if i < |s.drafts.log| { EventStaysSourced(s.drafts.log[i], done, step); }
    }
    forall c | c in s'.clients ensures PhaseSourced(s'.clients[c], done + [step]) {
      PhaseStaysSourced(cfg, s, step, done, c);
    }
  }

  lemma {:induction false} RunKeepsSourced(cfg: Config, s: State, done: seq<Step>, steps: seq<Step>, s': State)
    requires Inv(cfg, s) && Run(cfg, s, steps, s') && Sourced(s, done)
    ensures Sourced(s', done + steps)
    decreases |steps|
  {
    if steps == [] {
      assert done + [] == done;
    } else {
      StepKeepsInv(cfg, s, steps[0]);
      StepKeepsSourced(cfg, s, steps[0], done);
      RunKeepsSourced(cfg, Next(cfg, s, steps[0]), done + [steps[0]], steps[1..], s');
      assert done + [steps[0]] + steps[1..] == done + steps;
    }
  }

  /** Over whole runs: every verdict of the log was given by a reviewer of that target, with that comment,
      on content that was drawn for it; and every drawn content of the log was drawn. */
  lemma EventsHappened(cfg: Config, steps: seq<Step>, s: State, i: nat)
    requires Run(cfg, INIT, steps, s) && i < |s.drafts.log|
    ensures var e := s.drafts.log[i];
            WasDrawn(steps, e.target, e.content) && (e.Reviewed? ==> WasGiven(steps, e.target, e.approved, e.comment))
  {
    RunKeepsSourced(cfg, INIT, [], steps, s);
    assert [] + steps == steps;
    assert EventSourced(s.drafts.log[i], steps);
  }

  /** Over whole runs: whatever left was drawn for its target in that form, was approved by a reviewer with
      that comment, and passed the sensitive-data check. */
  lemma WhatLeftWasDrawnAndApproved(cfg: Config, steps: seq<Step>, s: State, i: nat)
    requires Run(cfg, INIT, steps, s) && i < |s.connector.outbox|
    ensures var d := s.connector.outbox[i];
            && WasDrawn(steps, d.target, d.content) && WasGiven(steps, d.target, true, d.comment)
            && cfg.shareable(d.target, d.content, d.comment)
  {
    assert Reachable(cfg, s);
    OnlyApprovedContentLeaves(cfg, s, i);
    EventsHappened(cfg, steps, s, s.connector.outbox[i].basis);
  }

  /** How many steps of a run call the connector for a target. */
  ghost function CallsOf(cfg: Config, s: State, steps: seq<Step>, t: Target): nat
    decreases |steps|
  {
    if steps == [] || !Enabled(cfg, s, steps[0]) then 0
    else
      (if steps[0].Call? && PhaseOf(s, steps[0].c).target == t then 1 else 0)
      + CallsOf(cfg, Next(cfg, s, steps[0]), steps[1..], t)
  }

  lemma {:induction false} CallsAreCounted(cfg: Config, s: State, steps: seq<Step>, s': State, t: Target)
    requires Run(cfg, s, steps, s')
    ensures s'.connector.calls[t] == s.connector.calls[t] + CallsOf(cfg, s, steps, t)
    decreases |steps|
  {
    if steps == [] {
    } else {
      CallsAreCounted(cfg, Next(cfg, s, steps[0]), steps[1..], s', t);
    }
  }

  /** Once a result is recorded and nobody is between lookup and call, the connector is not called for that
      target in any continuation. */
  lemma SettledIsNotCalled(cfg: Config, s: State, steps: seq<Step>, s': State, t: Target)
    requires Run(cfg, s, steps, s') && Settled(s, t)
    ensures CallsOf(cfg, s, steps, t) == 0
  {
    NoCallsOnceSettled(cfg, s, steps, s', t);
    CallsAreCounted(cfg, s, steps, s', t);
  }
}
