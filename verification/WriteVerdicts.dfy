/**
 Which verdict the check before an external call sees, and what a save that comes late goes over. Events
 are drafts drawn and verdicts given; each lemma says exactly when the one that counts is the latest.
 */
module WriteVerdicts {
  import opened Wrappers
  import opened Drafts
  import opened ReviewedWrites
  import opened WriteSafety

  /** The step passes the checks and makes its client ready to call the connector. */
  predicate Prepares(cfg: Config, s: State, step: Step) {
    && Enabled(cfg, s, step) && !step.Generating?
    && !PhaseOf(s, step.c).Calling? && PhaseOf(Next(cfg, s, step), step.c).Calling?
  }

  /** Every call is prepared from an approval of exactly what will leave. For reports in a shared store
      and for minutes in a snapshot store that is the latest event about the target. For reports in a
      snapshot store, as long as no version marked delivered is stored, it is the latest exactly if what
      is stored still rests on it. */
  lemma CheckSeesLatestIff(cfg: Config, s: State, step: Step)
    requires Reachable(cfg, s) && Prepares(cfg, s, step)
    ensures var p := PhaseOf(Next(cfg, s, step), step.c);
            var latest := Latest(s.drafts.log, p.target);
            && Stored(s, p.target)
            && p.delivery.basis <= latest
            && s.drafts.log[p.delivery.basis] == Reviewed(p.target, p.delivery.content, p.delivery.comment, true)
            && (cfg.shared && p.target.Report? ==> p.delivery.basis == latest)
            && (!cfg.shared && p.target.Meeting? ==> p.delivery.basis == latest)
            && (!cfg.shared && !StoredDraft(s, p.target).status.Delivered? ==>
                  (p.delivery.basis == latest <==> StoredDraft(s, p.target).basis == p.delivery.basis))
  {
    ReachableInv(cfg, s);
    var p, before := PhaseOf(Next(cfg, s, step), step.c), PhaseOf(s, step.c);
    assert PhaseOk(cfg, s, before);
    assert StoredOk(cfg.shared, s.drafts, p.target);
    assert DraftOk(s.drafts, s.drafts.heap[p.ref]);
  }

  /** In a shared store what is checked is what is stored. */
  lemma CheckedIsStored(cfg: Config, s: State, step: Step)
    requires cfg.shared && Inv(cfg, s) && Prepares(cfg, s, step)
    ensures var p := PhaseOf(Next(cfg, s, step), step.c);
            && Stored(s, p.target) && p.ref == s.drafts.table[p.target]
            && p.delivery.basis == StoredDraft(s, p.target).basis && StoredDraft(s, p.target).status.Approved?
  {
    assert PhaseOk(cfg, s, PhaseOf(s, step.c));
  }

  // ----- a shared store: what was put back --------------------------------------------------------------

  /** A draft of the target is drawn, or a verdict on it given. */
  predicate Touches(step: Step, t: Target) {
    (step.Generating? && step.newTarget == t) || (step.Reviewing? && step.which == t)
  }

  /** A reviewer's or a sender's save of the target. */
  predicate Saves(s: State, step: Step, t: Target) {
    || (step.ReviewSave? && PhaseOf(s, step.c).ReviewSaving? && PhaseOf(s, step.c).target == t)
    || (step.MarkSave? && PhaseOf(s, step.c).Called? && PhaseOf(s, step.c).target == t)
  }

  /** Since the target was last drawn or judged, the last save of it put another object back. `touched`
      is the object drawn or judged last before the run, `other` the answer for then. */
  ghost predicate PutOver(cfg: Config, s: State, steps: seq<Step>, t: Target, touched: Ref, other: bool)
    decreases |steps|
  {
    if steps == [] || !Enabled(cfg, s, steps[0]) then other
    else
      var s' := Next(cfg, s, steps[0]);
      if Touches(steps[0], t) then
        PutOver(cfg, s', steps[1..], t, if t in s'.drafts.table then s'.drafts.table[t] else 0, false)
      else if Saves(s, steps[0], t) then
        PutOver(cfg, s', steps[1..], t, touched, PhaseOf(s, steps[0].c).ref != touched)
      else
        PutOver(cfg, s', steps[1..], t, touched, other)
  }

  /** The latest event is about the object `touched`, and `other` says whether another one is stored. */
  predicate Tracks(s: State, t: Target, touched: Ref, other: bool) {
    t in s.drafts.table ==>
      && touched < |s.drafts.heap| && s.drafts.heap[touched].target == t
      && s.drafts.heap[touched].basis == Latest(s.drafts.log, t)
      && (other <==> s.drafts.table[t] != touched)
  }

  lemma TouchIsTracked(cfg: Config, s: State, step: Step, t: Target)
    requires cfg.shared && Inv(cfg, s) && Enabled(cfg, s, step) && Touches(step, t)
    ensures var s' := Next(cfg, s, step); t in s'.drafts.table && Tracks(s', t, s'.drafts.table[t], false)
  {
    if step.Generating? {
      LatestOfMore(s.drafts.log, Generated(t, step.newContent), t);
    } else {
      assert StoredOk(cfg.shared, s.drafts, t);
      GiveOk(cfg.shared, s.drafts, t, s.drafts.table[t], step.verdict, step.comment);
    }
  }

  /** Nothing was drawn or judged for the target, although one of its objects may have been stored. */
  predicate Apart(s: Store, s': Store, t: Target) {
    && Latest(s'.log, t) == Latest(s.log, t)
    && |s.heap| <= |s'.heap| && (t in s.table <==> t in s'.table)
    && forall r :: 0 <= r < |s.heap| && s.heap[r].target == t ==>
         && s'.heap[r].target == t && s'.heap[r].basis == s.heap[r].basis
         && (s.heap[r].status.Delivered? ==> s'.heap[r].status.Delivered?)
  }

  lemma GenerateIsApart(s: Store, x: Target, content: Content, t: Target)
    requires x != t
    ensures Apart(s, Generate(s, x, content), t)
  {
    var s' := Generate(s, x, content);
    LatestOfMore(s.log, Generated(x, content), t);
    assert forall r :: 0 <= r < |s.heap| ==> s'.heap[r] == s.heap[r];
  }

  lemma GiveIsApart(s: Store, x: Target, ref: Ref, approve: bool, note: Option<string>, t: Target)
    requires ref < |s.heap| && s.heap[ref].target == x != t
    ensures Apart(s, Give(true, s, x, ref, approve, note), t)
  {
    LatestOfMore(s.log, Reviewed(x, s.heap[ref].content, note, approve), t);
  }

  lemma PutIsApart(s: Store, x: Target, ref: Ref, d: Draft, t: Target)
    requires ref < |s.heap| && s.heap[ref].target == x == d.target && x in s.table && d.basis == s.heap[ref].basis
    requires s.heap[ref].status.Delivered? ==> d.status.Delivered?
    ensures Apart(s, Put(true, s, x, ref, d), t)
  {}

  lemma ReviewSaveIsApart(cfg: Config, s: State, c: Client, t: Target)
    requires cfg.shared && Inv(cfg, s) && Enabled(cfg, s, ReviewSave(c))
    ensures var (p, s') := (PhaseOf(s, c), ReviewSaveStep(cfg, s, c));
            && Apart(s.drafts, s'.drafts, t) && p.ref < |s.drafts.heap|
            && s'.drafts.table == s.drafts.table[p.target := p.ref]
  {
    var p := PhaseOf(s, c);
    assert PhaseOk(cfg, s, p);
    PutIsApart(s.drafts, p.target, p.ref, s.drafts.heap[p.ref], t);
  }

  lemma MarkSaveIsApart(cfg: Config, s: State, c: Client, t: Target)
    requires cfg.shared && Inv(cfg, s) && Enabled(cfg, s, MarkSave(c))
    ensures var (p, s') := (PhaseOf(s, c), MarkSaveStep(cfg, s, c));
            && Apart(s.drafts, s'.drafts, t) && p.ref < |s.drafts.heap|
            && s'.drafts.table == s.drafts.table[p.target := p.ref]
            && s'.drafts.heap[p.ref].status.Delivered?
  {
    var p := PhaseOf(s, c);
    assert PhaseOk(cfg, s, p);
    PutIsApart(s.drafts, p.target, p.ref, s.drafts.heap[p.ref].(status := Delivered), t);
  }

  lemma ReviewingIsApart(cfg: Config, s: State, step: Step, t: Target)
    requires cfg.shared && Inv(cfg, s) && Enabled(cfg, s, step) && step.Reviewing? && step.which != t
    ensures Apart(s.drafts, Next(cfg, s, step).drafts, t)
    ensures t in s.drafts.table ==> Next(cfg, s, step).drafts.table[t] == s.drafts.table[t]
  {
    assert StoredOk(cfg.shared, s.drafts, step.which);
    GiveIsApart(s.drafts, step.which, s.drafts.table[step.which], step.verdict, step.comment, t);
  }

  lemma OtherStepsKeepDrafts(cfg: Config, s: State, step: Step)
    requires Enabled(cfg, s, step)
    requires !step.Generating? && !step.Reviewing? && !step.ReviewSave? && !step.MarkSave?
    ensures Next(cfg, s, step).drafts == s.drafts
  {}

  lemma UntouchedIsApart(cfg: Config, s: State, step: Step, t: Target)
    requires cfg.shared && Inv(cfg, s) && Enabled(cfg, s, step) && !Touches(step, t)
    ensures Apart(s.drafts, Next(cfg, s, step).drafts, t)
  {
    match step
    case Generating(x, content) => GenerateIsApart(s.drafts, x, content, t);
    case Reviewing(_, _, _, _) => ReviewingIsApart(cfg, s, step, t);
    case ReviewSave(c) => ReviewSaveIsApart(cfg, s, c, t);
    case MarkSave(c) => MarkSaveIsApart(cfg, s, c, t);
    case _ => OtherStepsKeepDrafts(cfg, s, step);
  }

  /** What is stored for a target that is neither drawn nor judged changes by saves only. */
  lemma SavesStoreTheirOwn(cfg: Config, s: State, step: Step, t: Target)
    requires cfg.shared && Inv(cfg, s) && Enabled(cfg, s, step) && !Touches(step, t) && t in s.drafts.table
    ensures var s' := Next(cfg, s, step);
            if Saves(s, step, t) then
              var ref := PhaseOf(s, step.c).ref;
              && t in s'.drafts.table && s'.drafts.table[t] == ref < |s.drafts.heap|
              && (step.MarkSave? ==> ref < |s'.drafts.heap| && s'.drafts.heap[ref].status.Delivered?)
            else
              t in s'.drafts.table && s'.drafts.table[t] == s.drafts.table[t]
  {
    match step
    case Reviewing(_, _, _, _) => ReviewingIsApart(cfg, s, step, t);
    case ReviewSave(c) => ReviewSaveIsApart(cfg, s, c, t);
    case MarkSave(c) => MarkSaveIsApart(cfg, s, c, t);
    case Generating(_, _) =>
    case _ => OtherStepsKeepDrafts(cfg, s, step);
  }

  lemma OthersStayTracked(cfg: Config, s: State, step: Step, t: Target, touched: Ref, other: bool)
    requires cfg.shared && Inv(cfg, s) && Enabled(cfg, s, step) && !Touches(step, t) && Tracks(s, t, touched, other)
    ensures var other' := if Saves(s, step, t) then PhaseOf(s, step.c).ref != touched else other;
            Tracks(Next(cfg, s, step), t, touched, other')
  {
    UntouchedIsApart(cfg, s, step, t);
    if t in s.drafts.table { SavesStoreTheirOwn(cfg, s, step, t); }
  }

  lemma {:induction false} PutOverIsTracked(cfg: Config, s: State, steps: seq<Step>, s': State,
                                            t: Target, touched: Ref, other: bool)
    requires cfg.shared && Inv(cfg, s) && Run(cfg, s, steps, s') && Tracks(s, t, touched, other)
    ensures t in s'.drafts.table ==> StoredOk(cfg.shared, s'.drafts, t)
    ensures t in s'.drafts.table ==>
              (StoredDraft(s', t).basis == Latest(s'.drafts.log, t) <==> !PutOver(cfg, s, steps, t, touched, other))
    decreases |steps|
  {
    if steps == [] {
      if t in s.drafts.table { assert StoredOk(cfg.shared, s.drafts, t); }
    } else {
      var mid := Next(cfg, s, steps[0]);
      StepKeepsInv(cfg, s, steps[0]);
      if Touches(steps[0], t) {
        TouchIsTracked(cfg, s, steps[0], t);
        PutOverIsTracked(cfg, mid, steps[1..], s', t, mid.drafts.table[t], false);
      } else {
        OthersStayTracked(cfg, s, steps[0], t, touched, other);
        var other' := if Saves(s, steps[0], t) then PhaseOf(s, steps[0].c).ref != touched else other;
        PutOverIsTracked(cfg, mid, steps[1..], s', t, touched, other');
      }
    }
  }

  /** In a shared store, over whole runs: the approval a check sees is the latest event about the target
      exactly if the last save since that event, if there was one, did not put back another object. */
  lemma SharedCheckSeesLatestIff(cfg: Config, steps: seq<Step>, s: State, step: Step)
    requires cfg.shared && Run(cfg, INIT, steps, s) && Prepares(cfg, s, step)
    ensures var p := PhaseOf(Next(cfg, s, step), step.c);
            p.delivery.basis == Latest(s.drafts.log, p.target) <==> !PutOver(cfg, INIT, steps, p.target, 0, false)
  {
    var p := PhaseOf(Next(cfg, s, step), step.c);
    RunKeepsInv(cfg, INIT, steps, s);
    assert PhaseOk(cfg, s, PhaseOf(s, step.c));
    PutOverIsTracked(cfg, INIT, steps, s, p.target, 0, false);
    CheckedIsStored(cfg, s, step);
  }

  /** A review's save meets another object than the reviewer's. */
  predicate LateReviewSave(s: State, step: Step) {
    && step.ReviewSave? && PhaseOf(s, step.c).ReviewSaving? && PhaseOf(s, step.c).target in s.drafts.table
    && s.drafts.table[PhaseOf(s, step.c).target] != PhaseOf(s, step.c).ref
  }

  ghost predicate ReviewsSaveInTime(cfg: Config, s: State, steps: seq<Step>)
    decreases |steps|
  {
    steps == [] || !Enabled(cfg, s, steps[0])
    || (!LateReviewSave(s, steps[0]) && ReviewsSaveInTime(cfg, Next(cfg, s, steps[0]), steps[1..]))
  }

  predicate LatestUnlessDelivered(s: State, t: Target) {
    Stored(s, t) ==> StoredDraft(s, t).status.Delivered? || StoredDraft(s, t).basis == Latest(s.drafts.log, t)
  }

  lemma InTimeKeepsLatest(cfg: Config, s: State, step: Step, t: Target)
    requires cfg.shared && Inv(cfg, s) && Enabled(cfg, s, step) && !LateReviewSave(s, step)
    requires LatestUnlessDelivered(s, t)
    ensures LatestUnlessDelivered(Next(cfg, s, step), t)
  {
    if Touches(step, t) {
      TouchIsTracked(cfg, s, step, t);
    } else {
      UntouchedIsApart(cfg, s, step, t);
      if t in s.drafts.table {
        assert StoredOk(cfg.shared, s.drafts, t);
        SavesStoreTheirOwn(cfg, s, step, t);
      }
    }
  }

  lemma {:induction false} InTimeKeepsLatestFor(cfg: Config, s: State, steps: seq<Step>, s': State, t: Target)
    requires cfg.shared && Inv(cfg, s) && Run(cfg, s, steps, s') && ReviewsSaveInTime(cfg, s, steps)
    requires LatestUnlessDelivered(s, t)
    ensures LatestUnlessDelivered(s', t)
    decreases |steps|
  {
    if steps == [] {
    } else {
      StepKeepsInv(cfg, s, steps[0]);
      InTimeKeepsLatest(cfg, s, steps[0], t);
      InTimeKeepsLatestFor(cfg, Next(cfg, s, steps[0]), steps[1..], s', t);
    }
  }

  /** So as long as no review is saved after its object was replaced, every check in a shared store sees
      the latest event. */
  lemma PromptReviewsSeeLatest(cfg: Config, steps: seq<Step>, s: State, step: Step)
    requires cfg.shared && Run(cfg, INIT, steps, s) && ReviewsSaveInTime(cfg, INIT, steps) && Prepares(cfg, s, step)
    ensures var p := PhaseOf(Next(cfg, s, step), step.c); p.delivery.basis == Latest(s.drafts.log, p.target)
  {
    RunKeepsInv(cfg, INIT, steps, s);
    var p := PhaseOf(Next(cfg, s, step), step.c);
    assert PhaseOk(cfg, s, PhaseOf(s, step.c));
    CheckedIsStored(cfg, s, step);
    InTimeKeepsLatestFor(cfg, INIT, steps, s, p.target);
  }

  // ----- a snapshot store: between load and check -------------------------------------------------------

  /** The step saves a new draft or a verdict for the target, in a snapshot store. */
  predicate Disturbs(s: State, step: Step, t: Target) {
    || (step.Generating? && step.newTarget == t)
    || (step.ReviewSave? && PhaseOf(s, step.c).ReviewSaving? && PhaseOf(s, step.c).target == t)
  }

  ghost predicate Undisturbed(cfg: Config, s: State, steps: seq<Step>, t: Target)
    decreases |steps|
  {
    steps == [] || !Enabled(cfg, s, steps[0])
    || (!Disturbs(s, steps[0], t) && Undisturbed(cfg, Next(cfg, s, steps[0]), steps[1..], t))
  }

  predicate Others(steps: seq<Step>, c: Client) {
    forall i :: 0 <= i < |steps| ==> steps[i].Generating? || steps[i].c != c
  }

  lemma LatestAtStep(cfg: Config, s: State, step: Step, t: Target)
    requires !cfg.shared && Inv(cfg, s) && Enabled(cfg, s, step)
    ensures var (log, log') := (s.drafts.log, Next(cfg, s, step).drafts.log);
            Latest(log', t) == if Disturbs(s, step, t) then |log| else Latest(log, t)
    ensures s.drafts.heap <= Next(cfg, s, step).drafts.heap
  {
    var log := s.drafts.log;
    match step
    case Generating(x, content) => LatestOfMore(log, Generated(x, content), t);
    case ReviewSave(c) =>
      var p := PhaseOf(s, c);
      assert PhaseOk(cfg, s, p);
      LatestOfMore(log, Reviewed(p.target, s.drafts.heap[p.ref].content, p.note, p.approve), t);
    case _ =>
  }

  /** Over any stretch of a run the latest event about a target stays the same exactly if nobody saves
      a draft or a verdict for it. */
  lemma {:induction false} LatestStaysIff(cfg: Config, s: State, steps: seq<Step>, s': State, t: Target)
    requires !cfg.shared && Inv(cfg, s) && Run(cfg, s, steps, s')
    ensures Latest(s.drafts.log, t) <= Latest(s'.drafts.log, t)
    ensures Latest(s'.drafts.log, t) == Latest(s.drafts.log, t) <==> Undisturbed(cfg, s, steps, t)
    ensures s.drafts.heap <= s'.drafts.heap
    decreases |steps|
  {
    if steps == [] {
    } else {
      StepKeepsInv(cfg, s, steps[0]);
      LatestAtStep(cfg, s, steps[0], t);
      LatestStaysIff(cfg, Next(cfg, s, steps[0]), steps[1..], s', t);
    }
  }

  lemma {:induction false} OthersKeepPhase(cfg: Config, s: State, steps: seq<Step>, s': State, c: Client)
    requires Run(cfg, s, steps, s') && Others(steps, c)
    ensures PhaseOf(s', c) == PhaseOf(s, c)
    decreases |steps|
  {
    if steps == [] {
    } else {
      assert PhaseOf(Next(cfg, s, steps[0]), c) == PhaseOf(s, c);
      OthersKeepPhase(cfg, Next(cfg, s, steps[0]), steps[1..], s', c);
    }
  }

  /** What a submit checks is the version it has loaded. */
  lemma CheckedIsLoaded(cfg: Config, s: State, c: Client, loaded: Phase)
    requires loaded.Loaded? && PhaseOf(s, c) == loaded && Prepares(cfg, s, SubmitLookup(c))
    ensures loaded.ref < |s.drafts.heap| && s.drafts.heap[loaded.ref].status.Approved?
    ensures PhaseOf(SubmitLookupStep(cfg, s, c), c).delivery.basis == s.drafts.heap[loaded.ref].basis
  {}

  lemma SnapshotSubmitSeesLatestIff(cfg: Config, s: State, c: Client, t: Target, steps: seq<Step>, s': State)
    requires !cfg.shared && Inv(cfg, s) && Stored(s, t) && Run(cfg, s, steps, s')
    requires s.drafts.table[t] < |s'.drafts.heap| && s'.drafts.heap[s.drafts.table[t]].status.Approved?
    ensures s'.drafts.heap[s.drafts.table[t]].basis == Latest(s'.drafts.log, t) <==> Undisturbed(cfg, s, steps, t)
  {
    LatestStaysIff(cfg, s, steps, s', t);
    assert StoredOk(cfg.shared, s.drafts, t);
  }

  /** A submit that passes its check does so on the latest event about the report exactly if the store
      is shared, or nobody saves a verdict on the report between its load and its check. */
  lemma SubmitSeesLatestIff(cfg: Config, s: State, c: Client, t: Target, employee: string, steps: seq<Step>, s': State)
    requires Reachable(cfg, s) && Enabled(cfg, s, SubmitLoad(c, t, employee))
    requires Run(cfg, SubmitLoadStep(s, c, t, employee), steps, s') && Others(steps, c)
    requires Prepares(cfg, s', SubmitLookup(c))
    ensures PhaseOf(SubmitLookupStep(cfg, s', c), c).delivery.basis == Latest(s'.drafts.log, t) <==>
            cfg.shared || Undisturbed(cfg, SubmitLoadStep(s, c, t, employee), steps, t)
  {
    var loaded := ReachStep(cfg, s, SubmitLoad(c, t, employee));
    OthersKeepPhase(cfg, loaded, steps, s', c);
    CheckedIsLoaded(cfg, s', c, PhaseOf(loaded, c));
    if cfg.shared {
      ReachRun(cfg, loaded, steps, s');
      CheckSeesLatestIff(cfg, s', SubmitLookup(c));
    } else {
      ReachableInv(cfg, loaded);
      SnapshotSubmitSeesLatestIff(cfg, loaded, c, t, steps, s');
    }
  }

  // ----- what can go wrong ------------------------------------------------------------------------------

  /** Over a snapshot store a report can leave after its approval was taken back: the submit loads the
      approved version, the rejection is saved, and the check looks at what was loaded. */
  lemma RejectedReportCanLeave(cfg: Config, t: Target, content: Content) returns (s: State)
    requires !cfg.shared && t.Report? && cfg.shareable(t, content, None)
    ensures Reachable(cfg, s) && Stored(s, t) && StoredDraft(s, t).status.Rejected?
    ensures s.drafts.log == [Generated(t, content), Reviewed(t, content, None, true), Reviewed(t, content, None, false)]
    ensures |s.connector.outbox| == 1 && s.connector.outbox[0].target == t && s.connector.outbox[0].basis == 1
  {
    InitReachable(cfg);
    var approved := Approve(cfg, INIT, 0, t, content);
    var loaded := ReachStep(cfg, approved, SubmitLoad(1, t, ""));
    var rejected := Judge(cfg, loaded, 0, t, false, None);
    assert rejected.drafts.heap[approved.drafts.table[t]] == StoredDraft(approved, t);
    var checked := ReachStep(cfg, rejected, SubmitLookup(1));
    s := ReachStep(cfg, checked, Call(1));
  }
}
