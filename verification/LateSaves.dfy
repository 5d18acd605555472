/**
 What a save that comes late goes over. A reviewer's save and a sender's own save put back or store what
 was loaded before; the lemmas say exactly when nothing newer is covered by that.
 */
module LateSaves {
  import opened Wrappers
  import opened Drafts
  import opened ReviewedWrites
  import opened WriteSafety
  import opened WriteVerdicts

  /** A client that goes on to save a draft it has at hand. */
  predicate Holds(p: Phase) {
    p.ReviewSaving? || p.Loaded? || p.Calling? || p.Called?
  }

  /** The step by which a client takes a draft at hand. */
  predicate Begins(step: Step, c: Client) {
    (step.Reviewing? || step.SendLoad? || step.SubmitLoad?) && step.c == c
  }

  /** Between that and its save the client itself looks the result up, and calls the connector. */
  predicate InBetween(steps: seq<Step>, c: Client) {
    forall i :: 0 <= i < |steps| ==>
      steps[i].Generating? || steps[i].c != c || steps[i].SubmitLookup? || steps[i].Call?
  }

  lemma HoldStaysAtStep(cfg: Config, s: State, step: Step, c: Client)
    requires Enabled(cfg, s, step) && (step.Generating? || step.c != c || step.SubmitLookup? || step.Call?)
    ensures var (p, p') := (PhaseOf(s, c), PhaseOf(Next(cfg, s, step), c));
            Holds(p') ==> Holds(p) && p'.target == p.target && p'.ref == p.ref
  {}

  lemma {:induction false} HoldStays(cfg: Config, s: State, steps: seq<Step>, s': State, c: Client)
    requires Run(cfg, s, steps, s') && InBetween(steps, c)
    ensures var (p, p') := (PhaseOf(s, c), PhaseOf(s', c));
            Holds(p') ==> Holds(p) && p'.target == p.target && p'.ref == p.ref
    decreases |steps|
  {
    if steps == [] {
    } else {
      assert InBetween(steps[1..], c);
      HoldStaysAtStep(cfg, s, steps[0], c);
      HoldStays(cfg, Next(cfg, s, steps[0]), steps[1..], s', c);
    }
  }

  /** What the client has at hand is what was stored. */
  lemma BeginsWithStored(cfg: Config, s: State, begin: Step, c: Client)
    requires Enabled(cfg, s, begin) && Begins(begin, c) && Holds(PhaseOf(Next(cfg, s, begin), c))
    ensures var p := PhaseOf(Next(cfg, s, begin), c);
            && Stored(s, p.target) && p.ref == s.drafts.table[p.target]
            && Stored(Next(cfg, s, begin), p.target) && p.ref == Next(cfg, s, begin).drafts.table[p.target]
    ensures !cfg.shared ==> Next(cfg, s, begin).drafts == s.drafts
  {}

  // ----- a snapshot store -------------------------------------------------------------------------------

  /** The version a verdict is given on is the latest when the verdict is saved exactly if it was the
      latest when it was loaded and nobody has saved a draft or a verdict since. */
  lemma VerdictSeesLatestIff(cfg: Config, s: State, c: Client, begin: Step, steps: seq<Step>, s': State)
    requires !cfg.shared && Reachable(cfg, s) && begin.Reviewing? && Begins(begin, c) && Enabled(cfg, s, begin)
    requires Run(cfg, Next(cfg, s, begin), steps, s') && InBetween(steps, c) && Enabled(cfg, s', ReviewSave(c))
    ensures var (t, p) := (begin.which, PhaseOf(s', c));
            && p.target == t && s'.drafts.heap[p.ref] == StoredDraft(s, t)
            && (s'.drafts.heap[p.ref].basis == Latest(s'.drafts.log, t) <==>
                && StoredDraft(s, t).basis == Latest(s.drafts.log, t)
                && Undisturbed(cfg, Next(cfg, s, begin), steps, t))
  {
    var begun := ReachStep(cfg, s, begin);
    ReachableInv(cfg, begun);
    HoldStays(cfg, begun, steps, s', c);
    BeginsWithStored(cfg, s, begin, c);
    LatestStaysIff(cfg, begun, steps, s', begin.which);
    assert DraftOk(begun.drafts, StoredDraft(s, begin.which));
    BasisIsNotLater(begun.drafts.log, StoredDraft(s, begin.which).basis, begin.which);
  }

  lemma BasisIsNotLater(log: seq<Event>, basis: nat, t: Target)
    requires basis < |log| && log[basis].target == t
    ensures basis <= Latest(log, t)
  {}

  /** A sender's or submitter's own save leaves what is stored resting on the latest event exactly if
      nobody has saved a draft or a verdict since it loaded the draft; otherwise it covers that. */
  lemma MarkSaveKeepsLatestIff(cfg: Config, s: State, c: Client, begin: Step, steps: seq<Step>, s': State)
    requires !cfg.shared && Reachable(cfg, s) && Begins(begin, c) && Enabled(cfg, s, begin)
    requires Run(cfg, Next(cfg, s, begin), steps, s') && InBetween(steps, c) && Enabled(cfg, s', MarkSave(c))
    ensures var (t, saved) := (PhaseOf(s', c).target, MarkSaveStep(cfg, s', c));
            && Stored(saved, t) && StoredDraft(saved, t).status.Delivered?
            && (StoredDraft(saved, t).basis == Latest(saved.drafts.log, t) <==>
                Undisturbed(cfg, Next(cfg, s, begin), steps, t))
  {
    var begun := ReachStep(cfg, s, begin);
    var p := PhaseOf(s', c);
    ReachableInv(cfg, begun);
    ReachRun(cfg, begun, steps, s');
    ReachableInv(cfg, s');
    assert PhaseOk(cfg, s', p);
    HoldStays(cfg, begun, steps, s', c);
    BeginsWithStored(cfg, s, begin, c);
    SnapshotSubmitSeesLatestIff(cfg, begun, c, p.target, steps, s');
  }

  // ----- a shared store -----------------------------------------------------------------------------------

  /** The draft drawn last for a target, or -1. */
  function NewestDrawn(heap: seq<Draft>, t: Target): (r: int)
    ensures -1 <= r < |heap|
    ensures r >= 0 ==> heap[r].target == t
    ensures forall q :: r < q < |heap| ==> heap[q].target != t
  {
    if heap == [] then -1
    else if heap[|heap| - 1].target == t then |heap| - 1
    else NewestDrawn(heap[..|heap| - 1], t)
  }

  predicate NoneDrawn(steps: seq<Step>, t: Target) {
    forall i :: 0 <= i < |steps| && steps[i].Generating? ==> steps[i].newTarget != t
  }

  predicate SameTargets(heap: seq<Draft>, heap': seq<Draft>) {
    |heap| == |heap'| && forall r :: 0 <= r < |heap| ==> heap'[r].target == heap[r].target
  }

  lemma SameTargetsSameNewest(heap: seq<Draft>, heap': seq<Draft>, t: Target)
    requires SameTargets(heap, heap')
    ensures NewestDrawn(heap', t) == NewestDrawn(heap, t)
  {
    var r, r' := NewestDrawn(heap, t), NewestDrawn(heap', t);
    assert r >= 0 ==> heap'[r].target == t;
    assert r' >= 0 ==> heap[r'].target == t;
  }

  lemma StepKeepsTargets(cfg: Config, s: State, step: Step)
    requires cfg.shared && Enabled(cfg, s, step) && !step.Generating?
    ensures SameTargets(s.drafts.heap, Next(cfg, s, step).drafts.heap)
  {}

  lemma NewestAtStep(cfg: Config, s: State, step: Step, t: Target)
    requires cfg.shared && Enabled(cfg, s, step)
    ensures var (heap, heap') := (s.drafts.heap, Next(cfg, s, step).drafts.heap);
            NewestDrawn(heap', t) == if step.Generating? && step.newTarget == t then |heap| else NewestDrawn(heap, t)
  {
    var heap, heap' := s.drafts.heap, Next(cfg, s, step).drafts.heap;
    if step.Generating? {
      assert heap'[..|heap|] == heap && heap'[|heap|].target == step.newTarget;
    } else {
      StepKeepsTargets(cfg, s, step);
      SameTargetsSameNewest(heap, heap', t);
    }
  }

  lemma {:induction false} NewestStaysIff(cfg: Config, s: State, steps: seq<Step>, s': State, t: Target)
    requires cfg.shared && Run(cfg, s, steps, s')
    ensures NewestDrawn(s.drafts.heap, t) <= NewestDrawn(s'.drafts.heap, t)
    ensures NewestDrawn(s'.drafts.heap, t) == NewestDrawn(s.drafts.heap, t) <==> NoneDrawn(steps, t)
    decreases |steps|
  {
    if steps == [] {
    } else {
      NewestAtStep(cfg, s, steps[0], t);
      NewestStaysIff(cfg, Next(cfg, s, steps[0]), steps[1..], s', t);
      assert NoneDrawn(steps, t) <==>
             !(steps[0].Generating? && steps[0].newTarget == t) && NoneDrawn(steps[1..], t);
    }
  }

  /** After a reviewer's, sender's or submitter's save the draft drawn last is stored exactly if it was
      stored when the client began and none has been drawn since; otherwise an older one is put back. */
  lemma SharedSaveKeepsNewestIff(cfg: Config, s: State, c: Client, begin: Step, steps: seq<Step>, s': State, save: Step)
    requires cfg.shared && Reachable(cfg, s) && Begins(begin, c) && Enabled(cfg, s, begin)
    requires Run(cfg, Next(cfg, s, begin), steps, s') && InBetween(steps, c)
    requires Enabled(cfg, s', save) && (save == ReviewSave(c) || save == MarkSave(c))
    ensures var (t, saved) := (PhaseOf(s', c).target, Next(cfg, s', save));
            && Stored(s, t) && Stored(saved, t)
            && (saved.drafts.table[t] == NewestDrawn(saved.drafts.heap, t) <==>
                s.drafts.table[t] == NewestDrawn(s.drafts.heap, t) && NoneDrawn(steps, t))
  {
    var t := PhaseOf(s', c).target;
    var begun := ReachStep(cfg, s, begin);
    ReachableInv(cfg, s);
    ReachableInv(cfg, begun);
    ReachRun(cfg, begun, steps, s');
    ReachableInv(cfg, s');
    HoldStays(cfg, begun, steps, s', c);
    BeginsWithStored(cfg, s, begin, c);
    NewestAtStep(cfg, s, begin, t);
    NewestStaysIff(cfg, begun, steps, s', t);
    NewestAtStep(cfg, s', save, t);
    StoredIsNotNewer(s, t);
    assert PhaseOk(cfg, s', PhaseOf(s', c));
  }

  lemma StoredIsNotNewer(s: State, t: Target)
    requires Stored(s, t) && StoredDraft(s, t).target == t
    ensures s.drafts.table[t] <= NewestDrawn(s.drafts.heap, t)
  {}

  // ----- runs -----------------------------------------------------------------------------------------------

  /** The drafts after one is drawn, judged, and drawn again before the verdict is saved. */
  function OvertakenReview(shared: bool, t: Target, first: Content, second: Content): Store {
    var drawn := Generate(INIT.drafts, t, first);
    var judged := if shared then Give(true, drawn, t, 0, true, None) else drawn;
    SaveReviewed(shared, Generate(judged, t, second), t, 0, true, None)
  }

  lemma OvertakenReviewIsStored(shared: bool, t: Target, first: Content, second: Content)
    ensures var drafts := OvertakenReview(shared, t, first, second);
            && drafts.log == (if shared
                              then [Generated(t, first), Reviewed(t, first, None, true), Generated(t, second)]
                              else [Generated(t, first), Generated(t, second), Reviewed(t, first, None, true)])
            && t in drafts.table && drafts.table[t] < |drafts.heap|
            && drafts.heap[drafts.table[t]] == Draft(t, first, Approved, None, if shared then 1 else 2)
  {}

  lemma OvertakeReview(cfg: Config, t: Target, first: Content, second: Content) returns (s: State)
    requires t.Meeting?
    ensures Reachable(cfg, s) && s.drafts == OvertakenReview(cfg.shared, t, first, second)
    ensures s.connector == INIT.connector && s.ledger == INIT.ledger && s.clients.Keys == {0}
  {
    InitReachable(cfg);
    var drawn := Draw(cfg, INIT, t, first);
    var judged := BeginReview(cfg, drawn, 0, t, true, None);
    var redrawn := Draw(cfg, judged, t, second);
    s := EndReview(cfg, redrawn, 0, ReviewSaving(t, 0, true, None));
  }

  /** In either store an approval that is saved late is put over a regeneration: minutes leave in a
      form that is not the one drawn up last. */
  lemma ReplacedMinutesCanLeave(cfg: Config, t: Target, first: Content, second: Content) returns (s: State)
    requires t.Meeting? && cfg.shareable(t, first, None)
    ensures Reachable(cfg, s)
    ensures s.drafts.log == if cfg.shared
                            then [Generated(t, first), Reviewed(t, first, None, true), Generated(t, second)]
                            else [Generated(t, first), Generated(t, second), Reviewed(t, first, None, true)]
    ensures |s.connector.outbox| == 1 && s.connector.outbox[0].target == t && s.connector.outbox[0].content == first
  {
    var overtaken := OvertakeReview(cfg, t, first, second);
    OvertakenReviewIsStored(cfg.shared, t, first, second);
    s := SendReaches(cfg, overtaken, 1, t);
  }

  /** The drafts of a shared store after one is drawn, rejected, approved, drawn again, and put back. */
  function RestoredApproval(t: Target, first: Content, second: Content): Store {
    var rejected := Give(true, Generate(INIT.drafts, t, first), t, 0, false, None);
    var approved := Give(true, rejected, t, 0, true, None);
    SaveReviewed(true, Generate(SaveReviewed(true, approved, t, 0, true, None), t, second), t, 0, false, None)
  }

  lemma RestoredApprovalIsStored(t: Target, first: Content, second: Content)
    ensures var drafts := RestoredApproval(t, first, second);
            && drafts.log == [Generated(t, first), Reviewed(t, first, None, false), Reviewed(t, first, None, true),
                              Generated(t, second)]
            && t in drafts.table && drafts.table[t] < |drafts.heap|
            && drafts.heap[drafts.table[t]] == Draft(t, first, Approved, None, 2)
  {}

  lemma RestoreApproval(cfg: Config, t: Target, first: Content, second: Content) returns (s: State)
    requires cfg.shared && t.Meeting?
    ensures Reachable(cfg, s) && s.drafts == RestoredApproval(t, first, second)
    ensures s.connector == INIT.connector && s.ledger == INIT.ledger && s.clients.Keys == {0, 1}
  {
    InitReachable(cfg);
    var drawn := Draw(cfg, INIT, t, first);
    var rejecting := BeginReview(cfg, drawn, 0, t, false, None);
    var approving := BeginReview(cfg, rejecting, 1, t, true, None);
    var approved := EndReview(cfg, approving, 1, ReviewSaving(t, 0, true, None));
    var redrawn := Draw(cfg, approved, t, second);
    s := EndReview(cfg, redrawn, 0, ReviewSaving(t, 0, false, None));
  }

  /** In a shared store even the save of a rejection can put an approved draft back: the object carries
      another reviewer's later approval by then. */
  lemma SavedRejectionCanRestoreApproval(cfg: Config, t: Target, first: Content, second: Content) returns (s: State)
    requires cfg.shared && t.Meeting? && cfg.shareable(t, first, None)
    ensures Reachable(cfg, s)
    ensures s.drafts.log == [Generated(t, first), Reviewed(t, first, None, false), Reviewed(t, first, None, true),
                             Generated(t, second)]
    ensures |s.connector.outbox| == 1 && s.connector.outbox[0].target == t && s.connector.outbox[0].content == first
  {
    var restored := RestoreApproval(cfg, t, first, second);
    RestoredApprovalIsStored(t, first, second);
    s := SendReaches(cfg, restored, 2, t);
  }

  lemma SecondVerdictIsStored(s: Store, t: Target, ref: Ref)
    requires ref < |s.heap| && s.heap[ref].target == t
    ensures var rejected := Give(false, s, t, ref, false, None);
            var drafts := Give(false, rejected, t, ref, true, None);
            && rejected.heap[ref] == s.heap[ref]
            && t in drafts.table && drafts.table[t] < |drafts.heap| && drafts.heap[drafts.table[t]].status.Approved?
            && drafts.log == s.log +
                 [Reviewed(t, s.heap[ref].content, None, false), Reviewed(t, s.heap[ref].content, None, true)]
  {}

  /** Over a snapshot store an approval that is saved late is put over a rejection as well, although
      the approver never saw it. */
  lemma ApprovalCanReplaceRejection(cfg: Config, t: Target, content: Content) returns (s: State)
    requires !cfg.shared
    ensures Reachable(cfg, s) && Stored(s, t) && StoredDraft(s, t).status.Approved?
    ensures s.drafts.log == [Generated(t, content), Reviewed(t, content, None, false), Reviewed(t, content, None, true)]
  {
    InitReachable(cfg);
    var drawn := Draw(cfg, INIT, t, content);
    SecondVerdictIsStored(drawn.drafts, t, 0);
    var begun := BeginReview(cfg, drawn, 0, t, true, None);
    var rejected := Judge(cfg, begun, 1, t, false, None);
    s := EndReview(cfg, rejected, 0, ReviewSaving(t, 0, true, None));
  }

  /** In either store minutes that are regenerated while they are being sent are replaced by the old
      form, marked sent. */
  lemma SentMarkCanReplaceRegeneration(cfg: Config, t: Target, first: Content, second: Content) returns (s: State)
    requires t.Meeting? && cfg.shareable(t, first, None)
    ensures Reachable(cfg, s) && Stored(s, t)
    ensures StoredDraft(s, t) == Draft(t, first, DraftStatus.Delivered, None, 1)
    ensures s.drafts.log == [Generated(t, first), Reviewed(t, first, None, true), Generated(t, second)]
  {
    InitReachable(cfg);
    var approved := Approve(cfg, INIT, 0, t, first);
    var calling := OneMoreCaller(cfg, approved, 1, t, "");
    var redrawn := Draw(cfg, calling, t, second);
    assert redrawn.drafts.heap[approved.drafts.table[t]] == StoredDraft(approved, t);
    s := CallAndMark(cfg, redrawn, 1, PhaseOf(calling, 1));
  }

  /** Over a snapshot store a rejection that is saved while a draft is being sent or submitted is
      replaced by the delivered version. */
  lemma SentMarkCanReplaceRejection(cfg: Config, t: Target, content: Content) returns (s: State)
    requires !cfg.shared && cfg.shareable(t, content, None)
    ensures Reachable(cfg, s) && Stored(s, t)
    ensures StoredDraft(s, t) == Draft(t, content, DraftStatus.Delivered, None, 1)
    ensures s.drafts.log == [Generated(t, content), Reviewed(t, content, None, true), Reviewed(t, content, None, false)]
  {
    InitReachable(cfg);
    var approved := Approve(cfg, INIT, 0, t, content);
    var calling := OneMoreCaller(cfg, approved, 1, t, "");
    var rejected := Judge(cfg, calling, 0, t, false, None);
    assert rejected.drafts.heap[approved.drafts.table[t]] == StoredDraft(approved, t);
    s := CallAndMark(cfg, rejected, 1, PhaseOf(calling, 1));
  }
}
