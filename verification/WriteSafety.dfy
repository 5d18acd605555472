/**
 What reviewed writes guarantee over every run: one effect per key, one answer per target, approved
 content only, and nothing new once a result is recorded.
 */
module WriteSafety {
  import opened Wrappers
  import opened Drafts
  import opened ReviewedWrites

  lemma {:induction false} RunKeepsInv(cfg: Config, s: State, steps: seq<Step>, s': State)
    requires Inv(cfg, s) && Run(cfg, s, steps, s')
    ensures Inv(cfg, s')
    decreases |steps|
  {
    if steps == [] {
    } else {
      StepKeepsInv(cfg, s, steps[0]);
      RunKeepsInv(cfg, Next(cfg, s, steps[0]), steps[1..], s');
    }
  }

  lemma ReachableInv(cfg: Config, s: State)
    requires Reachable(cfg, s)
    ensures Inv(cfg, s)
  {
    var steps :| Run(cfg, INIT, steps, s);
    RunKeepsInv(cfg, INIT, steps, s);
  }

  // ----- at most one effect ------------------------------------------------------------------------

  /** Every meeting's minutes are emailed at most once, whatever interleaves and whatever crashes. */
  lemma MinutesLeaveAtMostOnce(cfg: Config, s: State, i: nat, j: nat)
    requires Reachable(cfg, s) && i < |s.connector.outbox| && j < |s.connector.outbox|
    requires s.connector.outbox[i].target == s.connector.outbox[j].target
    requires s.connector.outbox[i].target.Meeting?
    ensures i == j
  {
    ReachableInv(cfg, s);
    assert DeliveryOk(cfg, s.drafts, s.connector.outbox[i]) && DeliveryOk(cfg, s.drafts, s.connector.outbox[j]);
  }

  /** Every report is filed at most once for each employee id among those who submit it; so once, if
      they all share one. */
  lemma ReportLeavesOncePerEmployee(cfg: Config, s: State, i: nat, j: nat)
    requires Reachable(cfg, s) && i < |s.connector.outbox| && j < |s.connector.outbox|
    requires s.connector.outbox[i].target == s.connector.outbox[j].target
    requires s.connector.outbox[i].target.Report?
    ensures i == j <==> s.connector.outbox[i].employee == s.connector.outbox[j].employee
  {
    ReachableInv(cfg, s);
    assert DeliveryOk(cfg, s.drafts, s.connector.outbox[i]) && DeliveryOk(cfg, s.drafts, s.connector.outbox[j]);
  }

  lemma {:induction false} RunSnoc(cfg: Config, s: State, steps: seq<Step>, s': State, last: Step)
    requires Run(cfg, s, steps, s') && Enabled(cfg, s', last)
    ensures Run(cfg, s, steps + [last], Next(cfg, s', last))
    decreases |steps|
  {
    var all := steps + [last];
    if steps == [] {
      assert all[1..] == [];
    } else {
      RunSnoc(cfg, Next(cfg, s, steps[0]), steps[1..], s', last);
      assert all[1..] == steps[1..] + [last];
    }
  }

  lemma ReachStep(cfg: Config, s: State, step: Step) returns (s': State)
    requires Reachable(cfg, s) && Enabled(cfg, s, step)
    ensures s' == Next(cfg, s, step) && Reachable(cfg, s')
  {
    var steps :| Run(cfg, INIT, steps, s);
    RunSnoc(cfg, INIT, steps, s, step);
    s' := Next(cfg, s, step);
  }

  /** What a run leads to is reachable. */
  lemma {:induction false} ReachRun(cfg: Config, s: State, steps: seq<Step>, s': State)
    requires Reachable(cfg, s) && Run(cfg, s, steps, s')
    ensures Reachable(cfg, s')
    decreases |steps|
  {
    if steps == [] {
    } else {
      var mid := ReachStep(cfg, s, steps[0]);
      ReachRun(cfg, mid, steps[1..], s');
    }
  }

  lemma InitReachable(cfg: Config)
    ensures Reachable(cfg, INIT)
  {
    assert Run(cfg, INIT, [], INIT);
  }

  /** What is stored for a target. */
  function StoredDraft(s: State, t: Target): Draft
    requires Stored(s, t)
  {
    s.drafts.heap[s.drafts.table[t]]
  }

  lemma Draw(cfg: Config, s: State, t: Target, content: Content) returns (s': State)
    requires Reachable(cfg, s) && (t.Report? ==> t !in s.drafts.born)
    ensures Reachable(cfg, s') && s' == s.(drafts := Generate(s.drafts, t, content))
    ensures Stored(s', t) && StoredDraft(s', t) == Draft(t, content, Drafted, None, |s.drafts.log|)
  {
    s' := ReachStep(cfg, s, Generating(t, content));
  }

  lemma BeginReview(cfg: Config, s: State, c: Client, t: Target, approve: bool, note: Option<string>)
      returns (s': State)
    requires Reachable(cfg, s) && PhaseOf(s, c).Idle? && Stored(s, t)
    ensures Reachable(cfg, s') && s'.connector == s.connector && s'.ledger == s.ledger
    ensures s'.clients == s.clients[c := ReviewSaving(t, s.drafts.table[t], approve, note)]
    ensures s'.drafts ==
            if cfg.shared then Give(cfg.shared, s.drafts, t, s.drafts.table[t], approve, note) else s.drafts
  {
    s' := ReachStep(cfg, s, Reviewing(c, t, approve, note));
  }

  lemma EndReview(cfg: Config, s: State, c: Client, p: Phase) returns (s': State)
    requires Reachable(cfg, s) && PhaseOf(s, c) == p && p.ReviewSaving? && HasRef(s, p)
    ensures Reachable(cfg, s') && s'.connector == s.connector && s'.ledger == s.ledger
    ensures s'.clients == s.clients[c := Idle]
    ensures s'.drafts == SaveReviewed(cfg.shared, s.drafts, p.target, p.ref, p.approve, p.note)
  {
    s' := ReachStep(cfg, s, ReviewSave(c));
  }

  lemma Judge(cfg: Config, s: State, c: Client, t: Target, approve: bool, note: Option<string>) returns (s': State)
    requires Reachable(cfg, s) && PhaseOf(s, c).Idle? && Stored(s, t) && StoredDraft(s, t).target == t
    ensures Reachable(cfg, s') && s'.connector == s.connector && s'.ledger == s.ledger
    ensures s'.clients == s.clients[c := Idle]
    ensures s'.drafts == Give(cfg.shared, s.drafts, t, s.drafts.table[t], approve, note)
  {
    var ref := s.drafts.table[t];
    var begun := BeginReview(cfg, s, c, t, approve, note);
    ReviewedAtOnce(cfg.shared, s.drafts, t, ref, approve, note);
    s' := EndReview(cfg, begun, c, ReviewSaving(t, ref, approve, note));
  }

  /** A review that nobody interrupts gives what is stored the reviewer's verdict and comment, whatever
      its status was, and leaves its content. */
  lemma ReviewAlone(cfg: Config, s: State, c: Client, t: Target, approve: bool, note: Option<string>)
      returns (s': State)
    requires Reachable(cfg, s) && PhaseOf(s, c).Idle? && Stored(s, t)
    ensures Reachable(cfg, s') && Stored(s', t) && PhaseOf(s', c).Idle?
    ensures var (d, d') := (StoredDraft(s, t), StoredDraft(s', t));
            && d'.status == (if approve then Approved else Rejected) && d'.comment == note
            && d'.target == t && d'.content == d.content
            && s'.drafts.log == s.drafts.log + [Reviewed(t, d.content, note, approve)]
  {
    ReachableInv(cfg, s);
    assert StoredOk(cfg.shared, s.drafts, t);
    s' := Judge(cfg, s, c, t, approve, note);
    GiveOk(cfg.shared, s.drafts, t, s.drafts.table[t], approve, note);
  }

  /** A draft is generated, approved and saved, by one client. */
  lemma Approve(cfg: Config, s: State, c: Client, t: Target, content: Content) returns (s': State)
    requires Reachable(cfg, s) && PhaseOf(s, c).Idle? && (t.Report? ==> t !in s.drafts.born)
    ensures Reachable(cfg, s') && Stored(s', t)
    ensures StoredDraft(s', t) == Draft(t, content, Approved, None, |s.drafts.log| + 1)
    ensures s'.drafts.log == s.drafts.log + [Generated(t, content), Reviewed(t, content, None, true)]
    ensures s'.connector == s.connector && s'.ledger == s.ledger
    ensures forall x :: PhaseOf(s', x) == PhaseOf(s, x)
  {
    s' := Draw(cfg, s, t, content);
    s' := Judge(cfg, s', c, t, true, None);
  }

  lemma OneMoreSender(cfg: Config, s: State, c: Client, t: Target) returns (s': State)
    requires Reachable(cfg, s) && Stored(s, t) && PhaseOf(s, c).Idle? && t !in s.ledger.results
    requires MayLeave(cfg, StoredDraft(s, t)) && t.Meeting?
    ensures Reachable(cfg, s') && s'.drafts == s.drafts && s'.connector == s.connector && s'.ledger == s.ledger
    ensures s'.clients == s.clients[c := Calling(t, s.drafts.table[t], DeliveryOf(StoredDraft(s, t), ""))]
  {
    var looked := ReachStep(cfg, s, SendLookup(c, t));
    assert looked == To(s, c, LookedUp(t));
    s' := ReachStep(cfg, looked, SendLoad(c));
  }

  lemma OneMoreSubmitter(cfg: Config, s: State, c: Client, t: Target, employee: string) returns (s': State)
    requires Reachable(cfg, s) && Stored(s, t) && PhaseOf(s, c).Idle? && t !in s.ledger.results
    requires MayLeave(cfg, StoredDraft(s, t)) && t.Report?
    ensures Reachable(cfg, s') && s'.drafts == s.drafts && s'.connector == s.connector && s'.ledger == s.ledger
    ensures s'.clients == s.clients[c := Calling(t, s.drafts.table[t], DeliveryOf(StoredDraft(s, t), employee))]
  {
    var loaded := ReachStep(cfg, s, SubmitLoad(c, t, employee));
    assert loaded == To(s, c, Loaded(t, s.drafts.table[t], employee));
    s' := ReachStep(cfg, loaded, SubmitLookup(c));
  }

  /** One client on its way through the checks, next to any others. */
  lemma OneMoreCaller(cfg: Config, s: State, c: Client, t: Target, employee: string) returns (s': State)
    requires Reachable(cfg, s) && Stored(s, t) && PhaseOf(s, c).Idle? && t !in s.ledger.results
    requires MayLeave(cfg, StoredDraft(s, t)) && (t.Meeting? ==> employee == "")
    ensures Reachable(cfg, s') && s'.drafts == s.drafts && s'.connector == s.connector && s'.ledger == s.ledger
    ensures s'.clients == s.clients[c := Calling(t, s.drafts.table[t], DeliveryOf(StoredDraft(s, t), employee))]
  {
    if t.Meeting? {
      s' := OneMoreSender(cfg, s, c, t);
    } else {
      s' := OneMoreSubmitter(cfg, s, c, t, employee);
    }
  }

  /** The call, and the caller's own save. */
  lemma CallAndMark(cfg: Config, s: State, c: Client, p: Phase) returns (s': State)
    requires Reachable(cfg, s) && PhaseOf(s, c) == p && p.Calling? && p.ref < |s.drafts.heap|
    requires s.connector.outbox == []
    ensures Reachable(cfg, s') && s'.connector.outbox == [p.delivery]
    ensures s'.drafts == Mark(cfg.shared, s.drafts, p.target, p.ref)
  {
    ReachableInv(cfg, s);
    var called := ReachStep(cfg, s, Call(c));
    s' := ReachStep(cfg, called, MarkSave(c));
  }

  lemma SameMiddle(p: string, e1: string, e2: string, q: string)
    requires p + e1 + q == p + e2 + q
    ensures e1 == e2
  {
    var k := p + e1 + q;
    assert e1 == k[|p|..|k| - |q|] && e2 == k[|p|..|k| - |q|];
  }

  lemma OtherEmployeeOtherKey(t: Target, e1: string, e2: string, content: Content)
    requires t.Report?
    ensures ConnectorKey(t, e1, content) == ConnectorKey(t, e2, content) <==> e1 == e2
  {
    var p := t.tenantId + ":";
    var q := ":" + content.reportDate + ":" + t.reportId;
    assert ConnectorKey(t, e1, content).text == p + e1 + q && ConnectorKey(t, e2, content).text == p + e2 + q;
    if ConnectorKey(t, e1, content) == ConnectorKey(t, e2, content) {
      SameMiddle(p, e1, e2, q);
    }
  }

  /** Two submitters with different employee ids can file the same report twice: the connector's key
      names the employee, and both pass the lookup before either result is recorded. */
  lemma TwoEmployeesCanFileTwice(cfg: Config, t: Target, content: Content, e1: string, e2: string) returns (s: State)
    requires t.Report? && cfg.shareable(t, content, None) && e1 != e2
    ensures Reachable(cfg, s) && |s.connector.outbox| == 2
    ensures s.connector.outbox[0].target == s.connector.outbox[1].target == t
  {
    InitReachable(cfg);
    s := Approve(cfg, INIT, 0, t, content);
    assert PhaseOf(s, 1).Idle? && PhaseOf(s, 2).Idle?;
    s := OneMoreCaller(cfg, s, 1, t, e1);
    s := OneMoreCaller(cfg, s, 2, t, e2);
    OtherEmployeeOtherKey(t, e1, e2, content);
    s := ReachStep(cfg, s, Call(1));
    s := ReachStep(cfg, s, Call(2));
  }

  // ----- one answer ------------------------------------------------------------------------------------

  /** All replies for one target, in whatever run, are the same recorded result. */
  lemma RepliesAgree(cfg: Config, s: State, i: nat, j: nat)
    requires Reachable(cfg, s) && i < |s.ledger.replies| && j < |s.ledger.replies|
    requires s.ledger.replies[i].0 == s.ledger.replies[j].0
    ensures s.ledger.replies[i].1 == s.ledger.replies[j].1
    ensures s.ledger.replies[i].0 in s.ledger.results
    ensures s.ledger.replies[i].1 == s.ledger.results[s.ledger.replies[i].0] < |s.connector.outbox|
  {
    ReachableInv(cfg, s);
  }

  /** A recorded result is never replaced, and history only grows. */
  lemma {:induction false} ResultsAreFinal(cfg: Config, s: State, steps: seq<Step>, s': State, t: Target)
    requires Run(cfg, s, steps, s') && t in s.ledger.results
    ensures t in s'.ledger.results && s'.ledger.results[t] == s.ledger.results[t]
    ensures s.ledger.replies <= s'.ledger.replies && s.connector.outbox <= s'.connector.outbox
    decreases |steps|
  {
    if steps == [] {
    } else {
      var mid := Next(cfg, s, steps[0]);
      assert s.ledger.replies <= mid.ledger.replies && s.connector.outbox <= mid.connector.outbox;
      ResultsAreFinal(cfg, mid, steps[1..], s', t);
    }
  }

  /** Once minutes have left, every reply to a send of them, however late and after whatever crash,
      names that very email. */
  lemma ReplyNamesTheOneEmail(cfg: Config, s: State, i: nat, j: nat)
    requires Reachable(cfg, s) && i < |s.ledger.replies| && j < |s.connector.outbox|
    requires s.ledger.replies[i].0.Meeting? && s.connector.outbox[j].target == s.ledger.replies[i].0
    ensures s.ledger.replies[i].1 == j
  {
    ReachableInv(cfg, s);
    assert ReceiptOk(s.connector, s.ledger.replies[i].0, s.ledger.replies[i].1);
    assert DeliveryOk(cfg, s.drafts, s.connector.outbox[j]);
  }

  // ----- a call on its own ---------------------------------------------------------------------------

  /** What a send or submit that nobody interrupts leaves behind, from its first lookup to its reply.
      If the connector has the key already, it hands out the delivery made under it. */
  predicate Delivered(s: State, s': State, c: Client, d: Draft, employee: string) {
    var delivery := DeliveryOf(d, employee);
    var known := delivery.key in s.connector.keys;
    var receipt := if known then s.connector.keys[delivery.key] else |s.connector.outbox|;
    && Stored(s', d.target) && StoredDraft(s', d.target) == d.(status := DraftStatus.Delivered)
    && s'.drafts.log == s.drafts.log
    && s'.connector.outbox == (if known then s.connector.outbox else s.connector.outbox + [delivery])
    && s'.ledger.results == s.ledger.results[d.target := receipt]
    && s'.ledger.replies == s.ledger.replies + [(d.target, receipt)]
    && PhaseOf(s', c).Idle?
  }

  /** A client that is alone from its call of the connector to its reply. */
  lemma CallToReply(cfg: Config, s: State, c: Client, d: Draft, employee: string) returns (s': State)
    requires PhaseOf(s, c).Calling? && PhaseOf(s, c).target == d.target && d.target !in s.ledger.results
    requires PhaseOf(s, c).ref < |s.drafts.heap| && s.drafts.heap[PhaseOf(s, c).ref] == d
    requires PhaseOf(s, c).delivery == DeliveryOf(d, employee)
    ensures Run(cfg, s, [Call(c), MarkSave(c), Remember(c)], s') && Delivered(s, s', c, d, employee)
  {
    var steps := [Call(c), MarkSave(c), Remember(c)];
    var s1 := CallStep(s, c);
    var s2 := MarkSaveStep(cfg, s1, c);
    s' := RememberStep(s2, c);
    assert steps[2..][1..] == [] && steps[1..][1..] == steps[2..];
    assert Run(cfg, s2, steps[2..], s');
    assert Run(cfg, s1, steps[1..], s');
  }

  /** Sending stored minutes that have no recorded result: exactly if they are approved and shareable
      the client goes on to the connector, and then, left alone, delivers them, marks them sent,
      records the result and replies with it. Otherwise nothing leaves. */
  lemma SendAlone(cfg: Config, s: State, c: Client, t: Target) returns (s1: State, s': State)
    requires t.Meeting? && Stored(s, t) && StoredDraft(s, t).target == t
    requires PhaseOf(s, c).Idle? && t !in s.ledger.results
    ensures Run(cfg, s, [SendLookup(c, t), SendLoad(c)], s1)
    ensures s1.connector == s.connector && s1.ledger == s.ledger
    ensures var d := StoredDraft(s, t);
            if d.status.Approved? && cfg.shareable(d.target, d.content, d.comment) then
              Run(cfg, s1, [Call(c), MarkSave(c), Remember(c)], s') && Delivered(s, s', c, d, "")
            else
              PhaseOf(s1, c).Idle? && s' == s1
  {
    var steps := [SendLookup(c, t), SendLoad(c)];
    var looked := SendLookupStep(s, c, t);
    s1 := SendLoadStep(cfg, looked, c);
    assert steps[1..][1..] == [];
    assert Run(cfg, looked, steps[1..], s1);
    s' := s1;
    if MayLeave(cfg, StoredDraft(s, t)) { s' := CallToReply(cfg, s1, c, StoredDraft(s, t), ""); }
  }

  /** So approved, shareable minutes are answered for. */
  lemma SendReaches(cfg: Config, s: State, c: Client, t: Target) returns (s': State)
    requires Reachable(cfg, s) && t.Meeting? && Stored(s, t) && StoredDraft(s, t).target == t
    requires PhaseOf(s, c).Idle? && t !in s.ledger.results && MayLeave(cfg, StoredDraft(s, t))
    ensures Reachable(cfg, s') && Delivered(s, s', c, StoredDraft(s, t), "")
  {
    var s1;
    s1, s' := SendAlone(cfg, s, c, t);
    ReachRun(cfg, s, [SendLookup(c, t), SendLoad(c)], s1);
    ReachRun(cfg, s1, [Call(c), MarkSave(c), Remember(c)], s');
  }

  /** The same for submitting a report, whose draft is loaded before the lookup. */
  lemma SubmitAlone(cfg: Config, s: State, c: Client, t: Target, employee: string) returns (s1: State, s': State)
    requires t.Report? && Stored(s, t) && StoredDraft(s, t).target == t
    requires PhaseOf(s, c).Idle? && t !in s.ledger.results
    ensures Run(cfg, s, [SubmitLoad(c, t, employee), SubmitLookup(c)], s1)
    ensures s1.connector == s.connector && s1.ledger == s.ledger
    ensures var d := StoredDraft(s, t);
            if d.status.Approved? && cfg.shareable(d.target, d.content, d.comment) then
              Run(cfg, s1, [Call(c), MarkSave(c), Remember(c)], s') && Delivered(s, s', c, d, employee)
            else
              PhaseOf(s1, c).Idle? && s' == s1
  {
    var steps := [SubmitLoad(c, t, employee), SubmitLookup(c)];
    var loaded := SubmitLoadStep(s, c, t, employee);
    s1 := SubmitLookupStep(cfg, loaded, c);
    assert steps[1..][1..] == [];
    assert Run(cfg, loaded, steps[1..], s1);
    s' := s1;
    if MayLeave(cfg, StoredDraft(s, t)) { s' := CallToReply(cfg, s1, c, StoredDraft(s, t), employee); }
  }

  // ----- approved content only -------------------------------------------------------------------------

  /** Whatever leaves was approved in exactly this form, with this comment, and passed the
      sensitive-data check. WriteVerdicts says when that approval was the latest event. */
  lemma OnlyApprovedContentLeaves(cfg: Config, s: State, i: nat)
    requires Reachable(cfg, s) && i < |s.connector.outbox|
    ensures var d := s.connector.outbox[i];
            && d.basis < |s.drafts.log|
            && s.drafts.log[d.basis] == Reviewed(d.target, d.content, d.comment, true)
            && cfg.shareable(d.target, d.content, d.comment)
  {
    ReachableInv(cfg, s);
    assert DeliveryOk(cfg, s.drafts, s.connector.outbox[i]);
  }

  // ----- reopening is harmless ---------------------------------------------------------------------------

  /** The result is recorded, and no client is between its lookup and its call. */
  predicate Settled(s: State, t: Target) {
    && t in s.ledger.results
    && forall c :: c in s.clients ==>
         !(s.clients[c].LookedUp? && s.clients[c].target == t) && !(s.clients[c].Calling? && s.clients[c].target == t)
  }

  /** Once a result is recorded, later reviews, regenerations, sends and submits make no further call
      of the connector. WriteReplies says how they are answered. */
  lemma {:induction false} NoCallsOnceSettled(cfg: Config, s: State, steps: seq<Step>, s': State, t: Target)
    requires Run(cfg, s, steps, s') && Settled(s, t)
    ensures Settled(s', t) && s'.connector.calls[t] == s.connector.calls[t]
    decreases |steps|
  {
    if steps == [] {
    } else {
      SettledStays(cfg, s, steps[0], t);
      NoCallsOnceSettled(cfg, Next(cfg, s, steps[0]), steps[1..], s', t);
    }
  }

  lemma SettledStays(cfg: Config, s: State, step: Step, t: Target)
    requires Settled(s, t) && Enabled(cfg, s, step)
    ensures Settled(Next(cfg, s, step), t) && Next(cfg, s, step).connector.calls[t] == s.connector.calls[t]
  {
    match step
    case Call(c) => assert PhaseOf(s, c).target != t;
    case _ =>
  }
}
