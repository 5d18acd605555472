/**
 How sends and submits are answered: once a result is recorded at once and with that result, and over any
 run once for every call that comes to its end.
 */
module WriteReplies {
  import opened Drafts
  import opened ReviewedWrites
  import opened WriteSafety
  import opened WriteVerdicts

  /** A send of minutes with a recorded result ends at once, with that result and nothing else done. */
  lemma RecordedSendIsAnswered(cfg: Config, s: State, c: Client, t: Target)
    requires t.Meeting? && t in s.ledger.results && PhaseOf(s, c).Idle?
    ensures Enabled(cfg, s, SendLookup(c, t))
    ensures var s' := Next(cfg, s, SendLookup(c, t));
            && s'.ledger.replies == s.ledger.replies + [(t, s.ledger.results[t])]
            && s'.ledger.results == s.ledger.results && PhaseOf(s', c).Idle?
            && s'.drafts == s.drafts && s'.connector == s.connector
  {}

  /** A submit loads the draft first; if the result is recorded by the time of its lookup, it ends then,
      with that result and nothing else done. */
  lemma RecordedSubmitIsAnswered(cfg: Config, s: State, c: Client, t: Target, employee: string,
                                 steps: seq<Step>, s': State)
    requires Reachable(cfg, s) && t.Report? && Stored(s, t) && PhaseOf(s, c).Idle?
    requires Run(cfg, SubmitLoadStep(s, c, t, employee), steps, s') && Others(steps, c) && t in s'.ledger.results
    ensures Enabled(cfg, s, SubmitLoad(c, t, employee)) && Enabled(cfg, s', SubmitLookup(c))
    ensures var s'' := Next(cfg, s', SubmitLookup(c));
            && s''.ledger.replies == s'.ledger.replies + [(t, s'.ledger.results[t])]
            && s''.ledger.results == s'.ledger.results && PhaseOf(s'', c).Idle?
            && s''.drafts == s'.drafts && s''.connector == s'.connector
  {
    var loaded := ReachStep(cfg, s, SubmitLoad(c, t, employee));
    OthersKeepPhase(cfg, loaded, steps, s', c);
    ReachRun(cfg, loaded, steps, s');
    ReachableInv(cfg, s');
    assert PhaseOk(cfg, s', PhaseOf(s', c));
  }

  /** A send or submit of what is not stored ends without a reply, and with nothing done. */
  lemma MissingDraftIsRefused(cfg: Config, s: State, c: Client, t: Target, employee: string)
    requires !Stored(s, t) && t !in s.ledger.results
    ensures t.Meeting? && PhaseOf(s, c).Idle? ==> PhaseOf(Next(cfg, s, SendLookup(c, t)), c) == LookedUp(t)
    ensures PhaseOf(s, c) == LookedUp(t) ==>
              Enabled(cfg, s, SendLoad(c)) && Next(cfg, s, SendLoad(c)) == To(s, c, Idle)
    ensures t.Report? && PhaseOf(s, c).Idle? ==>
              Enabled(cfg, s, SubmitLoad(c, t, employee)) && Next(cfg, s, SubmitLoad(c, t, employee)) == To(s, c, Idle)
  {}

  /** A client can crash at any moment; it forgets what it was doing, and everything else stays. */
  lemma CrashForgets(cfg: Config, s: State, c: Client)
    ensures Enabled(cfg, s, Crash(c))
    ensures var s' := Next(cfg, s, Crash(c));
            && PhaseOf(s', c).Idle? && s'.drafts == s.drafts && s'.connector == s.connector && s'.ledger == s.ledger
  {}

  /** The target whose sender or submitter comes to the end of its call with the step: at the lookup of a
      recorded result, or after recording its own. */
  function Ends(s: State, step: Step): seq<Target> {
    match step
    case SendLookup(_, t) => if t in s.ledger.results then [t] else []
    case SubmitLookup(c) =>
      if PhaseOf(s, c).Loaded? && PhaseOf(s, c).target in s.ledger.results then [PhaseOf(s, c).target] else []
    case Remember(c) => if PhaseOf(s, c).Saved? then [PhaseOf(s, c).target] else []
    case _ => []
  }

  ghost function EndsOf(cfg: Config, s: State, steps: seq<Step>): seq<Target>
    decreases |steps|
  {
    if steps == [] || !Enabled(cfg, s, steps[0]) then []
    else Ends(s, steps[0]) + EndsOf(cfg, Next(cfg, s, steps[0]), steps[1..])
  }

  /** Over any stretch of a run: there is one reply for every call that came to its end, in that order,
      and each is the result recorded for its target, which never changes again. */
  lemma {:induction false} EveryEndIsAnswered(cfg: Config, s: State, steps: seq<Step>, s': State)
    requires Run(cfg, s, steps, s')
    ensures var (ends, more) := (EndsOf(cfg, s, steps), |s'.ledger.replies| - |s.ledger.replies|);
            && more == |ends| && s.ledger.replies <= s'.ledger.replies
            && forall i :: 0 <= i < more ==>
                 && ends[i] in s'.ledger.results
                 && s'.ledger.replies[|s.ledger.replies| + i] == (ends[i], s'.ledger.results[ends[i]])
    decreases |steps|
  {
    if steps == [] {
    } else {
      var mid := Next(cfg, s, steps[0]);
      var first := Ends(s, steps[0]);
      EveryEndIsAnswered(cfg, mid, steps[1..], s');
      AtStep(cfg, s, steps[0]);
      if first != [] { ResultsAreFinal(cfg, mid, steps[1..], s', first[0]); }
    }
  }

  lemma AtStep(cfg: Config, s: State, step: Step)
    requires Enabled(cfg, s, step)
    ensures var (ends, s') := (Ends(s, step), Next(cfg, s, step));
            && |ends| <= 1
            && (ends == [] ==> s'.ledger.replies == s.ledger.replies)
            && (ends != [] ==>
                  && ends[0] in s'.ledger.results
                  && s'.ledger.replies == s.ledger.replies + [(ends[0], s'.ledger.results[ends[0]])])
  {}
}
