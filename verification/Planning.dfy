/**
 The planning budget: which tools the model is offered after a given message history, and what that
 bounds over a whole conversation in which the model calls only what it is offered.
 */
module Planning {
  import opened Text
  import opened Wrappers

  /** A tool result carries its text in lower case, as the failure test reads it. */
  datatype Message = Assistant(calls: seq<string>) | ToolResult(text: string) | Other

  /** A tool object, or a dictionary with a name of its own or one inside its `function` entry. */
  datatype Tool = Named(toolName: string) | Described(name: Option<string>, functionName: Option<string>)

  const TASK := "task"
  const WRITE_TODOS := "write_todos"

  const FAILURE_MARKERS: seq<string> := [
    "\"status\": \"failed\"", "\"status\":\"failed\"", "\"status\": \"blocked\"", "\"status\":\"blocked\"",
    "timeout", "error_code"]

  function ToolName(tool: Tool): Option<string> {
    match tool
    case Named(n) => Some(n)
    case Described(n, f) => if n.Some? then n else f
  }

  function CountIn(calls: seq<string>, name: string): nat {
    if calls == [] then 0 else CountIn(calls[..|calls| - 1], name) + if calls[|calls| - 1] == name then 1 else 0
  }

  function CallsIn(m: Message, name: string): nat {
    if m.Assistant? then CountIn(m.calls, name) else 0
  }

  function CountToolCalls(messages: seq<Message>, name: string): nat {
    if messages == [] then 0
    else CountToolCalls(messages[..|messages| - 1], name) + CallsIn(messages[|messages| - 1], name)
  }

  /** All calls of a history, one after the other. */
  function AllCalls(messages: seq<Message>): seq<string> {
    if messages == [] then []
    else
      var last := messages[|messages| - 1];
      AllCalls(messages[..|messages| - 1]) + if last.Assistant? then last.calls else []
  }

  /** How often a history calls a tool, parallel calls of one turn counted one by one. */
  function Calls(messages: seq<Message>, name: string): nat {
    multiset(AllCalls(messages))[name]
  }

  lemma {:induction false} CountInIsMultiplicity(calls: seq<string>, name: string)
    ensures CountIn(calls, name) == multiset(calls)[name]
  {
    if calls == [] {
    } else {
      var n := |calls| - 1;
      CountInIsMultiplicity(calls[..n], name);
      assert calls == calls[..n] + [calls[n]];
    }
  }

  /** The count of a history is the number of its calls of the tool. */
  lemma {:induction false} CountIsCalls(messages: seq<Message>, name: string)
    ensures CountToolCalls(messages, name) == Calls(messages, name)
  {
    if messages == [] {
    } else {
      var last := messages[|messages| - 1];
      CountIsCalls(messages[..|messages| - 1], name);
      if last.Assistant? { CountInIsMultiplicity(last.calls, name); }
    }
  }

  /** The calls of two histories, one after the other; of one message of the model; and of any other. */
  lemma {:induction false} CallsAddUp(earlier: seq<Message>, later: seq<Message>, calls: seq<string>, text: string)
    ensures AllCalls(earlier + later) == AllCalls(earlier) + AllCalls(later)
    ensures AllCalls([Assistant(calls)]) == calls
    ensures AllCalls([ToolResult(text)]) == AllCalls([Other]) == AllCalls([]) == []
  {
    assert [Assistant(calls)][..0] == [] && [ToolResult(text)][..0] == [] && [Other][..0] == [];
    if later == [] {
      assert earlier + later == earlier;
    } else {
      CallsAddUp(earlier, later[..|later| - 1], calls, text);
      assert (earlier + later)[..|earlier + later| - 1] == earlier + later[..|later| - 1];
    }
  }

  /** A tool object by its name; a dictionary by its own name, or for want of one its function's. */
  predicate HasName(tool: Tool, name: string) {
    || tool == Named(name)
    || (tool.Described? && (tool.name == Some(name) || (tool.name.None? && tool.functionName == Some(name))))
  }

  lemma ToolNameIff(tool: Tool, name: string)
    ensures ToolName(tool) == Some(name) <==> HasName(tool, name)
  {}

  predicate IsPlan(m: Message) {
    m.Assistant? && WRITE_TODOS in m.calls
  }

  predicate IsFailure(m: Message) {
    m.ToolResult? && exists marker | marker in FAILURE_MARKERS :: Contains(m.text, marker)
  }

  /** A tool result is a failure exactly if one of these six is somewhere in its text. */
  lemma FailuresAreMarked(text: string)
    ensures IsFailure(ToolResult(text)) <==>
            exists before, marker, after :: text == before + marker + after && marker in {
              "\"status\": \"failed\"", "\"status\":\"failed\"", "\"status\": \"blocked\"",
              "\"status\":\"blocked\"", "timeout", "error_code"}
  {
    assert FAILURE_MARKERS[0] in FAILURE_MARKERS && FAILURE_MARKERS[1] in FAILURE_MARKERS
           && FAILURE_MARKERS[2] in FAILURE_MARKERS && FAILURE_MARKERS[3] in FAILURE_MARKERS
           && FAILURE_MARKERS[4] in FAILURE_MARKERS && FAILURE_MARKERS[5] in FAILURE_MARKERS;
    forall marker ensures Contains(text, marker) <==> exists before, after :: text == before + marker + after {
      ContainsIff(text, marker);
    }
  }

  predicate NoPlanAfter(messages: seq<Message>, i: int) {
    forall j :: 0 <= j < |messages| && i < j ==> !IsPlan(messages[j])
  }

  /** Some failure has no plan update after it. */
  predicate UnplannedFailure(messages: seq<Message>) {
    exists i :: 0 <= i < |messages| && IsFailure(messages[i]) && NoPlanAfter(messages, i)
  }

  /** A failed tool result after which the model has not called `write_todos`. */
  lemma UnplannedFailureIff(messages: seq<Message>)
    ensures UnplannedFailure(messages) <==>
            exists i :: 0 <= i < |messages| && messages[i].ToolResult? && IsFailure(messages[i]) && forall j ::
              i < j < |messages| && messages[j].Assistant? ==> "write_todos" !in messages[j].calls
  {
    if i :| 0 <= i < |messages| && messages[i].ToolResult? && IsFailure(messages[i])
            && forall j :: i < j < |messages| && messages[j].Assistant? ==> "write_todos" !in messages[j].calls
    {
      assert NoPlanAfter(messages, i);
    }
  }

  /** One pass that remembers the latest failure and the latest plan decides it. */
  method RequiresReplan(messages: seq<Message>) returns (required: bool)
    ensures required == UnplannedFailure(messages)
    ensures required <==>
            exists i :: 0 <= i < |messages| && messages[i].ToolResult? && IsFailure(messages[i]) && forall j ::
              i < j < |messages| && messages[j].Assistant? ==> "write_todos" !in messages[j].calls
  {
    UnplannedFailureIff(messages);
    var latestFailure, latestPlan := -1, -1;
    for i := 0 to |messages|
      invariant -1 <= latestFailure < i && -1 <= latestPlan < i
      invariant latestFailure >= 0 ==> IsFailure(messages[latestFailure])
      invariant latestPlan >= 0 ==> IsPlan(messages[latestPlan])
      invariant forall k :: latestFailure < k < i ==> !IsFailure(messages[k])
      invariant forall k :: latestPlan < k < i ==> !IsPlan(messages[k])
    {
      if IsPlan(messages[i]) {
        latestPlan := i;
      }
      if IsFailure(messages[i]) {
        latestFailure := i;
      }
    }
    required := latestFailure > latestPlan;
  }

  // ----- the limited request -------------------------------------------------------------------------

  datatype Budget = Budget(maxDelegations: int, maxPlanUpdates: int)

  ghost predicate ValidBudget(b: Budget) {
    1 <= b.maxDelegations && 1 <= b.maxPlanUpdates
  }

  predicate PlanAllowed(b: Budget, messages: seq<Message>) {
    CountToolCalls(messages, WRITE_TODOS) < b.maxPlanUpdates
  }

  /** Delegation needs budget, and no unplanned failure, unless planning itself is used up. */
  predicate TaskAllowed(b: Budget, messages: seq<Message>) {
    && CountToolCalls(messages, TASK) < b.maxDelegations
    && (!PlanAllowed(b, messages) || !UnplannedFailure(messages))
  }

  predicate Allowed(b: Budget, messages: seq<Message>, tool: Tool) {
    && (ToolName(tool) == Some(TASK) ==> TaskAllowed(b, messages))
    && (ToolName(tool) == Some(WRITE_TODOS) ==> PlanAllowed(b, messages))
  }

  /** The tools of the request that are allowed, in their order. */
  function Offered(b: Budget, messages: seq<Message>, tools: seq<Tool>): seq<Tool> {
    if tools == [] then []
    else (if Allowed(b, messages, tools[0]) then [tools[0]] else []) + Offered(b, messages, tools[1..])
  }

  /** Each tool is kept as often as it was requested, or not at all. A tool of another name than `task` and
      `write_todos` always is; those two as long as their calls are below their budgets, and `task` only
      without an unplanned failure, unless the plan updates are used up. */
  lemma {:induction false} OfferedExactly(b: Budget, messages: seq<Message>, tools: seq<Tool>, tool: Tool)
    ensures multiset(Offered(b, messages, tools))[tool] ==
            if && (HasName(tool, TASK) ==>
                     && Calls(messages, TASK) < b.maxDelegations
                     && (Calls(messages, WRITE_TODOS) >= b.maxPlanUpdates || !UnplannedFailure(messages)))
               && (HasName(tool, WRITE_TODOS) ==> Calls(messages, WRITE_TODOS) < b.maxPlanUpdates)
            then multiset(tools)[tool] else 0
  {
    if tools == [] {
    } else {
      OfferedExactly(b, messages, tools[1..], tool);
      CountIsCalls(messages, TASK);
      CountIsCalls(messages, WRITE_TODOS);
      ToolNameIff(tool, TASK);
      ToolNameIff(tool, WRITE_TODOS);
      assert tools == [tools[0]] + tools[1..];
    }
  }

  /** That, for every tool. */
  ghost predicate Keeps(b: Budget, messages: seq<Message>, requested: seq<Tool>, tools: seq<Tool>) {
    forall tool :: multiset(tools)[tool] ==
      if && (HasName(tool, TASK) ==>
               && Calls(messages, TASK) < b.maxDelegations
               && (Calls(messages, WRITE_TODOS) >= b.maxPlanUpdates || !UnplannedFailure(messages)))
         && (HasName(tool, WRITE_TODOS) ==> Calls(messages, WRITE_TODOS) < b.maxPlanUpdates)
      then multiset(requested)[tool] else 0
  }

  lemma OfferedKeeps(b: Budget, messages: seq<Message>, tools: seq<Tool>)
    ensures Keeps(b, messages, tools, Offered(b, messages, tools))
  {
    forall tool { OfferedExactly(b, messages, tools, tool); }
  }

  /** The tools kept are in the order of the request. */
  lemma {:induction false} OfferedInOrder(b: Budget, messages: seq<Message>, tools: seq<Tool>) returns (at: seq<nat>)
    ensures |at| == |Offered(b, messages, tools)|
    ensures forall i :: 0 <= i < |at| ==> at[i] < |tools| && Offered(b, messages, tools)[i] == tools[at[i]]
    ensures forall i, j :: 0 <= i < j < |at| ==> at[i] < at[j]
  {
    if tools == [] {
      at := [];
    } else {
      var rest := OfferedInOrder(b, messages, tools[1..]);
      var shifted: seq<nat> := seq(|rest|, i requires 0 <= i < |rest| => rest[i] + 1);
      at := (if Allowed(b, messages, tools[0]) then [0] else []) + shifted;
    }
  }

  function Without(tools: seq<Tool>, name: string): seq<Tool> {
    if tools == [] then []
    else (if ToolName(tools[0]) != Some(name) then [tools[0]] else []) + Without(tools[1..], name)
  }

  /** Dropping the withheld tools one name after the other leaves exactly the allowed ones. */
  lemma {:induction false} OfferedIsWithout(b: Budget, messages: seq<Message>, tools: seq<Tool>)
    ensures Offered(b, messages, tools) ==
            var kept := if TaskAllowed(b, messages) then tools else Without(tools, TASK);
            if PlanAllowed(b, messages) then kept else Without(kept, WRITE_TODOS)
  {
    if tools == [] {
    } else {
      OfferedIsWithout(b, messages, tools[1..]);
      var rest := Without(tools[1..], TASK);
      assert ([tools[0]] + rest)[1..] == rest;
      assert [] + rest == rest;
      assert TaskAllowed(b, messages) && PlanAllowed(b, messages) ==> tools == [tools[0]] + tools[1..];
    }
  }

  /** Which notice the request's system message gets. */
  datatype Notice = NoNotice | Exhausted(names: seq<string>) | ReplanFirst

  class PlanningBudgetMiddleware {
    const budget: Budget

    constructor (budget: Budget)
      requires ValidBudget(budget)
      ensures this.budget == budget
    {
      this.budget := budget;
    }

    /** Non-positive budgets are refused. */
    static method Make(budget: Budget) returns (made: PlanningBudgetMiddleware?)
      ensures made == null <==> !ValidBudget(budget)
      ensures made != null ==> fresh(made) && made.budget == budget
    {
      if budget.maxDelegations < 1 || budget.maxPlanUpdates < 1 {
        return null;
      }
      made := new PlanningBudgetMiddleware(budget);
    }

    /** The request with the tools the history still allows. */
    method LimitedRequest(messages: seq<Message>, requested: seq<Tool>) returns (tools: seq<Tool>, notice: Notice)
      ensures tools == Offered(budget, messages, requested)
      ensures Keeps(budget, messages, requested, tools)
      ensures var names := (if Calls(messages, TASK) >= budget.maxDelegations then [TASK] else [])
                           + (if Calls(messages, WRITE_TODOS) >= budget.maxPlanUpdates then [WRITE_TODOS] else []);
              notice == if names != [] then Exhausted(names)
                        else if UnplannedFailure(messages) then ReplanFirst
                        else NoNotice
    {
      CountIsCalls(messages, TASK);
      CountIsCalls(messages, WRITE_TODOS);
      OfferedKeeps(budget, messages, requested);
      var delegations := CountToolCalls(messages, TASK);
      var planUpdates := CountToolCalls(messages, WRITE_TODOS);
      var exhausted: seq<string> := [];
      tools := requested;
      OfferedIsWithout(budget, messages, requested);
      if delegations >= budget.maxDelegations {
        tools := Without(tools, TASK);
        exhausted := exhausted + [TASK];
      }
      if planUpdates >= budget.maxPlanUpdates {
        tools := Without(tools, WRITE_TODOS);
        exhausted := exhausted + [WRITE_TODOS];
      }
      if exhausted != [] {
        return tools, Exhausted(exhausted);
      }
      var replan := RequiresReplan(messages);
      if replan {
        tools := Without(tools, TASK);
        return tools, ReplanFirst;
      }
      return tools, NoNotice;
    }
  }

  // ----- whole conversations -------------------------------------------------------------------------

  predicate Offers(b: Budget, messages: seq<Message>, tools: seq<Tool>, name: string) {
    exists i :: 0 <= i < |Offered(b, messages, tools)| && ToolName(Offered(b, messages, tools)[i]) == Some(name)
  }

  /** The model only ever calls tools it was offered at that moment. Everything else is free: parallel
      calls, results, failures, other messages. */
  ghost predicate Conversation(b: Budget, tools: seq<Tool>, messages: seq<Message>) {
    forall i, c :: 0 <= i < |messages| && messages[i].Assistant? && c in messages[i].calls ==>
      Offers(b, messages[..i], tools, c)
  }

  lemma {:induction false} OfferedOnlyIfAllowed(b: Budget, messages: seq<Message>, tools: seq<Tool>, i: nat)
    requires i < |Offered(b, messages, tools)|
    ensures Offered(b, messages, tools)[i] in tools && Allowed(b, messages, Offered(b, messages, tools)[i])
  {
    var head := if Allowed(b, messages, tools[0]) then [tools[0]] else [];
    if i >= |head| { OfferedOnlyIfAllowed(b, messages, tools[1..], i - |head|); }
  }

  lemma {:induction false} OfferedIfAllowed(b: Budget, messages: seq<Message>, tools: seq<Tool>, tool: Tool)
    requires tool in tools && Allowed(b, messages, tool)
    ensures tool in Offered(b, messages, tools)
  {
    if tool != tools[0] { OfferedIfAllowed(b, messages, tools[1..], tool); }
  }

  predicate HasCall(m: Message, name: string) {
    m.Assistant? && name in m.calls
  }

  /** How many turns of the model contain a call of the tool. */
  function Turns(messages: seq<Message>, name: string): nat {
    if messages == [] then 0
    else Turns(messages[..|messages| - 1], name) + if HasCall(messages[|messages| - 1], name) then 1 else 0
  }

  lemma CallNeedsBudget(b: Budget, tools: seq<Tool>, messages: seq<Message>, i: nat, name: string)
    requires Conversation(b, tools, messages) && i < |messages| && HasCall(messages[i], name)
    ensures name == TASK ==> Calls(messages[..i], TASK) < b.maxDelegations
    ensures name == WRITE_TODOS ==> Calls(messages[..i], WRITE_TODOS) < b.maxPlanUpdates
  {
    CountIsCalls(messages[..i], name);
    var k :| 0 <= k < |Offered(b, messages[..i], tools)| && ToolName(Offered(b, messages[..i], tools)[k]) == Some(name);
    OfferedOnlyIfAllowed(b, messages[..i], tools, k);
  }

  /** Over a whole conversation: no more turns than the limit call the tool, and if no turn makes more
      than `width` calls of it at once, all turns together make at most `limit - 1 + width`. */
  lemma {:induction false} LimitBoundsConversation(b: Budget, tools: seq<Tool>, messages: seq<Message>,
                                                   name: string, limit: int, width: nat)
    requires 1 <= limit && Conversation(b, tools, messages)
    requires (name == TASK && limit == b.maxDelegations) || (name == WRITE_TODOS && limit == b.maxPlanUpdates)
    requires forall i :: 0 <= i < |messages| && messages[i].Assistant? ==> multiset(messages[i].calls)[name] <= width
    ensures Turns(messages, name) <= Calls(messages, name)
    ensures Turns(messages, name) <= limit
    ensures Calls(messages, name) <= limit - 1 + width
    decreases |messages|
  {
    if messages == [] {
    } else {
      var n := |messages| - 1;
      var earlier := messages[..n];
      assert forall i :: 0 <= i < n ==> earlier[..i] == messages[..i];
      LimitBoundsConversation(b, tools, earlier, name, limit, width);
      assert messages[n].Assistant? ==> (HasCall(messages[n], name) <==> multiset(messages[n].calls)[name] > 0);
      if HasCall(messages[n], name) { CallNeedsBudget(b, tools, messages, n, name); }
    }
  }

  /** Both budgets bound whole conversations: turns that delegate or plan, and, if no turn makes more than
      a number of such calls at once, the calls themselves. */
  lemma BudgetsBoundConversations(b: Budget, tools: seq<Tool>, messages: seq<Message>, tasks: nat, plans: nat)
    requires ValidBudget(b) && Conversation(b, tools, messages)
    requires forall i :: 0 <= i < |messages| && messages[i].Assistant? ==>
               multiset(messages[i].calls)[TASK] <= tasks && multiset(messages[i].calls)[WRITE_TODOS] <= plans
    ensures Turns(messages, TASK) <= b.maxDelegations && Turns(messages, WRITE_TODOS) <= b.maxPlanUpdates
    ensures multiset(AllCalls(messages))[TASK] <= b.maxDelegations - 1 + tasks
    ensures multiset(AllCalls(messages))[WRITE_TODOS] <= b.maxPlanUpdates - 1 + plans
  {
    LimitBoundsConversation(b, tools, messages, TASK, b.maxDelegations, tasks);
    LimitBoundsConversation(b, tools, messages, WRITE_TODOS, b.maxPlanUpdates, plans);
  }

  /** The gate: a turn that delegates while planning is still possible has no unplanned failure
      before it. */
  lemma DelegationComesAfterReplanning(b: Budget, tools: seq<Tool>, messages: seq<Message>, i: nat)
    requires Conversation(b, tools, messages) && i < |messages| && HasCall(messages[i], TASK)
    requires Calls(messages[..i], WRITE_TODOS) < b.maxPlanUpdates
    ensures !UnplannedFailure(messages[..i])
  {
    CountIsCalls(messages[..i], WRITE_TODOS);
    var k :| 0 <= k < |Offered(b, messages[..i], tools)| && ToolName(Offered(b, messages[..i], tools)[k]) == Some(TASK);
    OfferedOnlyIfAllowed(b, messages[..i], tools, k);
  }

  lemma OffersIffAllowed(b: Budget, messages: seq<Message>, tools: seq<Tool>, name: string)
    requires Named(name) in tools
    ensures Offers(b, messages, tools, name) <==> Allowed(b, messages, Named(name))
  {
    if Allowed(b, messages, Named(name)) {
      OfferedIfAllowed(b, messages, tools, Named(name));
      var k :| 0 <= k < |Offered(b, messages, tools)| && Offered(b, messages, tools)[k] == Named(name);
      assert ToolName(Offered(b, messages, tools)[k]) == Some(name);
    }
    if Offers(b, messages, tools, name) {
      var k :| 0 <= k < |Offered(b, messages, tools)| && ToolName(Offered(b, messages, tools)[k]) == Some(name);
      OfferedOnlyIfAllowed(b, messages, tools, k);
    }
  }

  /** Exactly when the gate does not hold: an unplanned failure is followed by an offer to delegate if
      and only if the plan updates are used up and delegations are not. */
  lemma GateIsSkippedIff(b: Budget, messages: seq<Message>, tools: seq<Tool>)
    requires Named(TASK) in tools && UnplannedFailure(messages)
    ensures Offers(b, messages, tools, TASK) <==>
              Calls(messages, WRITE_TODOS) >= b.maxPlanUpdates && Calls(messages, TASK) < b.maxDelegations
  {
    CountIsCalls(messages, TASK);
    CountIsCalls(messages, WRITE_TODOS);
    OffersIffAllowed(b, messages, tools, TASK);
  }

  lemma MarkersAreFailures(marker: string)
    requires marker in FAILURE_MARKERS
    ensures IsFailure(ToolResult(marker))
  {
    assert marker[0..][..|marker|] == marker;
    assert Contains(marker, marker);
  }

  /** One more message: it stays a conversation if its calls are offered. */
  lemma OneMore(b: Budget, tools: seq<Tool>, messages: seq<Message>, m: Message)
    requires Conversation(b, tools, messages)
    requires m.Assistant? ==> forall c :: c in m.calls ==> Offers(b, messages, tools, c)
    ensures Conversation(b, tools, messages + [m])
    ensures AllCalls(messages + [m]) == AllCalls(messages) + if m.Assistant? then m.calls else []
  {
    var all := messages + [m];
    assert all[..|messages|] == messages;
    assert forall i :: 0 <= i < |messages| ==> all[..i] == messages[..i];
  }

  /** A conversation of plan updates alone. */
  lemma {:induction false} OnlyPlans(b: Budget, tools: seq<Tool>, n: nat) returns (messages: seq<Message>)
    requires Named(WRITE_TODOS) in tools && n <= b.maxPlanUpdates
    ensures Conversation(b, tools, messages) && |messages| == n
    ensures Calls(messages, WRITE_TODOS) == n && Calls(messages, TASK) == 0
  {
    if n == 0 {
      messages := [];
    } else {
      var earlier := OnlyPlans(b, tools, n - 1);
      CountIsCalls(earlier, WRITE_TODOS);
      OffersIffAllowed(b, earlier, tools, WRITE_TODOS);
      OneMore(b, tools, earlier, Assistant([WRITE_TODOS]));
      messages := earlier + [Assistant([WRITE_TODOS])];
      assert WRITE_TODOS != TASK;
    }
  }

  /** Whatever the budget, some conversation skips the gate: the plan updates are used up, something
      fails, and delegation is offered without a new plan. */
  lemma GateCanBeSkipped(b: Budget, tools: seq<Tool>) returns (messages: seq<Message>)
    requires ValidBudget(b) && Named(TASK) in tools && Named(WRITE_TODOS) in tools
    ensures Conversation(b, tools, messages) && UnplannedFailure(messages) && Offers(b, messages, tools, TASK)
  {
    var plans := OnlyPlans(b, tools, b.maxPlanUpdates);
    OneMore(b, tools, plans, ToolResult("timeout"));
    messages := plans + [ToolResult("timeout")];
    MarkersAreFailures("timeout");
    assert IsFailure(messages[|plans|]) && NoPlanAfter(messages, |plans|);
    GateIsSkippedIff(b, messages, tools);
  }

  /** Delegation and planning are both withheld exactly when both budgets are used up, so a failure
      alone never leaves the model without either. */
  lemma BothWithheldIff(b: Budget, messages: seq<Message>, tools: seq<Tool>)
    requires Named(TASK) in tools && Named(WRITE_TODOS) in tools
    ensures !Offers(b, messages, tools, TASK) && !Offers(b, messages, tools, WRITE_TODOS) <==>
              Calls(messages, TASK) >= b.maxDelegations && Calls(messages, WRITE_TODOS) >= b.maxPlanUpdates
  {
    CountIsCalls(messages, TASK);
    CountIsCalls(messages, WRITE_TODOS);
    OffersIffAllowed(b, messages, tools, TASK);
    OffersIffAllowed(b, messages, tools, WRITE_TODOS);
  }

  lemma FailureAfterPrefix(before: seq<Message>, later: seq<Message>)
    requires UnplannedFailure(later)
    ensures UnplannedFailure(before + later)
  {
    var i :| 0 <= i < |later| && IsFailure(later[i]) && NoPlanAfter(later, i);
    var all, n := before + later, |before|;
    assert all[n + i] == later[i];
    assert NoPlanAfter(all, n + i) by {
      assert forall j :: n + i < j < |all| ==> all[j] == later[j - n];
    }
  }

  lemma FailureNotBeforePlan(messages: seq<Message>, plan: Message, later: seq<Message>)
    requires IsPlan(plan) && UnplannedFailure(messages + [plan] + later)
    ensures UnplannedFailure(later)
  {
    var all, n := messages + [plan] + later, |messages| + 1;
    var i :| 0 <= i < |all| && IsFailure(all[i]) && NoPlanAfter(all, i);
    assert i >= n by { assert all[n - 1] == plan; }
    assert later[i - n] == all[i];
    assert NoPlanAfter(later, i - n) by {
      assert forall j :: 0 <= j < |later| ==> later[j] == all[j + n];
    }
  }

  /** A plan update reopens the gate, and only a later failure closes it again. */
  lemma PlanReopensGate(messages: seq<Message>, plan: Message, later: seq<Message>)
    requires IsPlan(plan)
    ensures UnplannedFailure(messages + [plan] + later) <==> UnplannedFailure(later)
  {
    if UnplannedFailure(later) { FailureAfterPrefix(messages + [plan], later); }
    if UnplannedFailure(messages + [plan] + later) { FailureNotBeforePlan(messages, plan, later); }
  }
}
