/** The rolling daily token budget of internal/controller/arkagent_controller.go. Times are in nanoseconds. */
module DailyBudget {
  import opened Wrappers
  import opened FlowTypes
  import opened History
  import opened Triggers

  const MINUTE := 60 * SECOND
  const HOUR := 60 * MINUTE

  /** A flow as the agent's controller sees it: its specification and its step records. */
  datatype FlowView = FlowView(spec: FlowSpec, steps: seq<StepStatus>)

  /** A finished step that spent tokens. */
  datatype Charge = Charge(at: int, input: int, output: int, total: int)

  /** The agent of a step; with duplicate names the last step wins. */
  function StepAgents(steps: seq<Step>): map<string, string> {
    if steps == [] then map[] else StepAgents(steps[..|steps| - 1])[steps[|steps| - 1].name := steps[|steps| - 1].agent]
  }

  /** Whether a step record counts against the agent, at the time of the look. */
  predicate Counts(agent: string, agents: map<string, string>, st: StepStatus, now: int) {
    && st.name in agents && agents[st.name] == agent
    && st.tokens.Some? && st.completionTime.Some? && st.completionTime.value >= now - DAY
  }

  function ChargeOf(st: StepStatus): Charge
    requires st.tokens.Some? && st.completionTime.Some?
  {
    Charge(st.completionTime.value, st.tokens.value.input, st.tokens.value.output, st.tokens.value.total)
  }

  function FlowCharges(agent: string, agents: map<string, string>, steps: seq<StepStatus>, now: int): seq<Charge> {
    if steps == [] then []
    else
      var st := steps[|steps| - 1];
      FlowCharges(agent, agents, steps[..|steps| - 1], now) + if Counts(agent, agents, st, now) then [ChargeOf(st)]
          else []
  }

  /** Everything the agent spent in the last day, in the order in which it is found. */
  function Charges(agent: string, flows: seq<FlowView>, now: int): seq<Charge> {
    if flows == [] then []
    else
      var f := flows[|flows| - 1];
      Charges(agent, flows[..|flows| - 1], now) + FlowCharges(agent, StepAgents(f.spec.steps), f.steps, now)
  }

  function Inputs(cs: seq<Charge>): (s: seq<int>)
    ensures |s| == |cs|
  {
    seq(|cs|, i requires 0 <= i < |cs| => cs[i].input)
  }

  function Outputs(cs: seq<Charge>): (s: seq<int>)
    ensures |s| == |cs|
  {
    seq(|cs|, i requires 0 <= i < |cs| => cs[i].output)
  }

  function Totals(cs: seq<Charge>): (s: seq<int>)
    ensures |s| == |cs|
  {
    seq(|cs|, i requires 0 <= i < |cs| => cs[i].total)
  }

  function Usage(cs: seq<Charge>): TokenUsage {
    TokenUsage(Sum(Inputs(cs)), Sum(Outputs(cs)), Sum(Totals(cs)))
  }

  /** The time of the earliest charge. */
  function Earliest(cs: seq<Charge>): Option<int> {
    if cs == [] then None
    else
      var before, c := Earliest(cs[..|cs| - 1]), cs[|cs| - 1];
      if before.None? || c.at < before.value then Some(c.at) else before
  }

  datatype AgentStatus = AgentStatus(exceeded: bool, usage: Option<TokenUsage>)

  /** reconcileDailyBudget: the agent's new status, and in how long it is to be looked at again (0 is never). */
  function Reviewed(limit: int, cs: seq<Charge>, now: int): (AgentStatus, int) {
    if limit <= 0 then (AgentStatus(false, None), 0)
    else if Usage(cs).total >= limit then
      (AgentStatus(true, Some(Usage(cs))), if Earliest(cs).Some? then Earliest(cs).value + DAY - now + MINUTE else HOUR)
    else (AgentStatus(false, Some(Usage(cs))), 0)
  }

  /** buildDeployment's number of replicas. */
  function Replicas(wanted: Option<int>, st: AgentStatus): int {
    if st.exceeded then 0 else wanted.GetOr(1)
  }

  class ArkAgent {
    const name: string
    const maxDailyTokens: Option<int>
    const wanted: Option<int>
    var exceeded: bool
    var usage: Option<TokenUsage>

    constructor (name: string, maxDailyTokens: Option<int>, wanted: Option<int>)
      ensures this.name == name && this.maxDailyTokens == maxDailyTokens && this.wanted == wanted
      ensures State() == AgentStatus(false, None)
    {
      this.name, this.maxDailyTokens, this.wanted := name, maxDailyTokens, wanted;
      exceeded, usage := false, None;
    }

    function State(): AgentStatus
      reads this
    {
      AgentStatus(exceeded, usage)
    }

    method IndexAgents(steps: seq<Step>) returns (agents: map<string, string>)
      ensures agents == StepAgents(steps)
    {
      agents := map[];
      for i := 0 to |steps|
        invariant agents == StepAgents(steps[..i])
      {
        assert steps[..i + 1][..i] == steps[..i];
        agents := agents[steps[i].name := steps[i].agent];
      }
      assert steps[..|steps|] == steps;
    }

    method AddCharge(u: TokenUsage, earliest: Option<int>, c: Charge, ghost cs: seq<Charge>)
      returns (u': TokenUsage, earliest': Option<int>)
      requires u == Usage(cs) && earliest == Earliest(cs)
      ensures u' == Usage(cs + [c]) && earliest' == Earliest(cs + [c])
    {
      UsageSnoc(cs, c);
      u' := TokenUsage(u.input + c.input, u.output + c.output, u.total + c.total);
      earliest' := if earliest.None? || c.at < earliest.value then Some(c.at) else earliest;
    }

    /** The inner loop, over one flow's records. */
    method AddFlow(f: FlowView, now: int, u: TokenUsage, earliest: Option<int>, ghost cs: seq<Charge>)
      returns (u': TokenUsage, earliest': Option<int>)
      requires u == Usage(cs) && earliest == Earliest(cs)
      ensures
        var all := cs + FlowCharges(name, StepAgents(f.spec.steps), f.steps, now);
        u' == Usage(all) && earliest' == Earliest(all)
    {
      var agents := IndexAgents(f.spec.steps);
      u', earliest' := u, earliest;
      ghost var found: seq<Charge> := [];
      assert cs + [] == cs;
      for i := 0 to |f.steps|
        invariant found == FlowCharges(name, agents, f.steps[..i], now)
        invariant u' == Usage(cs + found) && earliest' == Earliest(cs + found)
      {
        var st := f.steps[i];
        assert f.steps[..i + 1][..i] == f.steps[..i];
        if st.name in agents && agents[st.name] == name && st.tokens.Some? && st.completionTime.Some?
           && st.completionTime.value >= now - DAY {
          u', earliest' := AddCharge(u', earliest', ChargeOf(st), cs + found);
          assert cs + found + [ChargeOf(st)] == cs + (found + [ChargeOf(st)]);
          found := found + [ChargeOf(st)];
        }
      }
      assert f.steps[..|f.steps|] == f.steps;
    }

    method ReconcileDailyBudget(flows: seq<FlowView>, now: int) returns (requeueAfter: int)
      modifies this
      ensures (State(), requeueAfter) == Reviewed(maxDailyTokens.GetOr(0), Charges(name, flows, now), now)
    {
      var limit := maxDailyTokens.GetOr(0);
      if limit <= 0 {
        exceeded, usage := false, None;
        return 0;
      }
      var u: TokenUsage, earliest: Option<int> := TokenUsage(0, 0, 0), None;
      for i := 0 to |flows|
        invariant u == Usage(Charges(name, flows[..i], now)) && earliest == Earliest(Charges(name, flows[..i], now))
      {
        assert flows[..i + 1][..i] == flows[..i];
        u, earliest := AddFlow(flows[i], now, u, earliest, Charges(name, flows[..i], now));
      }
      assert flows[..|flows|] == flows;
      usage := Some(u);
      exceeded := u.total >= limit;
      if !exceeded {
        return 0;
      }
      if earliest.Some? {
        return earliest.value + DAY - now + MINUTE;
      }
      return HOUR;
    }

    method BuildDeployment() returns (replicas: int)
      ensures replicas == Replicas(wanted, State())
    {
      replicas := 1;
      if wanted.Some? {
        replicas := wanted.value;
      }
      if exceeded {
        replicas := 0;
      }
    }

    /**
     * Reviews the budget, then builds the deployment: the agent is scaled to zero exactly while its usage of the last
     * day has reached a positive limit, or because it was asked to be, and otherwise has the replicas asked for.
     */
    method Reconcile(flows: seq<FlowView>, now: int) returns (replicas: int, requeueAfter: int)
      modifies this
      ensures (State(), requeueAfter) == Reviewed(maxDailyTokens.GetOr(0), Charges(name, flows, now), now)
      ensures
        var limit, used := maxDailyTokens.GetOr(0), Usage(Charges(name, flows, now)).total;
        && (replicas == 0 <==> (limit > 0 && used >= limit) || wanted == Some(0))
        && (replicas != 0 ==> replicas == wanted.GetOr(1))
    {
      requeueAfter := ReconcileDailyBudget(flows, now);
      replicas := BuildDeployment();
    }
  }

  lemma UsageSnoc(cs: seq<Charge>, c: Charge)
    ensures
      var u := Usage(cs);
      Usage(cs + [c]) == TokenUsage(u.input + c.input, u.output + c.output, u.total + c.total)
    ensures Earliest(cs + [c]) == if Earliest(cs).None? || c.at < Earliest(cs).value then Some(c.at) else Earliest(cs)
  {
    assert Inputs(cs + [c])[..|cs|] == Inputs(cs);
    assert Outputs(cs + [c])[..|cs|] == Outputs(cs);
    assert Totals(cs + [c])[..|cs|] == Totals(cs);
    assert (cs + [c])[..|cs|] == cs;
  }
}
