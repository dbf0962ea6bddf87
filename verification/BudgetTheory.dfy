/** The daily budget recovers: an agent that is over its limit is woken until it is not. */
module BudgetTheory {
  import opened Wrappers
  import opened FlowTypes
  import opened Triggers
  import opened DailyBudget

  /** The charges no earlier than a given time. */
  function Since(cs: seq<Charge>, from: int): seq<Charge> {
    if cs == [] then []
    else Since(cs[..|cs| - 1], from) + if cs[|cs| - 1].at >= from then [cs[|cs| - 1]] else []
  }

  lemma SinceSnoc(cs: seq<Charge>, c: Charge, from: int)
    ensures Since(cs + [c], from) == Since(cs, from) + if c.at >= from then [c] else []
  {
    assert (cs + [c])[..|cs|] == cs;
  }

  lemma {:induction false} SinceConcat(a: seq<Charge>, b: seq<Charge>, from: int)
    ensures Since(a + b, from) == Since(a, from) + Since(b, from)
    decreases |b|
  {
    if b == [] {
      assert a + b == a;
    } else {
      var init, c := b[..|b| - 1], b[|b| - 1];
      SinceConcat(a, init, from);
      assert a + b == a + init + [c];
      SinceSnoc(a + init, c, from);
    }
  }

  // ------------------------------------------- what counts, and for how long

  /** The window moves on: without new completions, what counts later is what counts now and is still in the window. */
  lemma {:induction false} FlowWindowMoves(agent: string, agents: map<string, string>, steps: seq<StepStatus>, now: int,
          later: int)
    requires now <= later
    ensures FlowCharges(agent, agents, steps, later) == Since(FlowCharges(agent, agents, steps, now), later - DAY)
    decreases |steps|
  {
    if steps != [] {
      FlowWindowMoves(agent, agents, steps[..|steps| - 1], now, later);
      var st := steps[|steps| - 1];
      if Counts(agent, agents, st, now) {
        SinceSnoc(FlowCharges(agent, agents, steps[..|steps| - 1], now), ChargeOf(st), later - DAY);
      } else {
        assert FlowCharges(agent, agents, steps, now) == FlowCharges(agent, agents, steps[..|steps| - 1], now);
      }
    }
  }

  lemma {:induction false} WindowMoves(agent: string, flows: seq<FlowView>, now: int, later: int)
    requires now <= later
    ensures Charges(agent, flows, later) == Since(Charges(agent, flows, now), later - 86_400 * SECOND)
    decreases |flows|
  {
    if flows != [] {
      var f := flows[|flows| - 1];
      WindowMoves(agent, flows[..|flows| - 1], now, later);
      FlowWindowMoves(agent, StepAgents(f.spec.steps), f.steps, now, later);
      SinceConcat(Charges(agent, flows[..|flows| - 1], now),
          FlowCharges(agent, StepAgents(f.spec.steps), f.steps, now), later - DAY);
    }
  }

  /** The last step of that name is the agent's. */
  ghost predicate RunBy(steps: seq<Step>, name: string, agent: string) {
    exists i :: 0 <= i < |steps| && steps[i].name == name && steps[i].agent == agent
                && forall k :: i < k < |steps| ==> steps[k].name != name
  }

  lemma {:induction false} AgentOfLast(steps: seq<Step>, name: string, agent: string)
    ensures name in StepAgents(steps) && StepAgents(steps)[name] == agent <==> RunBy(steps, name, agent)
    ensures name !in StepAgents(steps) ==> forall i :: 0 <= i < |steps| ==> steps[i].name != name
    decreases |steps|
  {
    if steps != [] {
      var init, last := steps[..|steps| - 1], steps[|steps| - 1];
      AgentOfLast(init, name, agent);
      if last.name == name && last.agent == agent {
        assert steps[|steps| - 1].name == name;
      } else if i :| 0 <= i < |init| && init[i].name == name && init[i].agent == agent
                     && last.name != name && forall k :: i < k < |init| ==> init[k].name != name {
        assert steps[i].name == name;
      }
    }
  }

  /** The record is of a step of this agent, has tokens, and completed within the last 24 hours. */
  ghost predicate Recent(agent: string, flow: FlowView, now: int, st: StepStatus) {
    && RunBy(flow.spec.steps, st.name, agent) && st.tokens.Some?
    && st.completionTime.Some? && st.completionTime.value >= now - 86_400 * SECOND
  }

  lemma CountsIffRecent(agent: string, flow: FlowView, now: int, st: StepStatus)
    ensures Counts(agent, StepAgents(flow.spec.steps), st, now) <==> Recent(agent, flow, now, st)
  {
    AgentOfLast(flow.spec.steps, st.name, agent);
  }

  /** A record of the flow counts, and this is its charge. */
  ghost predicate Charged(agent: string, flow: FlowView, now: int, j: nat, c: Charge) {
    && j < |flow.steps| && Recent(agent, flow, now, flow.steps[j])
    && var st := flow.steps[j];
    c == Charge(st.completionTime.value, st.tokens.value.input, st.tokens.value.output, st.tokens.value.total)
  }

  /** The same of one of the flows. */
  ghost predicate IsCharged(agent: string, flows: seq<FlowView>, now: int, f: nat, j: nat, c: Charge) {
    f < |flows| && Charged(agent, flows[f], now, j, c)
  }

  lemma {:induction false} FlowChargesExact(agent: string, agents: map<string, string>, steps: seq<StepStatus>,
          now: int, c: Charge)
    ensures c in FlowCharges(agent, agents, steps, now) <==>
            exists j: nat :: j < |steps| && Counts(agent, agents, steps[j], now) && c == ChargeOf(steps[j])
    decreases |steps|
  {
    if steps != [] {
      FlowChargesExact(agent, agents, steps[..|steps| - 1], now, c);
      if j: nat :| j < |steps| && Counts(agent, agents, steps[j], now) && c == ChargeOf(steps[j]) {
        if j < |steps| - 1 {
          assert steps[..|steps| - 1][j] == steps[j];
        }
      }
    }
  }

  lemma FlowIsCharged(agent: string, flow: FlowView, now: int, c: Charge)
    ensures c in FlowCharges(agent, StepAgents(flow.spec.steps), flow.steps, now) <==>
            exists j: nat :: Charged(agent, flow, now, j, c)
  {
    var agents := StepAgents(flow.spec.steps);
    FlowChargesExact(agent, agents, flow.steps, now, c);
    forall j: nat | j < |flow.steps|
      ensures Counts(agent, agents, flow.steps[j], now) <==> Recent(agent, flow, now, flow.steps[j])
    {
      CountsIffRecent(agent, flow, now, flow.steps[j]);
    }
    if c in FlowCharges(agent, agents, flow.steps, now) {
      var j: nat :| j < |flow.steps| && Counts(agent, agents, flow.steps[j], now) && c == ChargeOf(flow.steps[j]);
      assert Charged(agent, flow, now, j, c);
    }
  }

  /** A charge of the last flow, or of one before it. */
  lemma IsChargedSnoc(agent: string, flows: seq<FlowView>, now: int, c: Charge)
    requires flows != []
    ensures
      var init, last := flows[..|flows| - 1], flows[|flows| - 1];
      (exists f: nat, j: nat :: IsCharged(agent, flows, now, f, j, c)) <==>
      (exists f: nat, j: nat :: IsCharged(agent, init, now, f, j, c)) ||
      exists j: nat :: Charged(agent, last, now, j, c)
  {
    var init, last := flows[..|flows| - 1], flows[|flows| - 1];
    if f: nat, j: nat :| IsCharged(agent, flows, now, f, j, c) {
      assert f < |init| ==> IsCharged(agent, init, now, f, j, c);
    }
    if f: nat, j: nat :| IsCharged(agent, init, now, f, j, c) {
      assert IsCharged(agent, flows, now, f, j, c);
    }
    if j: nat :| Charged(agent, last, now, j, c) {
      assert IsCharged(agent, flows, now, |flows| - 1, j, c);
    }
  }

  /** The charges are those of the records of this agent's steps that completed within the last day, and no others. */
  lemma {:induction false} ChargesExact(agent: string, flows: seq<FlowView>, now: int, c: Charge)
    ensures c in Charges(agent, flows, now) <==> exists f: nat, j: nat :: IsCharged(agent, flows, now, f, j, c)
    decreases |flows|
  {
    if flows != [] {
      var init, last := flows[..|flows| - 1], flows[|flows| - 1];
      ChargesExact(agent, init, now, c);
      FlowIsCharged(agent, last, now, c);
      IsChargedSnoc(agent, flows, now, c);
    }
  }

  // ------------------------------------------------ what they add up to

  function Plus(a: TokenUsage, b: TokenUsage): TokenUsage {
    TokenUsage(a.input + b.input, a.output + b.output, a.total + b.total)
  }

  /** What one record adds to the usage: its tokens if it counts. */
  ghost function Share(agent: string, flow: FlowView, now: int, st: StepStatus): TokenUsage {
    if Recent(agent, flow, now, st) then st.tokens.value else TokenUsage(0, 0, 0)
  }

  /** The shares of records of a flow. */
  ghost function FlowShares(agent: string, flow: FlowView, now: int, steps: seq<StepStatus>): TokenUsage {
    if steps == [] then TokenUsage(0, 0, 0)
    else Plus(FlowShares(agent, flow, now, steps[..|steps| - 1]), Share(agent, flow, now, steps[|steps| - 1]))
  }

  /** The shares of all records of all flows. */
  ghost function Shares(agent: string, flows: seq<FlowView>, now: int): TokenUsage {
    if flows == [] then TokenUsage(0, 0, 0)
    else
      var last := flows[|flows| - 1];
      Plus(Shares(agent, flows[..|flows| - 1], now), FlowShares(agent, last, now, last.steps))
  }

  lemma {:induction false} UsageConcat(a: seq<Charge>, b: seq<Charge>)
    ensures Usage(a + b) == Plus(Usage(a), Usage(b))
    decreases |b|
  {
    if b == [] {
      assert a + b == a;
    } else {
      var init, c := b[..|b| - 1], b[|b| - 1];
      UsageConcat(a, init);
      assert a + b == a + init + [c] && b == init + [c];
      UsageSnoc(a + init, c);
      UsageSnoc(init, c);
    }
  }

  lemma UsageOne(c: Charge)
    ensures Usage([c]) == TokenUsage(c.input, c.output, c.total)
  {
    assert [] + [c] == [c];
    UsageSnoc([], c);
  }

  lemma ShareAdds(agent: string, flow: FlowView, now: int, st: StepStatus, before: seq<Charge>)
    ensures
      var more := if Counts(agent, StepAgents(flow.spec.steps), st, now) then [ChargeOf(st)] else [];
      Usage(before + more) == Plus(Usage(before), Share(agent, flow, now, st))
  {
    CountsIffRecent(agent, flow, now, st);
    if Counts(agent, StepAgents(flow.spec.steps), st, now) {
      UsageConcat(before, [ChargeOf(st)]);
      UsageOne(ChargeOf(st));
    } else {
      assert before + [] == before;
    }
  }

  lemma {:induction false} FlowUsage(agent: string, flow: FlowView, now: int, steps: seq<StepStatus>)
    ensures
      Usage(FlowCharges(agent, StepAgents(flow.spec.steps), steps, now)) == FlowShares(agent, flow, now, steps)
    decreases |steps|
  {
    if steps != [] {
      var init, st := steps[..|steps| - 1], steps[|steps| - 1];
      FlowUsage(agent, flow, now, init);
      ShareAdds(agent, flow, now, st, FlowCharges(agent, StepAgents(flow.spec.steps), init, now));
    }
  }

  /** The usage is the sum of the tokens of all records that count, each once. */
  lemma {:induction false} UsageIsShares(agent: string, flows: seq<FlowView>, now: int)
    ensures Usage(Charges(agent, flows, now)) == Shares(agent, flows, now)
    decreases |flows|
  {
    if flows != [] {
      var init, last := flows[..|flows| - 1], flows[|flows| - 1];
      UsageIsShares(agent, init, now);
      FlowUsage(agent, last, now, last.steps);
      UsageConcat(Charges(agent, init, now), FlowCharges(agent, StepAgents(last.spec.steps), last.steps, now));
    }
  }

  /** Earliest is the earliest. */
  lemma {:induction false} EarliestIsLeast(cs: seq<Charge>)
    ensures Earliest(cs).None? <==> cs == []
    ensures Earliest(cs).Some? ==> forall c :: c in cs ==> Earliest(cs).value <= c.at
    ensures Earliest(cs).Some? ==> exists c :: c in cs && c.at == Earliest(cs).value
    decreases |cs|
  {
    if cs != [] {
      EarliestIsLeast(cs[..|cs| - 1]);
      assert cs == cs[..|cs| - 1] + [cs[|cs| - 1]];
    }
  }

  lemma {:induction false} SinceShrinks(cs: seq<Charge>, from: int)
    ensures |Since(cs, from)| <= |cs|
    ensures (exists c :: c in cs && c.at < from) ==> |Since(cs, from)| < |cs|
    decreases |cs|
  {
    if cs != [] {
      SinceShrinks(cs[..|cs| - 1], from);
      assert cs == cs[..|cs| - 1] + [cs[|cs| - 1]];
    }
  }

  // ----------------------------------------------------------------- recovery

  /** What a look at the agent finds. */
  predicate Exceeded(agent: string, limit: int, flows: seq<FlowView>, now: int) {
    Reviewed(limit, Charges(agent, flows, now), now).0.exceeded
  }

  function Delay(agent: string, limit: int, flows: seq<FlowView>, now: int): int {
    Reviewed(limit, Charges(agent, flows, now), now).1
  }

  /**
   * An agent over its limit has an earliest charge, and is looked at again a minute after that charge leaves the
   * window: the delay is positive, and the one-hour fallback is never used.
   */
  lemma RequeueIsPositive(agent: string, limit: int, flows: seq<FlowView>, now: int)
    requires Exceeded(agent, limit, flows, now)
    ensures Earliest(Charges(agent, flows, now)).Some?
    ensures
      Delay(agent, limit, flows, now)
      == Earliest(Charges(agent, flows, now)).value + 86_400 * SECOND - now + 60 * SECOND >= 60 * SECOND
  {
    var cs := Charges(agent, flows, now);
    EarliestIsLeast(cs);
    assert cs != [];
    var c :| c in cs && c.at == Earliest(cs).value;
    ChargesExact(agent, flows, now, c);
  }

  /** No charge is earlier than this one. */
  ghost predicate IsFirst(agent: string, flows: seq<FlowView>, now: int, f: nat, j: nat, c: Charge) {
    && IsCharged(agent, flows, now, f, j, c)
    && forall g: nat, k: nat, d :: IsCharged(agent, flows, now, g, k, d) ==> c.at <= d.at
  }

  lemma FirstCharge(agent: string, flows: seq<FlowView>, now: int) returns (f: nat, j: nat, c: Charge)
    requires Charges(agent, flows, now) != []
    ensures IsFirst(agent, flows, now, f, j, c) && Earliest(Charges(agent, flows, now)) == Some(c.at)
  {
    var cs := Charges(agent, flows, now);
    EarliestIsLeast(cs);
    c :| c in cs && c.at == Earliest(cs).value;
    ChargesExact(agent, flows, now, c);
    f, j :| IsCharged(agent, flows, now, f, j, c);
    forall g: nat, k: nat, d | IsCharged(agent, flows, now, g, k, d)
      ensures c.at <= d.at
    {
      ChargesExact(agent, flows, now, d);
    }
  }

  /**
   * A look at the agent: without a positive limit it is cleared. Otherwise its usage is what the records that count
   * add up to, and it is over its limit exactly when that has reached the limit; then it is looked at again a minute
   * after the first of them is 24 hours old.
   */
  lemma ReviewsWell(agent: string, limit: int, flows: seq<FlowView>, now: int)
    ensures
      var (status, delay) := Reviewed(limit, Charges(agent, flows, now), now);
      var used := Shares(agent, flows, now);
      if limit <= 0 then status == AgentStatus(false, None) && delay == 0
      else
        && status == AgentStatus(used.total >= limit, Some(used))
        && (used.total < limit ==> delay == 0)
        && (used.total >= limit ==>
              exists f: nat, j: nat, c :: IsFirst(agent, flows, now, f, j, c)
                                          && delay == c.at + 86_400 * SECOND + 60 * SECOND - now)
  {
    UsageIsShares(agent, flows, now);
    if limit > 0 && Shares(agent, flows, now).total >= limit {
      RequeueIsPositive(agent, limit, flows, now);
      EarliestIsLeast(Charges(agent, flows, now));
      var f, j, c := FirstCharge(agent, flows, now);
    }
  }

  /** By then at least that charge is gone, */
  lemma FirstExpires(agent: string, limit: int, flows: seq<FlowView>, now: int, later: int) returns (c: Charge)
    requires Exceeded(agent, limit, flows, now) && later >= now + Delay(agent, limit, flows, now)
    ensures c in Charges(agent, flows, now) && c.at < later - DAY && now <= later
  {
    RequeueIsPositive(agent, limit, flows, now);
    var cs := Charges(agent, flows, now);
    EarliestIsLeast(cs);
    c :| c in cs && c.at == Earliest(cs).value;
  }

  /** so there are fewer, if nothing new has completed. */
  lemma WakeupDropsOne(agent: string, limit: int, flows: seq<FlowView>, now: int, later: int)
    requires Exceeded(agent, limit, flows, now) && later >= now + Delay(agent, limit, flows, now)
    ensures |Charges(agent, flows, later)| < |Charges(agent, flows, now)|
  {
    var c := FirstExpires(agent, limit, flows, now, later);
    WindowMoves(agent, flows, now, later);
    SinceShrinks(Charges(agent, flows, now), later - DAY);
  }

  /** The times at which an agent is looked at: each no earlier than the one before asked for. */
  ghost predicate Wakeups(agent: string, limit: int, flows: seq<FlowView>, times: seq<int>) {
    forall k :: 0 <= k < |times| - 1 ==> times[k + 1] >= times[k] + Delay(agent, limit, flows, times[k])
  }

  /**
   * Without new completions the wakeups end the excess after at most as many looks as there were charges in the
   * window.
   */
  lemma {:induction false} BudgetRecovers(agent: string, limit: int, flows: seq<FlowView>, times: seq<int>)
    returns (k: nat)
    requires Wakeups(agent, limit, flows, times) && times != [] && |Charges(agent, flows, times[0])| < |times|
    ensures k < |times| && k <= |Charges(agent, flows, times[0])| && !Exceeded(agent, limit, flows, times[k])
    decreases |times|
  {
    if !Exceeded(agent, limit, flows, times[0]) {
      k := 0;
    } else {
      RequeueIsPositive(agent, limit, flows, times[0]);
      EarliestIsLeast(Charges(agent, flows, times[0]));
      assert |times| > 1;
      WakeupDropsOne(agent, limit, flows, times[0], times[1]);
      k := BudgetRecovers(agent, limit, flows, times[1..]);
      k := k + 1;
    }
  }

  lemma {:induction false} UsageOnlyFalls(cs: seq<Charge>, from: int)
    requires forall c :: c in cs ==> c.total >= 0
    ensures Usage(Since(cs, from)).total <= Usage(cs).total
    decreases |cs|
  {
    if cs != [] {
      var init, c := cs[..|cs| - 1], cs[|cs| - 1];
      assert cs == init + [c];
      UsageOnlyFalls(init, from);
      UsageSnoc(init, c);
      if c.at >= from {
        UsageSnoc(Since(init, from), c);
      } else {
        assert Since(cs, from) == Since(init, from);
      }
    }
  }

  /** And an agent within its limit stays within it. */
  lemma StaysWithin(agent: string, limit: int, flows: seq<FlowView>, now: int, later: int)
    requires !Exceeded(agent, limit, flows, now) && now <= later
    requires forall c :: c in Charges(agent, flows, now) ==> c.total >= 0
    ensures !Exceeded(agent, limit, flows, later)
  {
    WindowMoves(agent, flows, now, later);
    UsageOnlyFalls(Charges(agent, flows, now), later - DAY);
  }

  /** The agent is scaled to zero exactly while its usage has reached a positive limit, or it is asked to be. */
  lemma ScaledToZeroIff(agent: string, limit: int, flows: seq<FlowView>, now: int, wanted: Option<int>)
    ensures
      Replicas(wanted, Reviewed(limit, Charges(agent, flows, now), now).0) == 0 <==>
          || (limit > 0 && Shares(agent, flows, now).total >= limit)
          || wanted == Some(0)
  {
    UsageIsShares(agent, flows, now);
  }
}
