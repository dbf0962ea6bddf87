/** The tokens that the agents of a local run report, and what the flow records of them. */
module LocalTokens {
  import opened FlowTypes
  import opened Templates
  import opened Engine
  import opened History
  import opened Passes
  import opened Meaning
  import opened Agreement
  import opened LocalRun
  import opened LocalTheory
  import opened LocalEnds
  import opened LocalOutcome

  function ReplyTokens(reply: Reply): nat {
    match reply
    case Answer(_, inTok, outTok) => inTok + outTok
    case Fault => 0
  }

  /** What the steps that run in a turn report. */
  function TurnColumn(env: Env, host: Host, spec: FlowSpec, steps: seq<StepStatus>, tick: nat): (c: seq<int>)
    requires |steps| == |spec.steps|
    ensures |c| == |steps|
  {
    var ready, data := Swept(env, host, spec, steps, tick).ready, Snapshot(env, spec, steps);
    seq(|steps|, i requires 0 <= i < |steps| =>
      if i in ready then ReplyTokens(ReplyTo(env, host, spec.steps[i], data, tick)) else 0)
  }

  /** All tokens reported in a run, from a given turn on. */
  function Consumed(env: Env, host: Host, spec: FlowSpec, st: Status, tick: nat): int
    requires |st.steps| == |spec.steps|
    decreases Fuel(spec, st.steps)
  {
    if IsTerminal(st.phase) || Swept(env, host, spec, st.steps, tick).ready == [] then 0
    else
      RanShrinks(env, host, spec, st.steps, tick);
      Sum(TurnColumn(env, host, spec, st.steps, tick)) + Consumed(env, host, spec, Batch(env, host, spec, st, tick),
          tick + 1)
  }

  /** Token counts are not negative, and without loops a step that is still to run has none. */
  ghost predicate Sensible(spec: FlowSpec, st: StepStatus) {
    && (st.tokens.Some? ==> st.tokens.value.input >= 0 && st.tokens.value.output >= 0)
    && (LoopFree(spec) && st.phase == Pending ==> st.tokens.None?)
  }

  ghost predicate AllSensible(spec: FlowSpec, steps: seq<StepStatus>) {
    forall i: nat :: i < |steps| ==> Sensible(spec, steps[i])
  }

  /** A record that gains at most `cost` tokens, and exactly so many if the flow has no loops. */
  ghost predicate Gains(spec: FlowSpec, before: StepStatus, after: StepStatus, cost: int) {
    && Sensible(spec, after) && TokensOf(after) <= TokensOf(before) + cost
    && (LoopFree(spec) ==> TokensOf(after) == TokensOf(before) + cost)
  }

  /** What a turn does to the token count of a record. */
  lemma RecordTokens(env: Env, spec: FlowSpec, step: Step, st: StepStatus, looped: StepStatus, swept: StepStatus,
          ran: StepStatus, data: Data, now: int, reply: Reply, at: int, ready: bool)
    requires Sensible(spec, st) && (LoopFree(spec) ==> step.loop.None?)
    requires looped == LoopOne(env, step, st, data)
    requires swept == looped || (looped.phase == Pending && swept == Stopped(looped, Skipped, now))
    requires ready ==> swept.phase == Pending
    requires
      ran == Parsed(env, step, if ready then Replied(Launched(swept, swept.taskID, now), reply, at) else swept)
    ensures Gains(spec, st, ran, if ready then ReplyTokens(reply) else 0)
  {
  }

  lemma ReadyIsPending(env: Env, host: Host, spec: FlowSpec, steps: seq<StepStatus>, tick: nat, i: nat)
    requires |steps| == |spec.steps| && i in Swept(env, host, spec, steps, tick).ready
    ensures i < |steps| && Swept(env, host, spec, steps, tick).steps[i].phase == Pending
  {
    SkipPassShape(env, spec, AfterLoops(env, spec, steps), Snapshot(env, spec, steps), host.clock(3 * tick), |steps|);
  }

  lemma SweptRecord(env: Env, host: Host, spec: FlowSpec, steps: seq<StepStatus>, tick: nat, i: nat)
    requires |steps| == |spec.steps| && i < |steps|
    ensures
      var looped, sweep := AfterLoops(env, spec, steps)[i], Swept(env, host, spec, steps, tick);
      && (|| sweep.steps[i] == looped
          || (looped.phase == Pending && sweep.steps[i] == Stopped(looped, Skipped, host.clock(3 * tick))))
      && (i in sweep.ready ==> sweep.steps[i].phase == Pending)
  {
    SkipPassShapeAt(env, spec, AfterLoops(env, spec, steps), Snapshot(env, spec, steps), host.clock(3 * tick), |steps|,
        i);
    if i in Swept(env, host, spec, steps, tick).ready {
      ReadyIsPending(env, host, spec, steps, tick, i);
    }
  }

  lemma RecordTokensAt(env: Env, host: Host, spec: FlowSpec, steps: seq<StepStatus>, tick: nat, i: nat)
    requires |steps| == |spec.steps| && i < |steps| && Sensible(spec, steps[i])
    ensures
      Gains(spec, steps[i], After(env, host, spec, steps, tick)[i], TurnColumn(env, host, spec, steps, tick)[i])
  {
    var data, sweep := Snapshot(env, spec, steps), Swept(env, host, spec, steps, tick);
    var looped, ran := AfterLoops(env, spec, steps), Ran(env, host, spec, steps, tick);
    SweptRecord(env, host, spec, steps, tick, i);
    RecordTokens(env, spec, spec.steps[i], steps[i], looped[i], sweep.steps[i], ran[i], data, host.clock(3 * tick),
                 ReplyTo(env, host, spec.steps[i], data, tick), host.clock(3 * tick + 1), i in sweep.ready);
  }

  /** If each entry gains at most its cost, all together gain at most the costs. */
  lemma {:induction false} ColumnsAdd(before: seq<int>, after: seq<int>, costs: seq<int>, exactly: bool)
    requires |before| == |after| == |costs|
    requires forall i :: 0 <= i < |before| ==> after[i] <= before[i] + costs[i]
    requires exactly ==> forall i :: 0 <= i < |before| ==> after[i] == before[i] + costs[i]
    ensures Sum(after) <= Sum(before) + Sum(costs)
    ensures exactly ==> Sum(after) == Sum(before) + Sum(costs)
    decreases |before|
  {
    if before != [] {
      var n := |before| - 1;
      ColumnsAdd(before[..n], after[..n], costs[..n], exactly);
    }
  }

  lemma RecordsGain(spec: FlowSpec, before: seq<StepStatus>, after: seq<StepStatus>, costs: seq<int>)
    requires |before| == |after| == |costs|
    requires forall i :: 0 <= i < |before| ==> Gains(spec, before[i], after[i], costs[i])
    ensures AllSensible(spec, after) && TokensUsed(after) <= TokensUsed(before) + Sum(costs)
    ensures LoopFree(spec) ==> TokensUsed(after) == TokensUsed(before) + Sum(costs)
  {
    forall i: nat | i < |before|
      ensures Sensible(spec, after[i])
    {
      assert Gains(spec, before[i], after[i], costs[i]);
    }
    TokensUsedIsColumn(after);
    TokensUsedIsColumn(before);
    ColumnsAdd(TokenColumn(before), TokenColumn(after), costs, LoopFree(spec));
  }

  /** A turn adds to the records no more than its agents report, and without loops exactly that. */
  lemma TurnTokens(env: Env, host: Host, spec: FlowSpec, steps: seq<StepStatus>, tick: nat)
    requires |steps| == |spec.steps| && AllSensible(spec, steps)
    ensures
      var after := After(env, host, spec, steps, tick);
      var cost := Sum(TurnColumn(env, host, spec, steps, tick));
      && AllSensible(spec, after) && TokensUsed(after) <= TokensUsed(steps) + cost
      && (LoopFree(spec) ==> TokensUsed(after) == TokensUsed(steps) + cost)
  {
    var after, costs := After(env, host, spec, steps, tick), TurnColumn(env, host, spec, steps, tick);
    forall i: nat | i < |steps|
      ensures Gains(spec, steps[i], after[i], costs[i])
    {
      RecordTokensAt(env, host, spec, steps, tick, i);
    }
    RecordsGain(spec, steps, after, costs);
  }

  lemma SensibleColumns(spec: FlowSpec, steps: seq<StepStatus>)
    requires AllSensible(spec, steps)
    ensures Sum(InputColumn(steps)) >= 0 && Sum(OutputColumn(steps)) >= 0
  {
    forall i: nat | i < |steps|
      ensures InputColumn(steps)[i] >= 0 && OutputColumn(steps)[i] >= 0
    {
      assert Sensible(spec, steps[i]);
    }
    SumNonNegative(InputColumn(steps));
    SumNonNegative(OutputColumn(steps));
  }

  /**
   * The records and the total account for at most the tokens reported so far, and without loops the records for all.
   */
  ghost predicate TokensMatch(spec: FlowSpec, st: Status, spent: int) {
    && AllSensible(spec, st.steps) && TokensUsed(st.steps) <= spent
    && (LoopFree(spec) ==> TokensUsed(st.steps) == spent)
    && (st.total.Some? ==> 0 < st.total.value.total <= spent)
    && (IsTerminal(st.phase) && LoopFree(spec) && !Late(spec, st) ==> TotalValue(st) == spent)
  }

  /** A verdict on records that account for the tokens. */
  lemma VerdictKeepsTokens(env: Env, spec: FlowSpec, st: Status, data: Data, now: int, spent: int)
    requires !IsTerminal(st.phase) && TokensMatch(spec, st, spent)
    ensures TokensMatch(spec, Verdict(env, spec, st, data, now), spent)
  {
    VerdictParts(env, spec, st, data, now);
    SensibleColumns(spec, st.steps);
  }

  lemma BatchKeepsTokens(env: Env, host: Host, spec: FlowSpec, st: Status, tick: nat, spent: int)
    requires |st.steps| == |spec.steps| && !IsTerminal(st.phase) && TokensMatch(spec, st, spent)
    ensures
      TokensMatch(spec, Batch(env, host, spec, st, tick), spent + Sum(TurnColumn(env, host, spec, st.steps, tick)))
  {
    var cost := Sum(TurnColumn(env, host, spec, st.steps, tick));
    TurnTokens(env, host, spec, st.steps, tick);
    CostIsNotNegative(env, host, spec, st.steps, tick);
    var before := st.(steps := After(env, host, spec, st.steps, tick));
    var data := Snapshot(env, spec, Seen(env, host, spec, st.steps, tick));
    VerdictKeepsTokens(env, spec, before, data, host.clock(3 * tick + 2), spent + cost);
  }

  lemma CostIsNotNegative(env: Env, host: Host, spec: FlowSpec, steps: seq<StepStatus>, tick: nat)
    requires |steps| == |spec.steps|
    ensures Sum(TurnColumn(env, host, spec, steps, tick)) >= 0
    ensures Swept(env, host, spec, steps, tick).ready == [] ==> Sum(TurnColumn(env, host, spec, steps, tick)) == 0
  {
    var c := TurnColumn(env, host, spec, steps, tick);
    SumNonNegative(c);
    if Swept(env, host, spec, steps, tick).ready == [] {
      SumMonotone(c, seq(|c|, _ => 0));
      SumZero(seq(|c|, _ => 0));
    }
  }

  lemma {:induction false} SumZero(s: seq<int>)
    requires forall i :: 0 <= i < |s| ==> s[i] == 0
    ensures Sum(s) == 0
  {
    if s != [] {
      SumZero(s[..|s| - 1]);
    }
  }

  /** The tokens of a run are those of its first turn and of the rest. */
  lemma ConsumedNext(env: Env, host: Host, spec: FlowSpec, st: Status, tick: nat)
    requires |st.steps| == |spec.steps|
    ensures LastOne(env, host, spec, st, tick) ==> Consumed(env, host, spec, st, tick) == 0
    ensures !LastOne(env, host, spec, st, tick) ==>
      Consumed(env, host, spec, st, tick) ==
      Sum(TurnColumn(env, host, spec, st.steps, tick))
      + Consumed(env, host, spec, Batch(env, host, spec, st, tick), tick + 1)
  {
  }

  lemma LastKeepsTokens(env: Env, host: Host, spec: FlowSpec, st: Status, tick: nat, spent: int)
    requires |st.steps| == |spec.steps| && TokensMatch(spec, st, spent) && LastOne(env, host, spec, st, tick)
    ensures TokensMatch(spec, RunFrom(env, host, spec, st, tick), spent)
  {
    RunStops(env, host, spec, st, tick);
    CostIsNotNegative(env, host, spec, st.steps, tick);
    if !IsTerminal(st.phase) {
      BatchKeepsTokens(env, host, spec, st, tick, spent);
    }
  }

  lemma RunKeepsTokens(env: Env, host: Host, spec: FlowSpec, st: Status, tick: nat, spent: int)
    requires |st.steps| == |spec.steps| && TokensMatch(spec, st, spent)
    ensures TokensMatch(spec, RunFrom(env, host, spec, st, tick), spent + Consumed(env, host, spec, st, tick))
    decreases Fuel(spec, st.steps)
  {
    ConsumedNext(env, host, spec, st, tick);
    if LastOne(env, host, spec, st, tick) {
      LastKeepsTokens(env, host, spec, st, tick, spent);
    } else {
      var next, cost := Batch(env, host, spec, st, tick), Sum(TurnColumn(env, host, spec, st.steps, tick));
      BatchKeepsTokens(env, host, spec, st, tick, spent);
      RunGoesOn(env, host, spec, st, tick, next);
      RunKeepsTokens(env, host, spec, next, tick + 1, spent + cost);
    }
  }

  /**
   * The total that a local run stores never exceeds the tokens its agents reported during the run, repetitions
   * included, however it ends; a loop-free flow that is decided in time has stored exactly those.
   */
  lemma LocalTotal(env: Env, host: Host, spec: FlowSpec, now: int)
    ensures
      var end, consumed := RunAll(env, host, spec, now),
          Consumed(env, host, spec, Initialized(spec, FRESH_STATUS, now), 0);
      && TotalValue(end) <= consumed
      && (LoopFree(spec) && IsTerminal(end.phase) && !Late(spec, end) ==> TotalValue(end) == consumed)
  {
    var st := Initialized(spec, FRESH_STATUS, now);
    SumZero(InputColumn(st.steps));
    SumZero(OutputColumn(st.steps));
    RunKeepsTokens(env, host, spec, st, 0, 0);
    SensibleColumns(spec, RunAll(env, host, spec, now).steps);
  }
}
