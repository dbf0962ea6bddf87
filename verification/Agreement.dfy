/** What a flow's status owes to the engine, and what any two statuses that succeeded have in common. */
module Agreement {
  import opened Wrappers
  import opened FlowTypes
  import opened Templates
  import opened Dag
  import opened Engine
  import opened History
  import opened Meaning
  import opened Passes

  function TotalValue(st: Status): int {
    if st.total.Some? then st.total.value.total else 0
  }

  /** The time is not before the flow's deadline. */
  predicate DeadlineReached(spec: FlowSpec, st: Status, at: int) {
    spec.timeoutSeconds > 0 && st.startTime.Some? && at >= st.startTime.value + spec.timeoutSeconds * SECOND
  }

  /** It may be its deadline that ended the flow: it failed no earlier, and its condition names no other cause. */
  predicate Late(spec: FlowSpec, st: Status) {
    && st.phase == FlowFailed && st.ready != BudgetExceeded && st.ready != StepFailed
    && st.completionTime.Some? && DeadlineReached(spec, st, st.completionTime.value)
  }

  /**
   * The total is input plus output and never exceeds the tokens its successful executions reported; a loop-free flow
   * that was decided in time has recorded them all, no total counting as none.
   */
  ghost predicate TotalOk(spec: FlowSpec, st: Status, r: Run) {
    && (st.total.Some? ==>
          && st.total.value.total == st.total.value.input + st.total.value.output
          && 0 < st.total.value.total <= Spent(r))
    && (IsTerminal(st.phase) && LoopFree(spec) && !Late(spec, st) ==> TotalValue(st) == Spent(r))
  }

  /**
   * The status is that of a run of the engine, and accounts for its tokens. If it succeeded, every step is done and
   * its output was rendered from the data in force, a snapshot of the records `seen`.
   */
  ghost predicate Backed(env: Env, spec: FlowSpec, st: Status, r: Run, seen: seq<StepStatus>) {
    && Reachable(env, spec, r) && r.steps == st.steps && |st.steps| == |spec.steps|
    && AllParsed(env, spec, r.steps) && TotalOk(spec, st, r)
    && (!IsTerminal(st.phase) ==> st.output == "")
    && (st.phase == FlowSucceeded ==>
          && AllDone(st.steps) && r.current && Aligned(spec, seen)
          && r.data == Snapshot(env, spec, seen) && st.output == Rendered(env, spec, r.data))
  }

  /** Between two verdicts only the tokens spent grow. */
  lemma TotalStays(env: Env, spec: FlowSpec, st: Status, r: Run, ms: seq<Move>, r': Run)
    requires !IsTerminal(st.phase) && TotalOk(spec, st, r) && Shaped(spec, r) && Exec(env, spec, r, ms) == Some(r')
    ensures TotalOk(spec, st.(steps := r'.steps), r')
  {
    SpentOnlyGrows(env, spec, r, ms, r');
  }

  /** What the records say about the tokens spent. */
  lemma RecordsTotal(env: Env, spec: FlowSpec, r: Run)
    requires UniqueNames(spec.steps) && Reachable(env, spec, r)
    ensures Sum(InputColumn(r.steps)) >= 0 && Sum(OutputColumn(r.steps)) >= 0
    ensures TokensUsed(r.steps) <= Spent(r)
    ensures LoopFree(spec) ==> TokensUsed(r.steps) == Spent(r)
  {
    ReachableAccounted(env, spec, r);
    ReachableInv(env, spec, r);
    TokensAccounted(env, spec, r);
    TokensUsedIsColumn(r.steps);
    forall i | 0 <= i < |r.steps|
      ensures InputColumn(r.steps)[i] >= 0 && OutputColumn(r.steps)[i] >= 0
      ensures LoopFree(spec) ==> r.steps[i].iterations == 0
    {
      assert Accounted(r.steps[i], r.spent[i]);
      assert Clean(env, spec.steps[i], r.steps[i]);
    }
    SumNonNegative(InputColumn(r.steps));
    SumNonNegative(OutputColumn(r.steps));
  }

  /** UpdateFlowPhase accounts for the tokens, whether it sums the records or leaves the total as it was. */
  lemma VerdictTotal(env: Env, spec: FlowSpec, st: Status, r: Run, data: Data, now: int)
    requires UniqueNames(spec.steps) && Reachable(env, spec, r) && r.steps == st.steps
    requires !IsTerminal(st.phase) && TotalOk(spec, st, r)
    ensures TotalOk(spec, Verdict(env, spec, st, data, now), r)
  {
    RecordsTotal(env, spec, r);
    VerdictParts(env, spec, st, data, now);
    var tin, tout := Sum(InputColumn(st.steps)), Sum(OutputColumn(st.steps));
    var total := Verdict(env, spec, st, data, now).total;
    if !PastDeadline(spec, st, now) {
      NewTotal(spec, st, total, tin, tout, Spent(r));
    }
  }

  lemma NewTotal(spec: FlowSpec, st: Status, total: Option<TokenUsage>, tin: int, tout: int, spent: int)
    requires tin >= 0 && tout >= 0 && tin + tout <= spent && (LoopFree(spec) ==> tin + tout == spent)
    requires st.total.Some? ==>
      && st.total.value.total == st.total.value.input + st.total.value.output
      && 0 < st.total.value.total <= spent
    requires total == TotalAfter(st.total, tin, tout)
    ensures total.Some? ==>
      && total.value.total == total.value.input + total.value.output
      && 0 < total.value.total <= spent
    ensures LoopFree(spec) ==> (if total.Some? then total.value.total else 0) == spent
  {
  }

  /** What a verdict says about the output. */
  lemma VerdictOutput(env: Env, spec: FlowSpec, st: Status, data: Data, now: int)
    requires !IsTerminal(st.phase) && st.output == ""
    ensures
      var v := Verdict(env, spec, st, data, now);
      && v.steps == st.steps
      && (v.phase == FlowSucceeded ==> AllDone(st.steps) && v.output == Rendered(env, spec, data))
      && (v.phase != FlowSucceeded ==> v.output == "")
  {
    VerdictSucceeds(env, spec, st, data, now);
  }

  /** UpdateFlowPhase keeps a status backed. */
  lemma VerdictBacked(env: Env, spec: FlowSpec, st: Status, r: Run, seen: seq<StepStatus>, now: int)
    requires UniqueNames(spec.steps) && !IsTerminal(st.phase) && Backed(env, spec, st, r, seen)
    requires r.current && Aligned(spec, seen) && r.data == Snapshot(env, spec, seen)
    ensures Backed(env, spec, Verdict(env, spec, st, r.data, now), r, seen)
  {
    VerdictOutput(env, spec, st, r.data, now);
    VerdictTotal(env, spec, st, r, r.data, now);
  }

  /** A status that succeeded holds the meaning of every step. */
  lemma SucceededMeans(env: Env, spec: FlowSpec, f: string -> string, rank: seq<nat>, st: Status, r: Run,
          seen: seq<StepStatus>, i: nat)
    requires WellBehaved(env, spec, rank) && Consistent(env, f, spec)
    requires Backed(env, spec, st, r, seen) && st.phase == FlowSucceeded && i < |spec.steps|
    ensures
      match Outcome(env, spec, f, rank, i)
      case None => st.steps[i].phase == Skipped && st.steps[i].output == ""
      case Some(answer) => st.steps[i].phase == Succeeded && st.steps[i].output == answer
  {
    ReachableMeans(env, spec, f, rank, r);
    ReachableInv(env, spec, r);
    assert Means(env, spec, f, rank, i, r.steps[i], r.asked[i]);
    assert Clean(env, spec.steps[i], r.steps[i]);
  }

  /** Its output shows the final records, although the data was built before the pass that ended the flow. */
  lemma SucceededOutput(env: Env, spec: FlowSpec, f: string -> string, rank: seq<nat>, st: Status, r: Run,
          seen: seq<StepStatus>)
    requires WellBehaved(env, spec, rank) && Consistent(env, f, spec)
    requires Backed(env, spec, st, r, seen) && st.phase == FlowSucceeded
    ensures st.output == Rendered(env, spec, Snapshot(env, spec, st.steps))
  {
    ReachableMeans(env, spec, f, rank, r);
    ReachableInv(env, spec, r);
    DataWhenDone(env, spec, f, rank, r, seen);
  }

  lemma RecordsAgree(env: Env, spec: FlowSpec, f: string -> string, r: Run, s: Run, i: nat)
    requires UniqueNames(spec.steps) && ValidGraph(spec.steps)
    requires ReadsDependencies(env, spec) && OwnLoops(env, spec) && Consistent(env, f, spec)
    requires Reachable(env, spec, r) && Reachable(env, spec, s) && Shaped(spec, r) && Shaped(spec, s)
    requires AllDone(r.steps) && AllParsed(env, spec, r.steps) && AllDone(s.steps) && AllParsed(env, spec, s.steps)
    requires i < |spec.steps|
    ensures r.steps[i].phase == s.steps[i].phase
    ensures r.steps[i].output == s.steps[i].output && r.steps[i].outputJSON == s.steps[i].outputJSON
  {
    RunsAgree(env, spec, f, r, s, i);
    ReachableInv(env, spec, r);
    ReachableInv(env, spec, s);
    assert Clean(env, spec.steps[i], r.steps[i]) && Clean(env, spec.steps[i], s.steps[i]);
  }

  /**
   * Two statuses of the same flow that succeeded, under either driver and any schedule, hold the same steps and the
   * same output.
   */
  lemma SucceededAgree(env: Env, spec: FlowSpec, f: string -> string, a: Status, r: Run, seenA: seq<StepStatus>,
          b: Status, s: Run, seenB: seq<StepStatus>)
    requires UniqueNames(spec.steps) && ValidGraph(spec.steps)
    requires ReadsDependencies(env, spec) && OwnLoops(env, spec) && Consistent(env, f, spec)
    requires Backed(env, spec, a, r, seenA) && a.phase == FlowSucceeded
    requires Backed(env, spec, b, s, seenB) && b.phase == FlowSucceeded
    ensures forall i :: 0 <= i < |spec.steps| ==>
                          && a.steps[i].phase == b.steps[i].phase
                          && a.steps[i].output == b.steps[i].output && a.steps[i].outputJSON == b.steps[i].outputJSON
    ensures a.output == b.output
  {
    var rank := RankExists(spec);
    SucceededOutput(env, spec, f, rank, a, r, seenA);
    SucceededOutput(env, spec, f, rank, b, s, seenB);
    FinishedRunsAgree(env, spec, f, r, s);
    forall i | 0 <= i < |spec.steps|
      ensures a.steps[i].phase == b.steps[i].phase
      ensures a.steps[i].output == b.steps[i].output && a.steps[i].outputJSON == b.steps[i].outputJSON
    {
      RecordsAgree(env, spec, f, r, s, i);
    }
  }

  /** A fresh status is that of the initial run. */
  lemma InitialBacked(env: Env, spec: FlowSpec, now: int)
    ensures Backed(env, spec, Initialized(spec, FRESH_STATUS, now), Initial(spec), [])
  {
    assert Exec(env, spec, Initial(spec), []) == Some(Initial(spec));
    SumNonNegative(SpentColumn(Initial(spec).spent));
  }
}
