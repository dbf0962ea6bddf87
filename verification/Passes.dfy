/**
 * The passes of internal/flow over a flow's records, as functions: parsing answers, evaluating loops, releasing
 * steps, deciding the flow's phase. Each pass over the records is a sequence of engine moves.
 */
module Passes {
  import opened Wrappers
  import opened FlowTypes
  import opened Templates
  import opened Engine
  import opened History

  // ------------------------------------------------------------ the passes

  /** InitializeSteps. */
  function Initialized(spec: FlowSpec, st: Status, now: int): Status {
    if st.phase != Unset then st
    else st.(phase := FlowRunning, startTime := Some(now), steps := BlankSteps(spec), ready := Validated)
  }

  /** ParseOutputJSON. */
  function ParseAll(env: Env, spec: FlowSpec, steps: seq<StepStatus>): (r: seq<StepStatus>)
    requires |steps| == |spec.steps|
    ensures |r| == |steps|
  {
    seq(|steps|, i requires 0 <= i < |steps| => Parsed(env, spec.steps[i], steps[i]))
  }

  function LoopOne(env: Env, step: Step, st: StepStatus, data: Data): StepStatus {
    if st.phase == Succeeded && Repeats(env, step, st, data) then Renewed(st) else st
  }

  /** EvaluateLoops. */
  function LoopAll(env: Env, spec: FlowSpec, steps: seq<StepStatus>, data: Data): (r: seq<StepStatus>)
    requires |steps| == |spec.steps|
    ensures |r| == |steps|
  {
    seq(|steps|, i requires 0 <= i < |steps| => LoopOne(env, spec.steps[i], steps[i], data))
  }

  /** Template data built, loops evaluated: the records from which steps are released. */
  function AfterLoops(env: Env, spec: FlowSpec, steps: seq<StepStatus>): (r: seq<StepStatus>)
    requires |steps| == |spec.steps|
    ensures |r| == |steps|
  {
    LoopAll(env, spec, steps, Snapshot(env, spec, steps))
  }

  /** What a releasing pass does with the step it looks at. */
  datatype Verb = Leave | SkipIt | RejectIt | LaunchIt

  function Decide(env: Env, spec: FlowSpec, steps: seq<StepStatus>, data: Data, i: nat): Verb
    requires |steps| == |spec.steps| && i < |steps|
  {
    if steps[i].phase != Pending || !DepsSucceeded(spec.steps[i].dependsOn, steps) then Leave
    else if !Wanted(env, spec.steps[i], data) then SkipIt
    else if !InputsResolve(env, spec.steps[i], data) then RejectIt
    else LaunchIt
  }

  /** The records' sums of input and of output tokens. */
  function InputColumn(steps: seq<StepStatus>): (c: seq<int>)
    ensures |c| == |steps|
  {
    seq(|steps|, i requires 0 <= i < |steps| => if steps[i].tokens.Some? then steps[i].tokens.value.input else 0)
  }

  function OutputColumn(steps: seq<StepStatus>): (c: seq<int>)
    ensures |c| == |steps|
  {
    seq(|steps|, i requires 0 <= i < |steps| => if steps[i].tokens.Some? then steps[i].tokens.value.output else 0)
  }

  /** The flow's usage is stored only when it is not all zero. */
  function TotalAfter(total: Option<TokenUsage>, tin: int, tout: int): Option<TokenUsage> {
    if tin > 0 || tout > 0 then Some(TokenUsage(tin, tout, tin + tout)) else total
  }

  /** SumStepTokens. */
  function WithTotal(st: Status): Status {
    st.(total := TotalAfter(st.total, Sum(InputColumn(st.steps)), Sum(OutputColumn(st.steps))))
  }

  function TokensUsed(steps: seq<StepStatus>): int {
    Sum(InputColumn(steps)) + Sum(OutputColumn(steps))
  }

  /** EnforceTimeout's test. */
  predicate PastDeadline(spec: FlowSpec, st: Status, now: int) {
    spec.timeoutSeconds > 0 && st.startTime.Some? && now > st.startTime.value + spec.timeoutSeconds * SECOND
  }

  predicate OverBudget(spec: FlowSpec, steps: seq<StepStatus>) {
    spec.maxTokens > 0 && TokensUsed(steps) > spec.maxTokens
  }

  predicate SomeFailed(steps: seq<StepStatus>) {
    exists i :: 0 <= i < |steps| && steps[i].phase == Failed
  }

  predicate AllDone(steps: seq<StepStatus>) {
    forall i :: 0 <= i < |steps| ==> Done(steps[i].phase)
  }

  function Concluded(st: Status, phase: Phase, now: int, reason: Reason): Status {
    st.(phase := phase, completionTime := Some(now), ready := reason)
  }

  /** UpdateFlowPhase. */
  function Verdict(env: Env, spec: FlowSpec, st: Status, data: Data, now: int): (r: Status)
    ensures r.steps == st.steps
  {
    if PastDeadline(spec, st, now) then Concluded(st, FlowFailed, now, TimedOut)
    else
      var summed := WithTotal(st);
      if OverBudget(spec, st.steps) then Concluded(summed, FlowFailed, now, BudgetExceeded)
      else if SomeFailed(st.steps) then Concluded(summed, FlowFailed, now, StepFailed)
      else if AllDone(st.steps) then
        Concluded(summed, FlowSucceeded, now, AllSucceeded)
          .(output := if spec.output != "" then ResolveOrEmpty(env, spec.output, data) else st.output)
      else summed
  }

  // --------------------------------------------------- what a verdict means

  lemma {:induction false} SumAdds(a: seq<int>, b: seq<int>, c: seq<int>)
    requires |a| == |b| == |c| && forall i :: 0 <= i < |a| ==> c[i] == a[i] + b[i]
    ensures Sum(c) == Sum(a) + Sum(b)
    decreases |a|
  {
    if a != [] {
      SumAdds(a[..|a| - 1], b[..|b| - 1], c[..|c| - 1]);
    }
  }

  lemma TokensUsedIsColumn(steps: seq<StepStatus>)
    ensures TokensUsed(steps) == Sum(TokenColumn(steps))
  {
    SumAdds(InputColumn(steps), OutputColumn(steps), TokenColumn(steps));
  }

  /** More than its timeout has gone by since the flow started. */
  ghost predicate IsLate(spec: FlowSpec, st: Status, at: int) {
    0 < spec.timeoutSeconds && st.startTime.Some? && at > st.startTime.value + spec.timeoutSeconds * SECOND
  }

  /**
   * A running flow succeeds exactly when it is in time, its records hold no more tokens than a positive limit admits,
   * and every step has succeeded or was skipped.
   */
  lemma VerdictSucceeds(env: Env, spec: FlowSpec, st: Status, data: Data, now: int)
    requires !IsTerminal(st.phase)
    ensures
      Verdict(env, spec, st, data, now).phase == FlowSucceeded <==>
      && !IsLate(spec, st, now) && !(0 < spec.maxTokens < Sum(TokenColumn(st.steps)))
      && forall i :: 0 <= i < |st.steps| ==> st.steps[i].phase == Succeeded || st.steps[i].phase == Skipped
  {
    TokensUsedIsColumn(st.steps);
  }

  /** A flow in which every step is done succeeds unless its time or its budget has run out. */
  lemma DoneSucceeds(env: Env, spec: FlowSpec, st: Status, data: Data, now: int)
    requires !PastDeadline(spec, st, now) && !OverBudget(spec, st.steps) && AllDone(st.steps)
    ensures Verdict(env, spec, st, data, now).phase == FlowSucceeded
  {
  }

  /** It fails exactly when it is late, over budget, or a step failed. */
  lemma VerdictFails(env: Env, spec: FlowSpec, st: Status, data: Data, now: int)
    requires !IsTerminal(st.phase)
    ensures
      Verdict(env, spec, st, data, now).phase == FlowFailed <==>
      || IsLate(spec, st, now) || 0 < spec.maxTokens < Sum(TokenColumn(st.steps))
      || exists i :: 0 <= i < |st.steps| && st.steps[i].phase == Failed
  {
    TokensUsedIsColumn(st.steps);
  }

  /**
   * A decided flow carries the time of its verdict, and the verdict was right: it succeeded exactly if at that time
   * it was before its deadline, within its budget, and every step succeeded or was skipped; it failed exactly if it
   * was late, over budget, or some step had failed.
   */
  ghost predicate Judged(spec: FlowSpec, st: Status) {
    && (st.phase != Unset ==> st.startTime.Some?)
    && (IsTerminal(st.phase) ==> st.completionTime.Some?)
    && (IsTerminal(st.phase) ==>
          var at := st.completionTime.value;
          && (st.phase == FlowSucceeded <==>
              && !IsLate(spec, st, at) && !(0 < spec.maxTokens < Sum(TokenColumn(st.steps)))
              && AllDone(st.steps))
          && (st.phase == FlowFailed <==>
              || IsLate(spec, st, at) || 0 < spec.maxTokens < Sum(TokenColumn(st.steps))
              || SomeFailed(st.steps)))
  }

  /** The total after a verdict, and the times. */
  lemma VerdictParts(env: Env, spec: FlowSpec, st: Status, data: Data, now: int)
    requires !IsTerminal(st.phase)
    ensures
      var v := Verdict(env, spec, st, data, now);
      && v.startTime == st.startTime && (IsTerminal(v.phase) ==> v.completionTime == Some(now))
      && v.total == (if PastDeadline(spec, st, now) then st.total
                     else TotalAfter(st.total, Sum(InputColumn(st.steps)), Sum(OutputColumn(st.steps))))
  {
  }

  lemma VerdictJudged(env: Env, spec: FlowSpec, st: Status, data: Data, now: int)
    requires !IsTerminal(st.phase) && st.startTime.Some?
    ensures Judged(spec, Verdict(env, spec, st, data, now))
  {
    VerdictSucceeds(env, spec, st, data, now);
    VerdictFails(env, spec, st, data, now);
  }

  /** The condition names the first cause that applies: the deadline, then the budget, then a failed step. */
  lemma VerdictReason(env: Env, spec: FlowSpec, st: Status, data: Data, now: int)
    requires !IsTerminal(st.phase) && st.ready !in {TimedOut, BudgetExceeded, StepFailed, AllSucceeded}
    ensures
      var v := Verdict(env, spec, st, data, now);
      && (v.ready == TimedOut <==> IsLate(spec, st, now))
      && (v.ready == BudgetExceeded <==>
          !IsLate(spec, st, now) && 0 < spec.maxTokens < Sum(TokenColumn(st.steps)))
      && (v.ready == StepFailed <==>
          && !IsLate(spec, st, now) && !(0 < spec.maxTokens < Sum(TokenColumn(st.steps)))
          && exists i :: 0 <= i < |st.steps| && st.steps[i].phase == Failed)
      && (v.ready == AllSucceeded <==> v.phase == FlowSucceeded)
      && (v.completionTime
          == if v.phase == FlowSucceeded || v.phase == FlowFailed then Some(now) else st.completionTime)
  {
    VerdictSucceeds(env, spec, st, data, now);
    TokensUsedIsColumn(st.steps);
  }

  /**
   * The output is what its template resolves to, nothing if that is an error, and as it was if there is no template.
   */
  lemma VerdictRenders(env: Env, spec: FlowSpec, st: Status, data: Data, now: int)
    requires !IsTerminal(st.phase)
    ensures
      var v, out := Verdict(env, spec, st, data, now), env.resolve(spec.output, data);
      v.output == if v.phase == FlowSucceeded && spec.output != "" then if out.Some? then out.value else ""
                  else st.output
  {
  }

  /** A flow left undecided has no failed step and some unfinished one. */
  lemma VerdictUndecided(env: Env, spec: FlowSpec, st: Status, data: Data, now: int)
    requires !IsTerminal(st.phase) && !IsTerminal(Verdict(env, spec, st, data, now).phase)
    ensures !SomeFailed(st.steps) && exists i ::
      && 0 <= i < |st.steps| && !Done(st.steps[i].phase)
      && st.steps[i].phase != Failed
    ensures Verdict(env, spec, st, data, now).phase == st.phase
  {
    var i :| 0 <= i < |st.steps| && !Done(st.steps[i].phase);
  }

  /**
   * Unless the flow is late, its total becomes what the records add up to, input plus output; records that add up to
   * nothing leave it as it was, and so does the deadline.
   */
  lemma TotalIsSum(env: Env, spec: FlowSpec, st: Status, data: Data, now: int)
    ensures IsLate(spec, st, now) ==> Verdict(env, spec, st, data, now).total == st.total
    ensures !IsLate(spec, st, now) ==>
      var total := Verdict(env, spec, st, data, now).total;
      var inputs := seq(|st.steps|, i requires 0 <= i < |st.steps| =>
        if st.steps[i].tokens.Some? then st.steps[i].tokens.value.input else 0);
      && (Sum(TokenColumn(st.steps)) > 0 ==>
            && total.Some? && total.value.input == Sum(inputs)
            && total.value.total == total.value.input + total.value.output == Sum(TokenColumn(st.steps)))
      && (Sum(inputs) <= 0 && Sum(TokenColumn(st.steps)) <= Sum(inputs) ==> total == st.total)
  {
    TokensUsedIsColumn(st.steps);
    assert InputColumn(st.steps) == seq(|st.steps|, i requires 0 <= i < |st.steps| =>
      if st.steps[i].tokens.Some? then st.steps[i].tokens.value.input else 0);
  }

  // ------------------------------------------------- the passes are moves

  /** The records with the first k of them already replaced. */
  function Mixed(a: seq<StepStatus>, b: seq<StepStatus>, k: nat): (m: seq<StepStatus>)
    requires |a| == |b| && k <= |a|
    ensures |m| == |a|
  {
    b[..k] + a[k..]
  }

  lemma MixedNext(a: seq<StepStatus>, b: seq<StepStatus>, k: nat)
    requires |a| == |b| && k < |a|
    ensures Mixed(a, b, k)[k] == a[k]
    ensures Mixed(a, b, k + 1) == Mixed(a, b, k)[k := b[k]]
  {
  }

  lemma {:induction false} ParseMovesTo(env: Env, spec: FlowSpec, r: Run, k: nat) returns (ms: seq<Move>, r': Run)
    requires Shaped(spec, r) && AllClean(env, spec, r.steps) && k <= |r.steps|
    ensures Exec(env, spec, r, ms) == Some(r')
    ensures r'.steps == Mixed(r.steps, ParseAll(env, spec, r.steps), k)
    ensures r'.asked == r.asked && r'.spent == r.spent
  {
    if k == 0 {
      ms, r' := [], r;
      assert Mixed(r.steps, ParseAll(env, spec, r.steps), 0) == r.steps;
    } else {
      var mid;
      ms, mid := ParseMovesTo(env, spec, r, k - 1);
      var i := k - 1;
      MixedNext(r.steps, ParseAll(env, spec, r.steps), i);
      if r.steps[i].phase == Succeeded && r.steps[i].outputJSON == "" {
        ExecSnoc(env, spec, r, ms, Parse(i));
        ms := ms + [Parse(i)];
        r' := Apply(env, spec, mid, Parse(i));
      } else {
        r' := mid;
      }
    }
  }

  /** ParseOutputJSON followed by BuildTemplateData is a sequence of moves, and leaves every answer parsed. */
  lemma RefreshMoves(env: Env, spec: FlowSpec, r: Run) returns (ms: seq<Move>, r': Run)
    requires Shaped(spec, r) && AllClean(env, spec, r.steps)
    ensures Exec(env, spec, r, ms) == Some(r')
    ensures r'.steps == ParseAll(env, spec, r.steps) && r'.data == Snapshot(env, spec, r'.steps)
    ensures r'.current && r'.dirty == {} && r'.asked == r.asked && r'.spent == r.spent
    ensures AllParsed(env, spec, r'.steps)
  {
    var mid;
    ms, mid := ParseMovesTo(env, spec, r, |r.steps|);
    assert mid.steps == ParseAll(env, spec, r.steps);
    forall j | 0 <= j < |mid.steps| && mid.steps[j].phase == Succeeded
      ensures mid.steps[j].outputJSON == ParsedJSON(env, spec.steps[j], mid.steps[j].output)
    {
      assert Clean(env, spec.steps[j], r.steps[j]);
    }
    ExecSnoc(env, spec, r, ms, Refresh);
    ms := ms + [Refresh];
    r' := Apply(env, spec, mid, Refresh);
  }

  lemma {:induction false} LoopMovesTo(env: Env, spec: FlowSpec, r: Run, looped: seq<StepStatus>, k: nat)
    returns (ms: seq<Move>, r': Run)
    requires Shaped(spec, r) && r.current && r.dirty == {} && k <= |r.steps|
    requires looped == LoopAll(env, spec, r.steps, r.data)
    ensures Exec(env, spec, r, ms) == Some(r')
    ensures r'.steps == Mixed(r.steps, looped, k)
    ensures r'.data == r.data && r'.current && r'.asked == r.asked && r'.spent == r.spent
    ensures forall j :: j in r'.dirty ==> j < k
    decreases k
  {
    if k == 0 {
      ms, r' := [], r;
      assert Mixed(r.steps, looped, 0) == r.steps;
    } else {
      var i := k - 1;
      var mid;
      ms, mid := LoopMovesTo(env, spec, r, looped, i);
      MixedNext(r.steps, looped, i);
      ms, r' := LoopMove(env, spec, r, ms, mid, i);
    }
  }

  /** EvaluateLoops at one step. */
  lemma LoopMove(env: Env, spec: FlowSpec, r: Run, before: seq<Move>, mid: Run, i: nat) returns (ms: seq<Move>, r': Run)
    requires Shaped(spec, r) && Exec(env, spec, r, before) == Some(mid) && mid.current
    requires i < |mid.steps| && i !in mid.dirty
    ensures Exec(env, spec, r, ms) == Some(r')
    ensures r'.steps == mid.steps[i := LoopOne(env, spec.steps[i], mid.steps[i], mid.data)]
    ensures r'.data == mid.data && r'.current && r'.asked == mid.asked && r'.spent == mid.spent
    ensures r'.dirty <= mid.dirty + {i}
  {
    if mid.steps[i].phase == Succeeded && Repeats(env, spec.steps[i], mid.steps[i], mid.data) {
      ExecSnoc(env, spec, r, before, Reset(i));
      ms := before + [Reset(i)];
      r' := Apply(env, spec, mid, Reset(i));
    } else {
      ms, r' := before, mid;
    }
  }

  /** EvaluateLoops is a sequence of moves, after which no loop asks for another repetition. */
  lemma LoopMoves(env: Env, spec: FlowSpec, r: Run) returns (ms: seq<Move>, r': Run)
    requires Shaped(spec, r) && r.current && r.dirty == {}
    ensures Exec(env, spec, r, ms) == Some(r')
    ensures r'.steps == LoopAll(env, spec, r.steps, r.data)
    ensures r'.data == r.data && r'.current && r'.asked == r.asked && r'.spent == r.spent
    ensures Settled(env, spec, r'.steps, r'.data)
  {
    ms, r' := LoopMovesTo(env, spec, r, LoopAll(env, spec, r.steps, r.data), |r.steps|);
    assert r'.steps == LoopAll(env, spec, r.steps, r.data);
  }
}
