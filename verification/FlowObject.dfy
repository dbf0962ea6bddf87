/** The ArkFlow object and the operations of internal/flow that update its status in place. */
module FlowObject {
  import opened Wrappers
  import opened FlowTypes
  import opened Templates
  import opened Engine
  import opened History
  import opened Passes
  import opened Effects
  import Fence

  class Flow {
    const spec: FlowSpec
    var phase: Phase
    var steps: seq<StepStatus>
    var startTime: Option<int>
    var completionTime: Option<int>
    var output: string
    var total: Option<TokenUsage>
    var ready: Reason

    constructor (spec: FlowSpec)
      requires UniqueNames(spec.steps)
      ensures this.spec == spec && Valid() && State() == FRESH_STATUS
    {
      this.spec := spec;
      phase, steps, startTime, completionTime, output, total, ready := Unset, [], None, None, "", None, NoReason;
    }

    function State(): Status
      reads this
    {
      Status(phase, steps, startTime, completionTime, output, total, ready)
    }

    /** Step names are unique; once the flow is initialized its records mirror the specification. */
    ghost predicate Valid()
      reads this
    {
      UniqueNames(spec.steps) && (phase != Unset ==> Aligned(spec, steps))
    }

    method SetCondition(reason: Reason)
      modifies this`ready
      ensures State() == old(State()).(ready := reason)
    {
      ready := reason;
    }

    method InitializeSteps(now: int)
      requires Valid()
      modifies this
      ensures State() == Initialized(spec, old(State()), now)
      ensures Valid() && phase != Unset
      ensures old(phase) != Unset ==> State() == old(State())
      ensures old(phase) == Unset ==>
        && State() == Status(FlowRunning, steps, Some(now), old(completionTime), old(output), old(total), Validated)
        && |steps| == |spec.steps|
        && forall i :: 0 <= i < |steps| ==>
            steps[i] == StepStatus(spec.steps[i].name, Pending, None, "", "", 0, None, None, None)
    {
      if phase != Unset {
        return;
      }
      phase := FlowRunning;
      startTime := Some(now);
      var records: seq<StepStatus> := [];
      for i := 0 to |spec.steps|
        invariant |records| == i
        invariant forall k :: 0 <= k < i ==> records[k] == Blank(spec.steps[k])
      {
        records := records + [Blank(spec.steps[i])];
      }
      assert records == BlankSteps(spec);
      steps := records;
      SetCondition(Validated);
    }

    method BuildStatusByName() returns (m: map<string, nat>)
      ensures m == Index(steps)
    {
      m := map[];
      for i := 0 to |steps|
        invariant m == Index(steps[..i])
      {
        assert steps[..i + 1][..i] == steps[..i];
        m := m[steps[i].name := i];
      }
      assert steps[..|steps|] == steps;
    }

    method CheckDeps(deps: seq<string>, byName: map<string, nat>) returns (ok: bool)
      requires byName == Index(steps)
      ensures ok == DepsSucceeded(deps, steps)
      ensures ok <==> forall k :: 0 <= k < |deps| ==>
        && deps[k] in byName
        && (steps[byName[deps[k]]].phase == Succeeded || steps[byName[deps[k]]].phase == Skipped)
    {
      for k := 0 to |deps|
        invariant forall m :: 0 <= m < k ==> deps[m] in byName && Done(steps[byName[deps[m]]].phase)
      {
        if deps[k] !in byName {
          return false;
        }
        var phase := steps[byName[deps[k]]].phase;
        if phase != Succeeded && phase != Skipped {
          return false;
        }
      }
      ok := true;
    }

    /** ParseOutputJSON on one record. */
    method ParseRecord(env: Env, i: nat)
      requires i < |steps| == |spec.steps|
      modifies this`steps
      ensures steps == old(steps)[i := Parsed(env, spec.steps[i], old(steps)[i])]
    {
      var st := steps[i];
      if spec.steps[i].outputSchema == "" || st.phase != Succeeded || st.output == "" || st.outputJSON != "" {
        return;
      }
      var raw := Fence.ExtractJSON(env.isJSON, st.output);
      Fence.ExtractSound(env.isJSON, st.output);
      if raw != "" && env.isJSON(raw) {
        steps := steps[i := st.(outputJSON := raw)];
      }
    }

    /** Ranges over the records in no fixed order. */
    method ParseOutputJSON(env: Env, byName: map<string, nat>)
      requires Valid() && phase != Unset && byName == Index(steps)
      modifies this`steps
      ensures State() == old(State()).(steps := ParseAll(env, spec, old(steps)))
      ensures Valid()
      ensures forall i :: 0 <= i < |steps| ==> ParsedWell(env, spec.steps[i], old(steps)[i], steps[i])
    {
      ghost var before := steps;
      var left := byName.Keys;
      while left != {}
        invariant left <= byName.Keys
        invariant HalfParsed(env, spec, before, steps, left)
        decreases left
      {
        var name :| name in left;
        HalfParsedNext(env, spec, before, steps, left, name, byName[name]);
        ParseRecord(env, byName[name]);
        left := left - {name};
      }
      HalfParsedEnd(env, spec, before, steps);
      AllParseWell(env, spec, before);
    }

    /** Ranges over the records in no fixed order. */
    method BuildTemplateData(env: Env, byName: map<string, nat>) returns (data: Data)
      requires byName == Index(steps)
      ensures data == Snapshot(env, spec, steps)
      ensures data.input == spec.input && data.steps.Keys == byName.Keys
      ensures forall x :: x in byName ==>
        var st := steps[byName[x]];
        && data.steps[x].output == st.output
        && data.steps[x].data == if st.outputJSON != "" && env.isJSON(st.outputJSON) then Some(st.outputJSON) else None
    {
      var entries: map<string, Entry> := map[];
      var left := byName.Keys;
      while left != {}
        invariant left <= byName.Keys && entries.Keys == byName.Keys - left
        invariant forall x :: x in entries ==> entries[x] == EntryOfStep(env, steps[byName[x]])
        decreases left
      {
        var name :| name in left;
        var st := steps[byName[name]];
        var entry := Entry(st.output, None);
        if st.outputJSON != "" && env.isJSON(st.outputJSON) {
          entry := entry.(data := Some(st.outputJSON));
        }
        entries := entries[name := entry];
        left := left - {name};
      }
      data := Data(spec.input, entries);
      assert entries == Snapshot(env, spec, steps).steps;
    }

    /** EvaluateLoops at one step of the specification. */
    method EvaluateLoop(env: Env, i: nat, data: Data)
      requires i < |steps| == |spec.steps|
      modifies this`steps
      ensures steps == old(steps)[i := LoopOne(env, spec.steps[i], old(steps)[i], data)]
    {
      var step, st := spec.steps[i], steps[i];
      if step.loop.None? || st.phase != Succeeded {
        return;
      }
      var maxIter := step.loop.value.maxIterations;
      if maxIter <= 0 {
        maxIter := 10;
      }
      if st.iterations >= maxIter {
        return;
      }
      var cond := env.resolve(step.loop.value.condition, data);
      if cond.None? || !IsTruthy(cond.value) {
        return;
      }
      steps := steps[i := st.(iterations := st.iterations + 1, phase := Pending, taskID := None, output := "",
                              outputJSON := "", startTime := None, completionTime := None)];
    }

    method EvaluateLoops(env: Env, byName: map<string, nat>, data: Data)
      requires Valid() && phase != Unset && byName == Index(steps)
      modifies this`steps
      ensures State() == old(State()).(steps := LoopAll(env, spec, old(steps), data))
      ensures Valid()
      ensures forall i :: 0 <= i < |steps| ==> LoopedWell(env, spec.steps[i], old(steps)[i], data, steps[i])
    {
      ghost var before := steps;
      for i := 0 to |spec.steps|
        invariant |steps| == |before|
        invariant forall k :: 0 <= k < i ==> steps[k] == LoopOne(env, spec.steps[k], before[k], data)
        invariant forall k :: i <= k < |steps| ==> steps[k] == before[k]
      {
        IndexAt(spec, before, i);
        EvaluateLoop(env, byName[spec.steps[i].name], data);
      }
      assert steps == LoopAll(env, spec, before, data);
      AllLoopWell(env, spec, before, data);
    }

    method SumStepTokens() returns (sum: int)
      modifies this`total
      ensures State() == WithTotal(old(State())) && sum == TokensUsed(steps)
    {
      var totalIn, totalOut := 0, 0;
      for i := 0 to |steps|
        invariant total == old(total) && totalIn == Sum(InputColumn(steps)[..i])
          && totalOut == Sum(OutputColumn(steps)[..i])
      {
        SumNext(InputColumn(steps), i);
        SumNext(OutputColumn(steps), i);
        if steps[i].tokens.Some? {
          totalIn := totalIn + steps[i].tokens.value.input;
          totalOut := totalOut + steps[i].tokens.value.output;
        }
      }
      assert InputColumn(steps)[..|steps|] == InputColumn(steps);
      assert OutputColumn(steps)[..|steps|] == OutputColumn(steps);
      if totalIn > 0 || totalOut > 0 {
        total := Some(TokenUsage(totalIn, totalOut, totalIn + totalOut));
      }
      sum := totalIn + totalOut;
    }

    method EnforceTimeout(now: int) returns (late: bool)
      modifies this
      ensures late == PastDeadline(spec, old(State()), now) == IsLate(spec, old(State()), now)
      ensures State() == if late then Concluded(old(State()), FlowFailed, now, TimedOut) else old(State())
    {
      if spec.timeoutSeconds <= 0 || startTime.None? {
        return false;
      }
      if now <= startTime.value + spec.timeoutSeconds * SECOND {
        return false;
      }
      phase := FlowFailed;
      completionTime := Some(now);
      SetCondition(TimedOut);
      late := true;
    }

    method UpdateFlowPhase(env: Env, data: Data, now: int)
      requires Valid() && phase != Unset
      modifies this
      ensures State() == Verdict(env, spec, old(State()), data, now)
      ensures Valid() && phase != Unset && steps == old(steps)
      ensures !IsTerminal(old(phase)) ==>
        var over := 0 < spec.maxTokens < Sum(TokenColumn(steps));
        && (phase == FlowFailed <==>
            IsLate(spec, old(State()), now) || over || exists i :: 0 <= i < |steps| && steps[i].phase == Failed)
        && (phase == FlowSucceeded <==>
            && !IsLate(spec, old(State()), now) && !over
            && forall i :: 0 <= i < |steps| ==> steps[i].phase == Succeeded || steps[i].phase == Skipped)
    {
      if !IsTerminal(phase) {
        VerdictSucceeds(env, spec, State(), data, now);
        VerdictFails(env, spec, State(), data, now);
      }
      var late := EnforceTimeout(now);
      if late {
        return;
      }
      var totalTokens := SumStepTokens();
      if spec.maxTokens > 0 && totalTokens > spec.maxTokens {
        phase := FlowFailed;
        completionTime := Some(now);
        SetCondition(BudgetExceeded);
        return;
      }
      var failed, allDone := TallyPhases();
      if failed {
        phase := FlowFailed;
        completionTime := Some(now);
        SetCondition(StepFailed);
      } else if allDone {
        phase := FlowSucceeded;
        completionTime := Some(now);
        if spec.output != "" {
          var out := env.resolve(spec.output, data);
          output := out.GetOr("");
        }
        SetCondition(AllSucceeded);
      }
    }

    /** The loop of UpdateFlowPhase over the records. */
    method TallyPhases() returns (failed: bool, allDone: bool)
      ensures failed == SomeFailed(steps)
      ensures !failed ==> allDone == AllDone(steps)
    {
      failed, allDone := false, true;
      for i := 0 to |steps|
        invariant failed <==> exists k :: 0 <= k < i && steps[k].phase == Failed
        invariant !failed ==> (allDone <==> forall k :: 0 <= k < i ==> Done(steps[k].phase))
      {
        match steps[i].phase
        case Failed => failed := true;
        case Succeeded =>
        case Skipped =>
        case _ => allDone := false;
      }
    }
  }

  lemma SumNext(s: seq<int>, i: nat)
    requires i < |s|
    ensures Sum(s[..i + 1]) == Sum(s[..i]) + s[i]
  {
    assert s[..i + 1][..i] == s[..i];
  }

  /** The records named in `left` are still as they were, the others have been parsed. */
  ghost predicate HalfParsed(env: Env, spec: FlowSpec, before: seq<StepStatus>, now: seq<StepStatus>, left: set<string>)
  {
    && |now| == |before| == |spec.steps|
    && forall i :: 0 <= i < |now| ==> now[i] == if before[i].name in left then before[i]
        else Parsed(env, spec.steps[i], before[i])
  }

  lemma HalfParsedNext(env: Env, spec: FlowSpec, before: seq<StepStatus>, now: seq<StepStatus>, left: set<string>,
          name: string, i: nat)
    requires UniqueNames(spec.steps) && Aligned(spec, before) && HalfParsed(env, spec, before, now, left)
    requires i < |before| && before[i].name == name && name in left
    ensures HalfParsed(env, spec, before, now[i := Parsed(env, spec.steps[i], now[i])], left - {name})
  {
    OnlyRecord(spec, before, i);
  }

  lemma HalfParsedEnd(env: Env, spec: FlowSpec, before: seq<StepStatus>, now: seq<StepStatus>)
    requires HalfParsed(env, spec, before, now, {})
    ensures now == ParseAll(env, spec, before) && (Aligned(spec, before) ==> Aligned(spec, now))
  {
  }

  /** With unique names no other record carries the same name. */
  lemma OnlyRecord(spec: FlowSpec, steps: seq<StepStatus>, i: nat)
    requires UniqueNames(spec.steps) && Aligned(spec, steps) && i < |steps|
    ensures forall k :: 0 <= k < |steps| && steps[k].name == steps[i].name ==> k == i
  {
    forall k | 0 <= k < |steps| && steps[k].name == steps[i].name
      ensures k == i
    {
      assert spec.steps[k].name == spec.steps[i].name;
    }
  }
}
