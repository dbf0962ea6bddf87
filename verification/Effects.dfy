/**
 * What the passes over the records do, said of the fields of the records alone: answers are parsed, loops repeated,
 * steps released, and templates shown what the records hold.
 */
module Effects {
  import opened Wrappers
  import opened FlowTypes
  import opened Text
  import opened Templates
  import opened Engine
  import opened History
  import opened Meaning
  import opened Passes
  import Fence

  // --------------------------------------------------------------- answers

  /** A valid part of the answer, without space around it. */
  ghost predicate IsDocument(env: Env, output: string, doc: string) {
    env.isJSON(doc) && Trimmed(doc) && Fence.Substring(output, doc)
  }

  /** Any document that the answer carries is the one given. */
  ghost predicate Finds(env: Env, output: string, doc: string) {
    Fence.RespectsLexicalRules(env.isJSON) ==> forall d :: Fence.Delivers(env.isJSON, output, d) ==> d == doc
  }

  /**
   * An answer that has no document yet gets one if the step has a schema: the one that the answer carries, if it
   * carries one, and in any case nothing but a part of the answer. Nothing else changes.
   */
  ghost predicate ParsedWell(env: Env, step: Step, st: StepStatus, st': StepStatus) {
    && st' == st.(outputJSON := st'.outputJSON)
    && (st.phase != Succeeded || step.outputSchema == "" || st.outputJSON != "" ==> st' == st)
    && (st'.outputJSON != st.outputJSON ==> IsDocument(env, st.output, st'.outputJSON))
    && (st.phase == Succeeded && step.outputSchema != "" && st.outputJSON == "" ==>
          Finds(env, st.output, st'.outputJSON))
  }

  lemma ExtractFinds(env: Env, output: string)
    ensures Finds(env, output, Fence.Extract(env.isJSON, output))
    ensures Finds(env, "", "")
    ensures Fence.Extract(env.isJSON, output) != "" ==> IsDocument(env, output, Fence.Extract(env.isJSON, output))
  {
    Fence.ExtractSound(env.isJSON, output);
    if Fence.RespectsLexicalRules(env.isJSON) {
      forall d | Fence.Delivers(env.isJSON, output, d)
        ensures d == Fence.Extract(env.isJSON, output)
      {
        Fence.DeliveredIsExtracted(env.isJSON, output, d);
      }
      forall d | Fence.Delivers(env.isJSON, "", d)
        ensures d == ""
      {
        Fence.DeliveredIsExtracted(env.isJSON, "", d);
      }
    }
  }

  /** ParseOutputJSON on one record. */
  lemma ParsesWell(env: Env, step: Step, st: StepStatus)
    ensures ParsedWell(env, step, st, Parsed(env, step, st))
  {
    ExtractFinds(env, st.output);
  }

  /** ParseOutputJSON. */
  lemma AllParseWell(env: Env, spec: FlowSpec, steps: seq<StepStatus>)
    requires |steps| == |spec.steps|
    ensures forall i :: 0 <= i < |steps| ==>
      ParsedWell(env, spec.steps[i], steps[i], ParseAll(env, spec, steps)[i])
  {
    forall i | 0 <= i < |steps|
      ensures ParsedWell(env, spec.steps[i], steps[i], ParseAll(env, spec, steps)[i])
    {
      ParsesWell(env, spec.steps[i], steps[i]);
    }
  }

  /** A record whose answer, if there is one, has been parsed. */
  ghost predicate AnswerRead(env: Env, step: Step, st: StepStatus) {
    && (st.phase != Succeeded ==> st.output == "" && st.outputJSON == "")
    && (step.outputSchema == "" ==> st.outputJSON == "")
    && (st.outputJSON != "" ==> IsDocument(env, st.output, st.outputJSON))
    && (step.outputSchema != "" ==> Finds(env, st.output, st.outputJSON))
  }

  lemma ParsedIsRead(env: Env, step: Step, st: StepStatus)
    requires Clean(env, step, st)
    requires st.phase == Succeeded ==> st.outputJSON == ParsedJSON(env, step, st.output)
    ensures AnswerRead(env, step, st)
  {
    ExtractFinds(env, st.output);
  }

  /**
   * Whenever the template data is up to date, every succeeded step with a schema holds the document that its answer
   * carries, and templates see the answer and that document under the name of the step.
   */
  lemma AnswersAreRead(env: Env, spec: FlowSpec, r: Run, j: nat)
    requires UniqueNames(spec.steps) && Reachable(env, spec, r) && r.current && j < |spec.steps|
    ensures |r.steps| == |spec.steps| && AnswerRead(env, spec.steps[j], r.steps[j])
    ensures
      var st, seen := r.steps[j], r.data.steps;
      st.phase == Succeeded ==>
        && spec.steps[j].name in seen
        && seen[spec.steps[j].name] == Entry(st.output, if st.outputJSON != "" then Some(st.outputJSON) else None)
  {
    ReachableInv(env, spec, r);
    assert Clean(env, spec.steps[j], r.steps[j]);
    ParsedIsRead(env, spec.steps[j], r.steps[j]);
  }

  // ----------------------------------------------------- what templates see

  /** Of every step the answer, and the document if there is a valid one; and the input of the flow. */
  lemma DataShows(env: Env, spec: FlowSpec, steps: seq<StepStatus>)
    requires UniqueNames(spec.steps) && Aligned(spec, steps)
    ensures
      var d := Snapshot(env, spec, steps);
      && d.input == spec.input
      && (forall x :: x in d.steps <==> exists i :: 0 <= i < |steps| && steps[i].name == x)
      && forall i :: 0 <= i < |steps| ==>
          d.steps[steps[i].name]
          == Entry(steps[i].output,
                   if steps[i].outputJSON != "" && env.isJSON(steps[i].outputJSON) then Some(steps[i].outputJSON)
                   else None)
  {
    forall i | 0 <= i < |steps|
      ensures Snapshot(env, spec, steps).steps[steps[i].name] == EntryOfStep(env, steps[i])
    {
      SnapshotAt(env, spec, steps, i);
    }
  }

  // ----------------------------------------------------------------- loops

  /** The condition resolves to a text that does not say no. */
  ghost predicate Affirms(env: Env, tmpl: string, data: Data) {
    env.resolve(tmpl, data).Some? && !SaysNo(env.resolve(tmpl, data).value)
  }

  /** The step's loop condition holds, and it has been repeated less often than allowed: ten times by default. */
  ghost predicate AsksAgain(env: Env, step: Step, st: StepStatus, data: Data) {
    && step.loop.Some?
    && st.iterations < (if step.loop.value.maxIterations <= 0 then 10 else step.loop.value.maxIterations)
    && Affirms(env, step.loop.value.condition, data)
  }

  lemma AsksIffRepeats(env: Env, step: Step, st: StepStatus, data: Data)
    ensures AsksAgain(env, step, st, data) <==> Repeats(env, step, st, data)
  {
    if step.loop.Some? && env.resolve(step.loop.value.condition, data).Some? {
      TruthyIff(env.resolve(step.loop.value.condition, data).value);
    }
  }

  /** A succeeded step that asks to be repeated is as new, but for its iterations and its tokens; others stay. */
  ghost predicate LoopedWell(env: Env, step: Step, st: StepStatus, data: Data, st': StepStatus) {
    st' == if st.phase == Succeeded && AsksAgain(env, step, st, data)
      then StepStatus(st.name, Pending, None, "", "", st.iterations + 1, st.tokens, None, None)
      else st
  }

  /** EvaluateLoops on one record. */
  lemma LoopsWell(env: Env, step: Step, st: StepStatus, data: Data)
    ensures LoopedWell(env, step, st, data, LoopOne(env, step, st, data))
  {
    AsksIffRepeats(env, step, st, data);
  }

  /** EvaluateLoops. */
  lemma AllLoopWell(env: Env, spec: FlowSpec, steps: seq<StepStatus>, data: Data)
    requires |steps| == |spec.steps|
    ensures forall i :: 0 <= i < |steps| ==>
      LoopedWell(env, spec.steps[i], steps[i], data, LoopAll(env, spec, steps, data)[i])
  {
    forall i | 0 <= i < |steps|
      ensures LoopedWell(env, spec.steps[i], steps[i], data, LoopAll(env, spec, steps, data)[i])
    {
      LoopsWell(env, spec.steps[i], steps[i], data);
    }
  }

  /** What templates see if they read only the input of the flow and one step. */
  function OwnData(env: Env, spec: FlowSpec, st: StepStatus): Data {
    Data(spec.input, map[st.name := Entry(st.output,
           if st.outputJSON != "" && env.isJSON(st.outputJSON) then Some(st.outputJSON) else None)])
  }

  /** Loops that are honoured have come to their end: the condition does not hold, or the cap is reached. */
  lemma HonouredEnds(env: Env, spec: FlowSpec, steps: seq<StepStatus>, j: nat)
    requires Aligned(spec, steps) && LoopsHonoured(env, spec, steps) && j < |steps|
    ensures steps[j].phase == Succeeded ==>
      !AsksAgain(env, spec.steps[j], steps[j], OwnData(env, spec, steps[j]))
  {
    assert !StillAsks(env, spec, steps, j);
    AsksIffRepeats(env, spec.steps[j], steps[j], OwnData(env, spec, steps[j]));
  }

  /** So has the loop of a record that will not change any more. */
  lemma FinalEnds(env: Env, spec: FlowSpec, step: Step, st: StepStatus)
    requires Final(env, spec, step, st) && st.name == step.name && st.phase == Succeeded
    ensures !AsksAgain(env, step, st, OwnData(env, spec, st))
  {
    AsksIffRepeats(env, step, st, OwnData(env, spec, st));
  }

  // --------------------------------------------------------------- releases

  /** Everything the step depends on has succeeded or was skipped. */
  ghost predicate DependenciesMet(step: Step, steps: seq<StepStatus>) {
    forall d :: d in step.dependsOn ==> exists j :: 0 <= j < |steps| && steps[j].name == d
                                                    && (steps[j].phase == Succeeded || steps[j].phase == Skipped)
  }

  lemma MetIffSucceeded(spec: FlowSpec, steps: seq<StepStatus>, i: nat)
    requires UniqueNames(spec.steps) && Aligned(spec, steps) && i < |steps|
    ensures DependenciesMet(spec.steps[i], steps) <==> DepsSucceeded(spec.steps[i].dependsOn, steps)
  {
    var deps, index := spec.steps[i].dependsOn, Index(steps);
    if DependenciesMet(spec.steps[i], steps) {
      forall k | 0 <= k < |deps|
        ensures deps[k] in index && Done(steps[index[deps[k]]].phase)
      {
        assert deps[k] in deps;
        var j :| 0 <= j < |steps| && steps[j].name == deps[k]
            && (steps[j].phase == Succeeded || steps[j].phase == Skipped);
        IndexAt(spec, steps, j);
      }
    }
  }

  /** The step has a condition, and it does not hold. */
  ghost predicate Denied(env: Env, step: Step, data: Data) {
    step.cond != "" && !Affirms(env, step.cond, data)
  }

  lemma DeniedIff(env: Env, step: Step, data: Data)
    ensures Denied(env, step, data) <==> !Wanted(env, step, data)
  {
    if env.resolve(step.cond, data).Some? {
      TruthyIff(env.resolve(step.cond, data).value);
    }
  }

  /**
   * A pending step whose dependencies are met is skipped if its condition is denied, rejected if an input is in
   * error, and launched otherwise; nothing happens to any other step.
   */
  lemma DecidesWell(env: Env, spec: FlowSpec, steps: seq<StepStatus>, data: Data, i: nat)
    requires UniqueNames(spec.steps) && Aligned(spec, steps) && i < |steps|
    ensures
      var step := spec.steps[i];
      Decide(env, spec, steps, data, i)
      == if steps[i].phase != Pending || !DependenciesMet(step, steps) then Leave
         else if Denied(env, step, data) then SkipIt
         else if SomeInputFails(env, step, data) then RejectIt
         else LaunchIt
  {
    MetIffSucceeded(spec, steps, i);
    DeniedIff(env, spec.steps[i], data);
  }

  /** In every run steps are released for these reasons, and prompts show what the inputs resolve to at that moment. */
  lemma ReleasedForReason(env: Env, spec: FlowSpec, ms: seq<Move>, i: nat, m: nat)
    requires Exec(env, spec, Initial(spec), ms).Some? && i < |spec.steps| && m < |ms| && ReleasesStep(ms[m], i)
    ensures
      var step, data := spec.steps[i], StateAt(env, spec, ms, m).data;
      && (ms[m].Skip? <==> Denied(env, step, data))
      && (ms[m].Reject? ==> SomeInputFails(env, step, data))
      && (ms[m].Start? ==>
            if SomeInputFails(env, step, data) then ms[m].prompt == "" else Shows(env, step, data, ms[m].prompt))
  {
    var step, data := spec.steps[i], StateAt(env, spec, ms, m).data;
    MoveEnabled(env, spec, ms, m);
    DeniedIff(env, step, data);
    if ms[m].Start? {
      AskedShows(env, step, data, ms[m].prompt);
    }
  }

  lemma AskedShows(env: Env, step: Step, data: Data, prompt: string)
    requires MayAsk(env, step, data, prompt)
    ensures if SomeInputFails(env, step, data) then prompt == "" else Shows(env, step, data, prompt)
  {
    if InputsResolve(env, step, data) {
      var order :| IsOrder(step.inputs.Keys, order)
        && prompt == PromptText(Resolved(env, step, data), order, step.outputSchema);
      PromptShows(env, step, data, order);
    }
  }

  // ---------------------------------------------------------------- lengths

  /** The lengths of the lines of a prompt: a key, two characters, the value and a newline. */
  function LineLengths(env: Env, step: Step, data: Data, order: seq<string>): (c: seq<int>)
    ensures |c| == |order|
  {
    seq(|order|, i requires 0 <= i < |order| =>
      if order[i] in step.inputs then |order[i]| + 2 + |env.resolve(step.inputs[order[i]], data).GetOr("")| + 1 else 0)
  }

  lemma {:induction false} CutsAreSums(env: Env, step: Step, data: Data, order: seq<string>, cuts: seq<nat>,
          prompt: string, k: nat)
    requires LaidOut(env, step, data, order, cuts, prompt) && k <= |order|
    ensures Sum(LineLengths(env, step, data, order)[..k]) == cuts[k]
  {
    if k > 0 {
      CutsAreSums(env, step, data, order, cuts, prompt, k - 1);
      assert LineAt(env, step, data, order, cuts, prompt, k - 1);
      var c := LineLengths(env, step, data, order);
      assert c[..k][..k - 1] == c[..k - 1];
    }
  }

  /** A prompt is as long as its lines and its schema together. */
  lemma PromptLength(env: Env, step: Step, data: Data, order: seq<string>, cuts: seq<nat>, prompt: string)
    requires LaidOut(env, step, data, order, cuts, prompt)
    ensures |prompt| == Sum(LineLengths(env, step, data, order))
      + if step.outputSchema == "" then 0
        else |"\nRespond with valid JSON matching this schema:\n"| + |step.outputSchema| + 1
  {
    CutsAreSums(env, step, data, order, cuts, prompt, |order|);
    var c := LineLengths(env, step, data, order);
    assert c[..|order|] == c;
    assert prompt == prompt[..cuts[|order|]] + prompt[cuts[|order|]..];
  }
}
