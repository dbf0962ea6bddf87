/**
 * What one turn of the local driver does, said of fields alone: which steps it skips, what it asks, what it records.
 */
module LocalEffects {
  import opened Wrappers
  import opened FlowTypes
  import opened Templates
  import opened Engine
  import opened Passes
  import opened Meaning
  import opened Agreement
  import opened Effects
  import opened LocalRun
  import opened LocalTheory
  import opened LocalOutcome
  import opened LocalLoops

  /**
   * collectReadySteps goes through the steps in order. A pending step whose dependencies are met in the records left
   * by the steps before it is skipped if its condition is denied, and is ready otherwise.
   */
  lemma SweepsWell(env: Env, spec: FlowSpec, steps: seq<StepStatus>, data: Data, now: int, i: nat)
    requires UniqueNames(spec.steps) && Aligned(spec, steps) && i < |steps|
    ensures
      var s, s' := SkipPass(env, spec, steps, data, now, i), SkipPass(env, spec, steps, data, now, i + 1);
      if steps[i].phase != Pending || !DependenciesMet(spec.steps[i], s.steps) then s' == s
      else if Denied(env, spec.steps[i], data) then
        s' == Sweep(s.steps[i := steps[i].(phase := Skipped, completionTime := Some(now))], s.ready)
      else s' == Sweep(s.steps, s.ready + [i])
  {
    SkipPassReady(env, spec, steps, data, now, i);
    DecidesWell(env, spec, SkipPass(env, spec, steps, data, now, i).steps, data, i);
  }

  /** The record of a step that ran in the turn and got the reply, its answer parsed. */
  ghost predicate RanWell(env: Env, step: Step, st: StepStatus, reply: Reply, from: int, to: int, ran: StepStatus) {
    match reply
    case Answer(output, inTok, outTok) =>
      ParsedWell(env, step,
                 StepStatus(st.name, Succeeded, st.taskID, output, st.outputJSON, st.iterations,
                            Some(TokenUsage(inTok, outTok, inTok + outTok)), Some(from), Some(to)),
                 ran)
    case Fault =>
      ran == StepStatus(st.name, Failed, st.taskID, st.output, st.outputJSON, st.iterations, st.tokens, Some(from),
                        Some(to))
  }

  lemma RepliedWell(env: Env, step: Step, st: StepStatus, reply: Reply, from: int, to: int)
    ensures RanWell(env, step, st, reply, from, to,
      Parsed(env, step, Replied(Launched(st, st.taskID, from), reply, to)))
  {
    ParsesWell(env, step, Replied(Launched(st, st.taskID, from), reply, to));
  }

  /**
   * Each ready step is asked once what its inputs resolve to on the data of the turn, or nothing if one of them is in
   * error, and its record holds the reply; the other records are as the sweep left them, but for answers parsed.
   */
  lemma RunsWell(env: Env, host: Host, spec: FlowSpec, steps: seq<StepStatus>, tick: nat, i: nat)
    returns (prompt: string)
    requires |steps| == |spec.steps| && i < |steps| && Shuffles(host.shuffle(tick))
    ensures
      var step, data := spec.steps[i], Snapshot(env, spec, steps);
      if SomeInputFails(env, step, data) then prompt == "" else Shows(env, step, data, prompt)
    ensures
      var sweep, ran := Swept(env, host, spec, steps, tick), Ran(env, host, spec, steps, tick)[i];
      if i in sweep.ready then
        RanWell(env, spec.steps[i], sweep.steps[i], host.run(spec.steps[i].name, prompt, tick), host.clock(3 * tick),
                host.clock(3 * tick + 1), ran)
      else ParsedWell(env, spec.steps[i], sweep.steps[i], ran)
  {
    var step, data := spec.steps[i], Snapshot(env, spec, steps);
    prompt := PromptOf(env, step, data, host.shuffle(tick));
    PromptOfShows(env, step, data, host.shuffle(tick));
    var st := Swept(env, host, spec, steps, tick).steps[i];
    RepliedWell(env, step, st, ReplyTo(env, host, step, data, tick), host.clock(3 * tick), host.clock(3 * tick + 1));
    ParsesWell(env, step, st);
  }

  /** In every local run, however it ends, each answer has been parsed. */
  lemma LocalAnswersAreRead(env: Env, host: Host, spec: FlowSpec, now: int, j: nat)
    requires UniqueNames(spec.steps) && Honest(env, host) && j < |spec.steps|
    ensures |RunAll(env, host, spec, now).steps| == |spec.steps|
    ensures AnswerRead(env, spec.steps[j], RunAll(env, host, spec, now).steps[j])
  {
    InitialBacked(env, spec, now);
    var r, seen := RunBacked(env, host, spec, Initialized(spec, FRESH_STATUS, now), 0, Initial(spec), []);
    ReachableInv(env, spec, r);
    assert Clean(env, spec.steps[j], r.steps[j]);
    ParsedIsRead(env, spec.steps[j], r.steps[j]);
  }

  /**
   * In a local run that succeeds, a succeeded step that another depends on was repeated until its loop condition did
   * not hold, or as often as its loop admits.
   */
  lemma DependedOnEnds(env: Env, host: Host, spec: FlowSpec, now: int, i: nat, j: nat)
    requires UniqueNames(spec.steps) && OwnLoops(env, spec) && Honest(env, host)
    requires RunAll(env, host, spec, now).phase == FlowSucceeded
    requires i < |spec.steps| && j < |spec.steps| && DependsOn(spec, i, j)
    ensures |RunAll(env, host, spec, now).steps| == |spec.steps|
    ensures
      var st := RunAll(env, host, spec, now).steps[j];
      st.phase == Succeeded && spec.steps[j].loop.Some? ==>
        var loop := spec.steps[j].loop.value;
        || st.iterations >= (if loop.maxIterations <= 0 then 10 else loop.maxIterations)
        || !Affirms(env, loop.condition, OwnData(env, spec, st))
  {
    DependedOnIsFinal(env, host, spec, now, i, j);
    InitialBacked(env, spec, now);
    var r, seen := RunBacked(env, host, spec, Initialized(spec, FRESH_STATUS, now), 0, Initial(spec), []);
    ReachableInv(env, spec, r);
    if r.steps[j].phase == Succeeded {
      FinalEnds(env, spec, spec.steps[j], r.steps[j]);
    }
  }
}
