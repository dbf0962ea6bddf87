/** Where the guarantees stop: the conditions they rest on cannot be dropped. */
module Limits {
  import opened Wrappers
  import opened FlowTypes
  import opened Templates
  import opened Text
  import opened Dag
  import opened Engine
  import opened Meaning
  import opened Passes
  import opened LocalRun
  import opened LocalTheory
  import opened LocalEnds
  import opened LocalOutcome

  function PlainStep(name: string, deps: seq<string>, loop: Option<LoopSpec>): Step {
    Step(name, "agent", map[], deps, "", "", loop)
  }

  // ------------------------------------------------------- duplicate names

  /** Two steps of the same name, the first of which depends on itself. */
  const TWINS := [PlainStep("a", ["a"], None), PlainStep("a", [], None)]

  /** ValidateDAG accepts them: of steps with the same name it sees only the last. */
  lemma DuplicatesHideCycles()
    ensures ValidGraph(TWINS) && !UniqueNames(TWINS) && TWINS[0].name in TWINS[0].dependsOn
  {
    var g := Adjacency(TWINS);
    assert TWINS[..1] == [TWINS[0]] && TWINS[..1][..0] == [];
    assert Adjacency([]) == map[];
    assert Adjacency(TWINS[..1]) == map["a" := ["a"]];
    assert g == map["a" := []];
    assert Topological(g, ["a"]);
    TopologicalImpliesAcyclic(g, ["a"]);
    assert TWINS[0].name == TWINS[1].name;
  }

  // ------------------------------------------------ loops that read others

  /** Step "a" repeats as long as its dependent "b" has an output. */
  const FEEDBACK := FlowSpec([PlainStep("a", [], Some(LoopSpec("{{ .steps.b.output }}", 1))),
      PlainStep("b", ["a"], None)], map[], "", 0, 0)

  /** Templates resolve to "1" if "b" has an output, and to nothing otherwise. */
  const FEEDBACK_ENV := Env(
    (_, data: Data) => Some(if "b" in data.steps && data.steps["b"].output != "" then "1" else ""),
    _ => false, (_, _) => true)

  lemma OneIsTruthy()
    ensures IsTruthy("1") && !IsTruthy("")
  {
    assert Lower("1") == "1";
    assert TrimLeft("1") == "1" && TrimRight("1") == "1";
    assert Lower("") == "";
  }

  lemma FeedbackNames()
    ensures UniqueNames(FEEDBACK.steps) && DependsOn(FEEDBACK, 1, 0)
  {
    assert FEEDBACK.steps[0].name == "a" && FEEDBACK.steps[1].name == "b";
    assert FEEDBACK.steps[1].dependsOn[0] == "a";
  }

  /** The flow with the given phases and outputs, seen through up-to-date data. */
  function Scene(steps: seq<StepStatus>): Run {
    Run(steps, Snapshot(FEEDBACK_ENV, FEEDBACK, steps), ["", ""], [0, 0], {}, true)
  }

  function FeedbackRecord(i: nat, phase: StepPhase, output: string): StepStatus
    requires i < 2
  {
    var st := Blank(FEEDBACK.steps[i]).(phase := phase, output := output);
    if phase == Pending then st
    else if phase == Running then st.(startTime := Some(0))
    else st.(startTime := Some(0), completionTime := Some(0), tokens := Some(TokenUsage(0, 0, 0)))
  }

  lemma SeenOutput(a: StepStatus, b: StepStatus)
    requires a.name == "a" && b.name == "b"
    ensures FEEDBACK_ENV.resolve("{{ .steps.b.output }}", Scene([a, b]).data)
      == Some(if b.output != "" then "1" else "")
  {
    FeedbackNames();
    assert FEEDBACK.steps[0].name == "a" && FEEDBACK.steps[1].name == "b";
    SnapshotAt(FEEDBACK_ENV, FEEDBACK, [a, b], 1);
  }

  /** A step without inputs and schema is asked nothing. */
  lemma AsksNothing(i: nat, data: Data)
    requires i < 2
    ensures MayAsk(FEEDBACK_ENV, FEEDBACK.steps[i], data, "")
  {
    var step := FEEDBACK.steps[i];
    assert step.inputs == map[];
    assert IsOrder(step.inputs.Keys, []) && PromptText(Resolved(FEEDBACK_ENV, step, data), [], step.outputSchema) == "";
  }

  lemma SceneStarts(before: Run, i: nat)
    requires i < 2 && Shaped(FEEDBACK, before) && Releasable(FEEDBACK_ENV, FEEDBACK, before, i)
    ensures Enabled(FEEDBACK_ENV, FEEDBACK, before, Start(i, "", None, 0))
  {
    AsksNothing(i, before.data);
  }

  predicate NothingParsed(steps: seq<StepStatus>) {
    |steps| == 2 && steps[0].outputJSON == "" && steps[1].outputJSON == ""
  }

  /** No step has a schema, so there is nothing to parse. */
  lemma SceneParsed(steps: seq<StepStatus>)
    requires NothingParsed(steps)
    ensures AllParsed(FEEDBACK_ENV, FEEDBACK, steps)
  {
  }

  /** A step that is released, */
  lemma SceneLaunches(before: Run, i: nat) returns (after: Run)
    requires i < 2 && Shaped(FEEDBACK, before) && Enabled(FEEDBACK_ENV, FEEDBACK, before, Start(i, "", None, 0))
    requires before.steps[i] == FeedbackRecord(i, Pending, "") && before.asked == ["", ""]
    ensures after == Apply(FEEDBACK_ENV, FEEDBACK, before, Start(i, "", None, 0)) && Shaped(FEEDBACK, after)
    ensures after.steps == before.steps[i := FeedbackRecord(i, Running, "")] && after.asked == before.asked
    ensures after.spent == before.spent
  {
    after := Apply(FEEDBACK_ENV, FEEDBACK, before, Start(i, "", None, 0));
  }

  /** and answered, */
  lemma SceneAnswers(before: Run, i: nat, output: string) returns (after: Run)
    requires i < 2 && Shaped(FEEDBACK, before) && before.steps[i] == FeedbackRecord(i, Running, "")
    requires before.asked == ["", ""] && before.spent == [0, 0]
    ensures Enabled(FEEDBACK_ENV, FEEDBACK, before, Finish(i, output, 0, 0, true, 0))
    ensures after == Apply(FEEDBACK_ENV, FEEDBACK, before, Finish(i, output, 0, 0, true, 0))
    ensures after.steps == before.steps[i := FeedbackRecord(i, Succeeded, output)]
    ensures after.asked == before.asked && after.spent == [0, 0]
  {
    after := Apply(FEEDBACK_ENV, FEEDBACK, before, Finish(i, output, 0, 0, true, 0));
  }

  lemma UpdatedTwice<T>(s: seq<T>, i: nat, x: T, y: T)
    requires i < |s|
    ensures s[i := x][i := y] == s[i := y]
  {
  }

  lemma ScenePlays(before: Run, i: nat, output: string) returns (ms: seq<Move>, after: Run)
    requires i < 2 && Shaped(FEEDBACK, before) && Enabled(FEEDBACK_ENV, FEEDBACK, before, Start(i, "", None, 0))
    requires before.steps[i] == FeedbackRecord(i, Pending, "") && before.asked == ["", ""] && before.spent == [0, 0]
    ensures Exec(FEEDBACK_ENV, FEEDBACK, before, ms) == Some(after)
    ensures after.steps == before.steps[i := FeedbackRecord(i, Succeeded, output)]
    ensures after.asked == ["", ""] && after.spent == [0, 0]
  {
    var mid := SceneLaunches(before, i);
    after := SceneAnswers(mid, i, output);
    UpdatedTwice(before.steps, i, FeedbackRecord(i, Running, ""), FeedbackRecord(i, Succeeded, output));
    ExecTwo(FEEDBACK_ENV, FEEDBACK, before, Start(i, "", None, 0), mid, Finish(i, output, 0, 0, true, 0));
    ms := [Start(i, "", None, 0)] + [Finish(i, output, 0, 0, true, 0)];
  }

  lemma SceneRuns(steps: seq<StepStatus>, i: nat, output: string) returns (r: Run)
    requires i < 2 && Aligned(FEEDBACK, steps)
    requires Reachable(FEEDBACK_ENV, FEEDBACK, Scene(steps)) && Releasable(FEEDBACK_ENV, FEEDBACK, Scene(steps), i)
    requires steps[i] == FeedbackRecord(i, Pending, "")
    ensures Reachable(FEEDBACK_ENV, FEEDBACK, r) && r.steps == steps[i := FeedbackRecord(i, Succeeded, output)]
    ensures r.asked == ["", ""] && r.spent == [0, 0]
  {
    SceneStarts(Scene(steps), i);
    var ms;
    ms, r := ScenePlays(Scene(steps), i, output);
    ReachableThen(FEEDBACK_ENV, FEEDBACK, Scene(steps), ms, r);
  }

  /** and seen. */
  lemma SceneReached(steps: seq<StepStatus>, i: nat, output: string)
    requires i < 2 && Aligned(FEEDBACK, steps) && NothingParsed(steps)
    requires Reachable(FEEDBACK_ENV, FEEDBACK, Scene(steps)) && Releasable(FEEDBACK_ENV, FEEDBACK, Scene(steps), i)
    requires steps[i] == FeedbackRecord(i, Pending, "")
    ensures Reachable(FEEDBACK_ENV, FEEDBACK, Scene(steps[i := FeedbackRecord(i, Succeeded, output)]))
  {
    var r := SceneRuns(steps, i, output);
    RefreshReached(r);
  }

  lemma RefreshReached(r: Run)
    requires Shaped(FEEDBACK, r) && NothingParsed(r.steps) && r.asked == ["", ""] && r.spent == [0, 0]
    requires Reachable(FEEDBACK_ENV, FEEDBACK, r)
    ensures Reachable(FEEDBACK_ENV, FEEDBACK, Scene(r.steps))
  {
    SceneParsed(r.steps);
    ExecOne(FEEDBACK_ENV, FEEDBACK, r, Refresh);
    ReachableThen(FEEDBACK_ENV, FEEDBACK, r, [Refresh], Scene(r.steps));
  }

  lemma FeedbackStarts()
    ensures Reachable(FEEDBACK_ENV, FEEDBACK, Scene(BlankSteps(FEEDBACK)))
  {
    assert Exec(FEEDBACK_ENV, FEEDBACK, Initial(FEEDBACK), []) == Some(Initial(FEEDBACK));
    assert Initial(FEEDBACK).asked == ["", ""] && Initial(FEEDBACK).spent == [0, 0];
    RefreshReached(Initial(FEEDBACK));
  }

  lemma FirstReleasable()
    ensures Releasable(FEEDBACK_ENV, FEEDBACK, Scene(BlankSteps(FEEDBACK)), 0)
  {
    assert DepsSucceeded([], BlankSteps(FEEDBACK));
  }

  /** "a" succeeds, */
  lemma FirstSucceeds()
    ensures Reachable(FEEDBACK_ENV, FEEDBACK,
      Scene([FeedbackRecord(0, Succeeded, "x"), FeedbackRecord(1, Pending, "")]))
  {
    var blank := BlankSteps(FEEDBACK);
    FeedbackStarts();
    FirstReleasable();
    SceneReached(blank, 0, "x");
    assert blank[0 := FeedbackRecord(0, Succeeded, "x")]
        == [FeedbackRecord(0, Succeeded, "x"), FeedbackRecord(1, Pending, "")];
  }

  lemma SecondReleasable(a: StepStatus, b: StepStatus)
    requires a == FeedbackRecord(0, Succeeded, "x") && b == FeedbackRecord(1, Pending, "")
    ensures Aligned(FEEDBACK, [a, b]) && Releasable(FEEDBACK_ENV, FEEDBACK, Scene([a, b]), 1)
  {
    FeedbackNames();
    OneIsTruthy();
    SeenOutput(a, b);
    IndexAt(FEEDBACK, [a, b], 0);
    assert DepsSucceeded(FEEDBACK.steps[1].dependsOn, [a, b]);
  }

  lemma SecondReplaced(a: StepStatus, b: StepStatus, c: StepStatus)
    ensures [a, b][1 := c] == [a, c]
  {
  }

  /** its loop does not ask for a repetition, so "b" is released and succeeds, */
  lemma SecondSucceeds()
    ensures Reachable(FEEDBACK_ENV, FEEDBACK,
      Scene([FeedbackRecord(0, Succeeded, "x"), FeedbackRecord(1, Succeeded, "y")]))
  {
    var a, b := FeedbackRecord(0, Succeeded, "x"), FeedbackRecord(1, Pending, "");
    FirstSucceeds();
    SecondReleasable(a, b);
    SceneReached([a, b], 1, "y");
    SecondReplaced(a, b, FeedbackRecord(1, Succeeded, "y"));
  }

  lemma SceneShaped(a: StepStatus, b: StepStatus)
    requires a.name == "a" && b.name == "b"
    ensures Shaped(FEEDBACK, Scene([a, b]))
  {
    assert FEEDBACK.steps[0].name == "a" && FEEDBACK.steps[1].name == "b";
  }

  lemma ResetPossible(a: StepStatus, b: StepStatus)
    requires a == FeedbackRecord(0, Succeeded, "x") && b == FeedbackRecord(1, Succeeded, "y")
    ensures Shaped(FEEDBACK, Scene([a, b])) && Enabled(FEEDBACK_ENV, FEEDBACK, Scene([a, b]), Reset(0))
  {
    SceneShaped(a, b);
    OneIsTruthy();
    SeenOutput(a, b);
  }

  /**
   * and now the loop of "a" asks for a repetition. When a loop condition reads another step, a dependency can be
   * reset after its dependent was released and has succeeded: what ReleaseIsFinal demands of loop conditions is
   * needed.
   */
  lemma FeedbackUndoesRelease() returns (r: Run)
    ensures Reachable(FEEDBACK_ENV, FEEDBACK, r) && |r.steps| == 2
    ensures DependsOn(FEEDBACK, 1, 0) && r.steps[1].phase == Succeeded && r.steps[0].phase == Pending
  {
    var a, b := FeedbackRecord(0, Succeeded, "x"), FeedbackRecord(1, Succeeded, "y");
    SecondSucceeds();
    FeedbackNames();
    ResetPossible(a, b);
    ExecOne(FEEDBACK_ENV, FEEDBACK, Scene([a, b]), Reset(0));
    r := Apply(FEEDBACK_ENV, FEEDBACK, Scene([a, b]), Reset(0));
    ReachableThen(FEEDBACK_ENV, FEEDBACK, Scene([a, b]), [Reset(0)], r);
  }

  // ------------------------------------------------- the order of the inputs

  /** A step with two inputs, both of which resolve to nothing. */
  const TWO_INPUTS := FlowSpec([Step("s", "agent", map["a" := "", "b" := ""], [], "", "", None)], map[], "", 0, 0)

  /** The agents repeat the prompt. */
  const PARROT_ENV := Env((_, _) => Some(""), _ => false, (prompt, answer) => answer == prompt)

  /** A host whose passes take the keys in the given order where it is one. */
  ghost function ParrotHost(order: seq<string>): Host {
    Host((_, prompt, _) => Answer(prompt, 0, 0), _ => 0,
         _ => (_, keys) => if IsOrder(keys, order) then order else SomeOrder(keys))
  }

  lemma ParrotIsHonest(order: seq<string>)
    ensures Honest(PARROT_ENV, ParrotHost(order)) && Deterministic(PARROT_ENV, p => p)
  {
  }

  lemma TwoLines(values: map<string, string>, k: string, l: string)
    requires k in values && l in values
    ensures InputLines(values, [k, l]) == InputLine(k, values[k]) + InputLine(l, values[l])
  {
    assert [k, l][..1] == [k] && [k][..0] == [];
    assert InputLines(values, [k]) == InputLine(k, values[k]);
  }

  /** The text of the prompt depends on the order. */
  lemma OrderShows(values: map<string, string>)
    requires values == map["a" := "", "b" := ""]
    ensures IsOrder(values.Keys, ["a", "b"]) && IsOrder(values.Keys, ["b", "a"])
    ensures PromptText(values, ["a", "b"], "")[..1] == "a" && PromptText(values, ["b", "a"], "")[..1] == "b"
  {
    assert ["a", "b"][0] != ["a", "b"][1] && ["b", "a"][0] != ["b", "a"][1];
    TwoLines(values, "a", "b");
    TwoLines(values, "b", "a");
    assert InputLine("a", "")[0] == 'a' && InputLine("b", "")[0] == 'b';
  }

  /** What a flow of one step comes to. */
  lemma OneStepOutput(env: Env, host: Host, spec: FlowSpec, now: int)
    requires Flat(spec) && |spec.steps| == 1
    requires ReplyTo(env, host, spec.steps[0], Snapshot(env, spec, BlankSteps(spec)), 0).Answer?
    ensures |RunAll(env, host, spec, now).steps| == 1
    ensures
      RunAll(env, host, spec, now).steps[0].output ==
      ReplyTo(env, host, spec.steps[0], Snapshot(env, spec, BlankSteps(spec)), 0).output
  {
    var st := Initialized(spec, FRESH_STATUS, now);
    FlatTurn(env, host, spec, st, 0);
    FlatSwept(env, host, spec);
    assert 0 in Swept(env, host, spec, st.steps, 0).ready;
    RunGoesOn(env, host, spec, st, 0, Batch(env, host, spec, st, 0));
  }

  /** The output of the two-input step when its inputs are taken in the given order. */
  lemma ParrotOutput(order: seq<string>, now: int)
    requires order == ["a", "b"] || order == ["b", "a"]
    ensures |RunAll(PARROT_ENV, ParrotHost(order), TWO_INPUTS, now).steps| == 1
    ensures
      RunAll(PARROT_ENV, ParrotHost(order), TWO_INPUTS, now).steps[0].output ==
      PromptText(map["a" := "", "b" := ""], order, "")
  {
    var step := TWO_INPUTS.steps[0];
    var data := Snapshot(PARROT_ENV, TWO_INPUTS, BlankSteps(TWO_INPUTS));
    OrderShows(map["a" := "", "b" := ""]);
    assert step.inputs.Keys == {"a", "b"} == (map["a" := "", "b" := ""]).Keys;
    assert Resolved(PARROT_ENV, step, data) == map["a" := "", "b" := ""];
    OneStepOutput(PARROT_ENV, ParrotHost(order), TWO_INPUTS, now);
  }

  /**
   * With agents that do not overlook the order of input lines, two local runs of the same flow can end with different
   * outputs: what the agreement theorems demand of the agents is needed.
   */
  lemma OrderMatters(now: int)
    ensures Honest(PARROT_ENV, ParrotHost(["a", "b"])) && Honest(PARROT_ENV, ParrotHost(["b", "a"]))
    ensures Deterministic(PARROT_ENV, p => p)
    ensures
      var one := RunAll(PARROT_ENV, ParrotHost(["a", "b"]), TWO_INPUTS, now).steps;
      var other := RunAll(PARROT_ENV, ParrotHost(["b", "a"]), TWO_INPUTS, now).steps;
      |one| == |other| == 1 && one[0].output != other[0].output
  {
    ParrotIsHonest(["a", "b"]);
    ParrotIsHonest(["b", "a"]);
    ParrotOutput(["a", "b"], now);
    ParrotOutput(["b", "a"], now);
    OrderShows(map["a" := "", "b" := ""]);
  }
}
