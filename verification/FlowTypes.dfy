/** The API entities of api/v1alpha1: the flow's specification and its status record. */
module FlowTypes {
  import opened Wrappers

  // ------------------------------------------------------------------ times

  /** Times are in nanoseconds. */
  const SECOND := 1_000_000_000

  /** What a status keeps of a time: whole seconds. */
  function Truncated(t: int): (r: int)
    ensures r <= t < r + SECOND && r % SECOND == 0
  {
    t - t % SECOND
  }

  function TruncatedOption(t: Option<int>): Option<int> {
    if t.Some? then Some(Truncated(t.value)) else None
  }

  // --------------------------------------------------------------- entities

  datatype Phase = Unset | FlowPending | FlowRunning | FlowSucceeded | FlowFailed

  datatype StepPhase = Pending | Running | Succeeded | Failed | Skipped

  datatype TokenUsage = TokenUsage(input: int, output: int, total: int)

  datatype LoopSpec = LoopSpec(condition: string, maxIterations: int) {
    /** A missing or non-positive cap means ten repetitions. */
    function Cap(): nat {
      if maxIterations <= 0 then 10 else maxIterations
    }
  }

  datatype Step = Step(
    name: string,
    agent: string,
    inputs: map<string, string>,
    dependsOn: seq<string>,
    outputSchema: string,
    cond: string,
    loop: Option<LoopSpec>)
  {
    /** The most often the step can be reset. */
    function Cap(): nat {
      if loop.Some? then loop.value.Cap() else 0
    }
  }

  datatype FlowSpec = FlowSpec(
    steps: seq<Step>,
    input: map<string, string>,
    output: string,
    timeoutSeconds: int,
    maxTokens: int)

  /** taskID is None where the record holds the empty string; a stream ID is its position in the stream. */
  datatype StepStatus = StepStatus(
    name: string,
    phase: StepPhase,
    taskID: Option<nat>,
    output: string,
    outputJSON: string,
    iterations: nat,
    tokens: Option<TokenUsage>,
    startTime: Option<int>,
    completionTime: Option<int>)

  /** The reason of the flow's Ready condition. */
  datatype Reason =
    | NoReason | Validated | InvalidDAG | DeploymentNotFound | NoTaskQueue
    | TimedOut | BudgetExceeded | StepFailed | AllSucceeded

  datatype Status = Status(
    phase: Phase,
    steps: seq<StepStatus>,
    startTime: Option<int>,
    completionTime: Option<int>,
    output: string,
    total: Option<TokenUsage>,
    ready: Reason)

  const FRESH_STATUS := Status(Unset, [], None, None, "", None, NoReason)

  /** Reports whether the flow has reached a final state. */
  predicate IsTerminal(phase: Phase) {
    phase == FlowSucceeded || phase == FlowFailed
  }

  /** A dependency is satisfied by a step that succeeded or was skipped. */
  predicate Done(phase: StepPhase) {
    phase == Succeeded || phase == Skipped
  }

  ghost predicate UniqueNames(steps: seq<Step>) {
    forall i, j :: 0 <= i < j < |steps| ==> steps[i].name != steps[j].name
  }

  /** The statuses mirror the specification, position by position. */
  ghost predicate Aligned(spec: FlowSpec, steps: seq<StepStatus>) {
    && |steps| == |spec.steps|
    && forall i :: 0 <= i < |steps| ==> steps[i].name == spec.steps[i].name
  }

  /** Step i names step j in its dependsOn list. */
  predicate DependsOn(spec: FlowSpec, i: nat, j: nat)
    requires i < |spec.steps| && j < |spec.steps|
  {
    spec.steps[j].name in spec.steps[i].dependsOn
  }
}
