# The ArkFlow engine, verified

A Dafny model of the ArkFlow execution engine of ark-operator and proofs about it. A flow is a graph of steps; each step sends a
prompt to an agent and keeps the answer. Two drivers run the same flow: the local executor (`ark run`) works in batches inside one
process; the operator reconciles a stored status again and again, putting tasks on a Redis stream from which workers take them.
The modules, from the bottom up:

- `FlowTypes`, `Dag`, `Text`, `Fence`, `Templates`: the API entities, `ValidateDAG` as the recursive three-colour search over its
  colour map, `ExtractJSON`, template data and prompts.
- `Engine`: the engine as a transition system. A *move* finishes, crashes, parses, resets, skips, rejects or starts one step, or
  rebuilds the template data. `History`, `Meaning` and `Agreement` prove what every sequence of moves keeps: invariants, bounds,
  happens-before, token accounts, and that what a flow computes is a function of its graph, not of the schedule.
- `Passes`, `FlowObject`: the operations of `internal/flow` as functions, and as methods of a class `Flow` that updates its fields
  in place and is proved equal to them. `Effects` says what they do in terms of the fields of records and the texts of prompts
  alone, and `ReconcilerEffects` and `LocalEffects` what a reconcile and a turn of the local driver do.
- `LocalRun`, `LocalTheory`, `LocalEnds`, `LocalOutcome`, `LocalLoops`, `LocalTokens`, `LocalDriver`: the batch driver as functions
  (terminating by a measure), the proof that each of its turns is a sequence of moves, how its runs end, when they honour loops,
  what their totals mean, and the imperative `Run`.
- `Decimal`, `TaskQueue`, `Ledger`: the queue with its integer texts, and a ledger of every task's life.
- `Reconciler`, `ReconcilerTheory`, `ReconcilerProgress`, `ReconcilerDriver`: one reconcile as functions, as moves, its progress,
  and the imperative `Reconcile`, `collectResults` and `submitPendingSteps`.
- `Persistence`: what is left of a status once it is written, its times being cut to whole seconds.
- `Cluster`, `ClusterTheory`, `ClusterResults`, `ClusterTally`, `ClusterTokens`, `ClusterTotals`, `ClusterFailures`,
  `ClusterProgress`: any number of flows sharing one queue, with reconciles whose status write may be lost and workers that answer,
  fail, retry and bury tasks in any order; what stored statuses show, which tokens they count, which flows fail, and how soon.
- `ReleaseOrder`: the order of steps as turns of the local driver and stored statuses show it.
- `Triggers`, `TriggerTheory`, `DailyBudget`, `BudgetTheory`: the cron and pipeline-output triggers, and the rolling token budget.
- `Limits`: concrete inputs showing that the conditions of the main results cannot be dropped. `Example`: a flow of two steps, run
  to success by both drivers, that meets them all.

The foreign code is abstract. Go templates are a function `resolve` of the template and the data it sees; the JSON parser is a
predicate `isJSON` (with the lexical rules of sections 2 and 7 of RFC 8259 where the fence round trip needs them); an agent is a
relation `answers` between prompts and answers, the same for all agents because a task carries only its prompt. The text of a
prompt is concrete, a line for each input and the schema; the order in which Go ranges over the inputs is a parameter, any
order at each launch. Redis IDs are positions in the stream. Clocks, the answers of the API server and the success of each
Redis command are parameters. Times are in nanoseconds; a status that is written keeps whole seconds of them, as the JSON form of
a Kubernetes time does, while a flow in the memory of a driver keeps them as they are.

What is assumed, beyond that: step names are unique, as `api/v1alpha1/arkflow_types.go` line 74 says (`ValidateDAG` does not check
it, see `Limits.DuplicatesHideCycles`); a flow's specification does not change once its status is initialized; all workers use the
same `maxRetries`; queue operations are atomic and no entry is delivered twice; the consumer group exists before the first task;
token counts reported by workers are non-negative; cron expressions can be satisfied, and the operator runs in UTC (the schedule
is parsed without a zone, the last fire is read back in the zone of the process and compared with a time in UTC). The theorems
that two runs agree also assume agents that are deterministic and overlook the order of input lines (`Meaning.Consistent`).

Where code and comments disagree, the model follows the code. `mostRecentSchedule` looks back from the *later* of the last fire
and 24 hours ago, though its comment says the earlier. `Run` calls a flow in which nothing is ready stuck and says that cannot
happen after validation; it can (`LocalOutcome.StuckRun`), and `LocalEnds.RunUndecidedIff` says exactly when. README.md line 45
of the repository promises the same output from both drivers; `ClusterResults.DriversAgree` proves it when both succeed, and
`ClusterResults.ClusterSuccessCarriesOver` gives conditions under which success in the cluster implies success locally. Both need
templates that read only transitive dependencies, loop conditions that read only their own step, and agents whose answer is a
function of the prompt that does not depend on the order of its input lines: `ResolvePrompt` writes those in the order of a Go
map, so its text is not a function of the data, and `Limits.OrderMatters` shows two runs that differ for no other reason. For
steps with at most one input that condition always holds (`Meaning.FewInputsAreBlind`). Line 102 of
`api/v1alpha1/arkflow_types.go` promises that a step repeats until its condition is false or its cap is reached; the operator
keeps that promise (`ClusterResults.LoopsAreHonoured`), `Run` only for steps that others depend on
(`LocalLoops.DependedOnIsFinal`) and otherwise exactly as `LocalLoops.RunHonoursLoopsIff` says. A template error fails a step in
the cluster, and `ClusterFailures.FailsIffUnresolved` says exactly which flows fail for it; `Run` ignores the error and sends an
empty prompt, so the same flow can succeed locally (`ClusterFailures.TemplateErrorsDiverge`).

## Model

| member | source | states |
|---|---|---|
| Dag.ValidateDAG | internal/flow/dag.go:58-100 | returns no error exactly when every dependency names a step and no step reaches itself; an unknown-dependency error names a real one, a cycle error names an edge whose target leads back to its source |
| Dag.CheckAcyclic | internal/flow/dag.go:75-98 | the search over all steps finds a cycle exactly when there is one |
| Dag.Walker.Visit | internal/flow/dag.go:77-92 | one visit ends on the shrinking set of white nodes, keeps the gray nodes a path, and numbers finished nodes above their dependencies |
| Dag.TopologicalImpliesAcyclic | internal/flow/dag.go:75-98 | an order that lists dependencies first rules every cycle out |
| Dag.AcyclicHasOrder | internal/flow/dag.go:75-98 | every acyclic graph has such an order |
| Dag.RankExists | internal/flow/dag.go:58-100 | an accepted flow can be ranked so that dependencies rank lower |
| Dag.RankFalls | internal/flow/dag.go:71-74 | every transitive dependency ranks lower |
| Limits.DuplicatesHideCycles | internal/flow/dag.go:71-74 | with duplicate names a self-dependency passes validation, because the last entry wins |
| Text.IndexOfIsFirst | internal/flow/step.go:147-151 | the substring search returns the first occurrence, and fails only if there is none |
| Fence.ExtractJSON | internal/flow/step.go:131-166 | the line-by-line search computes the specified extraction |
| Fence.ExtractSound | internal/flow/step.go:131-166 | the result is empty, or a trimmed valid document that is a substring of the input |
| Fence.ExtractIdempotent | internal/flow/step.go:131-166 | extracting from an extracted document gives it back |
| Fence.NewlineBacktickSticks | internal/flow/step.go:151-163 | text that respects the lexical rules of JSON contains no newline followed by a backtick |
| Fence.FenceRoundTrip | internal/flow/step.go:126-166 | a trimmed valid object or array inside a fence is recovered, with any tag, any text without braces or brackets before, any text after |
| Fence.BareRoundTrip | internal/flow/step.go:137-140 | a trimmed valid document by itself is returned as it is |
| Fence.UnclosedRoundTrip | internal/flow/step.go:150-157 | so is an object or array after an opening fence that is never closed |
| Fence.DeliveredIsExtracted | internal/flow/step.go:126-166 | a valid document that an answer holds in one of these three ways is the one that is extracted |
| Templates.IndexAt | internal/flow/dag.go:34-40 | with unique names each name leads to its own record |
| Templates.SnapshotAt | internal/flow/template.go:70-89 | the template data holds each step's own answer, and its document if there is one |
| Effects.DataShows | internal/flow/template.go:70-89 | templates see the input of the flow and, under the name of each record and of nothing else, its output and its document, if that is not empty and valid |
| Templates.ResolvePrompt | internal/flow/template.go:51-64 | there is no prompt exactly when some input is in error; otherwise it consists, piece by piece and in the order in which the inputs are taken, of one line for each input, with its key and what its template resolves to, and of the schema, if there is one, after them |
| Templates.ShownInput | internal/flow/template.go:53-58 | so for each input the line of its key and resolved value occurs in the prompt, before the end of the lines |
| Templates.ShownSchema | internal/flow/template.go:60-62 | and a schema occurs after all of them |
| Effects.PromptLength | internal/flow/template.go:51-64 | the prompt is as long as its lines and its schema together: there is nothing else in it |
| Templates.TruthyIff | internal/flow/template.go:30-33 | a text is false exactly when it is blank, or "0", "false" or "no" in any case, whatever space surrounds it |
| Templates.DepsSucceededIff | internal/flow/dag.go:43-55 | the dependency check means that every step depended on has succeeded or been skipped |
| Templates.DepsMonotone | internal/flow/dag.go:43-55 | satisfied dependencies stay satisfied while done steps stay done |
| Engine.ReachableInv | internal/flow/step.go:62-124 | in every reachable state only succeeded steps hold output, a stored document is empty or the extraction of the output of the same iteration, iterations stay within the cap, released steps have had their dependencies done, and the template data agrees with the records but for steps reset since |
| Engine.KeepsInv | internal/flow/step.go:91-124 | every move keeps these invariants |
| History.TransitionFalls | internal/flow/step.go:104-116 | every transition brings its step nearer to its end: three per remaining repetition plus its place in this one |
| History.RunsAreBounded | internal/flow/step.go:91-124 | no run makes more transitions than two for each step, three for each repetition its loop admits, and thirty for a loop without a positive MaxIterations |
| History.LaunchesCounted | internal/controller/arkflow_controller.go:149-188 | a step was launched once per repetition, plus once if it is running or has succeeded |
| History.LaunchesBounded | internal/flow/step.go:104-112 | a step without a loop is launched at most once, one with a loop at most 1 + MaxIterations times, or 11 times if MaxIterations is not positive |
| History.HappensBefore | internal/flow/dag.go:43-55 | a step that has left Pending was released by a first move; in the state before that move its direct dependencies were done, and each transitive one was done in that state or an earlier one |
| ReleaseOrder.TurnHappensBefore | internal/ark/local/executor.go:58-137 | a step that leaves Pending in a turn of the local driver has its dependencies done at the end of the turn |
| ReleaseOrder.StoredHappensBefore | internal/controller/arkflow_controller.go:149-188 | in every history a step that leaves Pending from one stored status to the next has its dependencies done in the next |
| History.TokensAccounted | internal/flow/phase.go:30-46 | recorded tokens never exceed those of the successful executions, and equal them if nothing was repeated |
| Meaning.SnapshotCoherent | internal/controller/arkflow_controller.go:116-120 | in a loop-free flow the data built before skips and launches shows every transitive dependency of a step being released as it is at that moment |
| Meaning.SnapshotIsOutcome | internal/flow/template.go:70-89 | with loops too, that data is what the recursive meaning of the flow says |
| Meaning.ReleaseIsFinal | internal/flow/step.go:91-124 | once a step is released, all it depends on is done, and no continuation touches those records again |
| Limits.FeedbackUndoesRelease | internal/flow/step.go:109-116 | if a loop condition reads another step, a dependency can be reset after its dependent succeeded |
| Meaning.ReachableMeans | internal/controller/arkflow_controller.go:105-124 | in every reachable state every finished step holds exactly the recursive meaning of the graph |
| Meaning.FewInputsAreBlind | internal/flow/template.go:53-58 | the order of input lines cannot matter to steps with at most one input |
| Meaning.RunsAgree | internal/ark/local/executor.go:56-137 | two runs under any schedules agree on every step both have finished |
| Meaning.FinishedRunsAgree | internal/flow/phase.go:99-105 | two finished runs show the output template the same data |
| Meaning.DataWhenDone | internal/flow/phase.go:99-105 | when every step is done, data built before the pass shows the final records |
| Passes.VerdictSucceeds | internal/flow/phase.go:65-108 | an undecided flow succeeds exactly when no more than its timeout has gone by, its records hold no more tokens than a positive limit, and every step is succeeded or skipped |
| Passes.VerdictFails | internal/flow/phase.go:49-98 | it fails exactly when more than its timeout has gone by, its records hold more tokens than a positive limit, or some step failed |
| Passes.VerdictReason | internal/flow/phase.go:49-107 | the condition names the first cause that applies: deadline, budget, failed step; the completion time is set exactly when the flow is decided |
| Passes.VerdictRenders | internal/flow/phase.go:99-105 | only success changes the output, to what the output template resolves to, or nothing if it is in error |
| Passes.VerdictUndecided | internal/flow/phase.go:82-107 | a flow left undecided has no failed step and some unfinished one |
| Passes.TotalIsSum | internal/flow/phase.go:30-46 | unless the flow is late its total is the sum over the records, of input tokens and of both; sums that are not positive leave it as it was |
| Passes.RefreshMoves | internal/flow/step.go:62-86 | parsing answers and building the data is a sequence of moves and leaves every answer parsed |
| Passes.LoopMoves | internal/flow/step.go:91-124 | evaluating loops is a sequence of moves after which no loop asks to be repeated |
| FlowObject.Flow.InitializeSteps | internal/flow/step.go:43-58 | an unset flow becomes running with one blank record per step; any other is left alone |
| FlowObject.Flow.BuildStatusByName | internal/flow/dag.go:34-40 | maps each name to the position of its last record |
| FlowObject.Flow.CheckDeps | internal/flow/dag.go:43-55 | true exactly when every name has a record that succeeded or was skipped |
| FlowObject.Flow.ParseOutputJSON | internal/flow/step.go:62-86 | in whatever order the records are taken, each succeeded step with a schema and no document yet gets the one that its output holds, bare or fenced, and in any case nothing but a trimmed valid part of the output; other records and fields stay |
| FlowObject.Flow.BuildTemplateData | internal/flow/template.go:70-89 | in whatever order the records are taken, the data holds each record's output and its document, if that is not empty and valid |
| FlowObject.Flow.EvaluateLoops | internal/flow/step.go:91-124 | reset are exactly the succeeded steps whose loop condition resolves to something truthy and whose iterations are below MaxIterations, or below ten if that is not positive; a reset record is blank but for its name, its tokens and one more iteration |
| Effects.LoopsWell | internal/flow/step.go:104-122 | the same of one record, in terms of its fields |
| Effects.AnswersAreRead | internal/flow/step.go:62-86 | in every reachable state with data up to date, a step with a schema holds the document that its output holds, one without a schema none, and templates see output and document under the name of the step |
| Effects.DecidesWell | internal/controller/arkflow_controller.go:149-176 | a step is left alone unless it is pending and all it depends on has succeeded or was skipped; then it is skipped if it has a condition that is in error or false, failed if an input is in error, and launched otherwise |
| Effects.ReleasedForReason | internal/controller/arkflow_controller.go:149-188 | in every run steps are skipped, failed and launched for these reasons, and launched with a prompt that shows what their inputs resolve to at that moment |
| FlowObject.Flow.SumStepTokens | internal/flow/phase.go:30-46 | returns the sum and stores it unless it is all zero |
| FlowObject.Flow.EnforceTimeout | internal/flow/phase.go:49-62 | fails the flow exactly when the deadline has passed |
| FlowObject.Flow.UpdateFlowPhase | internal/flow/phase.go:65-108 | an undecided flow fails exactly when it is late, its records hold more tokens than a positive limit or a step failed, and succeeds exactly when none of this holds and all steps are succeeded or skipped; the condition names the first cause in this order, and the records stay |
| LocalRun.SkipPassShape | internal/ark/local/executor.go:144-171 | collecting ready steps leaves each record alone or skips a pending one, and returns only pending steps |
| LocalRun.RanShrinks | internal/ark/local/executor.go:58-137 | a turn that runs something lowers the remaining repetitions plus pending steps, whatever the graph, the conditions and the answers |
| LocalTheory.SkipPassReady | internal/ark/local/executor.go:144-171 | every step returned is pending, wanted, and has its dependencies done at the end of the pass |
| LocalTheory.BatchMoves | internal/ark/local/executor.go:58-137 | a whole turn is a sequence of engine moves |
| LocalEnds.StopsUndecidedIff | internal/ark/local/executor.go:65-70 | the turn that finds nothing ready leaves the flow undecided exactly when it is in time, within budget as it starts, and at its start, after the loops, some step and a dependency listed after it are both pending |
| LocalEnds.StopsOvertaken | internal/ark/local/executor.go:65-70 | in terms of the turn itself: a dependency was skipped after its dependent, listed earlier, had been passed over |
| LocalEnds.RunEnds | internal/ark/local/executor.go:58-137 | a run that ends without a verdict ended in such a turn |
| LocalEnds.RunUndecidedIff | internal/ark/local/executor.go:50-140 | a whole run gets no verdict exactly when it comes to a turn that finds nothing ready, in time and within budget, with a step and a dependency listed after it both pending |
| LocalEnds.OrderedFlowsEnd | internal/ark/local/executor.go:50-140 | a valid flow that lists every step after its dependencies always ends succeeded or failed |
| LocalEnds.UnconditionalFlowsEnd | internal/ark/local/executor.go:50-140 | so does one in which no conditional step is listed after a dependent of its own |
| LocalOutcome.StuckRun | internal/ark/local/executor.go:65-70 | a valid flow of two steps comes out of every run undecided, with a step whose dependencies are done still pending |
| LocalOutcome.FlatFlowsNeverRepeat | internal/ark/local/executor.go:59-63 | Run decides before it looks at the loops of the last batch: in a flow without dependencies or conditions no loop is ever repeated |
| LocalLoops.DependedOnIsFinal | api/v1alpha1/arkflow_types.go:102 | in a local run that succeeds, the record of every step that another one depends on is final: its answer is parsed and its loop at an end |
| LocalLoops.RunHonoursLoopsIff | internal/ark/local/executor.go:58-137 | a local run leaves no loop unfinished exactly when no agent's answer in its last turn, with repetitions of its step left, makes that step's loop condition hold |
| LocalLoops.LastBatchIsNotRepeated | internal/ark/local/executor.go:58-137 | when a turn runs all that is left and nothing fails, the flow succeeds in it and no step that ran is repeated, whatever its loop asks |
| LocalOutcome.LocalVerdictsAreRight | internal/flow/phase.go:49-107 | a local run that succeeds has every step succeeded or skipped, no more tokens than a positive limit and its verdict within the timeout; one that fails had more tokens, a failed step or a verdict after the timeout; one without a verdict has none of these and an unfinished step |
| LocalEffects.SweepsWell | internal/ark/local/executor.go:144-171 | collecting goes through the steps in order: a pending step with its dependencies done by then is skipped if its condition is in error or false, and ready otherwise |
| LocalEffects.RunsWell | internal/ark/local/executor.go:89-131 | each ready step is asked for what its inputs resolve to on the data of the turn, or for nothing if one is in error, and its record holds answer, token counts and times, or the failure |
| LocalEffects.LocalAnswersAreRead | internal/flow/step.go:62-86 | however a local run ends, each step with a schema holds the document that its output holds |
| LocalEffects.DependedOnEnds | api/v1alpha1/arkflow_types.go:102 | in a local run that succeeds, a succeeded step that another depends on was repeated until its condition was false or MaxIterations times, ten by default |
| LocalOutcome.UnlimitedRunsSucceed | internal/ark/local/executor.go:50-140 | a valid flow without timeout and token limit and with no conditional step after a dependent succeeds if its agents always answer |
| LocalTokens.LocalTotal | internal/flow/phase.go:30-46 | however a local run ends, its total is at most the tokens its agents reported, and equal to them for decided loop-free flows not ended by their deadline |
| LocalOutcome.RunBacked | internal/ark/local/executor.go:50-140 | whatever Run leaves is the status of a run of the engine |
| LocalOutcome.LocalRunMeans | internal/ark/local/executor.go:50-140 | a local run that succeeds holds the meaning of every step |
| LocalOutcome.LocalRunsAgree | internal/ark/local/executor.go:50-140 | two local runs that succeed give the same output, whatever the clocks and the agents' timing |
| LocalDriver.Executor.CollectReadySteps | internal/ark/local/executor.go:144-171 | computes the specified pass in place |
| LocalDriver.Executor.StartSteps | internal/ark/local/executor.go:83-87 | marks exactly the ready steps running |
| LocalDriver.Executor.AwaitResults | internal/ark/local/executor.go:89-131 | in whatever order the goroutines answer, the records are the same |
| LocalDriver.Executor.Run | internal/ark/local/executor.go:50-140 | terminates, and leaves the flow in the state that the functional run computes |
| Agreement.SucceededMeans | internal/flow/phase.go:99-106 | a status that succeeded holds the meaning of every step |
| Agreement.SucceededOutput | internal/flow/phase.go:101-104 | its output is the template rendered over the final records |
| Agreement.SucceededAgree | internal/flow/phase.go:99-106 | two statuses of the same flow that succeeded agree on steps, documents and output |
| Agreement.VerdictTotal | internal/flow/phase.go:30-46 | a verdict, late or not, keeps the account of tokens: the total is input plus output and at most the tokens of the successful executions, and exactly these if it decides a loop-free flow in time |
| Decimal.RoundTrip | internal/flow/step.go:169-178 | what is written as decimal text is read back, over all 64-bit integers |
| Decimal.ReadsSigned | internal/flow/step.go:169-178 | digits read as their value, with or without a sign; what does not fit in 64 bits is clamped for token counts and refused for attempts |
| Decimal.RefusesOther | internal/agent/queue/queue.go:127-130 | text with anything else in it reads as zero for token counts and is refused for attempts |
| TaskQueue.Queue.Poll | internal/agent/queue/queue.go:58-91 | delivers the next entry with its prompt and exactly its other fields, whatever their order, and marks it pending |
| TaskQueue.Queue.Submit | internal/agent/queue/queue.go:95-104 | appends an entry that holds the prompt and returns its ID |
| TaskQueue.Queue.Ack | internal/agent/queue/queue.go:107-119 | acknowledges and appends the result |
| TaskQueue.Queue.Nack | internal/agent/queue/queue.go:124-162 | acknowledges, then requeues with all metadata and the next attempt number, or buries |
| TaskQueue.RetryKeepsTask | internal/agent/queue/queue.go:134-150 | a failed delivery followed by a poll gives the same prompt and metadata, one attempt later, whatever the entry held |
| Ledger.KeepsBalanced | internal/agent/queue/queue.go:58-162 | every queue event keeps the ledger balanced: places, contents, results, graves, retry chains, attempt order |
| Ledger.TasksConserved | internal/agent/queue/queue.go:58-162 | after any history as many tasks were submitted as are waiting, in flight, answered and dead together |
| Ledger.CurrentEntry | internal/agent/queue/queue.go:134-150 | from every entry the retries lead to one that was not retried |
| Ledger.OnePlace | internal/agent/queue/queue.go:124-162 | there is only one such entry per task: it is never in two places |
| Ledger.OneResult | internal/agent/queue/queue.go:107-119 | no task ID has two results, and a task with a result is not dead |
| Ledger.BuriedAtLimit | internal/agent/queue/queue.go:134-162 | a failure buries a task exactly at attempt max(0, maxRetries), and requeues it before |
| Ledger.DeliveriesBounded | internal/agent/queue/queue.go:134-150 | a task is delivered at most max(0, maxRetries) + 1 times |
| Ledger.PromptKept | internal/agent/queue/queue.go:135-144 | every attempt carries the prompt the task was submitted with |
| Reconciler.DecidedStays | internal/controller/arkflow_controller.go:91-94 | whatever a reconcile finds, a decided flow keeps its phase, steps and output, and sends nothing |
| Reconciler.ActsOnlyWhenRunnable | internal/controller/arkflow_controller.go:61-112 | unless the flow is there, valid, has all its agents, is undecided and Redis is configured, a reconcile changes no more than the condition, which names the first obstacle in this order, and sends nothing; it skips the write exactly when the flow is not there or needed results cannot be read |
| Reconciler.RequeuesIffUndecided | internal/controller/arkflow_controller.go:131-134 | a pass that gets through is repeated exactly while the flow is undecided |
| ReconcilerTheory.ScanTakesOne | internal/controller/arkflow_controller.go:211-232 | scanning the results takes the one that carries the step's task ID, or none |
| ReconcilerEffects.CollectsWell | internal/controller/arkflow_controller.go:193-234 | a running step takes output and token counts of the result of its task, if there is one, two zero counts leaving the old usage; no other record changes |
| ReconcilerEffects.SubmitsWell | internal/controller/arkflow_controller.go:149-188 | submitting goes through the steps in order: each one whose dependencies are done by then is skipped, failed or launched under the next task ID, as its condition and its inputs demand, until an XADD fails |
| ReconcilerEffects.PromptsShowInputs | internal/controller/arkflow_controller.go:166-186 | every task that a pass sends is for a step that now runs under its ID, and its prompt shows what the inputs of the step resolve to on the data of the pass, and the schema |
| ReconcilerEffects.RetriesIff | internal/controller/arkflow_controller.go:107-122 | a pass asks to be tried again exactly when needed results cannot be read, and then changes and sends nothing, or when it has more tasks than XADDs succeed, and then as many are sent as do, and no verdict is passed |
| ReconcilerTheory.SubmitMoves | internal/controller/arkflow_controller.go:138-190 | submitting is a sequence of moves, and each task sent asks what its step was launched with |
| ReconcilerTheory.SendingMoves | internal/controller/arkflow_controller.go:105-122 | a whole reconcile is a sequence of engine moves |
| ReconcilerTheory.AdvancedBacked | internal/controller/arkflow_controller.go:105-124 | the status a reconcile leaves is that of a run of the engine, even when a submission fails half-way |
| ReconcilerTheory.SucceedsAfterLoops | internal/controller/arkflow_controller.go:118-124 | one pass that declares a flow succeeded leaves no loop that asks to be repeated on that pass's data |
| ClusterResults.LoopsAreHonoured | api/v1alpha1/arkflow_types.go:102 | in every history each succeeded step of a flow stored as succeeded was repeated until its condition was in error or false on its own output, or as often as its loop admits: MaxIterations times, ten by default |
| ReconcilerProgress.DecidesOrReleases | internal/controller/arkflow_controller.go:105-124 | if nothing is running once the results are in and the submissions get through, the flow is decided or a pending step is released |
| ReconcilerProgress.ReadyIsReleased | internal/controller/arkflow_controller.go:149-188 | a pending step whose dependencies are done before the pass is released by it |
| ClusterProgress.DecidedInTime | internal/controller/arkflow_controller.go:105-134 | in every history a flow is decided after more visits than the transitions its specification allows, counting those that find all answers in, whose submissions get through and whose write arrives; it has at most one more |
| ReconcilerDriver.ArkFlowReconciler.CollectResults | internal/controller/arkflow_controller.go:193-234 | the scan through the waiting map finishes exactly the waiting steps that have a result; it fails only if something waits and the stream cannot be read |
| ReconcilerDriver.ArkFlowReconciler.SubmitPendingSteps | internal/controller/arkflow_controller.go:138-190 | computes the specified pass on flow and queue, and stops at the first failed XADD with what was done so far |
| ReconcilerDriver.ArkFlowReconciler.Reconcile | internal/controller/arkflow_controller.go:57-135 | the order of the checks, what each writes, and the tasks put on the stream |
| ClusterTheory.KeepsWhole | internal/controller/arkflow_controller.go:57-135 | whatever happens next, every written status stays sound, results truthful, the ledger balanced |
| ClusterTheory.AlwaysWhole | internal/controller/arkflow_controller.go:57-135 | so it is in every history, with lost status writes and resubmitted tasks |
| Persistence.PersistedBacked | internal/controller/arkflow_controller.go:126-129 | writing a status, which cuts its times to whole seconds, leaves it that of a run of the engine, with the same tokens and data |
| ClusterResults.OutputWasAnswered | internal/controller/arkflow_controller.go:193-232 | the output of a succeeded step is the one result of a task submitted for this step of this flow in its present iteration, and an agent's answer to that task's prompt |
| ClusterResults.TasksDistinct | internal/controller/arkflow_controller.go:198-203 | no two steps, of one flow or of two, hold the same task |
| ClusterResults.CollectingIsSafe | internal/controller/arkflow_controller.go:198-203 | the waiting map never loses a step |
| ClusterResults.VerdictsAreFinal | internal/controller/arkflow_controller.go:91-94 | a decided flow keeps phase, steps, output and total through everything that happens later |
| ClusterResults.VerdictsAreRight | internal/flow/phase.go:49-107 | in every history a flow stored as succeeded has every step succeeded or skipped, no more tokens than a positive limit and its verdict within the timeout; one stored as failed had more tokens, a failed step or a verdict no earlier than the timeout; no other phase is stored than these, running and none |
| ClusterResults.StoredAnswersAreRead | internal/flow/step.go:62-86 | in every history each stored step with a schema holds the document that its output holds |
| ClusterTotals.ResultsAreReports | internal/agent/queue/queue.go:107-119 | in every history the results stream is the list of the successes that workers reported, with their tasks, answers and token counts |
| ClusterTotals.RecordsReported | internal/controller/arkflow_controller.go:211-232 | the records of a loop-free flow hold exactly the tokens that were reported for the tasks of its succeeded steps |
| ClusterTotals.ClusterTotal | internal/flow/phase.go:30-46 | in every history the total of a decided loop-free flow not ended by its deadline is exactly the sum of the tokens that workers reported for the tasks of its succeeded steps |
| ClusterTokens.TotalsAreCovered | internal/controller/arkflow_controller.go:211-232 | in every history the stored total is at most the tokens that results on the stream report for tasks of this flow's steps |
| ClusterResults.ClusterMeans | internal/controller/arkflow_controller.go:105-124 | a flow that succeeds in the cluster holds the meaning of every step |
| ClusterResults.DriversAgree | README.md:45 | a flow that succeeds under both drivers has the same skips, outputs and result |
| ClusterResults.ClusterSuccessCarriesOver | README.md:45 | without timeout and token limit, with agents that always answer and no conditional step listed after a dependent, a flow that succeeded in the cluster succeeds locally, with the same skips, outputs and result |
| ClusterFailures.FailsIffUnresolved | internal/controller/arkflow_controller.go:149-188 | in every history a decided flow without deadline and token limit has failed exactly if some step is wanted although, on the outcomes of its dependencies, an input of it does not resolve |
| ClusterFailures.TemplateErrorsDiverge | internal/ark/local/executor.go:89-92 | a flow with a template error that fails in the cluster and succeeds locally, with the same agents |
| Limits.OrderMatters | internal/flow/template.go:53-58 | if agents react to the order of input lines, two local runs of one flow can end with different outputs |
| Example.AgreementIsNotEmpty | README.md:45 | a flow, a history in which both steps are submitted, answered and collected, the second reading the first, and a host, that meet everything the agreement demands |
| ClusterTally.SubmittedOncePerIteration | internal/controller/arkflow_controller.go:177-186 | while no status write is lost, a step was submitted once per repetition and once more if running or succeeded |
| ClusterTally.SubmissionsBounded | internal/controller/arkflow_controller.go:177-186 | so at most once without a loop, and with one at most 1 + MaxIterations times, or 11 times if MaxIterations is not positive |
| Triggers.MostRecentSchedule | internal/controller/arkevent_controller.go:385-404 | the loop terminates if the schedule advances, and computes the specified scan |
| Triggers.MostRecentIsGreatest | internal/controller/arkevent_controller.go:385-404 | it returns the greatest due instant after the last fire and within a day, or none exactly when there is none |
| Triggers.ArkEvent.ReconcileCron | internal/controller/arkevent_controller.go:120-163 | the new status, whether it failed, and a requeue one second after the next due instant |
| Triggers.ArkEvent.ReconcilePipelineOutput | internal/controller/arkevent_controller.go:213-261 | it fires exactly when the flow is found in the awaited phase, Succeeded if none is named, and the trigger has never fired, the flow has no completion time or that is later than the last fire; a fire that does not fail is counted and timed, and the condition tells the cases apart |
| TriggerTheory.LookFires | internal/controller/arkevent_controller.go:228-260 | over whole runs, with the last fire as its time was written: under these conditions the completion is fired for and counted, and otherwise nothing changes |
| TriggerTheory.LastFire | internal/controller/arkevent_controller.go:256-258 | the written time is, in whole seconds, that of the last look that fired |
| TriggerTheory.FirstFire | internal/controller/arkevent_controller.go:228-260 | a trigger that has never fired does so for the completion of the flow when it finds that in the terminal phase it waits for |
| TriggerTheory.SlotsIncrease | internal/controller/arkevent_controller.go:137-154 | over any run with a clock that never goes back, slots fired for strictly increase and are counted, although the time of the last fire is kept in whole seconds |
| TriggerTheory.TickFires | internal/controller/arkevent_controller.go:137-163 | each reconcile fires for the latest instant that came due in the last 24 hours after the slot fired for last, if there is one, once, and writes the time, the count and the next due instant; a failed fire leaves everything as it was |
| TriggerTheory.FiresWhenDue | internal/controller/arkevent_controller.go:137-141 | it fires exactly when something came due in the last day after the slot it fired for last, so missed slots collapse into one fire |
| TriggerTheory.NothingLost | internal/controller/arkevent_controller.go:385-404 | nothing that came due within the last day stays unfired after a reconcile whose fire does not fail |
| TriggerTheory.FiresOnceIffNotRunning | internal/controller/arkevent_controller.go:228-260 | each completion is fired for at most once exactly when the awaited phase is not Running |
| TriggerTheory.TerminalFiresOnce | internal/controller/arkevent_controller.go:240-258 | with a terminal phase the completions fired for strictly increase and the counter counts them |
| TriggerTheory.RunningRefires | internal/controller/arkevent_controller.go:240-245 | waiting for Running, two reconciles of the same unfinished flow fire twice |
| TriggerTheory.PendingNeverFires | internal/controller/arkevent_controller.go:228-238 | waiting for Pending, a phase no flow is ever given, it never fires |
| DailyBudget.ArkAgent.ReconcileDailyBudget | internal/controller/arkagent_controller.go:451-525 | the nested loops compute usage, condition and delay as specified |
| DailyBudget.ArkAgent.Reconcile | internal/controller/arkagent_controller.go:126-133 | budget before deployment: the agent runs no replica exactly while its usage of the last day has reached a positive limit or zero are asked for, and otherwise as many as asked for, one by default |
| BudgetTheory.ChargesExact | internal/controller/arkagent_controller.go:480-506 | what counts are exactly the records of this agent's steps with tokens that completed within the last day |
| BudgetTheory.UsageIsShares | internal/controller/arkagent_controller.go:480-507 | the usage is the sum of input, output and total tokens over the records that count, each once |
| BudgetTheory.ReviewsWell | internal/controller/arkagent_controller.go:460-524 | an agent is over its limit exactly when that sum has reached a positive limit, and is then looked at again a minute after the earliest completion is 24 hours old; without a limit it is cleared |
| BudgetTheory.WindowMoves | internal/controller/arkagent_controller.go:496-499 | later, without new completions, what counts is what counted and is still in the window |
| BudgetTheory.RequeueIsPositive | internal/controller/arkagent_controller.go:511-519 | an agent over its limit is looked at again a minute after its earliest charge expires; the one-hour fallback is unreachable |
| BudgetTheory.WakeupDropsOne | internal/controller/arkagent_controller.go:515-517 | by then at least one charge is gone |
| BudgetTheory.BudgetRecovers | internal/controller/arkagent_controller.go:511-524 | the wakeups end the excess after at most as many looks as there were charges |
| BudgetTheory.StaysWithin | internal/controller/arkagent_controller.go:522-524 | an agent within its limit stays within it while nothing completes |
| BudgetTheory.ScaledToZeroIff | internal/controller/arkagent_controller.go:218-225 | replicas are zero exactly while usage has reached a positive limit, or zero replicas are asked for |

## Left out

- DriversAgree: assumes agents whose answer is a function of the prompt and does not depend on the order of input lines, loop conditions that read only their own step and templates that read only transitive dependencies; where the drivers succeed and fail differently, FailsIffUnresolved and UnlimitedRunsSucceed say what each does.
- SnapshotCoherent: for loop-free flows only; with loops the data is stale for steps reset in the same pass, and SnapshotIsOutcome says what holds instead.
- SubmissionsBounded: for flows none of whose status writes is lost; a lost write resubmits, and only provenance is claimed then.
- DecidesOrReleases: the assumption that nothing is running is part of the claim, and of DecidedInTime; a task that dies on the dead-letter stream leaves its step running for ever, and no liveness is claimed after that.
- ClusterTotal: for loop-free flows; with loops TotalsAreCovered gives the bound. A flow that failed no earlier than its deadline, and whose condition has been overwritten since, may not have been ended by it and is still not covered, because whole seconds do not tell.
- RefusesOther: reading malformed text is modelled without the order in which strconv notices a bad digit and an overflow.
- MostRecentSchedule: schedules are sets of due instants, which leaves out `@every` expressions.
- SlotsIncrease: a fire either happens or leaves no trace; partial creation of target flows and a status write that fails after a fire are not modelled.
- Values of 64-bit counters are unbounded integers; overflow of token sums and counters is not modelled.
- A turn of the local driver reads the clock three times and a reconcile once, where the code reads it at each change of a record.
- Messages, condition texts, observedGeneration, events for `--watch`, logging.
- Deletion and re-creation of flows, changes to a flow's specification while it runs, stale reads of a flow (whose writes are rejected and therefore lost).
- Redis networking, consumer-group setup, and recovery of entries held by a worker that crashed, which nothing reclaims.
- Kubernetes plumbing: owner references, watches, patches, the construction of Deployments beyond the number of replicas.
- LLM providers, MCP, webhook tools, the runner and the health probe: only the abstract agent remains.
- The webhook source of events, its token Secret and HTTP mode; `Forbid` as mutual exclusion, which the code does not provide.
- ArkMemory, ArkService and ArkSettings controllers, YAML loading, CLI output: they would add only easy members.
