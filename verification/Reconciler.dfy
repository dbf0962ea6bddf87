/** internal/controller/arkflow_controller.go as functions: what one reconcile of a flow does. */
module Reconciler {
  import opened Wrappers
  import opened FlowTypes
  import opened Templates
  import opened Dag
  import opened Engine
  import opened Passes
  import opened Decimal
  import opened TaskQueue

  // -------------------------------------------------------------- collecting

  predicate IsWaiting(st: StepStatus) {
    st.phase == Running && st.taskID.Some?
  }

  predicate AnyWaiting(steps: seq<StepStatus>) {
    exists i :: 0 <= i < |steps| && IsWaiting(steps[i])
  }

  function TakeOne(st: StepStatus, r: Result, now: int): StepStatus {
    Finished(st, r.result, ToInt64(r.inputTokens), ToInt64(r.outputTokens), false, now)
  }

  /** The record of a step that was waiting for task `id`, once the given results have been scanned. */
  function TakeAll(st: StepStatus, id: nat, results: seq<Result>, now: int): StepStatus {
    if results == [] then st
    else
      var before := TakeAll(st, id, results[..|results| - 1], now);
      var r := results[|results| - 1];
      if r.taskID == id then TakeOne(before, r, now) else before
  }

  function Collected(st: StepStatus, results: seq<Result>, now: int): StepStatus {
    if IsWaiting(st) then TakeAll(st, st.taskID.value, results, now) else st
  }

  /** collectResults. */
  function CollectAll(steps: seq<StepStatus>, results: seq<Result>, now: int): (r: seq<StepStatus>)
    ensures |r| == |steps|
  {
    seq(|steps|, i requires 0 <= i < |steps| => Collected(steps[i], results, now))
  }

  /**
   * What a reconcile finds: whether the flow is there to be run (readable, not being deleted, not a template of an
   * event), whether all its agents exist, whether Redis is configured, whether the results can be read, how many
   * XADDs succeed, the time, and the orders in which it ranges over inputs.
   */
  datatype Ambient = Ambient(
    active: bool,
    agentsFound: bool,
    connected: bool,
    readable: bool,
    accepts: nat,
    now: int,
    shuffle: Shuffle)

  // -------------------------------------------------------------- submitting

  /** A task put on the stream for a step. */
  datatype Sent = Sent(step: nat, prompt: string)

  /** The records and the tasks sent so far; `ok` is false once an XADD has failed. */
  datatype Sub = Sub(steps: seq<StepStatus>, sent: seq<Sent>, ok: bool)

  /** submitPendingSteps up to step k; the first XADD that succeeds gets ID `base`. */
  function SubmitPass(env: Env, spec: FlowSpec, steps: seq<StepStatus>, data: Data, am: Ambient, base: nat,
          k: nat): (s: Sub)
    requires |steps| == |spec.steps| && k <= |steps|
    ensures |s.steps| == |steps|
  {
    if k == 0 then Sub(steps, [], true)
    else
      var s := SubmitPass(env, spec, steps, data, am, base, k - 1);
      if s.ok then SubmitOne(env, spec, s, data, am, base, k - 1) else s
  }

  lemma SubmitPassNext(env: Env, spec: FlowSpec, steps: seq<StepStatus>, data: Data, am: Ambient, base: nat, k: nat,
          s: Sub)
    requires |steps| == |spec.steps| && 0 < k <= |steps| && s == SubmitPass(env, spec, steps, data, am, base, k - 1)
    ensures SubmitPass(env, spec, steps, data, am, base, k)
      == if s.ok then SubmitOne(env, spec, s, data, am, base, k - 1) else s
  {
  }

  function SubmitOne(env: Env, spec: FlowSpec, s: Sub, data: Data, am: Ambient, base: nat, i: nat): (s': Sub)
    requires |s.steps| == |spec.steps| && i < |s.steps|
    ensures |s'.steps| == |s.steps|
  {
    SubmitVerb(s, Decide(env, spec, s.steps, data, i), PromptOf(env, spec.steps[i], data, am.shuffle), am, base, i)
  }

  /** What has been decided for step i, done; the prompt matters only if it is to be launched. */
  function SubmitVerb(s: Sub, verb: Verb, prompt: string, am: Ambient, base: nat, i: nat): (s': Sub)
    requires i < |s.steps|
    ensures |s'.steps| == |s.steps|
  {
    match verb
    case Leave => s
    case SkipIt => s.(steps := s.steps[i := Stopped(s.steps[i], Skipped, am.now)])
    case RejectIt => s.(steps := s.steps[i := Stopped(s.steps[i], Failed, am.now)])
    case LaunchIt =>
      if |s.sent| >= am.accepts then s.(ok := false)
      else Sub(s.steps[i := Launched(s.steps[i], Some(base + |s.sent|), am.now)], s.sent + [Sent(i, prompt)], true)
  }

  // ------------------------------------------------------------- reconciling

  datatype Next = Stop | Requeue | Retry

  /** The status at the end, whether it is written back, the tasks sent, and what the controller runtime is told. */
  datatype Pass = Pass(status: Status, write: bool, sent: seq<Sent>, next: Next)

  /** Results in, answers parsed: the records on which the rest of the pass is based. */
  function Gathered(env: Env, spec: FlowSpec, steps: seq<StepStatus>, results: seq<Result>,
          now: int): (r: seq<StepStatus>)
    requires |steps| == |spec.steps|
    ensures |r| == |steps|
  {
    ParseAll(env, spec, CollectAll(steps, results, now))
  }

  /** Loops evaluated, and steps submitted. */
  function Sending(env: Env, spec: FlowSpec, steps: seq<StepStatus>, results: seq<Result>, base: nat,
          am: Ambient): (s: Sub)
    requires |steps| == |spec.steps|
    ensures |s.steps| == |steps|
  {
    var gathered := Gathered(env, spec, steps, results, am.now);
    var data := Snapshot(env, spec, gathered);
    SubmitPass(env, spec, LoopAll(env, spec, gathered, data), data, am, base, |steps|)
  }

  /** The body of Reconcile, once the flow is known to be runnable. */
  function Advanced(env: Env, spec: FlowSpec, st: Status, results: seq<Result>, base: nat, am: Ambient): (p: Pass)
    requires |st.steps| == |spec.steps|
    ensures |p.status.steps| == |spec.steps|
  {
    if AnyWaiting(st.steps) && !am.readable then Pass(st, false, [], Retry)
    else
      var s := Sending(env, spec, st.steps, results, base, am);
      var moved := st.(steps := s.steps);
      if !s.ok then Pass(moved, true, s.sent, Retry)
      else
        var data := Snapshot(env, spec, Gathered(env, spec, st.steps, results, am.now));
        var status := Verdict(env, spec, moved, data, am.now);
        Pass(status, true, s.sent, if status.phase == FlowRunning then Requeue else Stop)
  }

  /** Reconcile. */
  ghost function Reconciled(env: Env, spec: FlowSpec, st: Status, results: seq<Result>, base: nat, am: Ambient): Pass
    requires st.phase != Unset ==> |st.steps| == |spec.steps|
  {
    if !am.active then Pass(st, false, [], Stop)
    else if !ValidGraph(spec.steps) then Pass(st.(ready := InvalidDAG), true, [], Stop)
    else if !am.agentsFound then Pass(st.(ready := DeploymentNotFound), true, [], Stop)
    else if IsTerminal(st.phase) then Pass(st, true, [], Stop)
    else if !am.connected then Pass(st.(ready := NoTaskQueue), true, [], Stop)
    else Advanced(env, spec, Initialized(spec, st, am.now), results, base, am)
  }

  /** Whatever a reconcile finds, a decided flow keeps its phase, its steps and its output, and sends nothing. */
  lemma DecidedStays(env: Env, spec: FlowSpec, st: Status, results: seq<Result>, base: nat, am: Ambient)
    requires IsTerminal(st.phase) && |st.steps| == |spec.steps|
    ensures
      var p := Reconciled(env, spec, st, results, base, am);
      p.sent == [] && p.status == st.(ready := p.status.ready)
  {
  }

  /** The flow is there, valid, with all its agents, undecided, and Redis is configured. */
  ghost predicate Runnable(spec: FlowSpec, st: Status, am: Ambient) {
    am.active && ValidGraph(spec.steps) && am.agentsFound && !IsTerminal(st.phase) && am.connected
  }

  /**
   * A reconcile changes no more than the condition, and sends nothing, unless the flow is runnable; the condition
   * then names the first obstacle. It leaves its status unwritten exactly when the flow is not there, or a running
   * step waits for results that cannot be read.
   */
  lemma ActsOnlyWhenRunnable(env: Env, spec: FlowSpec, st: Status, results: seq<Result>, base: nat, am: Ambient)
    requires st.phase != Unset ==> |st.steps| == |spec.steps|
    ensures
      var p := Reconciled(env, spec, st, results, base, am);
      && (!Runnable(spec, st, am) ==>
            && p.sent == [] && p.status == st.(ready := p.status.ready) && p.next == Stop
            && p.status.ready
               == if !am.active then st.ready
                  else if !ValidGraph(spec.steps) then InvalidDAG
                  else if !am.agentsFound then DeploymentNotFound
                  else if st.phase == FlowSucceeded || st.phase == FlowFailed then st.ready
                  else NoTaskQueue)
      && (p.write <==>
          && am.active && !(Runnable(spec, st, am) && AnyWaiting(st.steps) && !am.readable
          && st.phase != Unset))
  {
    if st.phase == Unset {
      assert !AnyWaiting(BlankSteps(spec));
    }
  }

  /** A pass that gets through asks to be run again exactly as long as the flow is undecided. */
  lemma RequeuesIffUndecided(env: Env, spec: FlowSpec, st: Status, results: seq<Result>, base: nat, am: Ambient)
    requires st.phase == FlowRunning && |st.steps| == |spec.steps|
    requires Sending(env, spec, st.steps, results, base, am).ok && (am.readable || !AnyWaiting(st.steps))
    ensures var p := Advanced(env, spec, st, results, base, am); p.next == Requeue <==> !IsTerminal(p.status.phase)
  {
    var s := Sending(env, spec, st.steps, results, base, am);
    var data := Snapshot(env, spec, Gathered(env, spec, st.steps, results, am.now));
    var moved := st.(steps := s.steps);
    if !IsTerminal(Verdict(env, spec, moved, data, am.now).phase) {
      VerdictUndecided(env, spec, moved, data, am.now);
    }
  }
}
