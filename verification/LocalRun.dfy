/** internal/ark/local/executor.go as functions: the batch driver, its runs, and how they end. */
module LocalRun {
  import opened FlowTypes
  import opened Templates
  import opened Engine
  import opened History
  import opened Passes

  /** What runStep returns: an agent's answer with its token counts, or an error. */
  datatype Reply = Answer(output: string, inTok: nat, outTok: nat) | Fault

  /**
   * The foreign code: runStep by step name, prompt and pass number, the readings of the clock, and the orders in
   * which each pass ranges over inputs.
   */
  datatype Host = Host(run: (string, string, nat) -> Reply, clock: nat -> int, shuffle: nat -> Shuffle)

  /** collectReadySteps: the records with the false conditions skipped, and the steps to run. */
  datatype Sweep = Sweep(steps: seq<StepStatus>, ready: seq<nat>)

  function SkipPass(env: Env, spec: FlowSpec, steps: seq<StepStatus>, data: Data, now: int, k: nat): (s: Sweep)
    requires |steps| == |spec.steps| && k <= |steps|
    ensures |s.steps| == |steps|
    ensures forall x :: 0 <= x < |s.ready| ==> s.ready[x] < k
    ensures forall i :: k <= i < |steps| ==> s.steps[i] == steps[i]
  {
    if k == 0 then Sweep(steps, [])
    else
      var s := SkipPass(env, spec, steps, data, now, k - 1);
      match Decide(env, spec, s.steps, data, k - 1)
      case Leave => s
      case SkipIt => Sweep(s.steps[k - 1 := Stopped(s.steps[k - 1], Skipped, now)], s.ready)
      case _ => Sweep(s.steps, s.ready + [k - 1])
  }

  function StartAll(steps: seq<StepStatus>, ready: seq<nat>, at: int): (r: seq<StepStatus>)
    ensures |r| == |steps|
  {
    seq(|steps|, i requires 0 <= i < |steps| => if i in ready then Launched(steps[i], steps[i].taskID, at)
        else steps[i])
  }

  /** What runStep answers in a pass; a template error is ignored and leaves the prompt empty. */
  function ReplyTo(env: Env, host: Host, step: Step, data: Data, tick: nat): Reply {
    host.run(step.name, PromptOf(env, step, data, host.shuffle(tick)), tick)
  }

  function Replied(st: StepStatus, reply: Reply, at: int): StepStatus {
    match reply
    case Answer(output, inTok, outTok) => Finished(st, output, inTok, outTok, true, at)
    case Fault => Stopped(st, Failed, at)
  }

  function FinishAll(env: Env, host: Host, spec: FlowSpec, steps: seq<StepStatus>, data: Data, ready: seq<nat>,
          tick: nat): (r: seq<StepStatus>)
    requires |steps| == |spec.steps|
    ensures |r| == |steps|
  {
    seq(|steps|, i requires 0 <= i < |steps| =>
      if i in ready
      then Replied(steps[i], ReplyTo(env, host, spec.steps[i], data, tick), host.clock(3 * tick + 1))
      else steps[i])
  }

  /** Loops, then skips: the part of a pass that comes before anything runs. */
  function Swept(env: Env, host: Host, spec: FlowSpec, steps: seq<StepStatus>, tick: nat): (s: Sweep)
    requires |steps| == |spec.steps|
    ensures |s.steps| == |steps|
    ensures forall x :: 0 <= x < |s.ready| ==> s.ready[x] < |steps|
  {
    var data := Snapshot(env, spec, steps);
    SkipPass(env, spec, LoopAll(env, spec, steps, data), data, host.clock(3 * tick), |steps|)
  }

  /** The records after the ready steps have run and their answers are parsed. */
  function Ran(env: Env, host: Host, spec: FlowSpec, steps: seq<StepStatus>, tick: nat): (r: seq<StepStatus>)
    requires |steps| == |spec.steps|
    ensures |r| == |steps|
  {
    var data, sweep := Snapshot(env, spec, steps), Swept(env, host, spec, steps, tick);
    var started := StartAll(sweep.steps, sweep.ready, host.clock(3 * tick));
    ParseAll(env, spec, FinishAll(env, host, spec, started, data, sweep.ready, tick))
  }

  /** The records at the end of a turn. */
  function After(env: Env, host: Host, spec: FlowSpec, steps: seq<StepStatus>, tick: nat): (r: seq<StepStatus>)
    requires |steps| == |spec.steps|
    ensures |r| == |steps|
  {
    var sweep := Swept(env, host, spec, steps, tick);
    if sweep.ready == [] then sweep.steps else Ran(env, host, spec, steps, tick)
  }

  /** One turn of Run's loop; when nothing is ready the template data is not rebuilt, and the turn is the last one. */
  function Batch(env: Env, host: Host, spec: FlowSpec, st: Status, tick: nat): (r: Status)
    requires |st.steps| == |spec.steps|
    ensures r.steps == After(env, host, spec, st.steps, tick)
  {
    var after := After(env, host, spec, st.steps, tick);
    var seen := if Swept(env, host, spec, st.steps, tick).ready == [] then st.steps else after;
    Verdict(env, spec, st.(steps := after), Snapshot(env, spec, seen), host.clock(3 * tick + 2))
  }

  // ----------------------------------------------------------- termination

  /** What a step may still cost a pass: its remaining repetitions, and one if it has yet to run. */
  function Debt(step: Step, st: StepStatus): nat {
    (if st.iterations < step.Cap() then step.Cap() - st.iterations else 0) + if st.phase == Pending then 1 else 0
  }

  function Debts(spec: FlowSpec, steps: seq<StepStatus>): (d: seq<int>)
    requires |steps| == |spec.steps|
    ensures |d| == |steps|
  {
    seq(|steps|, i requires 0 <= i < |steps| => Debt(spec.steps[i], steps[i]))
  }

  function Fuel(spec: FlowSpec, steps: seq<StepStatus>): int
    requires |steps| == |spec.steps|
  {
    Sum(Debts(spec, steps))
  }

  lemma {:induction false} SumStrict(a: seq<int>, b: seq<int>, k: nat)
    requires |a| == |b| && k < |a| && a[k] < b[k]
    requires forall i :: 0 <= i < |a| ==> a[i] <= b[i]
    ensures Sum(a) < Sum(b)
    decreases |a|
  {
    if k == |a| - 1 {
      SumMonotone(a[..|a| - 1], b[..|b| - 1]);
    } else {
      SumStrict(a[..|a| - 1], b[..|b| - 1], k);
    }
  }

  /** collectReadySteps leaves each record alone or skips it, and leaves those it returns Pending. */
  lemma {:induction false} SkipPassShape(env: Env, spec: FlowSpec, steps: seq<StepStatus>, data: Data, now: int, k: nat)
    requires |steps| == |spec.steps| && k <= |steps|
    ensures
      var s := SkipPass(env, spec, steps, data, now, k);
      && (forall i :: 0 <= i < |steps| ==>
          || s.steps[i] == steps[i]
          || (steps[i].phase == Pending && s.steps[i] == Stopped(steps[i], Skipped, now)))
      && (forall x :: 0 <= x < |s.ready| ==> s.steps[s.ready[x]].phase == Pending)
  {
    if k > 0 {
      SkipPassShape(env, spec, steps, data, now, k - 1);
    }
  }

  /** A record that was swept, and run if it was ready, owes no more than before, and less if it was run. */
  lemma RecordDebt(env: Env, step: Step, st: StepStatus, looped: StepStatus, swept: StepStatus, ran: StepStatus,
          data: Data, now: int, reply: Reply, at: int, ready: bool)
    requires looped == LoopOne(env, step, st, data)
    requires swept == looped || (looped.phase == Pending && swept == Stopped(looped, Skipped, now))
    requires ready ==> swept.phase == Pending
    requires ran == Parsed(env, step, if ready then Replied(Launched(swept, swept.taskID, now), reply, at) else swept)
    ensures Debt(step, ran) <= Debt(step, st)
    ensures ready ==> Debt(step, ran) < Debt(step, st)
  {
  }

  lemma DebtFalls(env: Env, host: Host, spec: FlowSpec, steps: seq<StepStatus>, tick: nat, i: nat)
    requires |steps| == |spec.steps| && i < |steps|
    ensures
      var ran := Ran(env, host, spec, steps, tick);
      && Debt(spec.steps[i], ran[i]) <= Debt(spec.steps[i], steps[i])
      && (i in Swept(env, host, spec, steps, tick).ready ==>
          Debt(spec.steps[i], ran[i]) < Debt(spec.steps[i], steps[i]))
  {
    var data := Snapshot(env, spec, steps);
    var looped := LoopAll(env, spec, steps, data);
    var now, at := host.clock(3 * tick), host.clock(3 * tick + 1);
    SkipPassShape(env, spec, looped, data, now, |steps|);
    var sweep := SkipPass(env, spec, looped, data, now, |steps|);
    var reply := ReplyTo(env, host, spec.steps[i], data, tick);
    var ran := Ran(env, host, spec, steps, tick);
    RecordDebt(env, spec.steps[i], steps[i], looped[i], sweep.steps[i], ran[i], data, now, reply, at, i in sweep.ready);
  }

  lemma SkipPassShapeAt(env: Env, spec: FlowSpec, steps: seq<StepStatus>, data: Data, now: int, k: nat, i: nat)
    requires |steps| == |spec.steps| && k <= |steps| && i < |steps|
    ensures
      var st := SkipPass(env, spec, steps, data, now, k).steps[i];
      st == steps[i] || (steps[i].phase == Pending && st == Stopped(steps[i], Skipped, now))
  {
    SkipPassShape(env, spec, steps, data, now, k);
  }

  /** A pass that runs something lowers the fuel, whatever the graph, the conditions and the answers. */
  lemma RanShrinks(env: Env, host: Host, spec: FlowSpec, steps: seq<StepStatus>, tick: nat)
    requires |steps| == |spec.steps| && Swept(env, host, spec, steps, tick).ready != []
    ensures 0 <= Fuel(spec, After(env, host, spec, steps, tick)) < Fuel(spec, steps)
  {
    var ready := Swept(env, host, spec, steps, tick).ready;
    var ran := After(env, host, spec, steps, tick);
    forall i | 0 <= i < |steps|
      ensures Debt(spec.steps[i], ran[i]) <= Debt(spec.steps[i], steps[i])
    {
      DebtFalls(env, host, spec, steps, tick, i);
    }
    DebtFalls(env, host, spec, steps, tick, ready[0]);
    SumStrict(Debts(spec, ran), Debts(spec, steps), ready[0]);
    SumNonNegative(Debts(spec, ran));
  }

  /** Run's loop from a given state; Dafny accepts it because the fuel falls. */
  function RunFrom(env: Env, host: Host, spec: FlowSpec, st: Status, tick: nat): Status
    requires |st.steps| == |spec.steps|
    decreases Fuel(spec, st.steps)
  {
    if IsTerminal(st.phase) || Swept(env, host, spec, st.steps, tick).ready == [] then
      if IsTerminal(st.phase) then st else Batch(env, host, spec, st, tick)
    else
      RanShrinks(env, host, spec, st.steps, tick);
      RunFrom(env, host, spec, Batch(env, host, spec, st, tick), tick + 1)
  }

  /** Run on a fresh flow. */
  function RunAll(env: Env, host: Host, spec: FlowSpec, now: int): Status {
    RunFrom(env, host, spec, Initialized(spec, FRESH_STATUS, now), 0)
  }
}
