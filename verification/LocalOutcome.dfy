/** What runs of the local driver compute, and what they do not. */
module LocalOutcome {
  import opened Wrappers
  import opened FlowTypes
  import opened Templates
  import opened Dag
  import opened Engine
  import opened History
  import opened Passes
  import opened Meaning
  import opened Agreement
  import opened LocalRun
  import opened LocalTheory
  import opened LocalEnds

  /** One turn of Run's loop keeps the status backed. */
  lemma BatchBacked(env: Env, host: Host, spec: FlowSpec, st: Status, tick: nat, r: Run, seen: seq<StepStatus>)
    returns (r': Run, seen': seq<StepStatus>)
    requires UniqueNames(spec.steps) && Honest(env, host)
    requires !IsTerminal(st.phase) && Backed(env, spec, st, r, seen)
    ensures Backed(env, spec, Batch(env, host, spec, st, tick), r', seen')
  {
    ReachableInv(env, spec, r);
    var ms;
    ms, r' := BatchMoves(env, host, spec, r, tick);
    ReachableThen(env, spec, r, ms, r');
    ReachableInv(env, spec, r');
    seen' := Seen(env, host, spec, r.steps, tick);
    TotalStays(env, spec, st, r, ms, r');
    VerdictBacked(env, spec, st.(steps := r'.steps), r', seen', host.clock(3 * tick + 2));
  }

  /** A run that has ended, or whose next turn finds nothing ready. */
  ghost predicate LastOne(env: Env, host: Host, spec: FlowSpec, st: Status, tick: nat)
    requires |st.steps| == |spec.steps|
  {
    IsTerminal(st.phase) || Swept(env, host, spec, st.steps, tick).ready == []
  }

  lemma RunStops(env: Env, host: Host, spec: FlowSpec, st: Status, tick: nat)
    requires |st.steps| == |spec.steps| && LastOne(env, host, spec, st, tick)
    ensures RunFrom(env, host, spec, st, tick) == if IsTerminal(st.phase) then st else Batch(env, host, spec, st, tick)
  {
  }

  lemma NextTurn(env: Env, host: Host, spec: FlowSpec, st: Status, tick: nat, r: Run, seen: seq<StepStatus>)
    returns (st': Status, r': Run, seen': seq<StepStatus>)
    requires UniqueNames(spec.steps) && Honest(env, host) && |st.steps| == |spec.steps|
    requires Backed(env, spec, st, r, seen) && !LastOne(env, host, spec, st, tick)
    ensures |st'.steps| == |spec.steps| && Backed(env, spec, st', r', seen')
    ensures st' == Batch(env, host, spec, st, tick)
    ensures 0 <= Fuel(spec, st'.steps) < Fuel(spec, st.steps)
    ensures RunFrom(env, host, spec, st, tick) == RunFrom(env, host, spec, st', tick + 1)
  {
    st' := Batch(env, host, spec, st, tick);
    r', seen' := BatchBacked(env, host, spec, st, tick, r, seen);
    RunGoesOn(env, host, spec, st, tick, st');
  }

  /** Run leaves the status of a run of the engine. */
  lemma RunBacked(env: Env, host: Host, spec: FlowSpec, st: Status, tick: nat, r: Run, seen: seq<StepStatus>)
    returns (r': Run, seen': seq<StepStatus>)
    requires UniqueNames(spec.steps) && Honest(env, host) && |st.steps| == |spec.steps|
    requires Backed(env, spec, st, r, seen)
    ensures Backed(env, spec, RunFrom(env, host, spec, st, tick), r', seen')
    decreases Fuel(spec, st.steps)
  {
    if LastOne(env, host, spec, st, tick) {
      RunStops(env, host, spec, st, tick);
      r', seen' := r, seen;
      if !IsTerminal(st.phase) {
        r', seen' := BatchBacked(env, host, spec, st, tick, r, seen);
      }
    } else {
      var next;
      next, r', seen' := NextTurn(env, host, spec, st, tick, r, seen);
      r', seen' := RunBacked(env, host, spec, next, tick + 1, r', seen');
    }
  }

  // ------------------------------------------------ verdicts and totals

  /** A flow that is under way or decided, and was judged rightly. */
  ghost predicate Sentenced(spec: FlowSpec, st: Status) {
    (st.phase == FlowRunning || IsTerminal(st.phase)) && Judged(spec, st)
  }

  /** The flow is undecided for good reason: nothing has failed, the budget holds, and something is not done. */
  ghost predicate Pends(spec: FlowSpec, st: Status) {
    && !(0 < spec.maxTokens < Sum(TokenColumn(st.steps)))
    && (forall i :: 0 <= i < |st.steps| ==> st.steps[i].phase != Failed)
    && exists i :: 0 <= i < |st.steps| && st.steps[i].phase != Succeeded && st.steps[i].phase != Skipped
  }

  lemma BatchSentenced(env: Env, host: Host, spec: FlowSpec, st: Status, tick: nat)
    requires |st.steps| == |spec.steps| && st.phase == FlowRunning && Sentenced(spec, st)
    ensures var b := Batch(env, host, spec, st, tick); Sentenced(spec, b) && (IsTerminal(b.phase) || Pends(spec, b))
  {
    var before := st.(steps := After(env, host, spec, st.steps, tick));
    var data, now := Snapshot(env, spec, Seen(env, host, spec, st.steps, tick)), host.clock(3 * tick + 2);
    VerdictJudged(env, spec, before, data, now);
    VerdictSucceeds(env, spec, before, data, now);
    VerdictFails(env, spec, before, data, now);
    if !IsTerminal(Batch(env, host, spec, st, tick).phase) {
      VerdictUndecided(env, spec, before, data, now);
    }
  }

  lemma RunSentenced(env: Env, host: Host, spec: FlowSpec, st: Status, tick: nat)
    requires |st.steps| == |spec.steps| && Sentenced(spec, st)
    ensures var end := RunFrom(env, host, spec, st, tick);
      && Sentenced(spec, end)
      && (IsTerminal(end.phase) || Pends(spec, end))
    decreases Fuel(spec, st.steps)
  {
    if LastOne(env, host, spec, st, tick) {
      RunStops(env, host, spec, st, tick);
      if !IsTerminal(st.phase) {
        BatchSentenced(env, host, spec, st, tick);
      }
    } else {
      BatchSentenced(env, host, spec, st, tick);
      RunGoesOn(env, host, spec, st, tick, Batch(env, host, spec, st, tick));
      RunSentenced(env, host, spec, Batch(env, host, spec, st, tick), tick + 1);
    }
  }

  /**
   * Whatever the flow, the agents and the clock, a run that ends Succeeded has every step done, its tokens within the
   * budget and its verdict within the deadline; one that ends Failed was late, over budget, or had a failed step; one
   * that ends undecided has no failed step, some unfinished one, and is within budget.
   */
  lemma LocalVerdictsAreRight(env: Env, host: Host, spec: FlowSpec, now: int)
    ensures
      var end := RunAll(env, host, spec, now);
      var over := 0 < spec.maxTokens < Sum(TokenColumn(end.steps));
      && end.startTime == Some(now)
      && match end.phase
         case FlowSucceeded =>
           && end.completionTime.Some? && !over
           && (forall i :: 0 <= i < |end.steps| ==> end.steps[i].phase == Succeeded || end.steps[i].phase == Skipped)
           && (0 < spec.timeoutSeconds ==> end.completionTime.value <= now + spec.timeoutSeconds * SECOND)
         case FlowFailed =>
           && end.completionTime.Some?
           && (|| over
               || (0 < spec.timeoutSeconds && end.completionTime.value > now + spec.timeoutSeconds * SECOND)
               || exists i :: 0 <= i < |end.steps| && end.steps[i].phase == Failed)
         case FlowRunning => Pends(spec, end)
         case _ => false
  {
    RunSentenced(env, host, spec, Initialized(spec, FRESH_STATUS, now), 0);
    StartKept(env, host, spec, Initialized(spec, FRESH_STATUS, now), 0);
  }

  lemma StartKept(env: Env, host: Host, spec: FlowSpec, st: Status, tick: nat)
    requires |st.steps| == |spec.steps|
    ensures RunFrom(env, host, spec, st, tick).startTime == st.startTime
    decreases Fuel(spec, st.steps)
  {
    if LastOne(env, host, spec, st, tick) {
      RunStops(env, host, spec, st, tick);
    } else {
      RunGoesOn(env, host, spec, st, tick, Batch(env, host, spec, st, tick));
      StartKept(env, host, spec, Batch(env, host, spec, st, tick), tick + 1);
    }
    if !IsTerminal(st.phase) {
      BatchKeepsStart(env, host, spec, st, tick);
    }
  }

  lemma BatchKeepsStart(env: Env, host: Host, spec: FlowSpec, st: Status, tick: nat)
    requires |st.steps| == |spec.steps| && !IsTerminal(st.phase)
    ensures Batch(env, host, spec, st, tick).startTime == st.startTime
  {
    var before := st.(steps := After(env, host, spec, st.steps, tick));
    VerdictParts(env, spec, before, Snapshot(env, spec, Seen(env, host, spec, st.steps, tick)),
        host.clock(3 * tick + 2));
  }

  // ------------------------------------------- runs that are sure to succeed

  /** Every agent always answers. */
  ghost predicate NeverFaults(host: Host) {
    forall name, prompt, tick :: host.run(name, prompt, tick).Answer?
  }

  lemma RecordFaultless(env: Env, step: Step, st: StepStatus, looped: StepStatus, swept: StepStatus, ran: StepStatus,
          data: Data, now: int, reply: Reply, at: int, ready: bool)
    requires looped == LoopOne(env, step, st, data) && st.phase != Failed && reply.Answer?
    requires swept == looped || (looped.phase == Pending && swept == Stopped(looped, Skipped, now))
    requires ran == Parsed(env, step, if ready then Replied(Launched(swept, swept.taskID, now), reply, at) else swept)
    ensures swept.phase != Failed && ran.phase != Failed
  {
  }

  lemma TurnFaultless(env: Env, host: Host, spec: FlowSpec, steps: seq<StepStatus>, tick: nat)
    requires |steps| == |spec.steps| && NeverFaults(host) && !SomeFailed(steps)
    ensures !SomeFailed(After(env, host, spec, steps, tick))
  {
    var data, sweep := Snapshot(env, spec, steps), Swept(env, host, spec, steps, tick);
    var looped, ran := AfterLoops(env, spec, steps), Ran(env, host, spec, steps, tick);
    forall i: nat | i < |steps|
      ensures sweep.steps[i].phase != Failed && ran[i].phase != Failed
    {
      SkipPassShapeAt(env, spec, looped, data, host.clock(3 * tick), |steps|, i);
      RecordFaultless(env, spec.steps[i], steps[i], looped[i], sweep.steps[i], ran[i], data, host.clock(3 * tick),
                      ReplyTo(env, host, spec.steps[i], data, tick), host.clock(3 * tick + 1), i in sweep.ready);
    }
  }

  lemma RunFaultless(env: Env, host: Host, spec: FlowSpec, st: Status, tick: nat)
    requires |st.steps| == |spec.steps| && NeverFaults(host) && !SomeFailed(st.steps)
    ensures !SomeFailed(RunFrom(env, host, spec, st, tick).steps)
    decreases Fuel(spec, st.steps)
  {
    TurnFaultless(env, host, spec, st.steps, tick);
    if LastOne(env, host, spec, st, tick) {
      RunStops(env, host, spec, st, tick);
    } else {
      RunGoesOn(env, host, spec, st, tick, Batch(env, host, spec, st, tick));
      RunFaultless(env, host, spec, Batch(env, host, spec, st, tick), tick + 1);
    }
  }

  /**
   * A valid flow without timeout and token limit, in which no step with a condition is listed after a dependent of
   * its own, always succeeds locally if its agents always answer.
   */
  lemma UnlimitedRunsSucceed(env: Env, host: Host, spec: FlowSpec, now: int)
    requires UniqueNames(spec.steps) && ValidGraph(spec.steps) && NeverFaults(host)
    requires spec.timeoutSeconds <= 0 && spec.maxTokens <= 0
    requires forall p, d :: 0 <= p < d < |spec.steps| && DependsOn(spec, p, d) ==> spec.steps[d].cond == ""
    ensures RunAll(env, host, spec, now).phase == FlowSucceeded
  {
    UnconditionalFlowsEnd(env, host, spec, now);
    LocalVerdictsAreRight(env, host, spec, now);
    RunFaultless(env, host, spec, Initialized(spec, FRESH_STATUS, now), 0);
  }

  // ---------------------------------------------------------------- meaning

  /** A local run that succeeds holds the meaning of every step. */
  lemma LocalRunMeans(env: Env, host: Host, spec: FlowSpec, f: string -> string, rank: seq<nat>, now: int, i: nat)
    requires WellBehaved(env, spec, rank) && Consistent(env, f, spec) && Honest(env, host)
    requires i < |spec.steps| && RunAll(env, host, spec, now).phase == FlowSucceeded
    ensures |RunAll(env, host, spec, now).steps| == |spec.steps|
    ensures
      var st := RunAll(env, host, spec, now).steps[i];
      match Outcome(env, spec, f, rank, i)
      case None => st.phase == Skipped && st.output == ""
      case Some(answer) => st.phase == Succeeded && st.output == answer
  {
    InitialBacked(env, spec, now);
    var r, seen := RunBacked(env, host, spec, Initialized(spec, FRESH_STATUS, now), 0, Initial(spec), []);
    SucceededMeans(env, spec, f, rank, RunAll(env, host, spec, now), r, seen, i);
  }

  /** Two local runs with different hosts, both of which succeed, end with the same output. */
  lemma LocalRunsAgree(env: Env, spec: FlowSpec, f: string -> string, a: Host, b: Host, nowA: int, nowB: int)
    requires UniqueNames(spec.steps) && ValidGraph(spec.steps)
    requires ReadsDependencies(env, spec) && OwnLoops(env, spec) && Consistent(env, f, spec)
    requires Honest(env, a) && RunAll(env, a, spec, nowA).phase == FlowSucceeded
    requires Honest(env, b) && RunAll(env, b, spec, nowB).phase == FlowSucceeded
    ensures RunAll(env, a, spec, nowA).output == RunAll(env, b, spec, nowB).output
  {
    InitialBacked(env, spec, nowA);
    InitialBacked(env, spec, nowB);
    var r, seenA := RunBacked(env, a, spec, Initialized(spec, FRESH_STATUS, nowA), 0, Initial(spec), []);
    var s, seenB := RunBacked(env, b, spec, Initialized(spec, FRESH_STATUS, nowB), 0, Initial(spec), []);
    SucceededAgree(env, spec, f, RunAll(env, a, spec, nowA), r, seenA, RunAll(env, b, spec, nowB), s, seenB);
  }

  // ------------------------------------- loops on the last batch are not run

  /** No step waits for another, and none has a condition. */
  predicate Flat(spec: FlowSpec) {
    forall i :: 0 <= i < |spec.steps| ==> spec.steps[i].dependsOn == [] && spec.steps[i].cond == ""
  }

  lemma FlatDecision(env: Env, spec: FlowSpec, data: Data, i: nat)
    requires Flat(spec) && i < |spec.steps|
    ensures var verb := Decide(env, spec, BlankSteps(spec), data, i); verb != Leave && verb != SkipIt
  {
  }

  /** In a flat flow the first sweep finds every step ready. */
  lemma {:induction false} FlatSweep(env: Env, spec: FlowSpec, data: Data, now: int, k: nat)
    requires Flat(spec) && k <= |spec.steps|
    ensures
      var s := SkipPass(env, spec, BlankSteps(spec), data, now, k);
      s.steps == BlankSteps(spec) && forall i: nat :: i < k ==> i in s.ready
  {
    if k > 0 {
      FlatSweep(env, spec, data, now, k - 1);
      FlatDecision(env, spec, data, k - 1);
      var s := SkipPass(env, spec, BlankSteps(spec), data, now, k - 1);
      assert (s.ready + [k - 1])[|s.ready|] == k - 1;
    }
  }

  lemma FlatSwept(env: Env, host: Host, spec: FlowSpec)
    requires Flat(spec)
    ensures
      var s := Swept(env, host, spec, BlankSteps(spec), 0);
      s.steps == BlankSteps(spec) && forall i: nat :: i < |spec.steps| ==> i in s.ready
  {
    var data := Snapshot(env, spec, BlankSteps(spec));
    assert LoopAll(env, spec, BlankSteps(spec), data) == BlankSteps(spec);
    FlatSweep(env, spec, data, host.clock(0), |spec.steps|);
  }

  /** A step that ran for the first time was not repeated, and succeeded or failed. */
  lemma FirstRecord(env: Env, step: Step, ran: StepStatus, now: int, reply: Reply, at: int)
    requires ran == Parsed(env, step, Replied(Launched(Blank(step), None, now), reply, at))
    ensures ran.iterations == 0 && (ran.phase == Succeeded || ran.phase == Failed)
  {
  }

  lemma FlatRan(env: Env, host: Host, spec: FlowSpec, i: nat)
    requires Flat(spec) && i < |spec.steps|
    ensures
      var st := Ran(env, host, spec, BlankSteps(spec), 0)[i];
      st.iterations == 0 && (st.phase == Succeeded || st.phase == Failed)
  {
    FlatSwept(env, host, spec);
    var steps := BlankSteps(spec);
    var data, sweep := Snapshot(env, spec, steps), Swept(env, host, spec, steps, 0);
    assert i in sweep.ready && sweep.steps[i] == Blank(spec.steps[i]);
    var reply := ReplyTo(env, host, spec.steps[i], data, 0);
    FirstRecord(env, spec.steps[i], Ran(env, host, spec, steps, 0)[i], host.clock(0), reply, host.clock(1));
  }

  lemma FlatAfter(env: Env, host: Host, spec: FlowSpec, i: nat)
    requires Flat(spec) && i < |spec.steps|
    ensures Swept(env, host, spec, BlankSteps(spec), 0).ready != []
    ensures
      var st := After(env, host, spec, BlankSteps(spec), 0)[i];
      st.iterations == 0 && (st.phase == Succeeded || st.phase == Failed)
  {
    FlatSwept(env, host, spec);
    assert i in Swept(env, host, spec, BlankSteps(spec), 0).ready;
    FlatRan(env, host, spec, i);
  }

  /** In a flat flow the first turn decides the flow. */
  lemma FlatTurn(env: Env, host: Host, spec: FlowSpec, st: Status, i: nat)
    requires Flat(spec) && i < |spec.steps| && st.steps == BlankSteps(spec) && st.phase == FlowRunning
    ensures Swept(env, host, spec, st.steps, 0).ready != []
    ensures IsTerminal(Batch(env, host, spec, st, 0).phase) && Batch(env, host, spec, st, 0).steps[i].iterations == 0
  {
    FlatAfter(env, host, spec, i);
    var after := After(env, host, spec, st.steps, 0);
    forall k: nat | k < |after|
      ensures after[k].phase == Succeeded || after[k].phase == Failed
    {
      FlatAfter(env, host, spec, k);
    }
    RanDecides(env, host, spec, st);
  }

  /** If every step has run and answered or failed, the turn decides the flow. */
  lemma RanDecides(env: Env, host: Host, spec: FlowSpec, st: Status)
    requires |st.steps| == |spec.steps| && st.phase == FlowRunning
    requires
      var after := After(env, host, spec, st.steps, 0);
      forall k: nat :: k < |after| ==> after[k].phase == Succeeded || after[k].phase == Failed
    ensures IsTerminal(Batch(env, host, spec, st, 0).phase)
  {
    var before := st.(steps := After(env, host, spec, st.steps, 0));
    var data := Snapshot(env, spec, Seen(env, host, spec, st.steps, 0));
    VerdictFails(env, spec, before, data, host.clock(2));
    VerdictSucceeds(env, spec, before, data, host.clock(2));
  }

  /**
   * Run decides the flow before it looks at the loops of the batch that ends it: in a flat flow no loop is ever
   * repeated, whatever the loop conditions say. The reconciler evaluates loops before it decides.
   */
  lemma FlatFlowsNeverRepeat(env: Env, host: Host, spec: FlowSpec, now: int, i: nat)
    requires Flat(spec) && i < |spec.steps|
    ensures |RunAll(env, host, spec, now).steps| == |spec.steps|
    ensures IsTerminal(RunAll(env, host, spec, now).phase) && RunAll(env, host, spec, now).steps[i].iterations == 0
  {
    var st := Initialized(spec, FRESH_STATUS, now);
    FlatTurn(env, host, spec, st, i);
    RunGoesOn(env, host, spec, st, 0, Batch(env, host, spec, st, 0));
  }

  // --------------------------------------------- a valid flow that gets stuck

  function ConditionalStep(name: string, deps: seq<string>, cond: string): Step {
    Step(name, "agent", map[], deps, "", cond, None)
  }

  /** Step "p" depends on "d", which is listed after it and has a condition. */
  const STUCK_SPEC := FlowSpec([ConditionalStep("p", ["d"], ""),
      ConditionalStep("d", [], "{{ .pipeline.input.go }}")], map[], "", 0, 0)

  /** An environment in which every template resolves to the empty text. */
  const BLANK_ENV := Env((_, _) => Some(""), _ => false, (_, _) => true)

  lemma StuckGraph()
    ensures UniqueNames(STUCK_SPEC.steps) && Adjacency(STUCK_SPEC.steps) == map["p" := ["d"], "d" := []]
  {
    var steps := STUCK_SPEC.steps;
    assert steps[1].name == "d" && steps[0].name == "p";
    AdjacencyAt(steps, 0);
    AdjacencyAt(steps, 1);
  }

  lemma StuckOrder()
    ensures Topological(map["p" := ["d"], "d" := []], ["d", "p"])
  {
    var order := ["d", "p"];
    assert order[0] == "d" && order[1] == "p" && order[..1] == ["d"];
  }

  lemma StuckSpecIsValid()
    ensures UniqueNames(STUCK_SPEC.steps) && ValidGraph(STUCK_SPEC.steps)
  {
    StuckGraph();
    StuckOrder();
    TopologicalImpliesAcyclic(Adjacency(STUCK_SPEC.steps), ["d", "p"]);
  }

  lemma StuckDependencies()
    ensures
      var blank := BlankSteps(STUCK_SPEC);
      && !DepsSucceeded(STUCK_SPEC.steps[0].dependsOn, blank)
      && DepsSucceeded(STUCK_SPEC.steps[1].dependsOn, blank)
  {
    var blank := BlankSteps(STUCK_SPEC);
    assert "d" in Index(blank) && Index(blank)["d"] == 1 by {
      StuckSpecIsValid();
      IndexAt(STUCK_SPEC, blank, 1);
    }
    assert STUCK_SPEC.steps[0].dependsOn[0] == "d";
  }

  /** The first sweep of it skips "d" after having passed over "p", and finds nothing ready. */
  lemma StuckSweep(data: Data, now: int)
    ensures
      var blank := BlankSteps(STUCK_SPEC);
      SkipPass(BLANK_ENV, STUCK_SPEC, blank, data, now, 2) == Sweep(blank[1 := Stopped(blank[1], Skipped, now)], [])
  {
    var blank := BlankSteps(STUCK_SPEC);
    StuckDependencies();
    assert SkipPass(BLANK_ENV, STUCK_SPEC, blank, data, now, 1) == Sweep(blank, []) by {
      assert SkipPass(BLANK_ENV, STUCK_SPEC, blank, data, now, 0) == Sweep(blank, []);
    }
    assert Decide(BLANK_ENV, STUCK_SPEC, blank, data, 1) == SkipIt;
  }

  /** So a valid flow can come out of Run undecided, with a step whose dependencies are all done still Pending. */
  lemma StuckRun(host: Host, now: int)
    ensures
      var end := RunAll(BLANK_ENV, host, STUCK_SPEC, now);
      && end.phase == FlowRunning && |end.steps| == 2
      && end.steps[0].phase == Pending && end.steps[1].phase == Skipped
      && DependsOn(STUCK_SPEC, 0, 1) && !DependsOn(STUCK_SPEC, 0, 0)
  {
    var st := Initialized(STUCK_SPEC, FRESH_STATUS, now);
    var data := Snapshot(BLANK_ENV, STUCK_SPEC, st.steps);
    assert LoopAll(BLANK_ENV, STUCK_SPEC, st.steps, data) == st.steps;
    StuckSweep(data, host.clock(0));
    var swept := Swept(BLANK_ENV, host, STUCK_SPEC, st.steps, 0);
    assert swept.ready == [] && swept.steps[0].phase == Pending && swept.steps[1].phase == Skipped;
    var before := st.(steps := swept.steps);
    VerdictFails(BLANK_ENV, STUCK_SPEC, before, data, host.clock(2));
    VerdictSucceeds(BLANK_ENV, STUCK_SPEC, before, data, host.clock(2));
    VerdictUndecided(BLANK_ENV, STUCK_SPEC, before, data, host.clock(2));
    assert "p" !in ["d"] && "d" in ["d"];
  }
}
