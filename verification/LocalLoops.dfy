/**
 * When the local driver repeats a step until its loop condition is false or the cap is reached, and when it does not.
 */
module LocalLoops {
  import opened FlowTypes
  import opened Templates
  import opened Engine
  import opened Passes
  import opened Meaning
  import opened Agreement
  import opened LocalRun
  import opened LocalTheory
  import opened LocalEnds
  import opened LocalOutcome

  /** In a local run that succeeds, the loop of every step that another step depends on was honoured. */
  lemma DependedOnIsFinal(env: Env, host: Host, spec: FlowSpec, now: int, i: nat, j: nat)
    requires UniqueNames(spec.steps) && OwnLoops(env, spec) && Honest(env, host)
    requires RunAll(env, host, spec, now).phase == FlowSucceeded
    requires i < |spec.steps| && j < |spec.steps| && DependsOn(spec, i, j)
    ensures |RunAll(env, host, spec, now).steps| == |spec.steps|
    ensures Final(env, spec, spec.steps[j], RunAll(env, host, spec, now).steps[j])
  {
    InitialBacked(env, spec, now);
    var r, seen := RunBacked(env, host, spec, Initialized(spec, FRESH_STATUS, now), 0, Initial(spec), []);
    ReachableReleased(env, spec, r);
    assert Done(r.steps[i].phase) && Left(r.steps[i]);
  }

  // --------------------------------------------------- the turn that decides

  /** With coherent data a loop decision is the step's own. */
  lemma SnapshotRepeats(env: Env, spec: FlowSpec, steps: seq<StepStatus>, j: nat)
    requires UniqueNames(spec.steps) && OwnLoops(env, spec) && Aligned(spec, steps) && j < |steps|
    ensures
      Repeats(env, spec.steps[j], steps[j], Snapshot(env, spec, steps))
          == RepeatsOwn(env, spec, spec.steps[j], steps[j])
  {
    SnapshotAt(env, spec, steps, j);
    var own := Data(spec.input, map[spec.steps[j].name := EntryOfStep(env, steps[j])]);
    var all := Snapshot(env, spec, steps);
    assert SameOwn(all, own, spec.steps[j].name);
    if spec.steps[j].loop.Some? {
      assert ReadsOwn(env, spec.steps[j].loop.value.condition, spec.steps[j].name);
    }
  }

  /** A record that a turn neither resets, skips nor runs, and that is succeeded at its end, is as it was. */
  lemma RecordUntouched(env: Env, step: Step, st: StepStatus, swept: StepStatus, data: Data, now: int)
    requires st.phase == Succeeded ==> st.outputJSON == ParsedJSON(env, step, st.output)
    requires
      var looped := LoopOne(env, step, st, data);
      swept == looped || (looped.phase == Pending && swept == Stopped(looped, Skipped, now))
    requires Parsed(env, step, swept).phase == Succeeded
    ensures Parsed(env, step, swept) == swept == st && !Repeats(env, step, st, data)
  {
  }

  /** Whatever step still asks at the end of a turn ran in it. */
  lemma OnlyLastBatchAsks(env: Env, host: Host, spec: FlowSpec, steps: seq<StepStatus>, tick: nat, j: nat)
    requires UniqueNames(spec.steps) && OwnLoops(env, spec) && Aligned(spec, steps) && AllParsed(env, spec, steps)
    requires j < |steps| && StillAsks(env, spec, After(env, host, spec, steps, tick), j)
    ensures j in Swept(env, host, spec, steps, tick).ready
  {
    var data, sweep := Snapshot(env, spec, steps), Swept(env, host, spec, steps, tick);
    SkipPassShapeAt(env, spec, AfterLoops(env, spec, steps), data, host.clock(3 * tick), |steps|, j);
    if j !in sweep.ready {
      RecordUntouched(env, spec.steps[j], steps[j], sweep.steps[j], data, host.clock(3 * tick));
      SnapshotRepeats(env, spec, steps, j);
    }
  }

  /** The last turn of a run that has not ended yet. */
  lemma LastTurnOf(env: Env, host: Host, spec: FlowSpec, st: Status, tick: nat, r: Run, seen: seq<StepStatus>)
    returns (last: Status, at: nat, r': Run, seen': seq<StepStatus>)
    requires UniqueNames(spec.steps) && Honest(env, host) && |st.steps| == |spec.steps|
    requires !IsTerminal(st.phase) && Backed(env, spec, st, r, seen)
    ensures |last.steps| == |spec.steps| && !IsTerminal(last.phase) && Backed(env, spec, last, r', seen')
    ensures RunFrom(env, host, spec, st, tick) == Batch(env, host, spec, last, at)
    decreases Fuel(spec, st.steps)
  {
    if LastOne(env, host, spec, st, tick) {
      RunStops(env, host, spec, st, tick);
      last, at, r', seen' := st, tick, r, seen;
    } else {
      var next;
      next, r', seen' := NextTurn(env, host, spec, st, tick, r, seen);
      if IsTerminal(next.phase) {
        RunStops(env, host, spec, next, tick + 1);
        last, at, r', seen' := st, tick, r, seen;
      } else {
        last, at, r', seen' := LastTurnOf(env, host, spec, next, tick + 1, r', seen');
      }
    }
  }

  /** The loop of a step asks for another repetition after the answer, so many repetitions having been made. */
  ghost predicate AsksAfter(env: Env, spec: FlowSpec, step: Step, iterations: nat, output: string) {
    && step.loop.Some? && iterations < step.Cap()
    && Holds(env, step.loop.value.condition,
             Data(spec.input, map[step.name := EntryOf(env, output, ParsedJSON(env, step, output))]))
  }

  /** A record that ran asks as its answer says. */
  lemma RanAsks(env: Env, spec: FlowSpec, step: Step, swept: StepStatus, ran: StepStatus, reply: Reply, now: int,
          at: int)
    requires swept.outputJSON == "" && swept.phase == Pending
    requires ran == Parsed(env, step, Replied(Launched(swept, swept.taskID, now), reply, at))
    ensures
      (ran.phase == Succeeded && RepeatsOwn(env, spec, step, ran)) <==>
      reply.Answer? && AsksAfter(env, spec, step, swept.iterations, reply.output)
  {
  }

  /** A step that runs in a turn is left asking exactly as its agent's reply says. */
  lemma ReadyAsksIff(env: Env, host: Host, spec: FlowSpec, steps: seq<StepStatus>, tick: nat, j: nat)
    requires |steps| == |spec.steps| && AllClean(env, spec, steps)
    requires j < |steps| && j in Swept(env, host, spec, steps, tick).ready
    ensures
      var reply := ReplyTo(env, host, spec.steps[j], Snapshot(env, spec, steps), tick);
      StillAsks(env, spec, After(env, host, spec, steps, tick), j) <==>
      && reply.Answer?
      && AsksAfter(env, spec, spec.steps[j], Swept(env, host, spec, steps, tick).steps[j].iterations, reply.output)
  {
    var data, sweep := Snapshot(env, spec, steps), Swept(env, host, spec, steps, tick);
    var reply := ReplyTo(env, host, spec.steps[j], data, tick);
    SkipPassShape(env, spec, AfterLoops(env, spec, steps), data, host.clock(3 * tick), |steps|);
    assert Clean(env, spec.steps[j], steps[j]);
    RanAsks(env, spec, spec.steps[j], sweep.steps[j], Ran(env, host, spec, steps, tick)[j], reply,
            host.clock(3 * tick), host.clock(3 * tick + 1));
  }

  /** Step j is ready in the turn, and its agent answers in such a way that its loop asks for another repetition. */
  ghost predicate AsksInTurn(env: Env, host: Host, spec: FlowSpec, steps: seq<StepStatus>, tick: nat, j: nat)
    requires |steps| == |spec.steps|
  {
    && j < |steps| && j in Swept(env, host, spec, steps, tick).ready
    && var reply := ReplyTo(env, host, spec.steps[j], Snapshot(env, spec, steps), tick);
       && reply.Answer?
       && AsksAfter(env, spec, spec.steps[j], Swept(env, host, spec, steps, tick).steps[j].iterations, reply.output)
  }

  /** At the end of a turn the loops are honoured exactly if no answer given in it calls for a repetition. */
  lemma TurnHonoursIff(env: Env, host: Host, spec: FlowSpec, steps: seq<StepStatus>, tick: nat)
    requires UniqueNames(spec.steps) && OwnLoops(env, spec) && Aligned(spec, steps) && AllParsed(env, spec, steps)
    requires AllClean(env, spec, steps)
    ensures
      LoopsHonoured(env, spec, After(env, host, spec, steps, tick)) <==>
      forall j: nat :: !AsksInTurn(env, host, spec, steps, tick, j)
  {
    var after := After(env, host, spec, steps, tick);
    forall j: nat | j < |after|
      ensures StillAsks(env, spec, after, j) <==> AsksInTurn(env, host, spec, steps, tick, j)
    {
      if j in Swept(env, host, spec, steps, tick).ready {
        ReadyAsksIff(env, host, spec, steps, tick, j);
      } else if StillAsks(env, spec, after, j) {
        OnlyLastBatchAsks(env, host, spec, steps, tick, j);
      }
    }
    if j: nat :| AsksInTurn(env, host, spec, steps, tick, j) {
      assert StillAsks(env, spec, after, j);
    }
  }

  /**
   * A local run repeats its steps as their loops demand exactly if none of the answers given in its last turn makes a
   * loop that is not exhausted ask for a repetition: that turn decides the flow before it looks at those loops.
   */
  lemma RunHonoursLoopsIff(env: Env, host: Host, spec: FlowSpec, now: int) returns (last: Status, at: nat)
    requires UniqueNames(spec.steps) && OwnLoops(env, spec) && Honest(env, host)
    ensures |last.steps| == |spec.steps| && !IsTerminal(last.phase)
    ensures RunAll(env, host, spec, now) == Batch(env, host, spec, last, at)
    ensures |RunAll(env, host, spec, now).steps| == |spec.steps|
    ensures
      LoopsHonoured(env, spec, RunAll(env, host, spec, now).steps) <==>
      forall j: nat :: !AsksInTurn(env, host, spec, last.steps, at, j)
  {
    InitialBacked(env, spec, now);
    var r, seen;
    last, at, r, seen := LastTurnOf(env, host, spec, Initialized(spec, FRESH_STATUS, now), 0, Initial(spec), []);
    ReachableInv(env, spec, r);
    TurnHonoursIff(env, host, spec, last.steps, at);
  }

  // ------------------------------------------------ how a loop is cut short

  lemma RanRecord(env: Env, step: Step, swept: StepStatus, ran: StepStatus, reply: Reply, now: int, at: int,
          ready: bool)
    requires ran == Parsed(env, step, if ready then Replied(Launched(swept, swept.taskID, now), reply, at) else swept)
    ensures ready && reply.Answer? ==> ran.phase == Succeeded && ran.iterations == swept.iterations
    ensures !ready ==> ran.phase == swept.phase
  {
  }

  lemma RanAt(env: Env, host: Host, spec: FlowSpec, steps: seq<StepStatus>, tick: nat, j: nat)
    requires |steps| == |spec.steps| && j < |steps|
    ensures
      var sweep, ran := Swept(env, host, spec, steps, tick), Ran(env, host, spec, steps, tick);
      if j in sweep.ready
      then ReplyTo(env, host, spec.steps[j], Snapshot(env, spec, steps), tick).Answer? ==>
             ran[j].phase == Succeeded && ran[j].iterations == sweep.steps[j].iterations
      else ran[j].phase == sweep.steps[j].phase
  {
    var sweep, ran := Swept(env, host, spec, steps, tick), Ran(env, host, spec, steps, tick);
    var reply := ReplyTo(env, host, spec.steps[j], Snapshot(env, spec, steps), tick);
    RanRecord(env, spec.steps[j], sweep.steps[j], ran[j], reply, host.clock(3 * tick), host.clock(3 * tick + 1),
        j in sweep.ready);
  }

  /** The turn runs all that is left, every agent answers, and neither time nor budget runs out. */
  ghost predicate RunsTheRest(env: Env, host: Host, spec: FlowSpec, st: Status, tick: nat)
    requires |st.steps| == |spec.steps|
  {
    var sweep := Swept(env, host, spec, st.steps, tick);
    && sweep.ready != []
    && (forall j: nat :: j < |st.steps| && j !in sweep.ready ==> Done(sweep.steps[j].phase))
    && (forall j: nat :: j < |st.steps| && j in sweep.ready ==>
          ReplyTo(env, host, spec.steps[j], Snapshot(env, spec, st.steps), tick).Answer?)
    && !PastDeadline(spec, st, host.clock(3 * tick + 2)) && !OverBudget(spec, After(env, host, spec, st.steps, tick))
  }

  lemma RestIsDone(env: Env, host: Host, spec: FlowSpec, st: Status, tick: nat)
    requires |st.steps| == |spec.steps| && RunsTheRest(env, host, spec, st, tick)
    ensures AllDone(After(env, host, spec, st.steps, tick))
  {
    forall k: nat | k < |st.steps|
      ensures Done(After(env, host, spec, st.steps, tick)[k].phase)
    {
      RanAt(env, host, spec, st.steps, tick, k);
    }
  }

  /**
   * Such a turn ends the flow as succeeded, and whatever the loops of the steps that ran in it ask, they are not
   * repeated.
   */
  lemma LastBatchIsNotRepeated(env: Env, host: Host, spec: FlowSpec, st: Status, tick: nat, j: nat)
    requires |st.steps| == |spec.steps| && !IsTerminal(st.phase) && RunsTheRest(env, host, spec, st, tick)
    requires j < |st.steps| && j in Swept(env, host, spec, st.steps, tick).ready
    ensures
      var end := RunFrom(env, host, spec, st, tick);
      && end.phase == FlowSucceeded && |end.steps| == |spec.steps| && end.steps[j].phase == Succeeded
      && end.steps[j].iterations == Swept(env, host, spec, st.steps, tick).steps[j].iterations
  {
    RestIsDone(env, host, spec, st, tick);
    RanAt(env, host, spec, st.steps, tick, j);
    var after := After(env, host, spec, st.steps, tick);
    DoneSucceeds(env, spec, st.(steps := after), Snapshot(env, spec, after), host.clock(3 * tick + 2));
    RunGoesOn(env, host, spec, st, tick, Batch(env, host, spec, st, tick));
  }
}
