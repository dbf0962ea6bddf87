/** How runs of the local driver end: always, and on a valid flow almost always with a verdict. */
module LocalEnds {
  import opened FlowTypes
  import opened Templates
  import opened Dag
  import opened Engine
  import opened Passes
  import opened LocalRun

  /** Between two turns nothing runs, and nothing has failed. */
  ghost predicate Quiet(steps: seq<StepStatus>) {
    forall i :: 0 <= i < |steps| ==> steps[i].phase != Running && steps[i].phase != Failed
  }

  /** Among Pending steps there is one none of whose dependencies is Pending. */
  lemma {:induction false} MinimalPending(spec: FlowSpec, steps: seq<StepStatus>, rank: seq<nat>, i: nat)
    returns (p: nat)
    requires |steps| == |spec.steps| && Ranked(spec, rank) && i < |steps| && steps[i].phase == Pending
    ensures p < |steps| && steps[p].phase == Pending
    ensures forall j :: 0 <= j < |steps| && DependsOn(spec, p, j) ==> steps[j].phase != Pending
    decreases rank[i]
  {
    if j :| 0 <= j < |steps| && DependsOn(spec, i, j) && steps[j].phase == Pending {
      p := MinimalPending(spec, steps, rank, j);
    } else {
      p := i;
    }
  }

  // ------------------------------------------------- looking into a pass

  /** What a pass has decided about the first p steps it does not revise. */
  lemma {:induction false} SkipPassPrefix(env: Env, spec: FlowSpec, steps: seq<StepStatus>, data: Data, now: int,
          p: nat, k: nat, j: nat)
    requires |steps| == |spec.steps| && j < p <= k <= |steps|
    ensures SkipPass(env, spec, steps, data, now, k).steps[j] == SkipPass(env, spec, steps, data, now, p).steps[j]
    decreases k
  {
    if p < k {
      SkipPassPrefix(env, spec, steps, data, now, p, k - 1, j);
    }
  }

  /** A step still Pending after a pass that found nothing ready was passed over for its dependencies. */
  lemma {:induction false} PassedOver(env: Env, spec: FlowSpec, steps: seq<StepStatus>, data: Data, now: int, k: nat,
          p: nat)
    requires |steps| == |spec.steps| && p < k <= |steps|
    requires
      var s := SkipPass(env, spec, steps, data, now, k);
      s.ready == [] && s.steps[p].phase == Pending
    ensures !DepsSucceeded(spec.steps[p].dependsOn, SkipPass(env, spec, steps, data, now, p).steps)
    decreases k
  {
    if p < k - 1 {
      PassedOver(env, spec, steps, data, now, k - 1, p);
    }
  }

  /** Only a step with a condition is skipped. */
  lemma {:induction false} SkippedHasCondition(env: Env, spec: FlowSpec, steps: seq<StepStatus>, data: Data, now: int,
          k: nat, d: nat)
    requires |steps| == |spec.steps| && k <= |steps| && d < |steps|
    requires SkipPass(env, spec, steps, data, now, k).steps[d] != steps[d]
    ensures spec.steps[d].cond != ""
  {
    if k > 0 && SkipPass(env, spec, steps, data, now, k - 1).steps[d] != steps[d] {
      SkippedHasCondition(env, spec, steps, data, now, k - 1, d);
    }
  }

  // --------------------------------------------------- the turn that stops

  /** The condition of d failed after its dependent p, listed earlier, had been passed over. */
  ghost predicate OvertakenIn(spec: FlowSpec, before: seq<StepStatus>, after: seq<StepStatus>, p: nat, d: nat)
    requires |before| == |after| == |spec.steps|
  {
    && p < d < |before| && DependsOn(spec, p, d)
    && before[d].phase == Pending && after[d].phase == Skipped && after[p].phase == Pending
  }

  ghost predicate Overtaken(env: Env, host: Host, spec: FlowSpec, steps: seq<StepStatus>, tick: nat, p: nat, d: nat)
    requires |steps| == |spec.steps|
  {
    OvertakenIn(spec, AfterLoops(env, spec, steps), Swept(env, host, spec, steps, tick).steps, p, d)
  }

  lemma SkipPassQuiet(env: Env, spec: FlowSpec, steps: seq<StepStatus>, data: Data, now: int)
    requires |steps| == |spec.steps| && Quiet(steps)
    ensures Quiet(SkipPass(env, spec, steps, data, now, |steps|).steps)
  {
    SkipPassShape(env, spec, steps, data, now, |steps|);
  }

  /** When nothing is ready but something is Pending, a dependency was skipped after its dependent was looked at. */
  lemma PendingIsOvertakenIn(env: Env, spec: FlowSpec, steps: seq<StepStatus>, data: Data, now: int, i: nat)
    returns (p: nat, d: nat)
    requires UniqueNames(spec.steps) && ValidGraph(spec.steps) && Aligned(spec, steps) && Quiet(steps) && i < |steps|
    requires
      var s := SkipPass(env, spec, steps, data, now, |steps|);
      s.ready == [] && s.steps[i].phase == Pending
    ensures OvertakenIn(spec, steps, SkipPass(env, spec, steps, data, now, |steps|).steps, p, d)
  {
    var rank := RankExists(spec);
    var last := SkipPass(env, spec, steps, data, now, |steps|).steps;
    SkipPassQuiet(env, spec, steps, data, now);
    p := MinimalPending(spec, last, rank, i);
    PassedOver(env, spec, steps, data, now, |steps|, p);
    d := UnfinishedDependency(env, spec, steps, data, now, p);
    assert Done(last[d].phase);
    SkippedLater(env, spec, steps, data, now, p, d);
  }

  /** A dependency that was not done when p was looked at, and is done at the end, was skipped later in the pass. */
  lemma SkippedLater(env: Env, spec: FlowSpec, steps: seq<StepStatus>, data: Data, now: int, p: nat, d: nat)
    requires |steps| == |spec.steps| && p < |steps| && d < |steps|
    requires !Done(SkipPass(env, spec, steps, data, now, p).steps[d].phase)
    requires
      var last := SkipPass(env, spec, steps, data, now, |steps|).steps;
      Done(last[d].phase) && last[p].phase == Pending
    ensures p < d && steps[d].phase == Pending
      && SkipPass(env, spec, steps, data, now, |steps|).steps[d].phase == Skipped
  {
    SkipPassShapeAt(env, spec, steps, data, now, |steps|, d);
    if d < p {
      SkipPassPrefix(env, spec, steps, data, now, p, |steps|, d);
    }
  }

  lemma UnfinishedDependency(env: Env, spec: FlowSpec, steps: seq<StepStatus>, data: Data, now: int, p: nat)
    returns (d: nat)
    requires UniqueNames(spec.steps) && DepsKnown(spec.steps) && Aligned(spec, steps) && p < |steps|
    requires !DepsSucceeded(spec.steps[p].dependsOn, SkipPass(env, spec, steps, data, now, p).steps)
    ensures d < |steps| && DependsOn(spec, p, d)
    ensures !Done(SkipPass(env, spec, steps, data, now, p).steps[d].phase)
  {
    var before := SkipPass(env, spec, steps, data, now, p).steps;
    SkipPassShape(env, spec, steps, data, now, p);
    assert Aligned(spec, before);
    d := MissingDependency(spec, before, p);
  }

  /** If the dependencies of a step are known but not all done, one of them is not done. */
  lemma MissingDependency(spec: FlowSpec, steps: seq<StepStatus>, p: nat) returns (d: nat)
    requires UniqueNames(spec.steps) && DepsKnown(spec.steps) && Aligned(spec, steps) && p < |steps|
    requires !DepsSucceeded(spec.steps[p].dependsOn, steps)
    ensures d < |steps| && DependsOn(spec, p, d) && !Done(steps[d].phase)
  {
    var deps, index := spec.steps[p].dependsOn, Index(steps);
    var k :| 0 <= k < |deps| && !(deps[k] in index && Done(steps[index[deps[k]]].phase));
    d :| d < |spec.steps| && spec.steps[d].name == deps[k];
    IndexAt(spec, steps, d);
  }

  /** A quiet, running flow stays undecided exactly when it is in time, within budget and not all done. */
  lemma QuietVerdict(env: Env, spec: FlowSpec, st: Status, data: Data, now: int)
    requires Quiet(st.steps) && st.phase == FlowRunning
    ensures
      !IsTerminal(Verdict(env, spec, st, data, now).phase) <==>
      !PastDeadline(spec, st, now) && !OverBudget(spec, st.steps) && !AllDone(st.steps)
  {
    VerdictFails(env, spec, st, data, now);
    VerdictSucceeds(env, spec, st, data, now);
  }

  lemma SweptQuiet(env: Env, host: Host, spec: FlowSpec, steps: seq<StepStatus>, tick: nat)
    requires |steps| == |spec.steps| && Quiet(steps)
    ensures Quiet(AfterLoops(env, spec, steps)) && Quiet(Swept(env, host, spec, steps, tick).steps)
  {
    var data := Snapshot(env, spec, steps);
    SkipPassQuiet(env, spec, AfterLoops(env, spec, steps), data, host.clock(3 * tick));
  }

  lemma OvertakenIsUnfinished(env: Env, host: Host, spec: FlowSpec, steps: seq<StepStatus>, tick: nat, p: nat, d: nat)
    requires |steps| == |spec.steps| && Overtaken(env, host, spec, steps, tick, p, d)
    ensures !AllDone(Swept(env, host, spec, steps, tick).steps)
  {
    assert !Done(Swept(env, host, spec, steps, tick).steps[p].phase);
  }

  lemma UnfinishedIsOvertaken(env: Env, host: Host, spec: FlowSpec, steps: seq<StepStatus>, tick: nat)
    returns (p: nat, d: nat)
    requires UniqueNames(spec.steps) && ValidGraph(spec.steps) && Aligned(spec, steps) && Quiet(steps)
    requires Swept(env, host, spec, steps, tick).ready == [] && !AllDone(Swept(env, host, spec, steps, tick).steps)
    ensures Overtaken(env, host, spec, steps, tick, p, d)
  {
    var swept := Swept(env, host, spec, steps, tick).steps;
    SweptQuiet(env, host, spec, steps, tick);
    var i :| 0 <= i < |swept| && !Done(swept[i].phase);
    p, d := PendingIsOvertakenIn(env, spec, AfterLoops(env, spec, steps), Snapshot(env, spec, steps),
        host.clock(3 * tick), i);
  }

  /** After a sweep that found nothing ready, something is unfinished exactly when a dependent was overtaken. */
  lemma UnfinishedIffOvertaken(env: Env, host: Host, spec: FlowSpec, steps: seq<StepStatus>, tick: nat)
    requires UniqueNames(spec.steps) && ValidGraph(spec.steps) && Aligned(spec, steps) && Quiet(steps)
    requires Swept(env, host, spec, steps, tick).ready == []
    ensures !AllDone(Swept(env, host, spec, steps, tick).steps) <==> exists p: nat, d: nat ::
      Overtaken(env, host, spec, steps, tick, p, d)
  {
    if !AllDone(Swept(env, host, spec, steps, tick).steps) {
      var p, d := UnfinishedIsOvertaken(env, host, spec, steps, tick);
    } else if p: nat, d: nat :| Overtaken(env, host, spec, steps, tick, p, d) {
      OvertakenIsUnfinished(env, host, spec, steps, tick, p, d);
    }
  }

  /** In terms of what the turn did: some dependency was skipped after its dependent had been passed over. */
  lemma StopsOvertaken(env: Env, host: Host, spec: FlowSpec, st: Status, tick: nat)
    requires UniqueNames(spec.steps) && ValidGraph(spec.steps) && Aligned(spec, st.steps) && Quiet(st.steps)
    requires st.phase == FlowRunning && Swept(env, host, spec, st.steps, tick).ready == []
    ensures
      !IsTerminal(Batch(env, host, spec, st, tick).phase) <==>
      && !PastDeadline(spec, st, host.clock(3 * tick + 2))
      && !OverBudget(spec, Swept(env, host, spec, st.steps, tick).steps)
      && exists p: nat, d: nat :: Overtaken(env, host, spec, st.steps, tick, p, d)
  {
    SweptQuiet(env, host, spec, st.steps, tick);
    var before := st.(steps := Swept(env, host, spec, st.steps, tick).steps);
    QuietVerdict(env, spec, before, Snapshot(env, spec, st.steps), host.clock(3 * tick + 2));
    UnfinishedIffOvertaken(env, host, spec, st.steps, tick);
  }

  /** A step and a dependency of it that is listed later, both still Pending. */
  ghost predicate PendingPair(spec: FlowSpec, steps: seq<StepStatus>, p: nat, d: nat)
    requires |steps| == |spec.steps|
  {
    p < d < |steps| && DependsOn(spec, p, d) && steps[p].phase == Pending && steps[d].phase == Pending
  }

  /** When a pass gets to such a step, its dependency is still to come. */
  lemma PairIsNotReady(env: Env, spec: FlowSpec, steps: seq<StepStatus>, data: Data, now: int, p: nat, d: nat)
    requires UniqueNames(spec.steps) && Aligned(spec, steps) && PendingPair(spec, steps, p, d)
    ensures !DepsSucceeded(spec.steps[p].dependsOn, SkipPass(env, spec, steps, data, now, p).steps)
  {
    var before := SkipPass(env, spec, steps, data, now, p).steps;
    SkipPassShape(env, spec, steps, data, now, p);
    assert Aligned(spec, before);
    DepsSucceededIff(spec, before, p);
    assert before[d] == steps[d];
  }

  /** A pass does nothing at a step whose dependencies are not done, */
  lemma NotReadyStep(env: Env, spec: FlowSpec, steps: seq<StepStatus>, data: Data, now: int, p: nat)
    requires |steps| == |spec.steps| && p < |steps|
    requires !DepsSucceeded(spec.steps[p].dependsOn, SkipPass(env, spec, steps, data, now, p).steps)
    ensures SkipPass(env, spec, steps, data, now, p + 1).steps[p] == steps[p]
  {
    var before := SkipPass(env, spec, steps, data, now, p).steps;
    assert before[p] == steps[p] && Decide(env, spec, before, data, p) == Leave;
  }

  /** and never comes back to it. */
  lemma {:induction false} LeftForGood(env: Env, spec: FlowSpec, steps: seq<StepStatus>, data: Data, now: int, p: nat,
          k: nat)
    requires |steps| == |spec.steps| && p < k <= |steps|
    requires SkipPass(env, spec, steps, data, now, p + 1).steps[p] == steps[p]
    ensures SkipPass(env, spec, steps, data, now, k).steps[p] == steps[p]
    decreases k
  {
    if p + 1 < k {
      LeftForGood(env, spec, steps, data, now, p, k - 1);
    }
  }

  /** So the pass leaves it Pending. */
  lemma PairIsPassedOver(env: Env, spec: FlowSpec, steps: seq<StepStatus>, data: Data, now: int, p: nat, d: nat)
    requires UniqueNames(spec.steps) && Aligned(spec, steps) && PendingPair(spec, steps, p, d)
    ensures SkipPass(env, spec, steps, data, now, |steps|).steps[p] == steps[p]
  {
    PairIsNotReady(env, spec, steps, data, now, p, d);
    NotReadyStep(env, spec, steps, data, now, p);
    LeftForGood(env, spec, steps, data, now, p, |steps|);
  }

  /** Whoever was overtaken was Pending with its dependency before the pass. */
  lemma OvertakenWasPending(env: Env, host: Host, spec: FlowSpec, steps: seq<StepStatus>, tick: nat, p: nat, d: nat)
    requires |steps| == |spec.steps| && Overtaken(env, host, spec, steps, tick, p, d)
    ensures PendingPair(spec, AfterLoops(env, spec, steps), p, d)
  {
    var looped := AfterLoops(env, spec, steps);
    SkipPassShapeAt(env, spec, looped, Snapshot(env, spec, steps), host.clock(3 * tick), |steps|, p);
  }

  lemma PairIsUnfinished(env: Env, host: Host, spec: FlowSpec, steps: seq<StepStatus>, tick: nat, p: nat, d: nat)
    requires UniqueNames(spec.steps) && Aligned(spec, steps) && PendingPair(spec, AfterLoops(env, spec, steps), p, d)
    ensures !AllDone(Swept(env, host, spec, steps, tick).steps)
  {
    var looped := AfterLoops(env, spec, steps);
    assert Aligned(spec, looped);
    PairIsPassedOver(env, spec, looped, Snapshot(env, spec, steps), host.clock(3 * tick), p, d);
    assert !Done(Swept(env, host, spec, steps, tick).steps[p].phase);
  }

  lemma PairIffOvertaken(env: Env, host: Host, spec: FlowSpec, steps: seq<StepStatus>, tick: nat)
    requires UniqueNames(spec.steps) && ValidGraph(spec.steps) && Aligned(spec, steps) && Quiet(steps)
    requires Swept(env, host, spec, steps, tick).ready == []
    ensures
      (exists p: nat, d: nat :: PendingPair(spec, AfterLoops(env, spec, steps), p, d)) <==>
      (exists p: nat, d: nat :: Overtaken(env, host, spec, steps, tick, p, d))
  {
    if p: nat, d: nat :| Overtaken(env, host, spec, steps, tick, p, d) {
      OvertakenWasPending(env, host, spec, steps, tick, p, d);
    } else if p: nat, d: nat :| PendingPair(spec, AfterLoops(env, spec, steps), p, d) {
      PairIsUnfinished(env, host, spec, steps, tick, p, d);
      UnfinishedIffOvertaken(env, host, spec, steps, tick);
    }
  }

  /** Loops and skips spend nothing. */
  lemma SweepSpendsNothing(env: Env, host: Host, spec: FlowSpec, steps: seq<StepStatus>, tick: nat)
    requires |steps| == |spec.steps|
    ensures TokensUsed(Swept(env, host, spec, steps, tick).steps) == TokensUsed(steps)
  {
    var swept := Swept(env, host, spec, steps, tick).steps;
    forall i: nat | i < |steps|
      ensures swept[i].tokens == steps[i].tokens
    {
      SkipPassShapeAt(env, spec, AfterLoops(env, spec, steps), Snapshot(env, spec, steps), host.clock(3 * tick),
          |steps|, i);
    }
    assert InputColumn(swept) == InputColumn(steps) && OutputColumn(swept) == OutputColumn(steps);
  }

  /**
   * A turn that finds nothing ready leaves the flow undecided exactly when it is in time and within budget and, once
   * the loops are evaluated, some step and a dependency listed after it are both still Pending.
   */
  lemma StopsUndecidedIff(env: Env, host: Host, spec: FlowSpec, st: Status, tick: nat)
    requires UniqueNames(spec.steps) && ValidGraph(spec.steps) && Aligned(spec, st.steps) && Quiet(st.steps)
    requires st.phase == FlowRunning && Swept(env, host, spec, st.steps, tick).ready == []
    ensures
      !IsTerminal(Batch(env, host, spec, st, tick).phase) <==>
      && !PastDeadline(spec, st, host.clock(3 * tick + 2)) && !OverBudget(spec, st.steps)
      && exists p: nat, d: nat :: PendingPair(spec, AfterLoops(env, spec, st.steps), p, d)
  {
    StopsOvertaken(env, host, spec, st, tick);
    PairIffOvertaken(env, host, spec, st.steps, tick);
    SweepSpendsNothing(env, host, spec, st.steps, tick);
  }

  // --------------------------------------------------------- whole runs

  lemma RecordQuiet(env: Env, step: Step, st: StepStatus, looped: StepStatus, swept: StepStatus, ran: StepStatus,
          data: Data, now: int, reply: Reply, at: int, ready: bool)
    requires looped == LoopOne(env, step, st, data) && st.phase != Running
    requires swept == looped || (looped.phase == Pending && swept == Stopped(looped, Skipped, now))
    requires ran == Parsed(env, step, if ready then Replied(Launched(swept, swept.taskID, now), reply, at) else swept)
    ensures ran.phase != Running && ran.name == st.name
  {
  }

  lemma RanQuiet(env: Env, host: Host, spec: FlowSpec, steps: seq<StepStatus>, tick: nat, i: nat)
    requires |steps| == |spec.steps| && Quiet(steps) && i < |steps|
    ensures Ran(env, host, spec, steps, tick)[i].phase != Running
      && Ran(env, host, spec, steps, tick)[i].name == steps[i].name
  {
    var data := Snapshot(env, spec, steps);
    var looped := LoopAll(env, spec, steps, data);
    var now, at := host.clock(3 * tick), host.clock(3 * tick + 1);
    SkipPassShape(env, spec, looped, data, now, |steps|);
    var sweep := SkipPass(env, spec, looped, data, now, |steps|);
    var reply := ReplyTo(env, host, spec.steps[i], data, tick);
    var ran := Ran(env, host, spec, steps, tick);
    RecordQuiet(env, spec.steps[i], steps[i], looped[i], sweep.steps[i], ran[i], data, now, reply, at,
        i in sweep.ready);
  }

  /** A flow between two turns. */
  ghost predicate Between(spec: FlowSpec, st: Status) {
    st.phase == FlowRunning && Aligned(spec, st.steps) && Quiet(st.steps)
  }

  /** An undecided verdict over records none of which runs leaves the flow quiet. */
  lemma VerdictQuiet(env: Env, spec: FlowSpec, st: Status, data: Data, now: int)
    requires st.phase == FlowRunning && Aligned(spec, st.steps)
    requires forall i :: 0 <= i < |st.steps| ==> st.steps[i].phase != Running
    ensures var v := Verdict(env, spec, st, data, now); IsTerminal(v.phase) || Between(spec, v)
  {
    if !IsTerminal(Verdict(env, spec, st, data, now).phase) {
      VerdictUndecided(env, spec, st, data, now);
    }
  }

  /** A turn that runs something either decides the flow or leaves it quiet again. */
  lemma BatchQuiet(env: Env, host: Host, spec: FlowSpec, st: Status, tick: nat)
    requires Between(spec, st) && Swept(env, host, spec, st.steps, tick).ready != []
    ensures IsTerminal(Batch(env, host, spec, st, tick).phase) || Between(spec, Batch(env, host, spec, st, tick))
  {
    var ran := After(env, host, spec, st.steps, tick);
    forall i | 0 <= i < |ran|
      ensures ran[i].phase != Running && ran[i].name == st.steps[i].name
    {
      RanQuiet(env, host, spec, st.steps, tick, i);
    }
    VerdictQuiet(env, spec, st.(steps := ran), Snapshot(env, spec, ran), host.clock(3 * tick + 2));
  }

  /** The last turn of a run that ends without a verdict. */
  datatype LastTurn = LastTurn(steps: seq<StepStatus>, tick: nat, p: nat, d: nat)

  /** It found nothing ready, left the records the run ended with, and overtook a dependent. */
  ghost predicate EndedIn(env: Env, host: Host, spec: FlowSpec, end: Status, t: LastTurn) {
    && Aligned(spec, t.steps)
    && Swept(env, host, spec, t.steps, t.tick) == Sweep(end.steps, [])
    && Overtaken(env, host, spec, t.steps, t.tick, t.p, t.d)
  }

  lemma StopTurn(env: Env, host: Host, spec: FlowSpec, st: Status, tick: nat) returns (t: LastTurn)
    requires UniqueNames(spec.steps) && ValidGraph(spec.steps) && Aligned(spec, st.steps) && Quiet(st.steps)
    requires st.phase == FlowRunning && Swept(env, host, spec, st.steps, tick).ready == []
    ensures var end := Batch(env, host, spec, st, tick); IsTerminal(end.phase) || EndedIn(env, host, spec, end, t)
  {
    StopsOvertaken(env, host, spec, st, tick);
    t := LastTurn(st.steps, tick, 0, 0);
    if !IsTerminal(Batch(env, host, spec, st, tick).phase) {
      var p: nat, d: nat :| Overtaken(env, host, spec, st.steps, tick, p, d);
      t := LastTurn(st.steps, tick, p, d);
    }
  }

  /** A turn that runs something is followed by the next. */
  lemma RunGoesOn(env: Env, host: Host, spec: FlowSpec, st: Status, tick: nat, b: Status)
    requires |st.steps| == |spec.steps| && !IsTerminal(st.phase)
    requires Swept(env, host, spec, st.steps, tick).ready != [] && b == Batch(env, host, spec, st, tick)
    ensures RunFrom(env, host, spec, st, tick) == RunFrom(env, host, spec, b, tick + 1)
    ensures 0 <= Fuel(spec, b.steps) < Fuel(spec, st.steps)
  {
    RanShrinks(env, host, spec, st.steps, tick);
  }

  /** The state in which a run's last turn starts, or the decided state it ends in. */
  lemma LastState(env: Env, host: Host, spec: FlowSpec, st: Status, tick: nat) returns (last: Status, at: nat)
    requires Between(spec, st)
    ensures |last.steps| == |spec.steps|
    ensures RunFrom(env, host, spec, st, tick) == RunFrom(env, host, spec, last, at)
    ensures IsTerminal(last.phase) || (Between(spec, last) && Swept(env, host, spec, last.steps, at).ready == [])
  {
    last, at := st, tick;
    while !IsTerminal(last.phase) && Swept(env, host, spec, last.steps, at).ready != []
      invariant |last.steps| == |spec.steps|
      invariant RunFrom(env, host, spec, st, tick) == RunFrom(env, host, spec, last, at)
      invariant IsTerminal(last.phase) || Between(spec, last)
      decreases Fuel(spec, last.steps)
    {
      BatchQuiet(env, host, spec, last, at);
      var b := Batch(env, host, spec, last, at);
      RunGoesOn(env, host, spec, last, at, b);
      last, at := b, at + 1;
    }
  }

  /**
   * A run of a valid flow gets no verdict exactly if it comes to a turn that finds nothing ready while it is in time
   * and within budget, some step and a dependency listed after it being both Pending once the loops are evaluated.
   */
  lemma RunUndecidedIff(env: Env, host: Host, spec: FlowSpec, now: int) returns (last: Status, at: nat)
    requires UniqueNames(spec.steps) && ValidGraph(spec.steps)
    ensures |last.steps| == |spec.steps|
    ensures RunAll(env, host, spec, now) == RunFrom(env, host, spec, last, at)
    ensures IsTerminal(last.phase) || Swept(env, host, spec, last.steps, at).ready == []
    ensures
      !IsTerminal(RunAll(env, host, spec, now).phase) <==>
      && !IsTerminal(last.phase)
      && !PastDeadline(spec, last, host.clock(3 * at + 2)) && !OverBudget(spec, last.steps)
      && exists p: nat, d: nat :: PendingPair(spec, AfterLoops(env, spec, last.steps), p, d)
  {
    last, at := LastState(env, host, spec, Initialized(spec, FRESH_STATUS, now), 0);
    if !IsTerminal(last.phase) {
      StopsUndecidedIff(env, host, spec, last, at);
    }
  }

  /** A run that ends without a verdict ended in a turn that overtook a dependent. */
  lemma RunEnds(env: Env, host: Host, spec: FlowSpec, st: Status, tick: nat) returns (t: LastTurn)
    requires UniqueNames(spec.steps) && ValidGraph(spec.steps) && Between(spec, st)
    ensures var end := RunFrom(env, host, spec, st, tick); IsTerminal(end.phase) || EndedIn(env, host, spec, end, t)
  {
    var last, at := LastState(env, host, spec, st, tick);
    if IsTerminal(last.phase) {
      t := LastTurn([], 0, 0, 0);
    } else {
      t := StopTurn(env, host, spec, last, at);
    }
  }

  lemma FreshRunEnds(env: Env, host: Host, spec: FlowSpec, now: int) returns (t: LastTurn)
    requires UniqueNames(spec.steps) && ValidGraph(spec.steps)
    ensures var end := RunAll(env, host, spec, now); IsTerminal(end.phase) || EndedIn(env, host, spec, end, t)
  {
    t := RunEnds(env, host, spec, Initialized(spec, FRESH_STATUS, now), 0);
  }

  /** A valid flow that lists every step after its dependencies always ends Succeeded or Failed. */
  lemma OrderedFlowsEnd(env: Env, host: Host, spec: FlowSpec, now: int)
    requires UniqueNames(spec.steps) && ValidGraph(spec.steps)
    requires forall p, d :: 0 <= p < |spec.steps| && 0 <= d < |spec.steps| && DependsOn(spec, p, d) ==> d < p
    ensures IsTerminal(RunAll(env, host, spec, now).phase)
  {
    var t := FreshRunEnds(env, host, spec, now);
  }

  lemma OvertakenHasCondition(env: Env, host: Host, spec: FlowSpec, steps: seq<StepStatus>, tick: nat, p: nat, d: nat)
    requires |steps| == |spec.steps| && Overtaken(env, host, spec, steps, tick, p, d)
    ensures spec.steps[d].cond != ""
  {
    SkippedHasCondition(env, spec, AfterLoops(env, spec, steps), Snapshot(env, spec, steps), host.clock(3 * tick),
        |steps|, d);
  }

  /** So does one in which no step with a condition is listed after a dependent of its own. */
  lemma UnconditionalFlowsEnd(env: Env, host: Host, spec: FlowSpec, now: int)
    requires UniqueNames(spec.steps) && ValidGraph(spec.steps)
    requires forall p, d :: 0 <= p < d < |spec.steps| && DependsOn(spec, p, d) ==> spec.steps[d].cond == ""
    ensures IsTerminal(RunAll(env, host, spec, now).phase)
  {
    var t := FreshRunEnds(env, host, spec, now);
    if !IsTerminal(RunAll(env, host, spec, now).phase) {
      OvertakenHasCondition(env, host, spec, t.steps, t.tick, t.p, t.d);
    }
  }
}
