/** A reconcile that finds nothing running decides the flow or releases a step. */
module ReconcilerProgress {
  import opened FlowTypes
  import opened Templates
  import opened Dag
  import opened Passes
  import opened TaskQueue
  import opened LocalEnds
  import opened Reconciler
  import RT = ReconcilerTheory

  /** A record is left alone, or a Pending one is released. */
  ghost predicate Moved(st: StepStatus, st': StepStatus) {
    st' == st || (st.phase == Pending && st'.phase != Pending && st'.phase != Succeeded && st'.name == st.name
        && st'.iterations == st.iterations
        && st'.tokens == st.tokens)
  }

  lemma SubmitOneShape(env: Env, spec: FlowSpec, s: Sub, data: Data, am: Ambient, base: nat, k: nat, i: nat)
    requires |s.steps| == |spec.steps| && k < |s.steps| && i < |s.steps|
    ensures
      var s' := SubmitOne(env, spec, s, data, am, base, k);
      Moved(s.steps[i], s'.steps[i]) && (k != i ==> s'.steps[i] == s.steps[i])
  {
  }

  lemma {:induction false} SubmitShape(env: Env, spec: FlowSpec, steps: seq<StepStatus>, data: Data, am: Ambient,
          base: nat, k: nat, i: nat)
    requires |steps| == |spec.steps| && k <= |steps| && i < |steps|
    ensures
      var s := SubmitPass(env, spec, steps, data, am, base, k);
      Moved(steps[i], s.steps[i]) && (k <= i ==> s.steps[i] == steps[i])
    decreases k
  {
    if k > 0 {
      SubmitShape(env, spec, steps, data, am, base, k - 1, i);
      SubmitOneShape(env, spec, SubmitPass(env, spec, steps, data, am, base, k - 1), data, am, base, k - 1, i);
    }
  }

  lemma SubmitNextKeeps(env: Env, spec: FlowSpec, steps: seq<StepStatus>, data: Data, am: Ambient, base: nat, k: nat,
          j: nat)
    requires |steps| == |spec.steps| && j < k < |steps|
    ensures
      var s, s' := SubmitPass(env, spec, steps, data, am, base, k), SubmitPass(env, spec, steps, data, am, base, k + 1);
      s'.steps[j] == s.steps[j] && (s'.ok ==> s.ok)
  {
    SubmitOneShape(env, spec, SubmitPass(env, spec, steps, data, am, base, k), data, am, base, k, j);
  }

  lemma SubmitAligned(env: Env, spec: FlowSpec, steps: seq<StepStatus>, data: Data, am: Ambient, base: nat, k: nat)
    requires Aligned(spec, steps) && k <= |steps|
    ensures Aligned(spec, SubmitPass(env, spec, steps, data, am, base, k).steps)
    ensures forall i :: 0 <= i < |steps| && Done(steps[i].phase) ==>
      Done(SubmitPass(env, spec, steps, data, am, base, k).steps[i].phase)
  {
    forall i | 0 <= i < |steps|
      ensures Moved(steps[i], SubmitPass(env, spec, steps, data, am, base, k).steps[i])
    {
      SubmitShape(env, spec, steps, data, am, base, k, i);
    }
  }

  /** A pass over the first k steps that got through has released step p. */
  ghost predicate ReleasedBy(env: Env, spec: FlowSpec, steps: seq<StepStatus>, data: Data, am: Ambient, base: nat,
          k: nat, p: nat)
    requires |steps| == |spec.steps| && p < |steps| && k <= |steps|
  {
    var s := SubmitPass(env, spec, steps, data, am, base, k);
    s.ok ==> s.steps[p].phase != Pending
  }

  /** When the pass gets to a step whose dependencies are done, it releases it, */
  lemma ReadyIsNext(env: Env, spec: FlowSpec, steps: seq<StepStatus>, data: Data, am: Ambient, base: nat, p: nat)
    requires UniqueNames(spec.steps) && Aligned(spec, steps) && p < |steps|
    requires steps[p].phase == Pending && DepsSucceeded(spec.steps[p].dependsOn, steps)
    ensures ReleasedBy(env, spec, steps, data, am, base, p + 1, p)
  {
    var s := SubmitPass(env, spec, steps, data, am, base, p);
    SubmitShape(env, spec, steps, data, am, base, p, p);
    SubmitAligned(env, spec, steps, data, am, base, p);
    DepsMonotone(spec, spec.steps[p].dependsOn, steps, s.steps);
  }

  lemma StillReleased(env: Env, spec: FlowSpec, steps: seq<StepStatus>, data: Data, am: Ambient, base: nat, k: nat,
          p: nat)
    requires |steps| == |spec.steps| && p < k < |steps| && ReleasedBy(env, spec, steps, data, am, base, k, p)
    ensures ReleasedBy(env, spec, steps, data, am, base, k + 1, p)
  {
    SubmitNextKeeps(env, spec, steps, data, am, base, k, p);
  }

  /** and does not take that back. */
  lemma {:induction false} StaysReleased(env: Env, spec: FlowSpec, steps: seq<StepStatus>, data: Data, am: Ambient,
          base: nat, k: nat, p: nat)
    requires |steps| == |spec.steps| && p < k <= |steps|
    requires ReleasedBy(env, spec, steps, data, am, base, p + 1, p)
    ensures ReleasedBy(env, spec, steps, data, am, base, k, p)
    decreases k
  {
    if p + 1 < k {
      StaysReleased(env, spec, steps, data, am, base, k - 1, p);
      StillReleased(env, spec, steps, data, am, base, k - 1, p);
    }
  }

  /** If a step's dependencies are done before the pass, a pass that gets through releases it. */
  lemma ReadyIsReleased(env: Env, spec: FlowSpec, steps: seq<StepStatus>, data: Data, am: Ambient, base: nat, p: nat)
    requires UniqueNames(spec.steps) && Aligned(spec, steps) && p < |steps|
    requires steps[p].phase == Pending && DepsSucceeded(spec.steps[p].dependsOn, steps)
    requires SubmitPass(env, spec, steps, data, am, base, |steps|).ok
    ensures SubmitPass(env, spec, steps, data, am, base, |steps|).steps[p].phase != Pending
  {
    ReadyIsNext(env, spec, steps, data, am, base, p);
    StaysReleased(env, spec, steps, data, am, base, |steps|, p);
  }

  /** In an acyclic flow something Pending is ready, unless something else has failed or is running. */
  lemma SomethingReady(spec: FlowSpec, steps: seq<StepStatus>, i: nat) returns (p: nat)
    requires UniqueNames(spec.steps) && ValidGraph(spec.steps) && Aligned(spec, steps)
    requires Quiet(steps) && i < |steps| && steps[i].phase == Pending
    ensures p < |steps| && steps[p].phase == Pending && DepsSucceeded(spec.steps[p].dependsOn, steps)
  {
    var rank := RankExists(spec);
    p := MinimalPending(spec, steps, rank, i);
    if !DepsSucceeded(spec.steps[p].dependsOn, steps) {
      var d := MissingDependency(spec, steps, p);
      assert false;
    }
  }

  /** After a pass that got through, a step has failed, all steps are done, or some step was released. */
  lemma PassOutcome(env: Env, spec: FlowSpec, before: seq<StepStatus>, data: Data, am: Ambient, base: nat)
    returns (p: nat)
    requires UniqueNames(spec.steps) && ValidGraph(spec.steps) && Aligned(spec, before)
    requires SubmitPass(env, spec, before, data, am, base, |before|).ok
    requires forall i :: 0 <= i < |before| ==> before[i].phase != Running
    ensures
      var after := SubmitPass(env, spec, before, data, am, base, |before|).steps;
      SomeFailed(after) || AllDone(after) || (p < |before| && before[p].phase == Pending && after[p].phase != Pending)
  {
    p := 0;
    var after := SubmitPass(env, spec, before, data, am, base, |before|).steps;
    if i :| 0 <= i < |before| && before[i].phase == Failed {
      SubmitShape(env, spec, before, data, am, base, |before|, i);
      assert after[i].phase == Failed;
    } else if i :| 0 <= i < |before| && before[i].phase == Pending {
      p := SomethingReady(spec, before, i);
      ReadyIsReleased(env, spec, before, data, am, base, p);
    } else {
      forall i | 0 <= i < |before|
        ensures Done(after[i].phase)
      {
        SubmitShape(env, spec, before, data, am, base, |before|, i);
      }
    }
  }

  /**
   * Progress: if no step is running once the results are in, and the submissions get through, then the reconcile
   * decides the flow, or it releases some Pending step.
   */
  lemma DecidesOrReleases(env: Env, spec: FlowSpec, st: Status, results: seq<Result>, base: nat, am: Ambient)
    returns (p: nat)
    requires UniqueNames(spec.steps) && ValidGraph(spec.steps) && Aligned(spec, st.steps) && st.phase == FlowRunning
    requires (am.readable || !AnyWaiting(st.steps)) && Sending(env, spec, st.steps, results, base, am).ok
    requires forall i :: 0 <= i < |st.steps| ==>
      AfterLoops(env, spec, Gathered(env, spec, st.steps, results, am.now))[i].phase != Running
    ensures
      var after := Advanced(env, spec, st, results, base, am).status;
      var before := AfterLoops(env, spec, Gathered(env, spec, st.steps, results, am.now));
      || IsTerminal(after.phase)
      || (p < |before| && before[p].phase == Pending && after.steps[p].phase != Pending)
  {
    RT.LoopedAligned(env, spec, st.steps, results, am.now);
    var data := Snapshot(env, spec, Gathered(env, spec, st.steps, results, am.now));
    p := PassOutcome(env, spec, AfterLoops(env, spec, Gathered(env, spec, st.steps, results, am.now)), data, am, base);
    OutcomeDecides(env, spec, st, results, base, am);
  }

  /** A pass that got through decides the flow if a step has failed or all are done. */
  lemma OutcomeDecides(env: Env, spec: FlowSpec, st: Status, results: seq<Result>, base: nat, am: Ambient)
    requires |st.steps| == |spec.steps| && st.phase == FlowRunning
    requires (am.readable || !AnyWaiting(st.steps)) && Sending(env, spec, st.steps, results, base, am).ok
    ensures
      var p, s := Advanced(env, spec, st, results, base, am), Sending(env, spec, st.steps, results, base, am);
      p.status.steps == s.steps && (SomeFailed(s.steps) || AllDone(s.steps) ==> IsTerminal(p.status.phase))
  {
    var data := Snapshot(env, spec, Gathered(env, spec, st.steps, results, am.now));
    var moved := st.(steps := Sending(env, spec, st.steps, results, base, am).steps);
    VerdictFails(env, spec, moved, data, am.now);
    VerdictSucceeds(env, spec, moved, data, am.now);
  }
}
