/**
 * What each driver shows of the order of steps: between two turns, and between two stored statuses, a step leaves
 * Pending only with its dependencies done.
 */
module ReleaseOrder {
  import opened FlowTypes
  import opened Templates
  import opened Engine
  import opened Passes
  import opened Decimal
  import opened TaskQueue
  import opened Persistence
  import opened LocalRun
  import opened LocalTheory
  import opened LocalLoops
  import opened LocalTokens
  import opened Reconciler
  import opened Cluster
  import opened ClusterTheory
  import RT = ReconcilerTheory
  import RP = ReconcilerProgress

  /** Everything that step i depends on is done. */
  ghost predicate DependenciesDone(spec: FlowSpec, steps: seq<StepStatus>, i: nat)
    requires |steps| == |spec.steps| && i < |steps|
  {
    forall j: nat :: j < |steps| && DependsOn(spec, i, j) ==> Done(steps[j].phase)
  }

  // -------------------------------------------------------- the local driver

  /** A step is decided upon once its dependencies are done. */
  lemma DecidedAfterDependencies(env: Env, spec: FlowSpec, steps: seq<StepStatus>, data: Data, i: nat)
    requires UniqueNames(spec.steps) && Aligned(spec, steps) && i < |steps|
    requires Decide(env, spec, steps, data, i) != Leave
    ensures DependenciesDone(spec, steps, i)
  {
    DepsSucceededIff(spec, steps, i);
  }

  lemma SkippedNow(env: Env, spec: FlowSpec, steps: seq<StepStatus>, data: Data, now: int, k: nat, i: nat)
    requires |steps| == |spec.steps| && 0 < k <= |steps| && i < |steps|
    requires SkipPass(env, spec, steps, data, now, k - 1).steps[i] == steps[i]
    requires SkipPass(env, spec, steps, data, now, k).steps[i] != steps[i]
    ensures i == k - 1 && Decide(env, spec, SkipPass(env, spec, steps, data, now, k - 1).steps, data, i) == SkipIt
  {
  }

  lemma SkippingKeepsDone(env: Env, spec: FlowSpec, steps: seq<StepStatus>, data: Data, now: int, k: nat, i: nat)
    requires |steps| == |spec.steps| && 0 < k <= |steps| && i < |steps|
    requires DependenciesDone(spec, SkipPass(env, spec, steps, data, now, k - 1).steps, i)
    ensures DependenciesDone(spec, SkipPass(env, spec, steps, data, now, k).steps, i)
  {
  }

  /** What a pass skips has its dependencies done, then and at the end of the pass. */
  lemma {:induction false} SkippedAfterDependencies(env: Env, spec: FlowSpec, steps: seq<StepStatus>, data: Data,
          now: int, k: nat, i: nat)
    requires UniqueNames(spec.steps) && Aligned(spec, steps) && k <= |steps| && i < |steps|
    requires SkipPass(env, spec, steps, data, now, k).steps[i] != steps[i]
    ensures DependenciesDone(spec, SkipPass(env, spec, steps, data, now, k).steps, i)
    decreases k
  {
    var before := SkipPass(env, spec, steps, data, now, k - 1).steps;
    if before[i] != steps[i] {
      SkippedAfterDependencies(env, spec, steps, data, now, k - 1, i);
    } else {
      SkippedNow(env, spec, steps, data, now, k, i);
      SkipPassShape(env, spec, steps, data, now, k - 1);
      DecidedAfterDependencies(env, spec, before, data, i);
    }
    SkippingKeepsDone(env, spec, steps, data, now, k, i);
  }

  /** So has whatever leaves Pending in the sweep of a turn or runs in it. */
  lemma SweptAfterDependencies(env: Env, host: Host, spec: FlowSpec, steps: seq<StepStatus>, tick: nat, i: nat)
    requires UniqueNames(spec.steps) && Aligned(spec, steps) && i < |steps|
    requires
      var sweep := Swept(env, host, spec, steps, tick);
      sweep.steps[i] != AfterLoops(env, spec, steps)[i] || i in sweep.ready
    ensures DependenciesDone(spec, Swept(env, host, spec, steps, tick).steps, i)
  {
    var data, looped := Snapshot(env, spec, steps), AfterLoops(env, spec, steps);
    var sweep := Swept(env, host, spec, steps, tick);
    if i in sweep.ready {
      SkipPassReady(env, spec, looped, data, host.clock(3 * tick), |steps|);
      var x :| 0 <= x < |sweep.ready| && sweep.ready[x] == i;
      assert MayRun(env, spec, sweep.steps, data, sweep.ready[x]);
      DepsSucceededIff(spec, sweep.steps, i);
    } else {
      SkippedAfterDependencies(env, spec, looped, data, host.clock(3 * tick), |steps|, i);
    }
  }

  /** What a turn does not run keeps its phase after the sweep. */
  lemma DoneStaysDone(env: Env, host: Host, spec: FlowSpec, steps: seq<StepStatus>, tick: nat, j: nat)
    requires |steps| == |spec.steps| && j < |steps|
    requires Done(Swept(env, host, spec, steps, tick).steps[j].phase)
    ensures Done(After(env, host, spec, steps, tick)[j].phase)
  {
    if j in Swept(env, host, spec, steps, tick).ready {
      ReadyIsPending(env, host, spec, steps, tick, j);
    }
    RanAt(env, host, spec, steps, tick, j);
  }

  /** A step that leaves Pending in a turn of the local driver has its dependencies done at the end of the turn. */
  lemma TurnHappensBefore(env: Env, host: Host, spec: FlowSpec, st: Status, tick: nat, i: nat)
    requires UniqueNames(spec.steps) && Aligned(spec, st.steps) && i < |st.steps|
    requires st.steps[i].phase == Pending && Batch(env, host, spec, st, tick).steps[i].phase != Pending
    ensures DependenciesDone(spec, Batch(env, host, spec, st, tick).steps, i)
  {
    var sweep, after := Swept(env, host, spec, st.steps, tick), After(env, host, spec, st.steps, tick);
    assert AfterLoops(env, spec, st.steps)[i] == st.steps[i];
    RanAt(env, host, spec, st.steps, tick, i);
    SweptAfterDependencies(env, host, spec, st.steps, tick, i);
    forall j: nat | j < |after| && DependsOn(spec, i, j)
      ensures Done(after[j].phase)
    {
      DoneStaysDone(env, host, spec, st.steps, tick, j);
    }
  }

  // ------------------------------------------------------------ the operator

  /** What is done before a pass, or becomes so in it, stays done in it. */
  lemma SubmittedStaysDone(env: Env, spec: FlowSpec, s: Sub, data: Data, am: Ambient, base: nat, k: nat, i: nat)
    requires |s.steps| == |spec.steps| && k < |s.steps| && i < |s.steps| && DependenciesDone(spec, s.steps, i)
    ensures DependenciesDone(spec, SubmitOne(env, spec, s, data, am, base, k).steps, i)
  {
    var after := SubmitOne(env, spec, s, data, am, base, k).steps;
    forall j: nat | j < |after| && DependsOn(spec, i, j)
      ensures Done(after[j].phase)
    {
      RP.SubmitOneShape(env, spec, s, data, am, base, k, j);
    }
  }

  lemma ReleasedNow(env: Env, spec: FlowSpec, s: Sub, data: Data, am: Ambient, base: nat, k: nat, i: nat)
    requires |s.steps| == |spec.steps| && k < |s.steps| && i < |s.steps|
    requires SubmitOne(env, spec, s, data, am, base, k).steps[i] != s.steps[i]
    ensures i == k && Decide(env, spec, s.steps, data, i) != Leave
  {
  }

  lemma ReleasedAfterDependencies(env: Env, spec: FlowSpec, steps: seq<StepStatus>, data: Data, am: Ambient, base: nat,
          k: nat, i: nat)
    requires UniqueNames(spec.steps) && Aligned(spec, steps) && k < |steps| && i < |steps|
    requires
      var s := SubmitPass(env, spec, steps, data, am, base, k);
      SubmitOne(env, spec, s, data, am, base, k).steps[i] != s.steps[i]
    ensures DependenciesDone(spec, SubmitPass(env, spec, steps, data, am, base, k).steps, i)
  {
    var s := SubmitPass(env, spec, steps, data, am, base, k);
    RP.SubmitAligned(env, spec, steps, data, am, base, k);
    ReleasedNow(env, spec, s, data, am, base, k, i);
    DecidedAfterDependencies(env, spec, s.steps, data, i);
  }

  /** What a pass releases has its dependencies done, then and at the end of the pass. */
  lemma {:induction false} SubmittedAfterDependencies(env: Env, spec: FlowSpec, steps: seq<StepStatus>, data: Data,
          am: Ambient, base: nat, k: nat, i: nat)
    requires UniqueNames(spec.steps) && Aligned(spec, steps) && k <= |steps| && i < |steps|
    requires steps[i].phase == Pending && SubmitPass(env, spec, steps, data, am, base, k).steps[i].phase != Pending
    ensures DependenciesDone(spec, SubmitPass(env, spec, steps, data, am, base, k).steps, i)
    decreases k
  {
    var before := SubmitPass(env, spec, steps, data, am, base, k - 1);
    if before.steps[i].phase != Pending {
      SubmittedAfterDependencies(env, spec, steps, data, am, base, k - 1, i);
    } else {
      ReleasedAfterDependencies(env, spec, steps, data, am, base, k - 1, i);
    }
    SubmitPassNext(env, spec, steps, data, am, base, k, before);
    if before.ok {
      SubmittedStaysDone(env, spec, before, data, am, base, k - 1, i);
    }
  }

  lemma AdvancedAfterDependencies(env: Env, spec: FlowSpec, st: Status, results: seq<Result>, base: nat, am: Ambient,
          i: nat)
    requires UniqueNames(spec.steps) && Aligned(spec, st.steps) && i < |st.steps| && st.steps[i].phase == Pending
    requires Advanced(env, spec, st, results, base, am).status.steps[i].phase != Pending
    ensures DependenciesDone(spec, Advanced(env, spec, st, results, base, am).status.steps, i)
  {
    AdvancedParts(env, spec, st, results, base, am);
    RT.LoopedAligned(env, spec, st.steps, results, am.now);
    var gathered := Gathered(env, spec, st.steps, results, am.now);
    assert AfterLoops(env, spec, gathered)[i] == st.steps[i];
    SubmittedAfterDependencies(env, spec, AfterLoops(env, spec, gathered), Snapshot(env, spec, gathered), am, base,
                               |st.steps|, i);
  }

  /** The step is Pending, or the flow has not been initialized. */
  predicate StillPending(rec: FlowRec, i: nat) {
    rec.stored.phase == Unset || (i < |rec.stored.steps| && rec.stored.steps[i].phase == Pending)
  }

  /** The step has left Pending. */
  predicate HasLeft(rec: FlowRec, i: nat) {
    rec.stored.phase != Unset && i < |rec.stored.steps| && rec.stored.steps[i].phase != Pending
  }

  lemma PersistedDependencies(spec: FlowSpec, steps: seq<StepStatus>, i: nat)
    requires |steps| == |spec.steps| && i < |steps| && DependenciesDone(spec, steps, i)
    ensures DependenciesDone(spec, PersistedSteps(steps), i)
  {
    forall j: nat | j < |steps| && DependsOn(spec, i, j)
      ensures Done(PersistedSteps(steps)[j].phase)
    {
      assert Done(steps[j].phase);
    }
  }

  lemma VisitAfterDependencies(env: Env, maxRetries: int, w: World, flow: nat, am: Ambient, i: nat)
    requires Whole(env, maxRetries, w) && flow < |w.flows| && i < |w.flows[flow].spec.steps|
    requires StillPending(w.flows[flow], i)
    requires HasLeft(w.flows[flow].(stored := Persisted(Visited(env, w, flow, am).status)), i)
    ensures |Visited(env, w, flow, am).status.steps| == |w.flows[flow].spec.steps|
    ensures DependenciesDone(w.flows[flow].spec, PersistedSteps(Visited(env, w, flow, am).status.steps), i)
  {
    var rec, status := w.flows[flow], Visited(env, w, flow, am).status;
    assert Sound(env, w.books, flow, rec);
    assert Runnable(rec.spec, rec.stored, am);
    var r, seen := InitializedSound(env, w.books, flow, rec, am.now);
    ReachableInv(env, rec.spec, r);
    AdvancedAfterDependencies(env, rec.spec, Initialized(rec.spec, rec.stored, am.now), w.books.q.results,
                              |w.books.q.stream|, am, i);
    PersistedDependencies(rec.spec, status.steps, i);
  }

  /**
   * In every history of the cluster, a step that leaves Pending from one stored status to the next has its
   * dependencies done in that next one.
   */
  lemma StoredHappensBefore(env: Env, maxRetries: int, hs: seq<Happening>, w: World, h: Happening, flow: nat, i: nat)
    requires IsInt64(maxRetries) && Evolves(env, maxRetries, hs, w) && Formed(w) && CanHappen(env, w, h)
    requires flow < |w.flows| && i < |w.flows[flow].spec.steps| && StillPending(w.flows[flow], i)
    requires HasLeft(Then(env, maxRetries, w, h).flows[flow], i)
    ensures
      var rec := Then(env, maxRetries, w, h).flows[flow];
      |rec.stored.steps| == |rec.spec.steps| && DependenciesDone(rec.spec, rec.stored.steps, i)
  {
    AlwaysWhole(env, maxRetries, hs, w);
    assert h.Visit? && h.flow == flow;
    VisitAfterDependencies(env, maxRetries, w, flow, h.am, i);
  }
}
