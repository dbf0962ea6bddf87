/** What the invariants of the cluster mean: provenance, finality, and agreement with the local driver. */
module ClusterResults {
  import opened Wrappers
  import opened FlowTypes
  import opened Templates
  import opened Dag
  import opened Engine
  import opened History
  import opened Passes
  import opened Meaning
  import opened Effects
  import opened Agreement
  import opened Decimal
  import opened TaskQueue
  import opened Ledger
  import opened Reconciler
  import opened Cluster
  import opened ClusterTheory
  import opened LocalRun
  import opened LocalTheory
  import opened LocalOutcome
  import opened Persistence
  import RD = ReconcilerDriver
  import RT = ReconcilerTheory

  /** A written status that has left Unset has a run of the engine behind it. */
  lemma WitnessOf(env: Env, maxRetries: int, w: World, flow: nat) returns (r: Run, seen: seq<StepStatus>)
    requires Whole(env, maxRetries, w) && flow < |w.flows| && w.flows[flow].stored.phase != Unset
    ensures Witness(env, w.books, flow, w.flows[flow], r, seen)
  {
    assert Sound(env, w.books, flow, w.flows[flow]);
    r, seen :| Witness(env, w.books, flow, w.flows[flow], r, seen);
  }

  /**
   * Provenance: the output of a succeeded step is the one result of a task that was submitted for this step of this
   * flow in its present iteration, and an agent's answer to that task's prompt.
   */
  lemma OutputWasAnswered(env: Env, maxRetries: int, hs: seq<Happening>, w: World, flow: nat, i: nat)
    returns (id: nat, k: nat)
    requires IsInt64(maxRetries) && Evolves(env, maxRetries, hs, w)
    requires flow < |w.flows| && i < |w.flows[flow].stored.steps| && w.flows[flow].stored.steps[i].phase == Succeeded
    ensures id < |w.books.q.stream| && id < |w.books.owner| && k < |w.books.q.results|
    ensures
      var st := w.flows[flow].stored.steps[i];
      && st.taskID == Some(id) && w.books.owner[id] == ByStep(flow, i, st.iterations)
      && w.books.q.results[k].taskID == id && w.books.q.results[k].result == st.output
      && (forall m :: 0 <= m < |w.books.q.results| && w.books.q.results[m].taskID == id ==> m == k)
      && env.answers(PromptAt(w.books, id), st.output)
  {
    AlwaysWhole(env, maxRetries, hs, w);
    assert Sound(env, w.books, flow, w.flows[flow]);
    var r, seen := WitnessOf(env, maxRetries, w, flow);
    assert Vouched(w.books, flow, i, w.flows[flow].stored.steps[i], r.asked[i]);
    id := w.flows[flow].stored.steps[i].taskID.value;
    k := w.books.fate[id].result;
    assert Truthful(env, w.books, k);
    forall m | 0 <= m < |w.books.q.results| && w.books.q.results[m].taskID == id
      ensures m == k
    {
      OneResult(w.books, maxRetries, m, k);
    }
  }

  /** No two steps, of the same flow or of two, ever hold the same task. */
  lemma TasksDistinct(env: Env, maxRetries: int, hs: seq<Happening>, w: World, f: nat, i: nat, g: nat, j: nat)
    requires IsInt64(maxRetries) && Evolves(env, maxRetries, hs, w)
    requires f < |w.flows| && i < |w.flows[f].stored.steps| && g < |w.flows| && j < |w.flows[g].stored.steps|
    requires
      var s, t := w.flows[f].stored.steps[i], w.flows[g].stored.steps[j];
      (s.phase == Running || s.phase == Succeeded) && (t.phase == Running || t.phase == Succeeded)
          && s.taskID == t.taskID
    ensures f == g && i == j
  {
    AlwaysWhole(env, maxRetries, hs, w);
    assert Sound(env, w.books, f, w.flows[f]) && Sound(env, w.books, g, w.flows[g]);
    var r, seen := WitnessOf(env, maxRetries, w, f);
    var s, seen' := WitnessOf(env, maxRetries, w, g);
    assert Vouched(w.books, f, i, w.flows[f].stored.steps[i], r.asked[i]);
    assert Vouched(w.books, g, j, w.flows[g].stored.steps[j], s.asked[j]);
  }

  /** What collectResults relies on. */
  lemma CollectingIsSafe(env: Env, maxRetries: int, hs: seq<Happening>, w: World, f: nat)
    requires IsInt64(maxRetries) && Evolves(env, maxRetries, hs, w) && f < |w.flows|
    ensures RD.DistinctTasks(w.flows[f].stored.steps)
  {
    var steps := w.flows[f].stored.steps;
    forall i, j | 0 <= i < j < |steps| && IsWaiting(steps[i]) && IsWaiting(steps[j])
      ensures steps[i].taskID != steps[j].taskID
    {
      if steps[i].taskID == steps[j].taskID {
        TasksDistinct(env, maxRetries, hs, w, f, i, f, j);
      }
    }
  }

  // ---------------------------------------------------------------- finality

  /** The flow is the same, but for the condition that Reconcile may rewrite. */
  ghost predicate SameVerdict(a: FlowRec, b: FlowRec) {
    b.spec == a.spec && b.stored == a.stored.(ready := b.stored.ready)
  }

  lemma OneHappeningKeepsVerdict(env: Env, maxRetries: int, v: World, h: Happening, flow: nat)
    requires Formed(v) && CanHappen(env, v, h) && flow < |v.flows| && IsTerminal(v.flows[flow].stored.phase)
    ensures flow < |Then(env, maxRetries, v, h).flows|
      && SameVerdict(v.flows[flow], Then(env, maxRetries, v, h).flows[flow])
  {
    if h.Visit? && h.flow == flow {
      DecidedStays(env, v.flows[flow].spec, v.flows[flow].stored, v.books.q.results, |v.books.q.stream|, h.am);
    }
  }

  /**
   * Verdicts are final: whatever happens later, a decided flow keeps its phase, its steps, its output and its token
   * count.
   */
  lemma {:induction false} VerdictsAreFinal(env: Env, maxRetries: int, v: World, hs: seq<Happening>, w: World,
          flow: nat)
    requires Unfolds(env, maxRetries, v, hs, w)
    requires flow < |v.flows| && IsTerminal(v.flows[flow].stored.phase)
    ensures flow < |w.flows| && SameVerdict(v.flows[flow], w.flows[flow])
    decreases |hs|
  {
    if hs != [] {
      var u :| Unfolds(env, maxRetries, v, hs[..|hs| - 1], u) && Precedes(env, maxRetries, u, hs, w);
      VerdictsAreFinal(env, maxRetries, v, hs[..|hs| - 1], u, flow);
      OneHappeningKeepsVerdict(env, maxRetries, u, hs[|hs| - 1], flow);
    }
  }

  // --------------------------------------------------------------- agreement

  /**
   * A flow that succeeds in the cluster holds the meaning of every step, however its tasks were scheduled, retried or
   * resubmitted.
   */
  lemma ClusterMeans(env: Env, maxRetries: int, hs: seq<Happening>, w: World, flow: nat, f: string -> string,
          rank: seq<nat>, i: nat)
    requires IsInt64(maxRetries) && Evolves(env, maxRetries, hs, w) && flow < |w.flows|
    requires WellBehaved(env, w.flows[flow].spec, rank) && Consistent(env, f, w.flows[flow].spec)
    requires w.flows[flow].stored.phase == FlowSucceeded && i < |w.flows[flow].spec.steps|
    ensures |w.flows[flow].stored.steps| == |w.flows[flow].spec.steps|
    ensures
      var st := w.flows[flow].stored.steps[i];
      match Outcome(env, w.flows[flow].spec, f, rank, i)
      case None => st.phase == Skipped && st.output == ""
      case Some(answer) => st.phase == Succeeded && st.output == answer
  {
    AlwaysWhole(env, maxRetries, hs, w);
    var r, seen := WitnessOf(env, maxRetries, w, flow);
    SucceededMeans(env, w.flows[flow].spec, f, rank, w.flows[flow].stored, r, seen, i);
  }

  /**
   * The two drivers agree: a flow that succeeds in the cluster and succeeds locally has the same steps skipped, the
   * same outputs, and the same result.
   */
  lemma DriversAgree(env: Env, maxRetries: int, hs: seq<Happening>, w: World, flow: nat, host: Host, now: int,
          f: string -> string)
    requires IsInt64(maxRetries) && Evolves(env, maxRetries, hs, w) && flow < |w.flows|
    requires ValidGraph(w.flows[flow].spec.steps)
    requires ReadsDependencies(env, w.flows[flow].spec) && OwnLoops(env, w.flows[flow].spec)
      && Consistent(env, f, w.flows[flow].spec)
    requires w.flows[flow].stored.phase == FlowSucceeded
    requires Honest(env, host) && RunAll(env, host, w.flows[flow].spec, now).phase == FlowSucceeded
    ensures
      var a, b := w.flows[flow].stored, RunAll(env, host, w.flows[flow].spec, now);
      && a.output == b.output && |a.steps| == |b.steps|
      && forall i :: 0 <= i < |a.steps| ==>
          && a.steps[i].phase == b.steps[i].phase
          && a.steps[i].output == b.steps[i].output
  {
    var spec := w.flows[flow].spec;
    AlwaysWhole(env, maxRetries, hs, w);
    assert Sound(env, w.books, flow, w.flows[flow]);
    var r, seen := WitnessOf(env, maxRetries, w, flow);
    InitialBacked(env, spec, now);
    var s, seen' := RunBacked(env, host, spec, Initialized(spec, FRESH_STATUS, now), 0, Initial(spec), []);
    SucceededAgree(env, spec, f, w.flows[flow].stored, r, seen, RunAll(env, host, spec, now), s, seen');
  }

  /**
   * Success in the cluster carries over: without timeout and token limit, with agents that always answer and no
   * conditional step listed after a dependent of its own, the local run succeeds too, and with the same result.
   */
  lemma ClusterSuccessCarriesOver(env: Env, maxRetries: int, hs: seq<Happening>, w: World, flow: nat, host: Host,
          now: int, f: string -> string)
    requires IsInt64(maxRetries) && Evolves(env, maxRetries, hs, w) && flow < |w.flows|
    requires w.flows[flow].stored.phase == FlowSucceeded
    requires
      var spec := w.flows[flow].spec;
      && ValidGraph(spec.steps) && spec.timeoutSeconds <= 0 && spec.maxTokens <= 0
      && (forall p, d :: 0 <= p < d < |spec.steps| && DependsOn(spec, p, d) ==> spec.steps[d].cond == "")
      && ReadsDependencies(env, spec) && OwnLoops(env, spec) && Consistent(env, f, spec)
    requires Honest(env, host) && NeverFaults(host)
    ensures
      var a, b := w.flows[flow].stored, RunAll(env, host, w.flows[flow].spec, now);
      && b.phase == FlowSucceeded && a.output == b.output && |a.steps| == |b.steps|
      && forall i :: 0 <= i < |a.steps| ==>
          && a.steps[i].phase == b.steps[i].phase
          && a.steps[i].output == b.steps[i].output
  {
    AlwaysWhole(env, maxRetries, hs, w);
    assert Sound(env, w.books, flow, w.flows[flow]);
    UnlimitedRunsSucceed(env, host, w.flows[flow].spec, now);
    DriversAgree(env, maxRetries, hs, w, flow, host, now, f);
  }

  // ---------------------------------------------------------------- verdicts

  /**
   * What a written status shows of its verdict, its times being whole seconds. A flow that succeeded has every step
   * done, is within budget, and does not show a time past its deadline. One that failed shows a time that is not
   * before its deadline, or is over budget, or has a failed step; a time past the deadline always shows a failure.
   */
  ghost predicate ShowsVerdict(spec: FlowSpec, st: Status) {
    && (st.phase != Unset ==> st.startTime.Some?)
    && (st.ready == TimedOut ==> st.phase == FlowFailed)
    && (IsTerminal(st.phase) ==>
          && st.completionTime.Some?
          && var at := st.completionTime.value;
          var over := 0 < spec.maxTokens < Sum(TokenColumn(st.steps));
          && (st.phase == FlowSucceeded ==> !IsLate(spec, st, at) && !over && AllDone(st.steps))
          && (st.phase == FlowFailed ==> DeadlineReached(spec, st, at) || over || SomeFailed(st.steps))
          && (st.ready == TimedOut ==> DeadlineReached(spec, st, at))
          && (IsLate(spec, st, at) || over || SomeFailed(st.steps) ==> st.phase == FlowFailed))
  }

  /** The flow has not started, or is under way or decided and shows that it was judged rightly. */
  ghost predicate WellJudged(rec: FlowRec) {
    || (Untouched(rec.stored) && rec.stored.ready != TimedOut)
    || (&& |rec.stored.steps| == |rec.spec.steps| && ShowsVerdict(rec.spec, rec.stored)
        && (rec.stored.phase == FlowRunning || IsTerminal(rec.stored.phase)))
  }

  /** A flow judged rightly, as it is in memory; the condition names the deadline only if that has passed. */
  ghost predicate RightlyJudged(spec: FlowSpec, st: Status) {
    && Sentenced(spec, st)
    && (st.ready == TimedOut ==>
          st.phase == FlowFailed && st.completionTime.Some? && IsLate(spec, st, st.completionTime.value))
  }

  lemma AdvancedSentenced(env: Env, spec: FlowSpec, st: Status, results: seq<Result>, base: nat, am: Ambient)
    requires |st.steps| == |spec.steps| && st.phase == FlowRunning && RightlyJudged(spec, st)
    ensures RightlyJudged(spec, Advanced(env, spec, st, results, base, am).status)
  {
    var s := Sending(env, spec, st.steps, results, base, am);
    var data := Snapshot(env, spec, Gathered(env, spec, st.steps, results, am.now));
    var moved := st.(steps := s.steps);
    VerdictJudged(env, spec, moved, data, am.now);
    if !IsTerminal(Verdict(env, spec, moved, data, am.now).phase) {
      VerdictUndecided(env, spec, moved, data, am.now);
    }
  }

  lemma RecordsShow(steps: seq<StepStatus>)
    ensures TokenColumn(PersistedSteps(steps)) == TokenColumn(steps)
    ensures SomeFailed(PersistedSteps(steps)) <==> SomeFailed(steps)
    ensures AllDone(PersistedSteps(steps)) <==> AllDone(steps)
  {
    if i :| 0 <= i < |steps| && steps[i].phase == Failed {
      assert PersistedSteps(steps)[i].phase == Failed;
    }
    forall i | 0 <= i < |steps|
      ensures PersistedSteps(steps)[i].phase == steps[i].phase
    {
    }
  }

  /** What survives writing. */
  lemma JudgedShows(spec: FlowSpec, st: Status)
    requires RightlyJudged(spec, st)
    ensures ShowsVerdict(spec, Persisted(st))
  {
    RecordsShow(st.steps);
    if st.completionTime.Some? {
      DeadlinePersists(spec, st, st.completionTime.value);
    }
  }

  lemma ConditionPersists(st: Status, reason: Reason)
    requires Persisted(st) == st
    ensures Persisted(st.(ready := reason)) == st.(ready := reason)
  {
  }

  lemma RunnableWellJudged(env: Env, rec: FlowRec, results: seq<Result>, base: nat, am: Ambient)
    requires WellJudged(rec) && Runnable(rec.spec, rec.stored, am)
    ensures WellJudged(rec.(stored := Persisted(Reconciled(env, rec.spec, rec.stored, results, base, am).status)))
  {
    AdvancedSentenced(env, rec.spec, Initialized(rec.spec, rec.stored, am.now), results, base, am);
    JudgedShows(rec.spec, Reconciled(env, rec.spec, rec.stored, results, base, am).status);
  }

  lemma VisitWellJudged(env: Env, rec: FlowRec, results: seq<Result>, base: nat, am: Ambient)
    requires WellJudged(rec) && Persisted(rec.stored) == rec.stored
    ensures WellJudged(rec.(stored := Persisted(Reconciled(env, rec.spec, rec.stored, results, base, am).status)))
  {
    var status := Reconciled(env, rec.spec, rec.stored, results, base, am).status;
    if Runnable(rec.spec, rec.stored, am) {
      RunnableWellJudged(env, rec, results, base, am);
    } else {
      ConditionPersists(rec.stored, status.ready);
    }
  }

  lemma HappeningWellJudged(env: Env, maxRetries: int, w: World, h: Happening, flow: nat)
    requires Formed(w) && CanHappen(env, w, h) && flow < |Then(env, maxRetries, w, h).flows|
    requires flow < |w.flows| ==> WellJudged(w.flows[flow])
    ensures WellJudged(Then(env, maxRetries, w, h).flows[flow])
  {
    if h.Visit? && h.flow == flow {
      VisitWellJudged(env, w.flows[flow], w.books.q.results, |w.books.q.stream|, h.am);
    }
  }

  lemma {:induction false} AlwaysWellJudged(env: Env, maxRetries: int, hs: seq<Happening>, w: World, flow: nat)
    requires Evolves(env, maxRetries, hs, w) && flow < |w.flows|
    ensures WellJudged(w.flows[flow])
    decreases |hs|
  {
    if hs != [] {
      assert Unfolds(env, maxRetries, EMPTY_WORLD, hs, w);
      var v :| Unfolds(env, maxRetries, EMPTY_WORLD, hs[..|hs| - 1], v) && Precedes(env, maxRetries, v, hs, w);
      if flow < |v.flows| {
        AlwaysWellJudged(env, maxRetries, hs[..|hs| - 1], v, flow);
      }
      HappeningWellJudged(env, maxRetries, v, hs[|hs| - 1], flow);
    }
  }

  /**
   * In every history of the cluster a flow stored as succeeded has every step done, its tokens within the budget and
   * its verdict within the deadline; one stored as failed shows that it may have been late, or was over budget, or
   * had a failed step. The times of a verdict are stored in whole seconds, so within the second of the deadline they
   * do not tell; outside of it they do.
   */
  lemma VerdictsAreRight(env: Env, maxRetries: int, hs: seq<Happening>, w: World, flow: nat)
    requires Evolves(env, maxRetries, hs, w) && flow < |w.flows|
    ensures
      var spec, st := w.flows[flow].spec, w.flows[flow].stored;
      var over := 0 < spec.maxTokens < Sum(TokenColumn(st.steps));
      match st.phase
      case Unset => st.steps == [] && st.startTime.None? && st.completionTime.None?
      case FlowPending => false
      case FlowRunning => |st.steps| == |spec.steps| && st.startTime.Some? && st.ready != TimedOut
      case FlowSucceeded =>
        && |st.steps| == |spec.steps| && st.startTime.Some? && st.completionTime.Some? && !over
        && (forall i :: 0 <= i < |st.steps| ==> st.steps[i].phase == Succeeded || st.steps[i].phase == Skipped)
        && (0 < spec.timeoutSeconds ==>
              st.completionTime.value <= st.startTime.value + spec.timeoutSeconds * SECOND)
        && st.ready != TimedOut
      case FlowFailed =>
        && |st.steps| == |spec.steps| && st.startTime.Some? && st.completionTime.Some?
        && var late := && 0 < spec.timeoutSeconds
                       && st.completionTime.value >= st.startTime.value + spec.timeoutSeconds * SECOND;
        && (late || over || exists i :: 0 <= i < |st.steps| && st.steps[i].phase == Failed)
        && (st.ready == TimedOut ==> late)
  {
    AlwaysWellJudged(env, maxRetries, hs, w, flow);
  }

  // ------------------------------------------------------------------- loops

  /** If the flow succeeded, its loops were honoured. */
  ghost predicate LoopsKept(env: Env, rec: FlowRec) {
    rec.stored.phase == FlowSucceeded ==>
      |rec.stored.steps| == |rec.spec.steps| && LoopsHonoured(env, rec.spec, rec.stored.steps)
  }

  lemma PersistedLoops(env: Env, spec: FlowSpec, steps: seq<StepStatus>)
    requires |steps| == |spec.steps| && LoopsHonoured(env, spec, steps)
    ensures LoopsHonoured(env, spec, PersistedSteps(steps))
  {
    forall j: nat | j < |steps|
      ensures !StillAsks(env, spec, PersistedSteps(steps), j)
    {
      assert !StillAsks(env, spec, steps, j);
    }
  }

  lemma VisitKeepsLoops(env: Env, maxRetries: int, w: World, flow: nat, am: Ambient)
    requires Whole(env, maxRetries, w) && flow < |w.flows| && Shuffles(am.shuffle)
    requires OwnLoops(env, w.flows[flow].spec) && LoopsKept(env, w.flows[flow])
    ensures LoopsKept(env, w.flows[flow].(stored := Persisted(Visited(env, w, flow, am).status)))
  {
    var rec, status := w.flows[flow], Visited(env, w, flow, am).status;
    assert Sound(env, w.books, flow, rec);
    if status.phase == FlowSucceeded {
      if Runnable(rec.spec, rec.stored, am) {
        var r, seen := InitializedSound(env, w.books, flow, rec, am.now);
        ResultsUnique(w.books, maxRetries);
        ResultsFit(env, w.books, flow, r);
        RT.SucceedsHonoured(env, rec.spec, Initialized(rec.spec, rec.stored, am.now), w.books.q.results,
                            |w.books.q.stream|, am, r, seen);
      }
      PersistedLoops(env, rec.spec, status.steps);
    }
  }

  lemma HappeningKeepsLoops(env: Env, maxRetries: int, w: World, h: Happening, flow: nat)
    requires Whole(env, maxRetries, w) && CanHappen(env, w, h) && flow < |Then(env, maxRetries, w, h).flows|
    requires OwnLoops(env, Then(env, maxRetries, w, h).flows[flow].spec)
    requires flow < |w.flows| ==> LoopsKept(env, w.flows[flow])
    ensures LoopsKept(env, Then(env, maxRetries, w, h).flows[flow])
  {
    if h.Visit? && h.flow == flow {
      VisitKeepsLoops(env, maxRetries, w, flow, h.am);
    }
  }

  lemma {:induction false} LoopsStayKept(env: Env, maxRetries: int, hs: seq<Happening>, w: World, flow: nat)
    requires IsInt64(maxRetries) && Evolves(env, maxRetries, hs, w) && flow < |w.flows|
    requires OwnLoops(env, w.flows[flow].spec)
    ensures LoopsKept(env, w.flows[flow])
    decreases |hs|
  {
    if hs != [] {
      var v := BeforeLast(env, maxRetries, hs, w);
      if flow < |v.flows| {
        LoopsStayKept(env, maxRetries, hs[..|hs| - 1], v, flow);
      }
      HappeningKeepsLoops(env, maxRetries, v, hs[|hs| - 1], flow);
    }
  }

  /**
   * In every history of the cluster, every succeeded step of a flow stored as succeeded was repeated until its loop
   * condition did not hold, or as often as its loop admits: MaxIterations times, or ten if that is not positive.
   */
  lemma LoopsAreHonoured(env: Env, maxRetries: int, hs: seq<Happening>, w: World, flow: nat, j: nat)
    requires IsInt64(maxRetries) && Evolves(env, maxRetries, hs, w) && flow < |w.flows|
    requires OwnLoops(env, w.flows[flow].spec)
    requires w.flows[flow].stored.phase == FlowSucceeded && j < |w.flows[flow].spec.steps|
    ensures |w.flows[flow].stored.steps| == |w.flows[flow].spec.steps|
    ensures
      var spec, st := w.flows[flow].spec, w.flows[flow].stored.steps[j];
      st.phase == Succeeded && spec.steps[j].loop.Some? ==>
        var loop := spec.steps[j].loop.value;
        || st.iterations >= (if loop.maxIterations <= 0 then 10 else loop.maxIterations)
        || !Affirms(env, loop.condition, OwnData(env, spec, st))
  {
    LoopsStayKept(env, maxRetries, hs, w, flow);
    AlwaysWhole(env, maxRetries, hs, w);
    var r, seen := WitnessOf(env, maxRetries, w, flow);
    ReachableInv(env, w.flows[flow].spec, r);
    HonouredEnds(env, w.flows[flow].spec, w.flows[flow].stored.steps, j);
  }

  // ----------------------------------------------------------------- answers

  /**
   * In every history of the cluster, a stored step that succeeded and has a schema holds the document that its answer
   * carries, if it carries one.
   */
  lemma StoredAnswersAreRead(env: Env, maxRetries: int, hs: seq<Happening>, w: World, flow: nat, j: nat)
    requires IsInt64(maxRetries) && Evolves(env, maxRetries, hs, w) && flow < |w.flows|
    requires j < |w.flows[flow].stored.steps|
    ensures j < |w.flows[flow].spec.steps|
    ensures AnswerRead(env, w.flows[flow].spec.steps[j], w.flows[flow].stored.steps[j])
  {
    AlwaysWhole(env, maxRetries, hs, w);
    assert Sound(env, w.books, flow, w.flows[flow]);
    var r, seen := WitnessOf(env, maxRetries, w, flow);
    ReachableInv(env, w.flows[flow].spec, r);
    assert Clean(env, w.flows[flow].spec.steps[j], r.steps[j]);
    ParsedIsRead(env, w.flows[flow].spec.steps[j], r.steps[j]);
  }
}
