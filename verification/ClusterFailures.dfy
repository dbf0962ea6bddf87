/** Which flows fail in the cluster: a template error fails the step, where the local driver asks an empty prompt. */
module ClusterFailures {
  import opened Wrappers
  import opened FlowTypes
  import opened Templates
  import opened Dag
  import opened Engine
  import opened Passes
  import opened Meaning
  import opened Persistence
  import opened Decimal
  import opened TaskQueue
  import opened LocalRun
  import opened LocalTheory
  import opened LocalOutcome
  import opened Reconciler
  import opened Cluster
  import opened ClusterTheory
  import opened ClusterResults
  import RT = ReconcilerTheory
  import RP = ReconcilerProgress

  /** The step is wanted, but on the outcomes of its dependencies some input of it does not resolve. */
  ghost predicate Unresolved(env: Env, spec: FlowSpec, f: string -> string, rank: seq<nat>, i: nat)
    requires |rank| == |spec.steps|
  {
    && i < |rank| && Wanted(env, spec.steps[i], OutcomeData(env, spec, f, rank, rank[i]))
    && !InputsResolve(env, spec.steps[i], OutcomeData(env, spec, f, rank, rank[i]))
  }

  /** The record failed for an input, and did not run in spite of one. */
  ghost predicate Justified(env: Env, spec: FlowSpec, f: string -> string, rank: seq<nat>, i: nat, st: StepStatus)
    requires |rank| == |spec.steps|
  {
    && (st.phase == Failed ==> Unresolved(env, spec, f, rank, i))
    && (st.phase == Running || st.phase == Succeeded ==> !Unresolved(env, spec, f, rank, i))
  }

  ghost predicate AllJustified(env: Env, spec: FlowSpec, f: string -> string, rank: seq<nat>, steps: seq<StepStatus>)
    requires |rank| == |spec.steps|
  {
    forall i: nat :: i < |steps| ==> Justified(env, spec, f, rank, i, steps[i])
  }

  // ------------------------------------------------------------ one reconcile

  /** The state of the engine in which a pass comes to step i. */
  lemma PassReaches(env: Env, spec: FlowSpec, r: Run, results: seq<Result>, base: nat, am: Ambient, i: nat)
    returns (r': Run)
    requires UniqueNames(spec.steps) && Reachable(env, spec, r) && Shaped(spec, r) && i < |r.steps|
    requires RT.UniqueIDs(results) && RT.AllFit(env, r, results) && Shuffles(am.shuffle)
    ensures Reachable(env, spec, r')
    ensures
      var gathered := Gathered(env, spec, r.steps, results, am.now);
      var data := Snapshot(env, spec, gathered);
      && r'.data == data && r'.current && |r'.steps| == |spec.steps|
      && r'.steps == SubmitPass(env, spec, AfterLoops(env, spec, gathered), data, am, base, i).steps
      && Settled(env, spec, r'.steps, data)
  {
    ReachableInv(env, spec, r);
    var a, ra := RT.GatherMoves(env, spec, r, results, am.now);
    ReachableThen(env, spec, r, a, ra);
    var b, rb := RT.SubmitMoves(env, spec, ra, am, base, i);
    ReachableThen(env, spec, ra, b, rb);
    r' := rb;
  }

  /** What a pass decides about a step is what the meaning of the flow says. */
  lemma DecidedByMeaning(env: Env, spec: FlowSpec, f: string -> string, rank: seq<nat>, r: Run, i: nat)
    requires WellBehaved(env, spec, rank) && Consistent(env, f, spec)
    requires Reachable(env, spec, r) && |r.steps| == |spec.steps| && i < |r.steps| && r.current
    requires Settled(env, spec, r.steps, r.data) && Decide(env, spec, r.steps, r.data, i) != Leave
    ensures Decide(env, spec, r.steps, r.data, i) == RejectIt ==> Unresolved(env, spec, f, rank, i)
    ensures Decide(env, spec, r.steps, r.data, i) == LaunchIt ==> !Unresolved(env, spec, f, rank, i)
  {
    ReachableInv(env, spec, r);
    ReachableReleased(env, spec, r);
    ReachableMeans(env, spec, f, rank, r);
    SnapshotIsOutcome(env, spec, f, rank, r, i);
    SameInputs(env, Adjacency(spec.steps), spec.steps[i], r.data, OutcomeData(env, spec, f, rank, rank[i]));
  }

  lemma VerbJustified(env: Env, spec: FlowSpec, f: string -> string, rank: seq<nat>, s: Sub, verb: Verb, prompt: string,
          am: Ambient, base: nat, i: nat)
    requires |rank| == |spec.steps| == |s.steps| && i < |s.steps| && Justified(env, spec, f, rank, i, s.steps[i])
    requires verb == RejectIt ==> Unresolved(env, spec, f, rank, i)
    requires verb == LaunchIt ==> !Unresolved(env, spec, f, rank, i)
    ensures Justified(env, spec, f, rank, i, SubmitVerb(s, verb, prompt, am, base, i).steps[i])
  {
  }

  /** When a pass comes to step k, it does with it what the meaning of the flow says. */
  ghost predicate DecidesRightly(env: Env, spec: FlowSpec, f: string -> string, rank: seq<nat>, steps: seq<StepStatus>,
          data: Data, am: Ambient, base: nat, k: nat)
    requires |rank| == |spec.steps| == |steps| && k < |steps|
  {
    var verb := Decide(env, spec, SubmitPass(env, spec, steps, data, am, base, k).steps, data, k);
    && (verb == RejectIt ==> Unresolved(env, spec, f, rank, k))
    && (verb == LaunchIt ==> !Unresolved(env, spec, f, rank, k))
  }

  lemma JustifiedNow(env: Env, spec: FlowSpec, f: string -> string, rank: seq<nat>, steps: seq<StepStatus>, data: Data,
          am: Ambient, base: nat, i: nat)
    requires |rank| == |spec.steps| == |steps| && i < |steps| && Justified(env, spec, f, rank, i, steps[i])
    requires DecidesRightly(env, spec, f, rank, steps, data, am, base, i)
    ensures Justified(env, spec, f, rank, i, SubmitPass(env, spec, steps, data, am, base, i + 1).steps[i])
  {
    var before := SubmitPass(env, spec, steps, data, am, base, i);
    RP.SubmitShape(env, spec, steps, data, am, base, i, i);
    VerbJustified(env, spec, f, rank, before, Decide(env, spec, before.steps, data, i),
                  PromptOf(env, spec.steps[i], data, am.shuffle), am, base, i);
  }

  lemma {:induction false} StaysJustified(env: Env, spec: FlowSpec, f: string -> string, rank: seq<nat>,
          steps: seq<StepStatus>, data: Data, am: Ambient, base: nat, k: nat, i: nat)
    requires |rank| == |spec.steps| == |steps| && i < k <= |steps|
    requires Justified(env, spec, f, rank, i, SubmitPass(env, spec, steps, data, am, base, i + 1).steps[i])
    ensures Justified(env, spec, f, rank, i, SubmitPass(env, spec, steps, data, am, base, k).steps[i])
    decreases k
  {
    if i + 1 < k {
      StaysJustified(env, spec, f, rank, steps, data, am, base, k - 1, i);
      RP.SubmitNextKeeps(env, spec, steps, data, am, base, k - 1, i);
    }
  }

  lemma PassJustified(env: Env, spec: FlowSpec, f: string -> string, rank: seq<nat>, steps: seq<StepStatus>, data: Data,
          am: Ambient, base: nat, i: nat)
    requires |rank| == |spec.steps| == |steps| && i < |steps| && Justified(env, spec, f, rank, i, steps[i])
    requires DecidesRightly(env, spec, f, rank, steps, data, am, base, i)
    ensures Justified(env, spec, f, rank, i, SubmitPass(env, spec, steps, data, am, base, |steps|).steps[i])
  {
    JustifiedNow(env, spec, f, rank, steps, data, am, base, i);
    StaysJustified(env, spec, f, rank, steps, data, am, base, |steps|, i);
  }

  lemma {:induction false} ScanKeepsPhase(st: StepStatus, id: nat, results: seq<Result>, now: int)
    requires st.phase == Running
    ensures var phase := TakeAll(st, id, results, now).phase; phase == Running || phase == Succeeded
    decreases |results|
  {
    if results != [] {
      ScanKeepsPhase(st, id, results[..|results| - 1], now);
    }
  }

  lemma GatheredJustified(env: Env, spec: FlowSpec, f: string -> string, rank: seq<nat>, i: nat, st: StepStatus,
          results: seq<Result>, now: int, data: Data)
    requires |rank| == |spec.steps| && i < |rank| && Justified(env, spec, f, rank, i, st)
    ensures
      Justified(env, spec, f, rank, i,
                LoopOne(env, spec.steps[i], Parsed(env, spec.steps[i], Collected(st, results, now)), data))
  {
    if IsWaiting(st) {
      ScanKeepsPhase(st, st.taskID.value, results, now);
    }
  }

  lemma AdvancedJustified(env: Env, spec: FlowSpec, f: string -> string, rank: seq<nat>, st: Status,
          results: seq<Result>, base: nat, am: Ambient, r: Run)
    requires WellBehaved(env, spec, rank) && Consistent(env, f, spec) && |rank| == |spec.steps| == |st.steps|
    requires Reachable(env, spec, r) && Shaped(spec, r) && r.steps == st.steps && Shuffles(am.shuffle)
    requires RT.UniqueIDs(results) && RT.AllFit(env, r, results) && AllJustified(env, spec, f, rank, st.steps)
    ensures AllJustified(env, spec, f, rank, Advanced(env, spec, st, results, base, am).status.steps)
  {
    if !(AnyWaiting(st.steps) && !am.readable) {
      AdvancedParts(env, spec, st, results, base, am);
      var gathered := Gathered(env, spec, st.steps, results, am.now);
      var data, looped := Snapshot(env, spec, gathered), AfterLoops(env, spec, gathered);
      forall i: nat | i < |st.steps|
        ensures Justified(env, spec, f, rank, i, Sending(env, spec, st.steps, results, base, am).steps[i])
      {
        assert Justified(env, spec, f, rank, i, st.steps[i]);
        GatheredJustified(env, spec, f, rank, i, st.steps[i], results, am.now, data);
        var mid := PassReaches(env, spec, r, results, base, am, i);
        if Decide(env, spec, mid.steps, data, i) != Leave {
          DecidedByMeaning(env, spec, f, rank, mid, i);
        }
        PassJustified(env, spec, f, rank, looped, data, am, base, i);
      }
    }
  }

  // --------------------------------------------------------- whole histories

  lemma PersistedJustified(env: Env, spec: FlowSpec, f: string -> string, rank: seq<nat>, steps: seq<StepStatus>)
    requires |rank| == |spec.steps| && AllJustified(env, spec, f, rank, steps)
    ensures AllJustified(env, spec, f, rank, PersistedSteps(steps))
  {
    forall i: nat | i < |steps|
      ensures Justified(env, spec, f, rank, i, PersistedStep(steps[i]))
    {
      assert Justified(env, spec, f, rank, i, steps[i]);
    }
  }

  lemma VisitJustified(env: Env, maxRetries: int, w: World, flow: nat, am: Ambient, f: string -> string, rank: seq<nat>)
    requires Whole(env, maxRetries, w) && flow < |w.flows| && Shuffles(am.shuffle)
    requires WellBehaved(env, w.flows[flow].spec, rank) && Consistent(env, f, w.flows[flow].spec)
    requires AllJustified(env, w.flows[flow].spec, f, rank, w.flows[flow].stored.steps)
    ensures AllJustified(env, w.flows[flow].spec, f, rank, PersistedSteps(Visited(env, w, flow, am).status.steps))
  {
    var rec, status := w.flows[flow], Visited(env, w, flow, am).status;
    assert Sound(env, w.books, flow, rec);
    if Runnable(rec.spec, rec.stored, am) {
      var r, seen := InitializedSound(env, w.books, flow, rec, am.now);
      ReachableInv(env, rec.spec, r);
      ResultsUnique(w.books, maxRetries);
      ResultsFit(env, w.books, flow, r);
      AdvancedJustified(env, rec.spec, f, rank, Initialized(rec.spec, rec.stored, am.now), w.books.q.results,
                        |w.books.q.stream|, am, r);
    }
    PersistedJustified(env, rec.spec, f, rank, status.steps);
  }

  lemma HappeningJustified(env: Env, maxRetries: int, w: World, h: Happening, flow: nat, f: string -> string,
          rank: seq<nat>)
    requires Whole(env, maxRetries, w) && CanHappen(env, w, h) && flow < |Then(env, maxRetries, w, h).flows|
    requires
      var spec := Then(env, maxRetries, w, h).flows[flow].spec;
      WellBehaved(env, spec, rank) && Consistent(env, f, spec)
    requires
      flow < |w.flows| ==>
        && w.flows[flow].spec == Then(env, maxRetries, w, h).flows[flow].spec
        && AllJustified(env, w.flows[flow].spec, f, rank, w.flows[flow].stored.steps)
    ensures
      var rec := Then(env, maxRetries, w, h).flows[flow];
      AllJustified(env, rec.spec, f, rank, rec.stored.steps)
  {
    if h.Visit? && h.flow == flow {
      VisitJustified(env, maxRetries, w, flow, h.am, f, rank);
    }
  }

  lemma {:induction false} AlwaysJustified(env: Env, maxRetries: int, hs: seq<Happening>, w: World, flow: nat,
          f: string -> string, rank: seq<nat>)
    requires IsInt64(maxRetries) && Evolves(env, maxRetries, hs, w) && flow < |w.flows|
    requires WellBehaved(env, w.flows[flow].spec, rank) && Consistent(env, f, w.flows[flow].spec)
    ensures AllJustified(env, w.flows[flow].spec, f, rank, w.flows[flow].stored.steps)
    decreases |hs|
  {
    if hs != [] {
      var v := BeforeLast(env, maxRetries, hs, w);
      if flow < |v.flows| {
        AlwaysJustified(env, maxRetries, hs[..|hs| - 1], v, flow, f, rank);
      }
      HappeningJustified(env, maxRetries, v, hs[|hs| - 1], flow, f, rank);
    }
  }

  /**
   * In every history of the cluster, a decided flow without deadline and token limit has failed exactly if some step
   * of it is wanted although, on the outcomes of its dependencies, an input of it does not resolve.
   */
  lemma FailsIffUnresolved(env: Env, maxRetries: int, hs: seq<Happening>, w: World, flow: nat, f: string -> string,
          rank: seq<nat>)
    requires IsInt64(maxRetries) && Evolves(env, maxRetries, hs, w) && flow < |w.flows|
    requires WellBehaved(env, w.flows[flow].spec, rank) && Consistent(env, f, w.flows[flow].spec)
    requires w.flows[flow].spec.timeoutSeconds <= 0 && w.flows[flow].spec.maxTokens <= 0
    requires IsTerminal(w.flows[flow].stored.phase)
    ensures
      w.flows[flow].stored.phase == FlowFailed <==>
      exists i: nat :: Unresolved(env, w.flows[flow].spec, f, rank, i)
  {
    var spec, st := w.flows[flow].spec, w.flows[flow].stored;
    VerdictsAreRight(env, maxRetries, hs, w, flow);
    AlwaysJustified(env, maxRetries, hs, w, flow, f, rank);
    AlwaysWhole(env, maxRetries, hs, w);
    if st.phase == FlowFailed {
      var i: nat :| i < |st.steps| && st.steps[i].phase == Failed;
      assert Justified(env, spec, f, rank, i, st.steps[i]);
    } else if i: nat :| Unresolved(env, spec, f, rank, i) {
      ClusterMeans(env, maxRetries, hs, w, flow, f, rank, i);
    }
  }

  // -------------------------------------------------- the drivers may diverge

  /** A flow of one step whose only input does not resolve. */
  const ERRING := FlowSpec([Step("s", "agent", map["x" := "{{ .nothing }}"], [], "", "", None)], map[], "", 0, 0)

  const ERRING_ENV := Env((_, _) => None, _ => false, (_, answer) => answer == "done")

  ghost const PLACID_HOST := Host((_, _, _) => Answer("done", 0, 0), _ => 0, _ => (_, keys) => SomeOrder(keys))

  ghost const PLACID := Ambient(true, true, true, true, 1, 0, (_, keys) => SomeOrder(keys))

  lemma ErringIsValid()
    ensures UniqueNames(ERRING.steps) && ValidGraph(ERRING.steps)
  {
    AdjacencyAt(ERRING.steps, 0);
    assert Topological(Adjacency(ERRING.steps), ["s"]);
    TopologicalImpliesAcyclic(Adjacency(ERRING.steps), ["s"]);
  }

  lemma ErringIsRejected(data: Data)
    ensures Decide(ERRING_ENV, ERRING, BlankSteps(ERRING), data, 0) == RejectIt
  {
    assert "x" in ERRING.steps[0].inputs;
    assert ERRING_ENV.resolve("{{ .nothing }}", data) == None;
  }

  lemma ErringSends()
    ensures
      var s := Sending(ERRING_ENV, ERRING, BlankSteps(ERRING), [], 0, PLACID);
      s.ok && |s.steps| == 1 && s.steps[0].phase == Failed && s.sent == []
  {
    var blank := BlankSteps(ERRING);
    assert CollectAll(blank, [], 0) == blank;
    assert Gathered(ERRING_ENV, ERRING, blank, [], 0) == blank;
    var data := Snapshot(ERRING_ENV, ERRING, blank);
    assert LoopAll(ERRING_ENV, ERRING, blank, data) == blank;
    ErringIsRejected(data);
    assert SubmitPass(ERRING_ENV, ERRING, blank, data, PLACID, 0, 0) == Sub(blank, [], true);
  }

  lemma ErringReconciled() returns (p: Pass)
    ensures p == Reconciled(ERRING_ENV, ERRING, FRESH_STATUS, [], 0, PLACID)
    ensures p.write && p.sent == [] && p.status.phase == FlowFailed
  {
    p := Reconciled(ERRING_ENV, ERRING, FRESH_STATUS, [], 0, PLACID);
    ErringIsValid();
    ErringSends();
    var st := Initialized(ERRING, FRESH_STATUS, 0);
    var s := Sending(ERRING_ENV, ERRING, st.steps, [], 0, PLACID);
    VerdictFails(ERRING_ENV, ERRING, st.(steps := s.steps),
                 Snapshot(ERRING_ENV, ERRING, Gathered(ERRING_ENV, ERRING, st.steps, [], 0)), 0);
  }

  lemma ErringFails(maxRetries: int) returns (hs: seq<Happening>, w: World)
    requires IsInt64(maxRetries)
    ensures Evolves(ERRING_ENV, maxRetries, hs, w) && |w.flows| == 1 && w.flows[0].spec == ERRING
    ensures w.flows[0].stored.phase == FlowFailed
  {
    ErringIsValid();
    FreshPersists(FRESH_STATUS);
    var v := Then(ERRING_ENV, maxRetries, EMPTY_WORLD, Create(ERRING));
    UnfoldsSnoc(ERRING_ENV, maxRetries, EMPTY_WORLD, [], EMPTY_WORLD, Create(ERRING));
    var p := ErringReconciled();
    var visit := Visit(0, PLACID, false);
    UnfoldsSnoc(ERRING_ENV, maxRetries, EMPTY_WORLD, [] + [Create(ERRING)], v, visit);
    hs, w := [] + [Create(ERRING)] + [visit], Then(ERRING_ENV, maxRetries, v, visit);
  }

  /**
   * Of a flow with a template error the drivers make different things, with the same deterministic agents: the
   * operator fails the step, the local driver asks its agent an empty prompt and the flow succeeds.
   */
  lemma TemplateErrorsDiverge(maxRetries: int, now: int) returns (hs: seq<Happening>, w: World)
    requires IsInt64(maxRetries)
    ensures Evolves(ERRING_ENV, maxRetries, hs, w) && |w.flows| == 1 && w.flows[0].spec == ERRING
    ensures ValidGraph(ERRING.steps) && Consistent(ERRING_ENV, _ => "done", ERRING) && Honest(ERRING_ENV, PLACID_HOST)
    ensures w.flows[0].stored.phase == FlowFailed
    ensures RunAll(ERRING_ENV, PLACID_HOST, ERRING, now).phase == FlowSucceeded
  {
    ErringIsValid();
    hs, w := ErringFails(maxRetries);
    UnlimitedRunsSucceed(ERRING_ENV, PLACID_HOST, ERRING, now);
  }
}
