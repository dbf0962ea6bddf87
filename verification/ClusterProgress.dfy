/** How soon the operator decides a flow whose tasks are answered and whose writes arrive. */
module ClusterProgress {
  import opened FlowTypes
  import opened Templates
  import opened Dag
  import opened Engine
  import opened History
  import opened Passes
  import opened Persistence
  import opened Decimal
  import opened TaskQueue
  import opened LocalRun
  import opened Reconciler
  import opened Cluster
  import opened ClusterTheory
  import RP = ReconcilerProgress

  // ------------------------------------------------------------ one reconcile

  lemma {:induction false} ScanWeighs(step: Step, st: StepStatus, id: nat, results: seq<Result>, now: int)
    requires st.phase == Running
    ensures Weight(step, TakeAll(st, id, results, now)) <= Weight(step, st)
    ensures TakeAll(st, id, results, now).iterations == st.iterations
    decreases |results|
  {
    if results != [] {
      ScanWeighs(step, st, id, results[..|results| - 1], now);
    }
  }

  /** No record gets farther from its end when results are taken and loops evaluated, */
  lemma GatheredWeighs(env: Env, step: Step, st: StepStatus, results: seq<Result>, now: int, data: Data)
    ensures Weight(step, LoopOne(env, step, Parsed(env, step, Collected(st, results, now)), data)) <= Weight(step, st)
  {
    if IsWaiting(st) {
      ScanWeighs(step, st, st.taskID.value, results, now);
    }
  }

  /** nor when steps are released, and a released step gets nearer. */
  lemma MovedWeighs(step: Step, st: StepStatus, st': StepStatus)
    requires RP.Moved(st, st')
    ensures Weight(step, st') <= Weight(step, st)
    ensures st.phase == Pending && st'.phase != Pending ==> Weight(step, st') < Weight(step, st)
  {
  }

  lemma AdvancedWeighs(env: Env, spec: FlowSpec, st: Status, results: seq<Result>, base: nat, am: Ambient, i: nat)
    requires |st.steps| == |spec.steps| && i < |st.steps| && (am.readable || !AnyWaiting(st.steps))
    ensures
      var looped := AfterLoops(env, spec, Gathered(env, spec, st.steps, results, am.now));
      var after := Advanced(env, spec, st, results, base, am).status.steps;
      && Weight(spec.steps[i], after[i]) <= Weight(spec.steps[i], st.steps[i])
      && (looped[i].phase == Pending && after[i].phase != Pending ==>
            Weight(spec.steps[i], after[i]) < Weight(spec.steps[i], st.steps[i]))
  {
    AdvancedParts(env, spec, st, results, base, am);
    var gathered := Gathered(env, spec, st.steps, results, am.now);
    var data, looped := Snapshot(env, spec, gathered), AfterLoops(env, spec, gathered);
    GatheredWeighs(env, spec.steps[i], st.steps[i], results, am.now, data);
    RP.SubmitShape(env, spec, looped, data, am, base, |st.steps|, i);
    MovedWeighs(spec.steps[i], looped[i], Sending(env, spec, st.steps, results, base, am).steps[i]);
  }

  /** A reconcile never takes a flow farther from its end. */
  lemma AdvancedMeasures(env: Env, spec: FlowSpec, st: Status, results: seq<Result>, base: nat, am: Ambient)
    requires |st.steps| == |spec.steps|
    ensures Measure(spec, Advanced(env, spec, st, results, base, am).status.steps) <= Measure(spec, st.steps)
  {
    if am.readable || !AnyWaiting(st.steps) {
      var after := Advanced(env, spec, st, results, base, am).status.steps;
      forall i | 0 <= i < |st.steps|
        ensures Weights(spec, after)[i] <= Weights(spec, st.steps)[i]
      {
        AdvancedWeighs(env, spec, st, results, base, am, i);
      }
      SumMonotone(Weights(spec, after), Weights(spec, st.steps));
    }
  }

  /** The results can be read, every waiting step has one, and the submissions get through. */
  ghost predicate NothingHolds(env: Env, spec: FlowSpec, st: Status, results: seq<Result>, base: nat, am: Ambient)
    requires |st.steps| == |spec.steps|
  {
    && am.readable && Sending(env, spec, st.steps, results, base, am).ok
    && forall i :: 0 <= i < |st.steps| ==>
        AfterLoops(env, spec, Gathered(env, spec, st.steps, results, am.now))[i].phase != Running
  }

  /** Such a reconcile decides the flow or brings it nearer to its end. */
  lemma AdvancedProgresses(env: Env, spec: FlowSpec, st: Status, results: seq<Result>, base: nat, am: Ambient)
    requires UniqueNames(spec.steps) && ValidGraph(spec.steps) && Aligned(spec, st.steps) && st.phase == FlowRunning
    requires NothingHolds(env, spec, st, results, base, am)
    ensures
      var status := Advanced(env, spec, st, results, base, am).status;
      IsTerminal(status.phase) || Measure(spec, status.steps) < Measure(spec, st.steps)
  {
    var after := Advanced(env, spec, st, results, base, am).status.steps;
    var p := RP.DecidesOrReleases(env, spec, st, results, base, am);
    if !IsTerminal(Advanced(env, spec, st, results, base, am).status.phase) {
      forall i | 0 <= i < |st.steps|
        ensures Weights(spec, after)[i] <= Weights(spec, st.steps)[i]
      {
        AdvancedWeighs(env, spec, st, results, base, am, i);
      }
      AdvancedWeighs(env, spec, st, results, base, am, p);
      SumStrict(Weights(spec, after), Weights(spec, st.steps), p);
    }
  }

  // ------------------------------------------------------------ whole histories

  /** How far a flow is from its end. */
  function Distance(rec: FlowRec): int
    requires rec.stored.phase != Unset ==> |rec.stored.steps| == |rec.spec.steps|
  {
    if rec.stored.phase == Unset then Budget(rec.spec) else Measure(rec.spec, rec.stored.steps)
  }

  lemma PersistedMeasure(spec: FlowSpec, steps: seq<StepStatus>)
    requires |steps| == |spec.steps|
    ensures Measure(spec, PersistedSteps(steps)) == Measure(spec, steps)
  {
    assert Weights(spec, PersistedSteps(steps)) == Weights(spec, steps);
  }

  /** A visit of an undecided flow whose answers are in, whose submissions get through and whose write arrives. */
  ghost predicate GoodVisit(env: Env, w: World, h: Happening, flow: nat) {
    && Formed(w) && flow < |w.flows| && h.Visit? && h.flow == flow && !h.lost
    && Runnable(w.flows[flow].spec, w.flows[flow].stored, h.am)
    && NothingHolds(env, w.flows[flow].spec, Initialized(w.flows[flow].spec, w.flows[flow].stored, h.am.now),
                    w.books.q.results, |w.books.q.stream|, h.am)
  }

  lemma InitializedDistance(rec: FlowRec, now: int)
    requires rec.stored.phase != Unset ==> |rec.stored.steps| == |rec.spec.steps|
    ensures Measure(rec.spec, Initialized(rec.spec, rec.stored, now).steps) == Distance(rec)
  {
    InitialMeasure(rec.spec);
  }

  /** The flow, written after a reconcile, is no farther from its end, and nearer or decided after a good one. */
  lemma RunnableDistance(env: Env, maxRetries: int, w: World, h: Happening, flow: nat)
    requires Whole(env, maxRetries, w) && CanHappen(env, w, h) && h.Visit? && h.flow == flow
    requires Runnable(w.flows[flow].spec, w.flows[flow].stored, h.am)
    ensures
      var rec, status := w.flows[flow], Visited(env, w, flow, h.am).status;
      && status.phase != Unset && |status.steps| == |rec.spec.steps|
      && Measure(rec.spec, status.steps) <= Distance(rec)
      && (GoodVisit(env, w, h, flow) ==> IsTerminal(status.phase) || Measure(rec.spec, status.steps) < Distance(rec))
  {
    var rec := w.flows[flow];
    assert Sound(env, w.books, flow, rec);
    var st := Initialized(rec.spec, rec.stored, h.am.now);
    var r, seen := InitializedSound(env, w.books, flow, rec, h.am.now);
    ReachableInv(env, rec.spec, r);
    InitializedDistance(rec, h.am.now);
    AdvancedMeasures(env, rec.spec, st, w.books.q.results, |w.books.q.stream|, h.am);
    AdvancedPhase(env, rec.spec, st, w.books.q.results, |w.books.q.stream|, h.am);
    if GoodVisit(env, w, h, flow) {
      AdvancedProgresses(env, rec.spec, st, w.books.q.results, |w.books.q.stream|, h.am);
    }
  }

  lemma VisitDistance(env: Env, maxRetries: int, w: World, h: Happening, flow: nat)
    requires Whole(env, maxRetries, w) && CanHappen(env, w, h) && h.Visit? && h.flow == flow
    ensures
      var rec := w.flows[flow].(stored := Persisted(Visited(env, w, flow, h.am).status));
      && (rec.stored.phase != Unset ==> |rec.stored.steps| == |rec.spec.steps|)
      && Distance(rec) <= Distance(w.flows[flow])
      && (GoodVisit(env, w, h, flow) ==> IsTerminal(rec.stored.phase) || Distance(rec) < Distance(w.flows[flow]))
  {
    var rec, status := w.flows[flow], Visited(env, w, flow, h.am).status;
    if Runnable(rec.spec, rec.stored, h.am) {
      RunnableDistance(env, maxRetries, w, h, flow);
      PersistedMeasure(rec.spec, status.steps);
    } else if rec.stored.phase != Unset {
      PersistedMeasure(rec.spec, status.steps);
    }
  }

  lemma HappeningDistance(env: Env, maxRetries: int, w: World, h: Happening, flow: nat)
    requires IsInt64(maxRetries) && Whole(env, maxRetries, w) && CanHappen(env, w, h) && flow < |w.flows|
    ensures
      var w' := Then(env, maxRetries, w, h);
      && Whole(env, maxRetries, w') && flow < |w'.flows| && w'.flows[flow].spec == w.flows[flow].spec
      && Distance(w'.flows[flow]) <= Distance(w.flows[flow])
      && (IsTerminal(w.flows[flow].stored.phase) ==> IsTerminal(w'.flows[flow].stored.phase))
      && (GoodVisit(env, w, h, flow) ==>
            IsTerminal(w'.flows[flow].stored.phase) || Distance(w'.flows[flow]) < Distance(w.flows[flow]))
  {
    KeepsWhole(env, maxRetries, w, h);
    if h.Visit? && h.flow == flow {
      VisitDistance(env, maxRetries, w, h, flow);
      if IsTerminal(w.flows[flow].stored.phase) {
        DecidedStays(env, w.flows[flow].spec, w.flows[flow].stored, w.books.q.results, |w.books.q.stream|, h.am);
      }
    }
  }

  /** The happening leads from the one world to the other. */
  ghost predicate Leads(env: Env, maxRetries: int, v: World, h: Happening, w: World) {
    Formed(v) && CanHappen(env, v, h) && w == Then(env, maxRetries, v, h)
  }

  /** The worlds that a history leads through. */
  ghost predicate Chronicle(env: Env, maxRetries: int, hs: seq<Happening>, ws: seq<World>) {
    && |ws| == |hs| + 1 && ws[0] == EMPTY_WORLD
    && forall k: nat :: k < |hs| ==> Leads(env, maxRetries, ws[k], hs[k], ws[k + 1])
  }

  /** How many good visits a flow has had. */
  ghost function GoodVisits(env: Env, hs: seq<Happening>, ws: seq<World>, flow: nat): nat
    requires |ws| == |hs| + 1
    decreases |hs|
  {
    if hs == [] then 0
    else
      var n := |hs| - 1;
      GoodVisits(env, hs[..n], ws[..n + 1], flow) + if GoodVisit(env, ws[n], hs[n], flow) then 1 else 0
  }

  lemma ChroniclePrefix(env: Env, maxRetries: int, hs: seq<Happening>, ws: seq<World>)
    requires Chronicle(env, maxRetries, hs, ws) && hs != []
    ensures
      var n := |hs| - 1;
      && Chronicle(env, maxRetries, hs[..n], ws[..n + 1]) && ws[..n + 1][n] == ws[n]
      && Leads(env, maxRetries, ws[n], hs[n], ws[n + 1])
  {
    var n := |hs| - 1;
    forall k: nat | k < n
      ensures Leads(env, maxRetries, ws[..n + 1][k], hs[..n][k], ws[..n + 1][k + 1])
    {
      assert Leads(env, maxRetries, ws[k], hs[k], ws[k + 1]);
    }
  }

  /** A flow that has had n good visits is decided, or n nearer to its end than at its beginning. */
  ghost predicate Shortened(rec: FlowRec, n: nat) {
    && (rec.stored.phase != Unset ==> |rec.stored.steps| == |rec.spec.steps|)
    && Distance(rec) >= 0 && Budget(rec.spec) >= 0 && n <= Budget(rec.spec) + 1
    && (IsTerminal(rec.stored.phase) || n + Distance(rec) <= Budget(rec.spec))
  }

  lemma VisitShortens(env: Env, maxRetries: int, w: World, h: Happening, flow: nat, n: nat)
    requires IsInt64(maxRetries) && Whole(env, maxRetries, w) && CanHappen(env, w, h)
    requires if flow < |w.flows| then Shortened(w.flows[flow], n) else n == 0
    ensures
      var w' := Then(env, maxRetries, w, h);
      && Whole(env, maxRetries, w')
      && (flow < |w'.flows| ==>
            Shortened(w'.flows[flow], n + if GoodVisit(env, w, h, flow) then 1 else 0))
  {
    KeepsWhole(env, maxRetries, w, h);
    var w' := Then(env, maxRetries, w, h);
    if flow < |w.flows| {
      HappeningDistance(env, maxRetries, w, h, flow);
    }
    if flow < |w'.flows| {
      DistanceNotNegative(env, maxRetries, w', flow);
    }
  }

  /** Good visits shorten the way. */
  lemma {:induction false} VisitsShorten(env: Env, maxRetries: int, hs: seq<Happening>, ws: seq<World>, flow: nat)
    requires IsInt64(maxRetries) && Chronicle(env, maxRetries, hs, ws)
    ensures Whole(env, maxRetries, ws[|hs|])
    ensures
      if flow < |ws[|hs|].flows| then Shortened(ws[|hs|].flows[flow], GoodVisits(env, hs, ws, flow))
      else GoodVisits(env, hs, ws, flow) == 0
    decreases |hs|
  {
    if hs != [] {
      var n := |hs| - 1;
      ChroniclePrefix(env, maxRetries, hs, ws);
      VisitsShorten(env, maxRetries, hs[..n], ws[..n + 1], flow);
      SpecsKept(env, maxRetries, ws[n], hs[n]);
      VisitShortens(env, maxRetries, ws[n], hs[n], flow, GoodVisits(env, hs[..n], ws[..n + 1], flow));
    }
  }

  lemma DistanceNotNegative(env: Env, maxRetries: int, w: World, flow: nat)
    requires Whole(env, maxRetries, w) && flow < |w.flows|
    ensures Distance(w.flows[flow]) >= 0 && Budget(w.flows[flow].spec) >= 0
  {
    var spec := w.flows[flow].spec;
    assert Sound(env, w.books, flow, w.flows[flow]);
    SumNonNegative(seq(|spec.steps|, i requires 0 <= i < |spec.steps| => 3 * spec.steps[i].Cap() + 2));
    if w.flows[flow].stored.phase != Unset {
      var r, seen :| Witness(env, w.books, flow, w.flows[flow], r, seen);
      ReachableInv(env, spec, r);
      MeasureNonNegative(env, spec, r.steps);
    }
  }

  /**
   * In every history of the cluster, a flow that has had more good visits than its specification allows transitions
   * is decided; so it never has more than one beyond that.
   */
  lemma DecidedInTime(env: Env, maxRetries: int, hs: seq<Happening>, ws: seq<World>, flow: nat)
    requires IsInt64(maxRetries) && Chronicle(env, maxRetries, hs, ws) && flow < |ws[|hs|].flows|
    ensures
      var rec := ws[|hs|].flows[flow];
      && (GoodVisits(env, hs, ws, flow) > Budget(rec.spec) ==> IsTerminal(rec.stored.phase))
      && GoodVisits(env, hs, ws, flow) <= Budget(rec.spec) + 1
  {
    VisitsShorten(env, maxRetries, hs, ws, flow);
  }

  lemma ChronicleSnoc(env: Env, maxRetries: int, hs: seq<Happening>, ws: seq<World>, h: Happening, w: World)
    requires Chronicle(env, maxRetries, hs, ws) && Leads(env, maxRetries, ws[|hs|], h, w)
    ensures Chronicle(env, maxRetries, hs + [h], ws + [w])
  {
    var hs', ws' := hs + [h], ws + [w];
    forall k: nat | k < |hs'|
      ensures Leads(env, maxRetries, ws'[k], hs'[k], ws'[k + 1])
    {
      if k < |hs| {
        assert Leads(env, maxRetries, ws[k], hs[k], ws[k + 1]);
        assert ws'[k] == ws[k] && ws'[k + 1] == ws[k + 1] && hs'[k] == hs[k];
      } else {
        assert ws'[k] == ws[|hs|] && ws'[k + 1] == w && hs'[k] == h;
      }
    }
  }

  /** Every history has its chronicle. */
  lemma {:induction false} ChronicleOf(env: Env, maxRetries: int, hs: seq<Happening>, w: World) returns (ws: seq<World>)
    requires IsInt64(maxRetries) && Evolves(env, maxRetries, hs, w)
    ensures Chronicle(env, maxRetries, hs, ws) && ws[|hs|] == w
    decreases |hs|
  {
    if hs == [] {
      ws := [w];
    } else {
      var v := BeforeLast(env, maxRetries, hs, w);
      ws := ChronicleOf(env, maxRetries, hs[..|hs| - 1], v);
      ChronicleSnoc(env, maxRetries, hs[..|hs| - 1], ws, hs[|hs| - 1], w);
      assert hs[..|hs| - 1] + [hs[|hs| - 1]] == hs;
      ws := ws + [w];
    }
  }
}
