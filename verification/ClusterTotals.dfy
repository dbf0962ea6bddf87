/** Which reports of the workers the total of a flow is made of. */
module ClusterTotals {
  import opened FlowTypes
  import opened Templates
  import opened Engine
  import opened History
  import opened Meaning
  import opened Passes
  import opened Agreement
  import opened Persistence
  import opened Decimal
  import opened TaskQueue
  import opened Ledger
  import opened Reconciler
  import opened Cluster
  import opened ClusterTheory
  import opened ClusterTokens
  import RT = ReconcilerTheory
  import RP = ReconcilerProgress

  // ------------------------------------------------------ what was reported

  /** The successes that workers reported in a history, in order. */
  function Reports(hs: seq<Happening>): seq<Event> {
    if hs == [] then []
    else
      var h := hs[|hs| - 1];
      Reports(hs[..|hs| - 1]) + if h.Work? && h.e.Success? then [h.e] else []
  }

  /** The entry of the results stream carries what the worker reported. */
  ghost predicate Carries(r: Result, e: Event) {
    && e.Success? && r.taskID == e.id && r.result == e.result
    && ToInt64(r.inputTokens) == e.inTok && ToInt64(r.outputTokens) == e.outTok
  }

  ghost predicate AllCarried(results: seq<Result>, reports: seq<Event>) {
    |results| == |reports| && forall k: nat :: k < |results| ==> Carries(results[k], reports[k])
  }

  lemma HappeningReports(env: Env, maxRetries: int, w: World, h: Happening, reports: seq<Event>)
    requires IsInt64(maxRetries) && Whole(env, maxRetries, w) && CanHappen(env, w, h)
    requires AllCarried(w.books.q.results, reports)
    ensures AllCarried(Then(env, maxRetries, w, h).books.q.results,
                       reports + if h.Work? && h.e.Success? then [h.e] else [])
  {
    match h
    case Create(_) =>
    case Visit(_, _, _) => VisitAddsNoResult(env, maxRetries, w, h);
    case Work(e) =>
      if e.Success? {
        RoundTrip(e.inTok);
        RoundTrip(e.outTok);
      }
  }

  lemma VisitAddsNoResult(env: Env, maxRetries: int, w: World, h: Happening)
    requires IsInt64(maxRetries) && Whole(env, maxRetries, w) && CanHappen(env, w, h) && h.Visit?
    ensures Then(env, maxRetries, w, h).books.q.results == w.books.q.results
  {
    var p := Visited(env, w, h.flow, h.am);
    PassInRange(env, w.flows[h.flow].spec, w.flows[h.flow].stored, w.books.q.results, |w.books.q.stream|, h.am);
    EnrollsAll(w.books, maxRetries, h.flow, p.status.steps, p.sent);
  }

  /** The results stream is the list of the workers' reports: the same tasks, answers and token counts, in order. */
  lemma {:induction false} ResultsAreReports(env: Env, maxRetries: int, hs: seq<Happening>, w: World)
    requires IsInt64(maxRetries) && Evolves(env, maxRetries, hs, w)
    ensures AllCarried(w.books.q.results, Reports(hs))
    decreases |hs|
  {
    if hs != [] {
      var v := BeforeLast(env, maxRetries, hs, w);
      ResultsAreReports(env, maxRetries, hs[..|hs| - 1], v);
      HappeningReports(env, maxRetries, v, hs[|hs| - 1], Reports(hs[..|hs| - 1]));
    }
  }

  /** The tokens reported for a task. */
  function TokensReported(reports: seq<Event>, id: nat): int {
    if reports == [] then 0
    else
      var e := reports[|reports| - 1];
      TokensReported(reports[..|reports| - 1], id) + if e.Success? && e.id == id then e.inTok + e.outTok else 0
  }

  lemma CarriedPrefix(results: seq<Result>, reports: seq<Event>, n: nat)
    requires AllCarried(results, reports) && n < |results|
    ensures AllCarried(results[..n], reports[..n]) && Carries(results[n], reports[n])
  {
    forall k: nat | k < n
      ensures Carries(results[..n][k], reports[..n][k])
    {
      assert Carries(results[k], reports[k]);
    }
  }

  /** With one result for each task, those are the tokens of that result. */
  lemma {:induction false} ReportedOnce(results: seq<Result>, reports: seq<Event>, k: nat)
    requires RT.UniqueIDs(results) && AllCarried(results, reports) && k < |results|
    ensures TokensReported(reports, results[k].taskID) == ResultTokens(results[k])
    decreases |reports|
  {
    var n := |reports| - 1;
    CarriedPrefix(results, reports, n);
    if k < n {
      ReportedOnce(results[..n], reports[..n], k);
    } else {
      NotReported(results[..n], reports[..n], results[k].taskID);
    }
  }

  lemma {:induction false} NotReported(results: seq<Result>, reports: seq<Event>, id: nat)
    requires AllCarried(results, reports) && forall k :: 0 <= k < |results| ==> results[k].taskID != id
    ensures TokensReported(reports, id) == 0
    decreases |reports|
  {
    if reports != [] {
      var n := |reports| - 1;
      CarriedPrefix(results, reports, n);
      NotReported(results[..n], reports[..n], id);
    }
  }

  // ----------------------------------------------------- what records hold

  /** The result that a succeeded step's task was answered with. */
  ghost predicate AnsweredBy(b: Books, st: StepStatus, k: nat) {
    && st.taskID.Some? && st.taskID.value < |b.fate| && b.fate[st.taskID.value] == Answered(k)
    && k < |b.q.results|
  }

  /** The record of a step without a loop holds the tokens of its result once it has succeeded, and none before. */
  ghost predicate Exact(b: Books, step: Step, st: StepStatus) {
    step.loop.None? ==>
      if st.phase != Succeeded then TokensOf(st) == 0
      else exists k: nat :: AnsweredBy(b, st, k) && TokensOf(st) == ResultTokens(b.q.results[k])
  }

  ghost predicate AllExact(b: Books, spec: FlowSpec, steps: seq<StepStatus>) {
    |steps| <= |spec.steps| && forall i: nat :: i < |steps| ==> Exact(b, spec.steps[i], steps[i])
  }

  lemma ExactStays(a: Books, b: Books, step: Step, st: StepStatus)
    requires Sized(a) && Sized(b) && Extends(a, b) && Exact(a, step, st)
    ensures Exact(b, step, st)
  {
    if step.loop.None? && st.phase == Succeeded {
      var k: nat :| AnsweredBy(a, st, k) && TokensOf(st) == ResultTokens(a.q.results[k]);
      assert EntryKept(a, b, st.taskID.value);
      assert AnsweredBy(b, st, k);
    }
  }

  lemma AllExactStays(a: Books, b: Books, spec: FlowSpec, steps: seq<StepStatus>)
    requires Sized(a) && Sized(b) && Extends(a, b) && AllExact(a, spec, steps)
    ensures AllExact(b, spec, steps)
  {
    forall i: nat | i < |steps|
      ensures Exact(b, spec.steps[i], steps[i])
    {
      ExactStays(a, b, spec.steps[i], steps[i]);
    }
  }

  lemma ExactPersists(b: Books, spec: FlowSpec, steps: seq<StepStatus>)
    requires AllExact(b, spec, steps)
    ensures AllExact(b, spec, PersistedSteps(steps))
  {
    forall i: nat | i < |steps|
      ensures Exact(b, spec.steps[i], PersistedStep(steps[i]))
    {
      assert Exact(b, spec.steps[i], steps[i]);
      if spec.steps[i].loop.None? && steps[i].phase == Succeeded {
        var k: nat :| AnsweredBy(b, steps[i], k) && TokensOf(steps[i]) == ResultTokens(b.q.results[k]);
        assert AnsweredBy(b, PersistedStep(steps[i]), k);
      }
    }
  }

  /** A record that takes a result takes its tokens, and nothing else in a pass changes them. */
  lemma RecordExact(env: Env, b: Books, maxRetries: int, step: Step, st: StepStatus, now: int, data: Data)
    requires Balanced(b, maxRetries) && AllTruthful(env, b) && RT.UniqueIDs(b.q.results) && Exact(b, step, st)
    ensures Exact(b, step, LoopOne(env, step, Parsed(env, step, Collected(st, b.q.results, now)), data))
  {
    if step.loop.None? {
      var after := LoopOne(env, step, Parsed(env, step, Collected(st, b.q.results, now)), data);
      if IsWaiting(st) {
        var k := RT.ScanTakesOne(st, st.taskID.value, b.q.results, now);
        if k.Some? {
          assert ResultOwned(b, k.value);
          assert Truthful(env, b, k.value);
          assert AnsweredBy(b, after, k.value);
        }
      } else if st.phase == Succeeded {
        var k: nat :| AnsweredBy(b, st, k) && TokensOf(st) == ResultTokens(b.q.results[k]);
        assert AnsweredBy(b, after, k);
      }
    }
  }

  lemma MovedExact(b: Books, step: Step, st: StepStatus, st': StepStatus)
    requires Exact(b, step, st) && RP.Moved(st, st')
    ensures Exact(b, step, st')
  {
  }

  lemma AdvancedExact(env: Env, maxRetries: int, b: Books, spec: FlowSpec, st: Status, am: Ambient)
    requires Balanced(b, maxRetries) && AllTruthful(env, b) && |st.steps| == |spec.steps| && AllExact(b, spec, st.steps)
    ensures AllExact(b, spec, Advanced(env, spec, st, b.q.results, |b.q.stream|, am).status.steps)
  {
    if !(AnyWaiting(st.steps) && !am.readable) {
      AdvancedParts(env, spec, st, b.q.results, |b.q.stream|, am);
      ResultsUnique(b, maxRetries);
      var gathered := Gathered(env, spec, st.steps, b.q.results, am.now);
      var data, looped := Snapshot(env, spec, gathered), AfterLoops(env, spec, gathered);
      var s := Sending(env, spec, st.steps, b.q.results, |b.q.stream|, am);
      forall i: nat | i < |st.steps|
        ensures Exact(b, spec.steps[i], s.steps[i])
      {
        RecordExact(env, b, maxRetries, spec.steps[i], st.steps[i], am.now, data);
        RP.SubmitShape(env, spec, looped, data, am, |b.q.stream|, |st.steps|, i);
        MovedExact(b, spec.steps[i], looped[i], s.steps[i]);
      }
    }
  }

  lemma VisitExact(env: Env, maxRetries: int, w: World, flow: nat, am: Ambient)
    requires Whole(env, maxRetries, w) && flow < |w.flows|
    requires AllExact(w.books, w.flows[flow].spec, w.flows[flow].stored.steps)
    ensures AllExact(w.books, w.flows[flow].spec, PersistedSteps(Visited(env, w, flow, am).status.steps))
  {
    var rec, status := w.flows[flow], Visited(env, w, flow, am).status;
    assert Sound(env, w.books, flow, rec);
    if Runnable(rec.spec, rec.stored, am) {
      var st := Initialized(rec.spec, rec.stored, am.now);
      AdvancedExact(env, maxRetries, w.books, rec.spec, st, am);
    }
    ExactPersists(w.books, rec.spec, status.steps);
  }

  lemma HappeningExact(env: Env, maxRetries: int, w: World, h: Happening, flow: nat)
    requires IsInt64(maxRetries) && Whole(env, maxRetries, w) && CanHappen(env, w, h)
    requires flow < |Then(env, maxRetries, w, h).flows|
    requires flow < |w.flows| ==> AllExact(w.books, w.flows[flow].spec, w.flows[flow].stored.steps)
    ensures
      var w' := Then(env, maxRetries, w, h);
      AllExact(w'.books, w'.flows[flow].spec, w'.flows[flow].stored.steps)
  {
    var w' := Then(env, maxRetries, w, h);
    if flow < |w.flows| {
      HappeningExtends(env, maxRetries, w, h);
      if h.Visit? && h.flow == flow {
        VisitExact(env, maxRetries, w, flow, h.am);
      }
      AllExactStays(w.books, w'.books, w'.flows[flow].spec, w'.flows[flow].stored.steps);
    }
  }

  lemma {:induction false} AlwaysExact(env: Env, maxRetries: int, hs: seq<Happening>, w: World, flow: nat)
    requires IsInt64(maxRetries) && Evolves(env, maxRetries, hs, w) && flow < |w.flows|
    ensures AllExact(w.books, w.flows[flow].spec, w.flows[flow].stored.steps)
    decreases |hs|
  {
    if hs != [] {
      var v := BeforeLast(env, maxRetries, hs, w);
      if flow < |v.flows| {
        AlwaysExact(env, maxRetries, hs[..|hs| - 1], v, flow);
      }
      HappeningExact(env, maxRetries, v, hs[|hs| - 1], flow);
    }
  }

  // ---------------------------------------------------------------- totals

  /** For each succeeded step, the tokens reported for its task. */
  function ReportedColumn(reports: seq<Event>, steps: seq<StepStatus>): (c: seq<int>)
    ensures |c| == |steps|
  {
    seq(|steps|, i requires 0 <= i < |steps| =>
      var st := steps[i];
      if st.phase == Succeeded && st.taskID.Some? then TokensReported(reports, st.taskID.value) else 0)
  }

  lemma RecordReported(b: Books, maxRetries: int, reports: seq<Event>, step: Step, st: StepStatus)
    requires Balanced(b, maxRetries) && AllCarried(b.q.results, reports) && Exact(b, step, st) && step.loop.None?
    ensures
      TokensOf(st) ==
      if st.phase == Succeeded && st.taskID.Some? then TokensReported(reports, st.taskID.value) else 0
  {
    if st.phase == Succeeded {
      var k: nat :| AnsweredBy(b, st, k) && TokensOf(st) == ResultTokens(b.q.results[k]);
      assert Fine(b, maxRetries, st.taskID.value);
      ResultsUnique(b, maxRetries);
      ReportedOnce(b.q.results, reports, k);
    }
  }

  /** The records of a loop-free flow hold exactly what was reported for its succeeded steps. */
  lemma RecordsReported(env: Env, maxRetries: int, hs: seq<Happening>, w: World, flow: nat)
    requires IsInt64(maxRetries) && Evolves(env, maxRetries, hs, w) && flow < |w.flows|
    requires LoopFree(w.flows[flow].spec)
    ensures
      var steps := w.flows[flow].stored.steps;
      TokensUsed(steps) == Sum(ReportedColumn(Reports(hs), steps))
  {
    var spec, steps := w.flows[flow].spec, w.flows[flow].stored.steps;
    AlwaysWhole(env, maxRetries, hs, w);
    AlwaysExact(env, maxRetries, hs, w, flow);
    ResultsAreReports(env, maxRetries, hs, w);
    forall i: nat | i < |steps|
      ensures TokenColumn(steps)[i] == ReportedColumn(Reports(hs), steps)[i]
    {
      assert Exact(w.books, spec.steps[i], steps[i]);
      RecordReported(w.books, maxRetries, Reports(hs), spec.steps[i], steps[i]);
    }
    assert TokenColumn(steps) == ReportedColumn(Reports(hs), steps);
    TokensUsedIsColumn(steps);
  }

  /**
   * In every history of the cluster, the total of a loop-free flow that was not ended by its deadline is exactly the
   * sum of the token counts that workers reported for the tasks of its succeeded steps.
   */
  lemma ClusterTotal(env: Env, maxRetries: int, hs: seq<Happening>, w: World, flow: nat)
    requires IsInt64(maxRetries) && Evolves(env, maxRetries, hs, w) && flow < |w.flows|
    requires LoopFree(w.flows[flow].spec) && IsTerminal(w.flows[flow].stored.phase)
    requires !Late(w.flows[flow].spec, w.flows[flow].stored)
    ensures TotalValue(w.flows[flow].stored) == Sum(ReportedColumn(Reports(hs), w.flows[flow].stored.steps))
  {
    var spec, st := w.flows[flow].spec, w.flows[flow].stored;
    AlwaysWhole(env, maxRetries, hs, w);
    assert Sound(env, w.books, flow, w.flows[flow]);
    var r, seen :| Witness(env, w.books, flow, w.flows[flow], r, seen);
    RecordsTotal(env, spec, r);
    RecordsReported(env, maxRetries, hs, w, flow);
  }
}
