/** The tokens that results on the stream report for a flow's steps, and what the flow stores of them. */
module ClusterTokens {
  import opened FlowTypes
  import opened Templates
  import opened Engine
  import opened History
  import opened Passes
  import opened Persistence
  import opened Decimal
  import opened TaskQueue
  import opened Ledger
  import opened Reconciler
  import opened Cluster
  import opened ClusterTheory
  import opened ClusterTally
  import RT = ReconcilerTheory
  import RP = ReconcilerProgress

  function ResultTokens(r: Result): int {
    ToInt64(r.inputTokens) + ToInt64(r.outputTokens)
  }

  /** The tokens reported by results for tasks of step i of a flow, in any iteration. */
  function StepConsumed(owners: seq<Owner>, results: seq<Result>, flow: nat, i: nat): int {
    if results == [] then 0
    else
      var r := results[|results| - 1];
      StepConsumed(owners, results[..|results| - 1], flow, i)
      + if r.taskID < |owners| && IsFor(owners[r.taskID], flow, i) then ResultTokens(r) else 0
  }

  function ConsumedColumn(b: Books, flow: nat, n: nat): (c: seq<int>)
    ensures |c| == n
  {
    seq(n, i requires 0 <= i < n => StepConsumed(b.owner, b.q.results, flow, i))
  }

  /** All tokens reported for the n steps of a flow. */
  function FlowConsumed(b: Books, flow: nat, n: nat): int {
    Sum(ConsumedColumn(b, flow, n))
  }

  ghost predicate NoNegativeResults(results: seq<Result>) {
    forall k :: 0 <= k < |results| ==> ToInt64(results[k].inputTokens) >= 0 && ToInt64(results[k].outputTokens) >= 0
  }

  /** More results only add. */
  lemma {:induction false} ConsumedGrows(a: seq<Owner>, b: seq<Owner>, ra: seq<Result>, rb: seq<Result>, flow: nat,
          i: nat)
    requires NoNegativeResults(rb) && |ra| <= |rb| && ra == rb[..|ra|]
    requires |a| <= |b| && a == b[..|a|] && forall k :: 0 <= k < |ra| ==> ra[k].taskID < |a|
    ensures 0 <= StepConsumed(a, ra, flow, i) <= StepConsumed(b, rb, flow, i)
    decreases |rb|
  {
    if rb != [] {
      var init := rb[..|rb| - 1];
      if |ra| == |rb| {
        ConsumedGrows(a, b, ra[..|ra| - 1], init, flow, i);
      } else {
        assert ra == init[..|ra|];
        ConsumedGrows(a, b, ra, init, flow, i);
      }
    }
  }

  lemma ConsumedNext(owners: seq<Owner>, results: seq<Result>, r: Result, flow: nat, i: nat)
    ensures
      StepConsumed(owners, results + [r], flow, i) ==
      StepConsumed(owners, results, flow, i)
      + if r.taskID < |owners| && IsFor(owners[r.taskID], flow, i) then ResultTokens(r) else 0
  {
    assert (results + [r])[..|results|] == results;
  }

  /** A result that is there is counted. */
  lemma {:induction false} ResultIsCounted(owners: seq<Owner>, results: seq<Result>, flow: nat, i: nat, k: nat)
    requires NoNegativeResults(results) && k < |results|
    requires results[k].taskID < |owners| && IsFor(owners[results[k].taskID], flow, i)
    ensures ResultTokens(results[k]) <= StepConsumed(owners, results, flow, i)
    decreases |results|
  {
    var init, last := results[..|results| - 1], results[|results| - 1];
    assert results == init + [last] && NoNegativeResults(init);
    ConsumedNext(owners, init, last, flow, i);
    if k < |init| {
      ResultIsCounted(owners, init, flow, i, k);
    } else {
      ConsumedIsNotNegative(owners, init, flow, i);
    }
  }

  lemma {:induction false} ConsumedIsNotNegative(owners: seq<Owner>, results: seq<Result>, flow: nat, i: nat)
    requires NoNegativeResults(results)
    ensures StepConsumed(owners, results, flow, i) >= 0
    decreases |results|
  {
    if results != [] {
      ConsumedIsNotNegative(owners, results[..|results| - 1], flow, i);
    }
  }

  /** A record claims no more than was reported for its step. */
  ghost predicate Covered(b: Books, flow: nat, i: nat, st: StepStatus) {
    && (st.tokens.Some? ==> st.tokens.value.input >= 0 && st.tokens.value.output >= 0)
    && TokensOf(st) <= StepConsumed(b.owner, b.q.results, flow, i)
  }

  ghost predicate AllCovered(b: Books, flow: nat, steps: seq<StepStatus>) {
    forall i: nat :: i < |steps| ==> Covered(b, flow, i, steps[i])
  }

  /** The records and the total of a flow are covered by the results on the stream. */
  ghost predicate FlowCovered(b: Books, flow: nat, rec: FlowRec) {
    && AllCovered(b, flow, rec.stored.steps)
    && (rec.stored.total.Some? ==> rec.stored.total.value.total <= FlowConsumed(b, flow, |rec.spec.steps|))
  }

  lemma ResultsNotNegative(env: Env, b: Books)
    requires Sized(b) && AllTruthful(env, b)
    ensures NoNegativeResults(b.q.results)
  {
    forall k | 0 <= k < |b.q.results|
      ensures ToInt64(b.q.results[k].inputTokens) >= 0 && ToInt64(b.q.results[k].outputTokens) >= 0
    {
      assert Truthful(env, b, k);
    }
  }

  /** The books of a later moment cover what the earlier ones covered. */
  lemma StepCoverGrows(env: Env, a: Books, b: Books, flow: nat, i: nat)
    requires Sized(a) && Sized(b) && Extends(a, b) && AllTruthful(env, a) && AllTruthful(env, b)
    ensures StepConsumed(a.owner, a.q.results, flow, i) <= StepConsumed(b.owner, b.q.results, flow, i)
  {
    ResultsNotNegative(env, b);
    forall id: nat | id < |a.owner|
      ensures b.owner[id] == a.owner[id]
    {
      assert EntryKept(a, b, id);
    }
    forall k | 0 <= k < |a.q.results|
      ensures a.q.results[k].taskID < |a.owner|
    {
      assert Truthful(env, a, k);
    }
    ConsumedGrows(a.owner, b.owner, a.q.results, b.q.results, flow, i);
  }

  lemma CoverGrows(env: Env, a: Books, b: Books, flow: nat, rec: FlowRec)
    requires Sized(a) && Sized(b) && Extends(a, b) && AllTruthful(env, a) && AllTruthful(env, b)
    requires FlowCovered(a, flow, rec)
    ensures FlowCovered(b, flow, rec)
  {
    var n := |rec.spec.steps|;
    forall i: nat
      ensures StepConsumed(a.owner, a.q.results, flow, i) <= StepConsumed(b.owner, b.q.results, flow, i)
    {
      StepCoverGrows(env, a, b, flow, i);
    }
    forall i: nat | i < |rec.stored.steps|
      ensures Covered(b, flow, i, rec.stored.steps[i])
    {
      assert Covered(a, flow, i, rec.stored.steps[i]);
    }
    SumMonotone(ConsumedColumn(a, flow, n), ConsumedColumn(b, flow, n));
  }

  // ------------------------------------------------------------ one reconcile

  /** A reconcile takes token counts from results only. */
  lemma RecordCovered(env: Env, b: Books, flow: nat, i: nat, step: Step, st: StepStatus, asked: string, now: int,
          data: Data)
    requires Sized(b) && AllTruthful(env, b) && RT.UniqueIDs(b.q.results)
    requires Vouched(b, flow, i, st, asked) && Covered(b, flow, i, st)
    ensures Covered(b, flow, i, LoopOne(env, step, Parsed(env, step, Collected(st, b.q.results, now)), data))
  {
    ResultsNotNegative(env, b);
    if IsWaiting(st) {
      var k := RT.ScanTakesOne(st, st.taskID.value, b.q.results, now);
      if k.Some? {
        ResultIsCounted(b.owner, b.q.results, flow, i, k.value);
      }
    }
  }

  /** Once its records are covered, a flow's new total is. */
  lemma VerdictCovered(env: Env, b: Books, flow: nat, spec: FlowSpec, st: Status, data: Data, now: int)
    requires |st.steps| == |spec.steps| && !IsTerminal(st.phase) && FlowCovered(b, flow, FlowRec(spec, st))
    ensures FlowCovered(b, flow, FlowRec(spec, Verdict(env, spec, st, data, now)))
  {
    VerdictParts(env, spec, st, data, now);
    TokensUsedIsColumn(st.steps);
    forall i: nat | i < |st.steps|
      ensures TokenColumn(st.steps)[i] <= ConsumedColumn(b, flow, |spec.steps|)[i]
    {
      assert Covered(b, flow, i, st.steps[i]);
    }
    SumMonotone(TokenColumn(st.steps), ConsumedColumn(b, flow, |spec.steps|));
  }

  lemma AdvancedCovered(env: Env, maxRetries: int, b: Books, flow: nat, spec: FlowSpec, st: Status, am: Ambient, r: Run)
    requires Balanced(b, maxRetries) && AllTruthful(env, b) && |st.steps| == |spec.steps| && !IsTerminal(st.phase)
    requires AllVouched(b, flow, st.steps, r.asked) && FlowCovered(b, flow, FlowRec(spec, st))
    ensures
      FlowCovered(b, flow, FlowRec(spec, Advanced(env, spec, st, b.q.results, |b.q.stream|, am).status))
  {
    if !(AnyWaiting(st.steps) && !am.readable) {
      ResultsUnique(b, maxRetries);
      var gathered := Gathered(env, spec, st.steps, b.q.results, am.now);
      var data, looped := Snapshot(env, spec, gathered), AfterLoops(env, spec, gathered);
      var s := Sending(env, spec, st.steps, b.q.results, |b.q.stream|, am);
      forall i: nat | i < |st.steps|
        ensures Covered(b, flow, i, s.steps[i])
      {
        assert Vouched(b, flow, i, st.steps[i], r.asked[i]) && Covered(b, flow, i, st.steps[i]);
        RecordCovered(env, b, flow, i, spec.steps[i], st.steps[i], r.asked[i], am.now, data);
        RP.SubmitShape(env, spec, looped, data, am, |b.q.stream|, |st.steps|, i);
      }
      VerdictCovered(env, b, flow, spec, st.(steps := s.steps), data, am.now);
    }
  }

  // --------------------------------------------------------- whole histories

  lemma VisitCovered(env: Env, maxRetries: int, w: World, flow: nat, am: Ambient)
    requires Whole(env, maxRetries, w) && flow < |w.flows| && FlowCovered(w.books, flow, w.flows[flow])
    ensures FlowCovered(w.books, flow, w.flows[flow].(stored := Visited(env, w, flow, am).status))
  {
    var rec := w.flows[flow];
    assert Sound(env, w.books, flow, rec);
    if Runnable(rec.spec, rec.stored, am) {
      var r, seen := InitializedSound(env, w.books, flow, rec, am.now);
      var st := Initialized(rec.spec, rec.stored, am.now);
      if rec.stored.phase == Unset {
        forall i: nat | i < |st.steps|
          ensures Covered(w.books, flow, i, st.steps[i])
        {
          ResultsNotNegative(env, w.books);
          ConsumedIsNotNegative(w.books.owner, w.books.q.results, flow, i);
        }
      }
      AdvancedCovered(env, maxRetries, w.books, flow, rec.spec, st, am, r);
    }
  }

  /** Token counts are written as they are. */
  lemma CoverPersists(b: Books, flow: nat, rec: FlowRec)
    requires FlowCovered(b, flow, rec)
    ensures FlowCovered(b, flow, rec.(stored := Persisted(rec.stored)))
  {
    forall i: nat | i < |rec.stored.steps|
      ensures Covered(b, flow, i, PersistedStep(rec.stored.steps[i]))
    {
      assert Covered(b, flow, i, rec.stored.steps[i]);
    }
  }

  lemma HappeningCovered(env: Env, maxRetries: int, w: World, h: Happening, flow: nat)
    requires IsInt64(maxRetries) && Whole(env, maxRetries, w) && CanHappen(env, w, h)
    requires flow < |w.flows| ==> FlowCovered(w.books, flow, w.flows[flow])
    requires flow < |Then(env, maxRetries, w, h).flows|
    ensures FlowCovered(Then(env, maxRetries, w, h).books, flow, Then(env, maxRetries, w, h).flows[flow])
  {
    var w' := Then(env, maxRetries, w, h);
    HappeningExtends(env, maxRetries, w, h);
    if flow < |w.flows| {
      if h.Visit? && h.flow == flow {
        VisitCovered(env, maxRetries, w, flow, h.am);
        CoverPersists(w.books, flow, w.flows[flow].(stored := Visited(env, w, flow, h.am).status));
      }
      CoverGrows(env, w.books, w'.books, flow, w'.flows[flow]);
    }
  }

  /**
   * Whatever happens in the cluster, the total that a flow stores never exceeds the tokens that results on the stream
   * report for tasks of its steps.
   */
  lemma {:induction false} TotalsAreCovered(env: Env, maxRetries: int, hs: seq<Happening>, w: World, flow: nat)
    requires IsInt64(maxRetries) && Evolves(env, maxRetries, hs, w) && flow < |w.flows|
    ensures FlowCovered(w.books, flow, w.flows[flow])
    decreases |hs|
  {
    if hs != [] {
      var v := BeforeLast(env, maxRetries, hs, w);
      if flow < |v.flows| {
        TotalsAreCovered(env, maxRetries, hs[..|hs| - 1], v, flow);
      }
      HappeningCovered(env, maxRetries, v, hs[|hs| - 1], flow);
    }
  }
}
