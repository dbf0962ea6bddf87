/** The invariants of the cluster: whatever happens, every written status is sound. */
module ClusterTheory {
  import opened Wrappers
  import opened FlowTypes
  import opened Templates
  import opened Dag
  import opened Engine
  import opened Passes
  import opened Agreement
  import opened Persistence
  import opened Decimal
  import opened TaskQueue
  import opened Ledger
  import opened Reconciler
  import opened Cluster
  import RT = ReconcilerTheory
  import RP = ReconcilerProgress

  // -------------------------------------------------------------- the books

  /** An event adds to the books and changes no entry, owner or result. */
  lemma RecordExtends(b: Books, maxRetries: int, e: Event)
    requires Balanced(b, maxRetries) && Possible(b, e) && Sized(Record(b, maxRetries, e))
    ensures Extends(b, Record(b, maxRetries, e))
  {
    LeavesRetriesAlone(b, maxRetries, e);
  }

  lemma ExtendsTransitive(a: Books, b: Books, c: Books)
    requires Sized(a) && Sized(b) && Sized(c) && Extends(a, b) && Extends(b, c)
    ensures Extends(a, c)
  {
    forall id: nat | id < |a.owner|
      ensures EntryKept(a, c, id)
    {
      assert EntryKept(a, b, id) && EntryKept(b, c, id);
    }
  }

  /** The entry of a task sent by a pass. */
  ghost predicate Entered(b: Books, id: nat, flow: nat, t: Sent, iteration: nat)
    requires Sized(b)
  {
    id < |b.owner| && b.owner[id] == ByStep(flow, t.step, iteration) && PromptAt(b, id) == t.prompt
  }

  lemma EnteredStays(a: Books, b: Books, id: nat, flow: nat, t: Sent, iteration: nat)
    requires Sized(a) && Sized(b) && Extends(a, b) && Entered(a, id, flow, t, iteration)
    ensures Entered(b, id, flow, t, iteration)
  {
    assert EntryKept(a, b, id);
  }

  ghost predicate AllEntered(b: Books, base: nat, flow: nat, steps: seq<StepStatus>, sent: seq<Sent>)
    requires Sized(b)
  {
    forall x: nat :: x < |sent| ==>
        && sent[x].step < |steps|
        && Entered(b, base + x, flow, sent[x], steps[sent[x].step].iterations)
  }

  lemma OneMoreEntered(a: Books, b: Books, base: nat, flow: nat, steps: seq<StepStatus>, sent: seq<Sent>)
    requires sent != [] && Sized(a) && Sized(b) && Extends(a, b)
    requires AllEntered(a, base, flow, steps, sent[..|sent| - 1])
    requires
      var n := |sent| - 1;
      sent[n].step < |steps| && Entered(b, base + n, flow, sent[n], steps[sent[n].step].iterations)
    ensures AllEntered(b, base, flow, steps, sent)
  {
    var n := |sent| - 1;
    forall x: nat | x < |sent|
      ensures sent[x].step < |steps| && Entered(b, base + x, flow, sent[x], steps[sent[x].step].iterations)
    {
      if x < n {
        assert sent[..n][x] == sent[x];
        EnteredStays(a, b, base + x, flow, sent[x], steps[sent[x].step].iterations);
      }
    }
  }

  /** Enrolling the last task of a pass is an event of the queue. */
  lemma EnrollsLast(b: Books, maxRetries: int, flow: nat, steps: seq<StepStatus>, sent: seq<Sent>)
    requires IsInt64(maxRetries) && sent != [] && forall x :: 0 <= x < |sent| ==> sent[x].step < |steps|
    requires |b.owner| == |b.root| == |b.tries| == |b.fate| == |b.q.stream|
    requires Balanced(Enrolled(b, flow, steps, sent[..|sent| - 1]), maxRetries)
    ensures
      var n := |sent| - 1;
      var mid, b' := Enrolled(b, flow, steps, sent[..n]), Enrolled(b, flow, steps, sent);
      && Balanced(b', maxRetries) && Extends(mid, b') && b'.q.results == mid.q.results
      && Entered(b', |b.q.stream| + n, flow, sent[n], steps[sent[n].step].iterations)
  {
    var t := sent[|sent| - 1];
    var mid := Enrolled(b, flow, steps, sent[..|sent| - 1]);
    var e := Submission(t.prompt, ByStep(flow, t.step, steps[t.step].iterations));
    assert Enrolled(b, flow, steps, sent) == Record(mid, maxRetries, e);
    KeepsBalanced(mid, maxRetries, e);
    RecordExtends(mid, maxRetries, e);
  }

  /** Enrolling the tasks of a pass keeps the books balanced and enters each task under its step's name. */
  lemma {:induction false} EnrollsAll(b: Books, maxRetries: int, flow: nat, steps: seq<StepStatus>, sent: seq<Sent>)
    requires IsInt64(maxRetries) && Balanced(b, maxRetries)
    requires forall x :: 0 <= x < |sent| ==> sent[x].step < |steps|
    ensures
      var b' := Enrolled(b, flow, steps, sent);
      && Balanced(b', maxRetries) && Extends(b, b') && b'.q.results == b.q.results
      && AllEntered(b', |b.q.stream|, flow, steps, sent)
    decreases |sent|
  {
    if sent != [] {
      var init := sent[..|sent| - 1];
      EnrollsAll(b, maxRetries, flow, steps, init);
      EnrollsLast(b, maxRetries, flow, steps, sent);
      ExtendsTransitive(b, Enrolled(b, flow, steps, init), Enrolled(b, flow, steps, sent));
      OneMoreEntered(Enrolled(b, flow, steps, init), Enrolled(b, flow, steps, sent), |b.q.stream|, flow, steps, sent);
    }
  }

  lemma TruthStays(env: Env, a: Books, b: Books)
    requires Sized(a) && Sized(b) && Extends(a, b) && AllTruthful(env, a) && b.q.results == a.q.results
    ensures AllTruthful(env, b)
  {
    forall k: nat | k < |b.q.results|
      ensures Truthful(env, b, k)
    {
      assert Truthful(env, a, k);
      assert EntryKept(a, b, a.q.results[k].taskID);
    }
  }

  lemma WorkKeepsTruth(env: Env, b: Books, maxRetries: int, e: Event)
    requires Balanced(b, maxRetries) && AllTruthful(env, b) && FromOutside(env, b, e) && Sized(Record(b, maxRetries, e))
    ensures AllTruthful(env, Record(b, maxRetries, e))
  {
    var b' := Record(b, maxRetries, e);
    RecordExtends(b, maxRetries, e);
    forall k: nat | k < |b'.q.results|
      ensures Truthful(env, b', k)
    {
      if k < |b.q.results| {
        assert Truthful(env, b, k);
        assert EntryKept(b, b', b.q.results[k].taskID);
      } else {
        RoundTrip(e.inTok);
        RoundTrip(e.outTok);
      }
    }
  }

  // ------------------------------------------------- what a reconcile finds

  lemma ResultsUnique(b: Books, maxRetries: int)
    requires Balanced(b, maxRetries)
    ensures RT.UniqueIDs(b.q.results)
  {
    forall j, k | 0 <= j < k < |b.q.results|
      ensures b.q.results[j].taskID != b.q.results[k].taskID
    {
      OneResult(b, maxRetries, j, k);
    }
  }

  /** Every result for a waiting step answers what that step was asked. */
  lemma ResultsFit(env: Env, b: Books, flow: nat, r: Run)
    requires Sized(b) && AllTruthful(env, b) && AllVouched(b, flow, r.steps, r.asked)
    ensures RT.AllFit(env, r, b.q.results)
  {
    forall i, k | 0 <= i < |r.steps| && 0 <= k < |b.q.results|
      ensures RT.Fits(env, r.steps[i], r.asked[i], b.q.results[k])
    {
      assert Vouched(b, flow, i, r.steps[i], r.asked[i]);
      assert Truthful(env, b, k);
    }
  }

  /** What collecting, parsing and looping make of a record. */
  lemma RecordGathered(env: Env, step: Step, st: StepStatus, results: seq<Result>, now: int, data: Data)
    returns (k: nat)
    requires RT.UniqueIDs(results)
    ensures
      var l := LoopOne(env, step, Parsed(env, step, Collected(st, results, now)), data);
      && (l.phase == Running ==> st == l)
      && (l.phase == Succeeded ==>
            && l.taskID == st.taskID && l.iterations == st.iterations
            && ((st.phase == Succeeded && l.output == st.output)
                || (IsWaiting(st) && k < |results| && results[k].taskID == st.taskID.value
                    && l.output == results[k].result)))
  {
    k := 0;
    if IsWaiting(st) {
      var found := RT.ScanTakesOne(st, st.taskID.value, results, now);
      k := found.GetOr(0);
    }
  }

  /** A record that is running or succeeded once loops are evaluated is still vouched for. */
  lemma GatheredVouched(env: Env, b: Books, maxRetries: int, flow: nat, i: nat, step: Step, st: StepStatus,
          asked: string, now: int, data: Data)
    requires Balanced(b, maxRetries) && RT.UniqueIDs(b.q.results) && Vouched(b, flow, i, st, asked)
    ensures Vouched(b, flow, i, LoopOne(env, step, Parsed(env, step, Collected(st, b.q.results, now)), data), asked)
  {
    var k := RecordGathered(env, step, st, b.q.results, now, data);
    if k < |b.q.results| {
      assert ResultOwned(b, k);
    }
  }

  // ---------------------------------------------------- what it leaves behind

  /** A step that a pass sets running was sent a task. */
  lemma {:induction false} RunnerWasSent(env: Env, spec: FlowSpec, steps: seq<StepStatus>, data: Data, am: Ambient,
          base: nat, k: nat, i: nat)
    returns (x: nat)
    requires |steps| == |spec.steps| && k <= |steps| && i < |steps|
    requires steps[i].phase != Running && SubmitPass(env, spec, steps, data, am, base, k).steps[i].phase == Running
    ensures
      var s := SubmitPass(env, spec, steps, data, am, base, k);
      x < |s.sent| && s.sent[x].step == i
    decreases k
  {
    var before := SubmitPass(env, spec, steps, data, am, base, k - 1);
    if before.steps[i].phase == Running {
      x := RunnerWasSent(env, spec, steps, data, am, base, k - 1, i);
    } else {
      RP.SubmitOneShape(env, spec, before, data, am, base, k - 1, i);
      x := |before.sent|;
    }
  }

  /** A record after the pass: released, or as it was after the loops. */
  lemma SentVouched(b: Books, b': Books, flow: nat, i: nat, looped: StepStatus, st: StepStatus, asked: string,
          asked': string, t: Sent, id: nat)
    requires Sized(b) && Sized(b') && Extends(b, b') && Vouched(b, flow, i, looped, asked)
    requires RP.Moved(looped, st)
    requires looped.phase == Running ==> asked' == asked
    requires st.phase == Running && looped.phase != Running ==>
               t.step == i && st.taskID == Some(id) && asked' == t.prompt && Entered(b', id, flow, t, st.iterations)
    ensures Vouched(b', flow, i, st, asked')
  {
    if st == looped {
      VouchedStays(b, b', flow, i, looped, asked);
    }
  }

  lemma AdvancedParts(env: Env, spec: FlowSpec, st: Status, results: seq<Result>, base: nat, am: Ambient)
    requires |st.steps| == |spec.steps| && !(AnyWaiting(st.steps) && !am.readable)
    ensures
      var p, s := Advanced(env, spec, st, results, base, am), Sending(env, spec, st.steps, results, base, am);
      p.status.steps == s.steps && p.sent == s.sent
  {
  }

  /** The task of a step that the pass set running. */
  lemma NewRunner(env: Env, spec: FlowSpec, looped: seq<StepStatus>, data: Data, am: Ambient, b': Books, base: nat,
          flow: nat, r': Run, j: nat)
    returns (t: Sent, id: nat)
    requires |looped| == |spec.steps| && j < |looped| && Sized(b')
    requires
      var s := SubmitPass(env, spec, looped, data, am, base, |looped|);
      && r'.steps == s.steps && RT.AllDispatched(r', s.sent, base) && AllEntered(b', base, flow, s.steps, s.sent)
    requires j < |r'.asked|
    ensures r'.steps[j].phase == Running && looped[j].phase != Running ==>
              t.step == j && r'.steps[j].taskID == Some(id) && r'.asked[j] == t.prompt
                  && Entered(b', id, flow, t, r'.steps[j].iterations)
  {
    t, id := Sent(j, ""), 0;
    if r'.steps[j].phase == Running && looped[j].phase != Running {
      var x := RunnerWasSent(env, spec, looped, data, am, base, |looped|, j);
      var s := SubmitPass(env, spec, looped, data, am, base, |looped|);
      t, id := s.sent[x], base + x;
      assert RT.Dispatched(r', s.sent[x], base + x);
    }
  }

  lemma StepVouched(env: Env, b: Books, b': Books, maxRetries: int, flow: nat, spec: FlowSpec, steps: seq<StepStatus>,
          am: Ambient, r: Run, r': Run, j: nat)
    requires Balanced(b, maxRetries) && RT.UniqueIDs(b.q.results) && |steps| == |spec.steps| && j < |steps|
    requires r.steps == steps && AllVouched(b, flow, steps, r.asked)
    requires Sized(b') && Extends(b, b') && RT.KeepsAsking(env, spec, r, r', b.q.results, am.now, j)
    requires
      var s := Sending(env, spec, steps, b.q.results, |b.q.stream|, am);
      && r'.steps == s.steps
      && RT.AllDispatched(r', s.sent, |b.q.stream|) && AllEntered(b', |b.q.stream|, flow, s.steps, s.sent)
    ensures Vouched(b', flow, j, r'.steps[j], r'.asked[j])
  {
    var results, base := b.q.results, |b.q.stream|;
    var gathered := Gathered(env, spec, steps, results, am.now);
    var data := Snapshot(env, spec, gathered);
    var looped := AfterLoops(env, spec, Gathered(env, spec, steps, results, am.now));
    var s := SubmitPass(env, spec, looped, data, am, base, |steps|);
    assert Vouched(b, flow, j, steps[j], r.asked[j]);
    GatheredVouched(env, b, maxRetries, flow, j, spec.steps[j], steps[j], r.asked[j], am.now, data);
    RP.SubmitShape(env, spec, looped, data, am, base, |steps|, j);
    var t, id := NewRunner(env, spec, looped, data, am, b', base, flow, r', j);
    SentVouched(b, b', flow, j, looped[j], s.steps[j], r.asked[j], r'.asked[j], t, id);
  }

  /** A pass over a sound flow leaves a sound flow, once its tasks are in the books. */
  lemma AdvancedSound(env: Env, maxRetries: int, b: Books, flow: nat, rec: FlowRec, am: Ambient, st: Status, r: Run,
          seen: seq<StepStatus>)
    requires IsInt64(maxRetries) && Balanced(b, maxRetries) && AllTruthful(env, b) && UniqueNames(rec.spec.steps)
    requires st.phase == FlowRunning && Witness(env, b, flow, rec.(stored := st), r, seen) && Shuffles(am.shuffle)
    requires
      var p := Advanced(env, rec.spec, st, b.q.results, |b.q.stream|, am);
      forall x :: 0 <= x < |p.sent| ==> p.sent[x].step < |p.status.steps|
    ensures
      var p := Advanced(env, rec.spec, st, b.q.results, |b.q.stream|, am);
      var b' := Enrolled(b, flow, p.status.steps, p.sent);
      Sized(b') && exists r', seen' :: Witness(env, b', flow, rec.(stored := p.status), r', seen')
  {
    var p := Advanced(env, rec.spec, st, b.q.results, |b.q.stream|, am);
    var b' := Enrolled(b, flow, p.status.steps, p.sent);
    EnrollsAll(b, maxRetries, flow, p.status.steps, p.sent);
    ResultsUnique(b, maxRetries);
    ResultsFit(env, b, flow, r);
    var r', seen' := RT.AdvancedBacked(env, rec.spec, st, b.q.results, |b.q.stream|, am, r, seen);
    if AnyWaiting(st.steps) && !am.readable {
      assert p.sent == [] && p.status == st;
    } else {
      AdvancedParts(env, rec.spec, st, b.q.results, |b.q.stream|, am);
      forall j: nat | j < |st.steps|
        ensures Vouched(b', flow, j, p.status.steps[j], r'.asked[j])
      {
        StepVouched(env, b, b', maxRetries, flow, rec.spec, st.steps, am, r, r', j);
      }
    }
    AdvancedPhase(env, rec.spec, st, b.q.results, |b.q.stream|, am);
    ReachableInv(env, rec.spec, r');
    assert Witness(env, b', flow, rec.(stored := p.status), r', seen');
  }

  lemma AdvancedPhase(env: Env, spec: FlowSpec, st: Status, results: seq<Result>, base: nat, am: Ambient)
    requires |st.steps| == |spec.steps| && st.phase == FlowRunning
    ensures var phase := Advanced(env, spec, st, results, base, am).status.phase;
      || phase == FlowRunning
      || IsTerminal(phase)
  {
    var p := Advanced(env, spec, st, results, base, am);
    if !IsTerminal(p.status.phase) && !(AnyWaiting(st.steps) && !am.readable) {
      var s := Sending(env, spec, st.steps, results, base, am);
      if s.ok {
        VerdictUndecided(env, spec, st.(steps := s.steps),
            Snapshot(env, spec, Gathered(env, spec, st.steps, results, am.now)), am.now);
      }
    }
  }

  // ------------------------------------------------------ the whole cluster

  lemma SoundStays(env: Env, a: Books, b: Books, flow: nat, rec: FlowRec)
    requires Sized(a) && Sized(b) && Extends(a, b) && Sound(env, a, flow, rec)
    ensures Sound(env, b, flow, rec)
  {
    if !Untouched(rec.stored) {
      var r, seen :| Witness(env, a, flow, rec, r, seen);
      AllVouchedStays(a, b, flow, rec.stored.steps, r.asked);
      assert Witness(env, b, flow, rec, r, seen);
    }
  }

  lemma ConditionKeepsWitness(env: Env, b: Books, flow: nat, rec: FlowRec, reason: Reason, r: Run,
          seen: seq<StepStatus>)
    requires Sized(b) && Witness(env, b, flow, rec, r, seen) && reason in {InvalidDAG, DeploymentNotFound, NoTaskQueue}
    ensures Witness(env, b, flow, rec.(stored := rec.stored.(ready := reason)), r, seen)
  {
  }

  /** A status changed only in its condition is as sound as before. */
  lemma ConditionKeepsSound(env: Env, b: Books, flow: nat, rec: FlowRec, reason: Reason)
    requires Sized(b) && Sound(env, b, flow, rec) && reason in {InvalidDAG, DeploymentNotFound, NoTaskQueue}
    ensures Sound(env, b, flow, rec.(stored := rec.stored.(ready := reason)))
  {
    var stored := rec.stored.(ready := reason);
    assert Persisted(stored) == stored;
    if !Untouched(rec.stored) {
      var r, seen :| Witness(env, b, flow, rec, r, seen);
      ConditionKeepsWitness(env, b, flow, rec, reason, r, seen);
    }
  }

  lemma FreshPersists(st: Status)
    requires Untouched(st)
    ensures Persisted(st) == st
  {
    assert PersistedSteps([]) == [];
  }

  /** Written, a status has the same run of the engine behind it. */
  lemma PersistedWitness(env: Env, b: Books, flow: nat, rec: FlowRec, r: Run, seen: seq<StepStatus>)
    requires Sized(b) && Witness(env, b, flow, rec, r, seen)
    ensures Witness(env, b, flow, rec.(stored := Persisted(rec.stored)), Stamped(r), seen)
  {
    PersistedBacked(env, rec.spec, rec.stored, r, seen);
    forall i: nat | i < |rec.stored.steps|
      ensures Vouched(b, flow, i, PersistedStep(rec.stored.steps[i]), r.asked[i])
    {
      assert Vouched(b, flow, i, rec.stored.steps[i], r.asked[i]);
    }
  }

  lemma PersistedSound(env: Env, b: Books, flow: nat, rec: FlowRec, r: Run, seen: seq<StepStatus>)
    requires Sized(b) && UniqueNames(rec.spec.steps) && Witness(env, b, flow, rec, r, seen)
    ensures Sound(env, b, flow, rec.(stored := Persisted(rec.stored)))
  {
    PersistedWitness(env, b, flow, rec, r, seen);
    PersistedTwice(rec.stored);
  }

  /** The state in which the body of Reconcile starts: initialized, and sound. */
  lemma InitializedSound(env: Env, b: Books, flow: nat, rec: FlowRec, now: int) returns (r: Run, seen: seq<StepStatus>)
    requires Sized(b) && Sound(env, b, flow, rec) && !IsTerminal(rec.stored.phase)
    ensures
      var st := Initialized(rec.spec, rec.stored, now);
      st.phase == FlowRunning && Witness(env, b, flow, rec.(stored := st), r, seen)
  {
    var st := Initialized(rec.spec, rec.stored, now);
    if Untouched(rec.stored) {
      r, seen := Initial(rec.spec), [];
      assert st == Initialized(rec.spec, FRESH_STATUS, now);
      InitialBacked(env, rec.spec, now);
      forall i: nat | i < |st.steps|
        ensures Vouched(b, flow, i, st.steps[i], r.asked[i])
      {
      }
    } else {
      r, seen :| Witness(env, b, flow, rec, r, seen);
    }
  }

  /** Whether or not the body of Reconcile is reached, the flow it leaves is sound, and so are the books. */
  lemma VisitSound(env: Env, maxRetries: int, w: World, flow: nat, am: Ambient)
    requires IsInt64(maxRetries) && Whole(env, maxRetries, w) && flow < |w.flows| && Shuffles(am.shuffle)
    requires
      var p := Visited(env, w, flow, am);
      forall x :: 0 <= x < |p.sent| ==> p.sent[x].step < |p.status.steps|
    ensures
      var p := Visited(env, w, flow, am);
      var b' := Enrolled(w.books, flow, p.status.steps, p.sent);
      Sized(b') && Sound(env, b', flow, w.flows[flow].(stored := Persisted(p.status)))
  {
    var rec := w.flows[flow];
    var p := Visited(env, w, flow, am);
    assert Sound(env, w.books, flow, rec);
    if am.active && ValidGraph(rec.spec.steps) && am.agentsFound && !IsTerminal(rec.stored.phase) && am.connected {
      var r, seen := InitializedSound(env, w.books, flow, rec, am.now);
      AdvancedSound(env, maxRetries, w.books, flow, rec, am, Initialized(rec.spec, rec.stored, am.now), r, seen);
      var b' := Enrolled(w.books, flow, p.status.steps, p.sent);
      var r', seen' :| Witness(env, b', flow, rec.(stored := p.status), r', seen');
      PersistedSound(env, b', flow, rec.(stored := p.status), r', seen');
    } else if p.status != rec.stored {
      ConditionKeepsSound(env, w.books, flow, rec, p.status.ready);
    }
  }

  /** Sound flows and balanced books have the shape on which the definition of what can happen rests. */
  lemma SoundFormed(env: Env, maxRetries: int, w: World)
    requires Balanced(w.books, maxRetries) && forall i: nat :: i < |w.flows| ==> Sound(env, w.books, i, w.flows[i])
    ensures Formed(w)
  {
    forall i | 0 <= i < |w.flows|
      ensures w.flows[i].stored.phase != Unset ==> |w.flows[i].stored.steps| == |w.flows[i].spec.steps|
      ensures Persisted(w.flows[i].stored) == w.flows[i].stored
    {
      assert Sound(env, w.books, i, w.flows[i]);
    }
  }

  /** All flows but one are as they were, and that one is as it was or sound. */
  lemma FlowsStaySound(env: Env, w: World, b: Books, flow: nat, flows: seq<FlowRec>)
    requires Sized(w.books) && Sized(b) && Extends(w.books, b) && |flows| == |w.flows|
    requires forall i: nat :: i < |w.flows| ==> Sound(env, w.books, i, w.flows[i])
    requires forall i: nat :: i < |flows| && flows[i] != w.flows[i] ==> i == flow && Sound(env, b, flow, flows[i])
    ensures forall i: nat :: i < |flows| ==> Sound(env, b, i, flows[i])
  {
    forall i: nat | i < |flows|
      ensures Sound(env, b, i, flows[i])
    {
      if flows[i] == w.flows[i] {
        SoundStays(env, w.books, b, i, w.flows[i]);
      }
    }
  }

  lemma VisitKeepsBooks(env: Env, maxRetries: int, w: World, h: Happening)
    requires IsInt64(maxRetries) && Formed(w) && Balanced(w.books, maxRetries) && AllTruthful(env, w.books)
    requires h.Visit? && CanHappen(env, w, h)
    ensures
      var b' := Then(env, maxRetries, w, h).books;
      Balanced(b', maxRetries) && AllTruthful(env, b') && Extends(w.books, b')
  {
    var p := Visited(env, w, h.flow, h.am);
    PassInRange(env, w.flows[h.flow].spec, w.flows[h.flow].stored, w.books.q.results, |w.books.q.stream|, h.am);
    EnrollsAll(w.books, maxRetries, h.flow, p.status.steps, p.sent);
    TruthStays(env, w.books, Then(env, maxRetries, w, h).books);
  }

  lemma VisitedSound(env: Env, maxRetries: int, w: World, h: Happening)
    requires IsInt64(maxRetries) && Whole(env, maxRetries, w) && h.Visit? && CanHappen(env, w, h)
    requires Sized(Then(env, maxRetries, w, h).books)
    ensures
      Sound(env, Then(env, maxRetries, w, h).books, h.flow,
            w.flows[h.flow].(stored := Persisted(Visited(env, w, h.flow, h.am).status)))
  {
    PassInRange(env, w.flows[h.flow].spec, w.flows[h.flow].stored, w.books.q.results, |w.books.q.stream|, h.am);
    VisitSound(env, maxRetries, w, h.flow, h.am);
  }

  lemma VisitKeepsFlows(env: Env, maxRetries: int, w: World, h: Happening)
    requires IsInt64(maxRetries) && Whole(env, maxRetries, w) && h.Visit? && CanHappen(env, w, h)
    requires Sized(Then(env, maxRetries, w, h).books) && Extends(w.books, Then(env, maxRetries, w, h).books)
    ensures
      var w' := Then(env, maxRetries, w, h);
      forall i: nat :: i < |w'.flows| ==> Sound(env, w'.books, i, w'.flows[i])
  {
    var w' := Then(env, maxRetries, w, h);
    VisitedSound(env, maxRetries, w, h);
    FlowsStaySound(env, w, w'.books, h.flow, w'.flows);
  }

  lemma VisitKeepsWhole(env: Env, maxRetries: int, w: World, h: Happening)
    requires IsInt64(maxRetries) && Whole(env, maxRetries, w) && h.Visit? && CanHappen(env, w, h)
    ensures Whole(env, maxRetries, Then(env, maxRetries, w, h))
  {
    VisitKeepsBooks(env, maxRetries, w, h);
    VisitKeepsFlows(env, maxRetries, w, h);
    SoundFormed(env, maxRetries, Then(env, maxRetries, w, h));
  }

  lemma WorkKeepsWhole(env: Env, maxRetries: int, w: World, h: Happening)
    requires IsInt64(maxRetries) && Whole(env, maxRetries, w) && h.Work? && CanHappen(env, w, h)
    ensures Whole(env, maxRetries, Then(env, maxRetries, w, h))
  {
    var w' := Then(env, maxRetries, w, h);
    KeepsBalanced(w.books, maxRetries, h.e);
    RecordExtends(w.books, maxRetries, h.e);
    WorkKeepsTruth(env, w.books, maxRetries, h.e);
    forall i: nat | i < |w'.flows|
      ensures Sound(env, w'.books, i, w'.flows[i])
    {
      assert Sound(env, w.books, i, w.flows[i]);
      SoundStays(env, w.books, w'.books, i, w.flows[i]);
    }
  }

  /** Whatever happens, the cluster stays whole. */
  lemma KeepsWhole(env: Env, maxRetries: int, w: World, h: Happening)
    requires IsInt64(maxRetries) && Whole(env, maxRetries, w) && CanHappen(env, w, h)
    ensures Whole(env, maxRetries, Then(env, maxRetries, w, h))
  {
    match h
    case Visit(_, _, _) => VisitKeepsWhole(env, maxRetries, w, h);
    case Work(_) => WorkKeepsWhole(env, maxRetries, w, h);
    case Create(spec) =>
      var w' := Then(env, maxRetries, w, h);
      forall i: nat | i < |w'.flows|
        ensures Sound(env, w'.books, i, w'.flows[i])
      {
        if i < |w.flows| {
          assert Sound(env, w.books, i, w.flows[i]);
        } else {
          FreshPersists(FRESH_STATUS);
        }
      }
  }

  /** What a cluster can get into from a given world. */
  ghost predicate Unfolds(env: Env, maxRetries: int, from: World, hs: seq<Happening>, w: World)
    decreases |hs|
  {
    if hs == [] then w == from
    else exists v :: Unfolds(env, maxRetries, from, hs[..|hs| - 1], v) && Precedes(env, maxRetries, v, hs, w)
  }

  /** The last happening leads from the one to the other. */
  ghost predicate Precedes(env: Env, maxRetries: int, v: World, hs: seq<Happening>, w: World)
    requires hs != []
  {
    Formed(v) && CanHappen(env, v, hs[|hs| - 1]) && w == Then(env, maxRetries, v, hs[|hs| - 1])
  }

  lemma UnfoldsSnoc(env: Env, maxRetries: int, from: World, hs: seq<Happening>, w: World, h: Happening)
    requires Unfolds(env, maxRetries, from, hs, w) && Formed(w) && CanHappen(env, w, h)
    ensures Unfolds(env, maxRetries, from, hs + [h], Then(env, maxRetries, w, h))
  {
    assert (hs + [h])[..|hs|] == hs;
    assert Precedes(env, maxRetries, w, hs + [h], Then(env, maxRetries, w, h));
  }

  /** The cluster's histories start with no flow and an empty queue. */
  ghost predicate Evolves(env: Env, maxRetries: int, hs: seq<Happening>, w: World) {
    Unfolds(env, maxRetries, EMPTY_WORLD, hs, w)
  }

  lemma {:induction false} StaysWhole(env: Env, maxRetries: int, from: World, hs: seq<Happening>, w: World)
    requires IsInt64(maxRetries) && Whole(env, maxRetries, from) && Unfolds(env, maxRetries, from, hs, w)
    ensures Whole(env, maxRetries, w)
    decreases |hs|
  {
    if hs != [] {
      var v :| Unfolds(env, maxRetries, from, hs[..|hs| - 1], v) && Precedes(env, maxRetries, v, hs, w);
      StaysWhole(env, maxRetries, from, hs[..|hs| - 1], v);
      KeepsWhole(env, maxRetries, v, hs[|hs| - 1]);
    }
  }

  /** In every history of the cluster the books balance, the results are truthful, and every written status is sound. */
  lemma AlwaysWhole(env: Env, maxRetries: int, hs: seq<Happening>, w: World)
    requires IsInt64(maxRetries) && Evolves(env, maxRetries, hs, w)
    ensures Whole(env, maxRetries, w)
  {
    StaysWhole(env, maxRetries, EMPTY_WORLD, hs, w);
  }

  /** The world before the last happening of a history. */
  lemma BeforeLast(env: Env, maxRetries: int, hs: seq<Happening>, w: World) returns (v: World)
    requires IsInt64(maxRetries) && Evolves(env, maxRetries, hs, w) && hs != []
    ensures Evolves(env, maxRetries, hs[..|hs| - 1], v) && Whole(env, maxRetries, v)
    ensures Formed(v) && CanHappen(env, v, hs[|hs| - 1]) && w == Then(env, maxRetries, v, hs[|hs| - 1])
    ensures |v.flows| <= |w.flows| && forall i :: 0 <= i < |v.flows| ==> w.flows[i].spec == v.flows[i].spec
  {
    assert Unfolds(env, maxRetries, EMPTY_WORLD, hs, w);
    var init := hs[..|hs| - 1];
    v :| Unfolds(env, maxRetries, EMPTY_WORLD, init, v) && Precedes(env, maxRetries, v, hs, w);
    AlwaysWhole(env, maxRetries, init, v);
    SpecsKept(env, maxRetries, v, hs[|hs| - 1]);
  }

  /** Whatever happens, nothing that was entered in the books changes. */
  lemma HappeningExtends(env: Env, maxRetries: int, w: World, h: Happening)
    requires IsInt64(maxRetries) && Whole(env, maxRetries, w) && CanHappen(env, w, h)
    ensures
      var w' := Then(env, maxRetries, w, h);
      Whole(env, maxRetries, w') && Extends(w.books, w'.books)
  {
    KeepsWhole(env, maxRetries, w, h);
    match h
    case Create(_) =>
    case Work(e) => RecordExtends(w.books, maxRetries, e);
    case Visit(_, _, _) => VisitKeepsBooks(env, maxRetries, w, h);
  }

  lemma SpecsKept(env: Env, maxRetries: int, w: World, h: Happening)
    requires Formed(w) && CanHappen(env, w, h)
    ensures
      var w' := Then(env, maxRetries, w, h);
      |w.flows| <= |w'.flows| && forall i :: 0 <= i < |w.flows| ==> w'.flows[i].spec == w.flows[i].spec
  {
  }
}
