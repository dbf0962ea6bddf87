/** How often the reconciler submits a step: exactly once per iteration, as long as no status write is lost. */
module ClusterTally {
  import opened FlowTypes
  import opened Templates
  import opened Engine
  import opened Passes
  import opened Persistence
  import opened Decimal
  import opened TaskQueue
  import opened Ledger
  import opened Reconciler
  import opened Cluster
  import opened ClusterTheory

  predicate IsFor(o: Owner, flow: nat, i: nat) {
    o.ByStep? && o.flow == flow && o.step == i
  }

  /** How many tasks were submitted for step i of a flow. */
  function Tally(owners: seq<Owner>, flow: nat, i: nat): nat {
    if owners == [] then 0
    else Tally(owners[..|owners| - 1], flow, i) + if IsFor(owners[|owners| - 1], flow, i) then 1 else 0
  }

  lemma TallyOneMore(owners: seq<Owner>, o: Owner, flow: nat, i: nat)
    ensures Tally(owners + [o], flow, i) == Tally(owners, flow, i) + if IsFor(o, flow, i) then 1 else 0
  {
    assert (owners + [o])[..|owners|] == owners;
  }

  /**
   * How many a step's record accounts for: one per repetition, and one if this repetition is under way or has
   * succeeded.
   */
  function Due(st: StepStatus): nat {
    st.iterations + if st.phase == Running || st.phase == Succeeded then 1 else 0
  }

  function SentFor(sent: seq<Sent>, i: nat): nat {
    if sent == [] then 0 else SentFor(sent[..|sent| - 1], i) + if sent[|sent| - 1].step == i then 1 else 0
  }

  /** Enrolling a pass adds the tasks it sent, to this flow's steps only. */
  lemma {:induction false} EnrolledTally(b: Books, flow: nat, steps: seq<StepStatus>, sent: seq<Sent>, f: nat, i: nat)
    requires |b.owner| == |b.root| == |b.tries| == |b.fate| == |b.q.stream|
    requires forall x :: 0 <= x < |sent| ==> sent[x].step < |steps|
    ensures Tally(Enrolled(b, flow, steps, sent).owner, f, i) == Tally(b.owner, f, i) + if f == flow
      then SentFor(sent, i) else 0
    decreases |sent|
  {
    if sent != [] {
      var t := sent[|sent| - 1];
      EnrolledTally(b, flow, steps, sent[..|sent| - 1], f, i);
      TallyOneMore(Enrolled(b, flow, steps, sent[..|sent| - 1]).owner, ByStep(flow, t.step, steps[t.step].iterations),
          f, i);
    }
  }

  /** The queue's own events submit nothing for a step. */
  lemma WorkTally(env: Env, b: Books, maxRetries: int, e: Event, f: nat, i: nat)
    requires Sized(b) && FromOutside(env, b, e)
    ensures Tally(Record(b, maxRetries, e).owner, f, i) == Tally(b.owner, f, i)
  {
    match e
    case Submission(_, who) => TallyOneMore(b.owner, who, f, i);
    case Failure(id, _) => TallyOneMore(b.owner, ByRetry(id), f, i);
    case _ =>
  }

  lemma SentForSnoc(sent: seq<Sent>, t: Sent, i: nat)
    ensures SentFor(sent + [t], i) == SentFor(sent, i) + if t.step == i then 1 else 0
  {
    assert (sent + [t])[..|sent|] == sent;
  }

  /** submitPendingSteps sends a step one task if it sets it running, and none otherwise. */
  lemma SubmitOneSends(env: Env, spec: FlowSpec, s: Sub, data: Data, am: Ambient, base: nat, k: nat, i: nat)
    requires |s.steps| == |spec.steps| && k < |s.steps| && i < |s.steps|
    ensures
      var s' := SubmitOne(env, spec, s, data, am, base, k);
      Due(s'.steps[i]) + SentFor(s.sent, i) == Due(s.steps[i]) + SentFor(s'.sent, i)
  {
    match Decide(env, spec, s.steps, data, k)
    case LaunchIt =>
      SentForSnoc(s.sent, Sent(k, PromptOf(env, spec.steps[k], data, am.shuffle)), i);
    case _ =>
  }

  /** The tasks sent are those that step i's record accounts for beyond its old one. */
  ghost predicate Accounts(st: StepStatus, s: Sub, i: nat)
    requires i < |s.steps|
  {
    Due(s.steps[i]) == Due(st) + SentFor(s.sent, i)
  }

  lemma StepAccounts(env: Env, spec: FlowSpec, st: StepStatus, s: Sub, data: Data, am: Ambient, base: nat, k: nat,
          i: nat)
    returns (s': Sub)
    requires |s.steps| == |spec.steps| && k < |s.steps| && i < |s.steps| && Accounts(st, s, i)
    ensures |s'.steps| == |s.steps| && Accounts(st, s', i)
    ensures s' == if s.ok then SubmitOne(env, spec, s, data, am, base, k) else s
  {
    s' := s;
    if s.ok {
      s' := SubmitOne(env, spec, s, data, am, base, k);
      SubmitOneSends(env, spec, s, data, am, base, k, i);
    }
  }

  /** The tasks that a pass sends are accounted for. */
  lemma {:induction false} SubmitSends(env: Env, spec: FlowSpec, steps: seq<StepStatus>, data: Data, am: Ambient,
          base: nat, k: nat, i: nat)
    returns (s: Sub)
    requires |steps| == |spec.steps| && k <= |steps| && i < |steps|
    ensures |s.steps| == |steps| && Accounts(steps[i], s, i)
    ensures s == SubmitPass(env, spec, steps, data, am, base, k)
    decreases k
  {
    if k == 0 {
      s := Sub(steps, [], true);
    } else {
      s := SubmitSends(env, spec, steps, data, am, base, k - 1, i);
      s := StepAccounts(env, spec, steps[i], s, data, am, base, k - 1, i);
    }
  }

  /** Collecting, parsing and looping change nothing in what a record accounts for. */
  lemma {:induction false} ScanKeepsDue(st: StepStatus, id: nat, results: seq<Result>, now: int)
    requires st.phase == Running
    ensures var st' := TakeAll(st, id, results, now);
      && Due(st') == Due(st)
      && (st'.phase == Running || st'.phase == Succeeded)
    decreases |results|
  {
    if results != [] {
      ScanKeepsDue(st, id, results[..|results| - 1], now);
    }
  }

  lemma GatheringKeepsDue(env: Env, step: Step, st: StepStatus, results: seq<Result>, now: int, data: Data)
    ensures Due(LoopOne(env, step, Parsed(env, step, Collected(st, results, now)), data)) == Due(st)
  {
    if IsWaiting(st) {
      ScanKeepsDue(st, st.taskID.value, results, now);
    }
  }

  /** A pass submits for each step exactly what its new record accounts for beyond the old one. */
  lemma PassTally(env: Env, spec: FlowSpec, st: Status, results: seq<Result>, base: nat, am: Ambient, i: nat)
    requires |st.steps| == |spec.steps| && i < |st.steps|
    ensures
      var p := Advanced(env, spec, st, results, base, am);
      Due(p.status.steps[i]) == Due(st.steps[i]) + SentFor(p.sent, i)
  {
    if !(AnyWaiting(st.steps) && !am.readable) {
      AdvancedParts(env, spec, st, results, base, am);
      var gathered := Gathered(env, spec, st.steps, results, am.now);
      var data := Snapshot(env, spec, gathered);
      GatheringKeepsDue(env, spec.steps[i], st.steps[i], results, am.now, data);
      var s := SubmitSends(env, spec, AfterLoops(env, spec, gathered), data, am, base, |st.steps|, i);
    }
  }

  /** A step's record, in a status that may not have been initialized yet. */
  function DueIn(rec: FlowRec, i: nat): nat {
    if i < |rec.stored.steps| then Due(rec.stored.steps[i]) else 0
  }

  /** The record accounts for every task submitted for the step; for a flow that does not exist there are none. */
  ghost predicate Tallied(w: World, flow: nat, i: nat) {
    Tally(w.books.owner, flow, i) == if flow < |w.flows| then DueIn(w.flows[flow], i) else 0
  }

  lemma {:induction false} NoneSent(sent: seq<Sent>, n: nat, i: nat)
    requires n <= i && forall x :: 0 <= x < |sent| ==> sent[x].step < n
    ensures SentFor(sent, i) == 0
  {
    if sent != [] {
      NoneSent(sent[..|sent| - 1], n, i);
    }
  }

  /** A visit submits what the pass's record accounts for beyond the stored one. */
  lemma VisitSends(env: Env, spec: FlowSpec, st: Status, results: seq<Result>, base: nat, am: Ambient, i: nat)
    requires st.phase != Unset ==> |st.steps| == |spec.steps|
    requires st.phase == Unset ==> st.steps == []
    ensures
      var p := Reconciled(env, spec, st, results, base, am);
      && DueIn(FlowRec(spec, p.status), i) == DueIn(FlowRec(spec, st), i) + SentFor(p.sent, i)
      && (!p.write ==> p.sent == [])
  {
    var p := Reconciled(env, spec, st, results, base, am);
    if p.sent != [] || p.status.steps != st.steps {
      var st0 := Initialized(spec, st, am.now);
      PassInRange(env, spec, st, results, base, am);
      if i < |st0.steps| {
        PassTally(env, spec, st0, results, base, am, i);
      } else {
        NoneSent(p.sent, |st0.steps|, i);
      }
    }
  }

  /** A flow that was not initialized has no records. */
  ghost predicate UntouchedIsEmpty(w: World, flow: nat) {
    flow < |w.flows| && (w.flows[flow].stored.phase == Unset ==> w.flows[flow].stored.steps == [])
  }

  lemma DuePersists(rec: FlowRec, i: nat)
    ensures DueIn(rec.(stored := Persisted(rec.stored)), i) == DueIn(rec, i)
  {
  }

  /** The books, and the flow visited, account for the tasks of the pass. */
  lemma VisitedTally(env: Env, w: World, visited: nat, am: Ambient, flow: nat, i: nat)
    requires Formed(w) && UntouchedIsEmpty(w, visited)
    ensures
      var p, rec := Visited(env, w, visited, am), w.flows[visited];
      && (forall x :: 0 <= x < |p.sent| ==> p.sent[x].step < |p.status.steps|)
      && Tally(Enrolled(w.books, visited, p.status.steps, p.sent).owner, flow, i)
         == Tally(w.books.owner, flow, i) + (if flow == visited then SentFor(p.sent, i) else 0)
      && DueIn(rec.(stored := Persisted(p.status)), i) == DueIn(rec, i) + SentFor(p.sent, i)
      && (!p.write ==> p.sent == [])
  {
    var p, rec := Visited(env, w, visited, am), w.flows[visited];
    PassInRange(env, rec.spec, rec.stored, w.books.q.results, |w.books.q.stream|, am);
    EnrolledTally(w.books, visited, p.status.steps, p.sent, flow, i);
    VisitSends(env, rec.spec, rec.stored, w.books.q.results, |w.books.q.stream|, am, i);
    DuePersists(FlowRec(rec.spec, p.status), i);
  }

  lemma VisitTallied(env: Env, maxRetries: int, w: World, h: Happening, flow: nat, i: nat)
    requires Formed(w) && CanHappen(env, w, h) && Tallied(w, flow, i)
    requires h.Visit? && UntouchedIsEmpty(w, h.flow) && (h.flow == flow ==> !h.lost)
    ensures Tallied(Then(env, maxRetries, w, h), flow, i)
  {
    VisitedTally(env, w, h.flow, h.am, flow, i);
  }

  lemma HappeningTallied(env: Env, maxRetries: int, w: World, h: Happening, flow: nat, i: nat)
    requires Whole(env, maxRetries, w) && CanHappen(env, w, h) && Tallied(w, flow, i)
    requires h.Visit? && h.flow == flow ==> !h.lost
    ensures Tallied(Then(env, maxRetries, w, h), flow, i)
  {
    match h
    case Create(_) =>
    case Work(e) => WorkTally(env, w.books, maxRetries, e, flow, i);
    case Visit(f, _, _) =>
      assert Sound(env, w.books, f, w.flows[f]);
      VisitTallied(env, maxRetries, w, h, flow, i);
  }

  /** No status write of the flow is lost. */
  ghost predicate Lossless(hs: seq<Happening>, flow: nat) {
    forall k :: 0 <= k < |hs| && hs[k].Visit? && hs[k].flow == flow ==> !hs[k].lost
  }

  /**
   * As long as no status write of the flow is lost, a step has been submitted once per repetition, and once more if
   * it is running or has succeeded.
   */
  lemma {:induction false} SubmittedOncePerIteration(env: Env, maxRetries: int, hs: seq<Happening>, w: World, flow: nat,
          i: nat)
    requires IsInt64(maxRetries) && Evolves(env, maxRetries, hs, w) && Lossless(hs, flow)
    ensures Tallied(w, flow, i)
    decreases |hs|
  {
    if hs != [] {
      var v := BeforeLast(env, maxRetries, hs, w);
      SubmittedOncePerIteration(env, maxRetries, hs[..|hs| - 1], v, flow, i);
      HappeningTallied(env, maxRetries, v, hs[|hs| - 1], flow, i);
    }
  }

  /** So it is submitted once, and with a loop at most MaxIterations times more, or ten if that is not positive. */
  lemma SubmissionsBounded(env: Env, maxRetries: int, hs: seq<Happening>, w: World, flow: nat, i: nat)
    requires IsInt64(maxRetries) && Evolves(env, maxRetries, hs, w) && Lossless(hs, flow)
    requires flow < |w.flows| && i < |w.flows[flow].spec.steps|
    ensures
      match w.flows[flow].spec.steps[i].loop
      case None => Tally(w.books.owner, flow, i) <= 1
      case Some(loop) =>
        Tally(w.books.owner, flow, i) <= if loop.maxIterations <= 0 then 11 else 1 + loop.maxIterations
  {
    SubmittedOncePerIteration(env, maxRetries, hs, w, flow, i);
    AlwaysWhole(env, maxRetries, hs, w);
    assert Sound(env, w.books, flow, w.flows[flow]);
    if w.flows[flow].stored.phase != Unset {
      var r, seen :| Witness(env, w.books, flow, w.flows[flow], r, seen);
      ReachableInv(env, w.flows[flow].spec, r);
      assert Clean(env, w.flows[flow].spec.steps[i], r.steps[i]);
    }
  }
}
