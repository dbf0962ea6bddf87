/**
 * The operator and the workers together: many flows sharing one task queue, reconciles whose status write may be
 * lost, and workers that deliver, answer, retry and bury tasks in any order.
 */
module Cluster {
  import opened FlowTypes
  import opened Templates
  import opened Engine
  import opened Passes
  import opened Agreement
  import opened Persistence
  import opened Decimal
  import opened TaskQueue
  import opened Ledger
  import opened Reconciler

  /** A flow and the status last written for it. */
  datatype FlowRec = FlowRec(spec: FlowSpec, stored: Status)

  datatype World = World(books: Books, flows: seq<FlowRec>)

  /** A flow is created; one is reconciled, and its status written or lost; a worker or an agent uses the queue. */
  datatype Happening =
    | Create(spec: FlowSpec)
    | Visit(flow: nat, am: Ambient, lost: bool)
    | Work(e: Event)

  const EMPTY_WORLD := World(OPENING, [])

  /** The books after the tasks of a pass have been submitted in the name of their steps. */
  function Enrolled(b: Books, flow: nat, steps: seq<StepStatus>, sent: seq<Sent>): (b': Books)
    requires |b.owner| == |b.root| == |b.tries| == |b.fate| == |b.q.stream|
    requires forall x :: 0 <= x < |sent| ==> sent[x].step < |steps|
    ensures |b'.owner| == |b'.root| == |b'.tries| == |b'.fate| == |b'.q.stream| == |b.q.stream| + |sent|
    ensures b'.q.pel == b.q.pel
  {
    if sent == [] then b
    else
      var t := sent[|sent| - 1];
      var rest := Enrolled(b, flow, steps, sent[..|sent| - 1]);
      WithEntry(rest, ByStep(flow, t.step, steps[t.step].iterations), |rest.q.stream|,
          0).(q := Submitted(rest.q, t.prompt))
  }

  /** The tasks in the pass belong to steps of the flow. */
  lemma {:induction false} SentInRange(env: Env, spec: FlowSpec, steps: seq<StepStatus>, data: Data, am: Ambient,
          base: nat, k: nat)
    requires |steps| == |spec.steps| && k <= |steps|
    ensures forall t :: t in SubmitPass(env, spec, steps, data, am, base, k).sent ==> t.step < k
  {
    if k > 0 {
      SentInRange(env, spec, steps, data, am, base, k - 1);
    }
  }

  lemma PassInRange(env: Env, spec: FlowSpec, st: Status, results: seq<Result>, base: nat, am: Ambient)
    requires st.phase != Unset ==> |st.steps| == |spec.steps|
    ensures
      var p := Reconciled(env, spec, st, results, base, am);
      && (p.sent != [] ==> |p.status.steps| == |spec.steps|)
      && (forall x :: 0 <= x < |p.sent| ==> p.sent[x].step < |p.status.steps|)
  {
    var st0 := Initialized(spec, st, am.now);
    if |st0.steps| == |spec.steps| {
      var gathered := Gathered(env, spec, st0.steps, results, am.now);
      var data := Snapshot(env, spec, gathered);
      SentInRange(env, spec, LoopAll(env, spec, gathered, data), data, am, base, |st0.steps|);
    }
  }

  ghost predicate Formed(w: World) {
    && Sized(w.books)
    && forall i :: 0 <= i < |w.flows| ==>
        && (w.flows[i].stored.phase != Unset ==> |w.flows[i].stored.steps| == |w.flows[i].spec.steps|)
        && Persisted(w.flows[i].stored) == w.flows[i].stored
  }

  /**
   * An event of the queue that workers and agents can cause; answers come from the agents, with non-negative token
   * counts.
   */
  ghost predicate FromOutside(env: Env, b: Books, e: Event)
    requires Sized(b)
  {
    && Possible(b, e)
    && (e.Submission? ==> e.who == ByAgent)
    && (e.Success? ==> env.answers(PromptAt(b, e.id), e.result) && e.inTok >= 0 && e.outTok >= 0)
  }

  ghost predicate CanHappen(env: Env, w: World, h: Happening)
    requires Formed(w)
  {
    match h
    case Create(spec) => UniqueNames(spec.steps)
    case Visit(flow, am, _) => flow < |w.flows| && Shuffles(am.shuffle)
    case Work(e) => FromOutside(env, w.books, e)
  }

  ghost function Visited(env: Env, w: World, flow: nat, am: Ambient): Pass
    requires Formed(w) && flow < |w.flows|
  {
    Reconciled(env, w.flows[flow].spec, w.flows[flow].stored, w.books.q.results, |w.books.q.stream|, am)
  }

  ghost function Then(env: Env, maxRetries: int, w: World, h: Happening): World
    requires Formed(w) && CanHappen(env, w, h)
  {
    match h
    case Create(spec) => w.(flows := w.flows + [FlowRec(spec, FRESH_STATUS)])
    case Work(e) => w.(books := Record(w.books, maxRetries, e))
    case Visit(flow, am, lost) =>
      var p := Visited(env, w, flow, am);
      PassInRange(env, w.flows[flow].spec, w.flows[flow].stored, w.books.q.results, |w.books.q.stream|, am);
      World(
        Enrolled(w.books, flow, p.status.steps, p.sent),
        if p.write && !lost then w.flows[flow := w.flows[flow].(stored := Persisted(p.status))] else w.flows)
  }

  // ------------------------------------------------------------ provenance

  /**
   * A running step waits for a task submitted for it in this iteration, which asks what it was launched with; a
   * succeeded step holds the one result of such a task.
   */
  ghost predicate Vouched(b: Books, flow: nat, i: nat, st: StepStatus, asked: string)
    requires Sized(b)
  {
    st.phase == Running || st.phase == Succeeded ==>
      && st.taskID.Some? && st.taskID.value < |b.owner|
      && b.owner[st.taskID.value] == ByStep(flow, i, st.iterations)
      && (st.phase == Running ==> PromptAt(b, st.taskID.value) == asked)
      && (st.phase == Succeeded ==>
            && b.fate[st.taskID.value].Answered?
            && b.fate[st.taskID.value].result < |b.q.results|
            && b.q.results[b.fate[st.taskID.value].result] .taskID == st.taskID.value
            && b.q.results[b.fate[st.taskID.value].result].result == st.output)
  }

  ghost predicate AllVouched(b: Books, flow: nat, steps: seq<StepStatus>, asked: seq<string>)
    requires Sized(b)
  {
    |asked| == |steps| && forall i: nat :: i < |steps| ==> Vouched(b, flow, i, steps[i], asked[i])
  }

  /** The books of a later moment: nothing that was entered has changed. */
  ghost predicate Extends(a: Books, b: Books)
    requires Sized(a) && Sized(b)
  {
    && |a.owner| <= |b.owner| && |a.q.results| <= |b.q.results|
    && (forall id: nat :: id < |a.owner| ==> EntryKept(a, b, id))
    && (forall k: nat :: k < |a.q.results| ==> b.q.results[k] == a.q.results[k])
  }

  ghost predicate EntryKept(a: Books, b: Books, id: nat)
    requires Sized(a) && Sized(b) && id < |a.owner| <= |b.owner|
  {
    && b.owner[id] == a.owner[id] && b.q.stream[id] == a.q.stream[id]
    && (a.fate[id].Answered? ==> b.fate[id] == a.fate[id])
  }

  lemma VouchedStays(a: Books, b: Books, flow: nat, i: nat, st: StepStatus, asked: string)
    requires Sized(a) && Sized(b) && Extends(a, b) && Vouched(a, flow, i, st, asked)
    ensures Vouched(b, flow, i, st, asked)
  {
    if st.phase == Running || st.phase == Succeeded {
      assert EntryKept(a, b, st.taskID.value);
    }
  }

  lemma AllVouchedStays(a: Books, b: Books, flow: nat, steps: seq<StepStatus>, asked: seq<string>)
    requires Sized(a) && Sized(b) && Extends(a, b) && AllVouched(a, flow, steps, asked)
    ensures AllVouched(b, flow, steps, asked)
  {
    forall i: nat | i < |steps|
      ensures Vouched(b, flow, i, steps[i], asked[i])
    {
      VouchedStays(a, b, flow, i, steps[i], asked[i]);
    }
  }

  /** Results on the stream are agents' answers to the prompts of their tasks. */
  ghost predicate Truthful(env: Env, b: Books, k: nat)
    requires Sized(b) && k < |b.q.results|
  {
    var r := b.q.results[k];
    && r.taskID < |b.q.stream| && env.answers(PromptAt(b, r.taskID), r.result)
    && ToInt64(r.inputTokens) >= 0 && ToInt64(r.outputTokens) >= 0
  }

  ghost predicate AllTruthful(env: Env, b: Books)
    requires Sized(b)
  {
    forall k: nat :: k < |b.q.results| ==> Truthful(env, b, k)
  }

  /** The status was never initialized. */
  ghost predicate Untouched(st: Status) {
    st == FRESH_STATUS.(ready := st.ready)
  }

  /** The written status is that of a run of the engine whose answers all come from the right tasks. */
  ghost predicate Sound(env: Env, b: Books, flow: nat, rec: FlowRec)
    requires Sized(b)
  {
    && UniqueNames(rec.spec.steps) && Persisted(rec.stored) == rec.stored
    && (Untouched(rec.stored) || exists r, seen :: Witness(env, b, flow, rec, r, seen))
  }

  ghost predicate Witness(env: Env, b: Books, flow: nat, rec: FlowRec, r: Run, seen: seq<StepStatus>)
    requires Sized(b)
  {
    && (rec.stored.phase == FlowRunning || IsTerminal(rec.stored.phase))
    && Backed(env, rec.spec, rec.stored, r, seen)
    && AllVouched(b, flow, rec.stored.steps, r.asked)
  }

  ghost predicate Whole(env: Env, maxRetries: int, w: World) {
    && Formed(w) && Balanced(w.books, maxRetries) && AllTruthful(env, w.books)
    && forall i: nat :: i < |w.flows| ==> Sound(env, w.books, i, w.flows[i])
  }
}
