/** A flow, a history of the cluster and a host that meet everything the agreement of the two drivers demands. */
module Example {
  import opened Wrappers
  import opened FlowTypes
  import opened Templates
  import opened Dag
  import opened Engine
  import opened Passes
  import opened Persistence
  import opened Meaning
  import opened Decimal
  import opened TaskQueue
  import opened Ledger
  import opened Reconciler
  import opened Cluster
  import opened ClusterTheory
  import opened LocalRun
  import opened LocalTheory
  import opened LocalOutcome
  import ClusterResults

  const A_OUTPUT := "{{ .steps.a.output }}"
  const B_OUTPUT := "{{ .steps.b.output }}"

  const A := Step("a", "agent", map[], [], "", "", None)
  const B := Step("b", "agent", map["x" := A_OUTPUT], ["a"], "", "", None)

  /** Step "b" reads the output of "a", and the flow's result is the output of "b". */
  const PAIR := FlowSpec([A, B], map[], B_OUTPUT, 0, 0)

  function OutputIn(data: Data, name: string): string {
    if name in data.steps then data.steps[name].output else ""
  }

  /** The agents put the prompt in brackets. */
  function Echo(prompt: string): string {
    "(" + prompt + ")"
  }

  const PAIR_ENV := Env(
    (tmpl, data) => Some(if tmpl == A_OUTPUT then OutputIn(data, "a") else if tmpl == B_OUTPUT
        then OutputIn(data, "b") else ""),
    _ => false,
    (prompt, answer) => answer == Echo(prompt))

  ghost const PAIR_HOST := Host((_, prompt, _) => Answer(Echo(prompt), 0, 0), _ => 0, _ => (_, keys) => SomeOrder(keys))

  ghost const CALM := Ambient(true, true, true, true, 2, 0, (_, keys) => SomeOrder(keys))

  lemma PairNames()
    ensures |PAIR.steps| == 2 && PAIR.steps[0] == A && PAIR.steps[1] == B
    ensures A.name != B.name && UniqueNames(PAIR.steps) && DependsOn(PAIR, 1, 0)
    ensures !DependsOn(PAIR, 0, 0) && !DependsOn(PAIR, 0, 1) && !DependsOn(PAIR, 1, 1)
  {
    assert A.name[0] == 'a' && B.name[0] == 'b';
    assert B.dependsOn[0] == A.name;
  }

  lemma PairIsValid()
    ensures ValidGraph(PAIR.steps)
  {
    PairNames();
    var g := Adjacency(PAIR.steps);
    AdjacencyAt(PAIR.steps, 0);
    AdjacencyAt(PAIR.steps, 1);
    var order := ["a", "b"];
    assert order[..1] == ["a"] && order[0] == "a" && order[1] == "b";
    assert Topological(g, order);
    TopologicalImpliesAcyclic(g, order);
  }

  lemma PairReads()
    ensures ReadsDependencies(PAIR_ENV, PAIR) && OwnLoops(PAIR_ENV, PAIR)
  {
    PairNames();
    var g := Adjacency(PAIR.steps);
    AdjacencyAt(PAIR.steps, 1);
    assert B.dependsOn[0] == "a";
    assert Edge(g, "b", "a");
    assert Walk(g, ["b", "a"]);
    assert WalkFromTo(g, ["b", "a"], "b", "a");
    assert A_OUTPUT != "" && B_OUTPUT != "";
    forall d, e | SameBelow(g, d, e, "b")
      ensures PAIR_ENV.resolve(A_OUTPUT, d) == PAIR_ENV.resolve(A_OUTPUT, e)
    {
      assert SameEntry(d, e, "a");
    }
    assert StepReadsBelow(PAIR_ENV, g, B);
    assert StepReadsBelow(PAIR_ENV, g, A);
  }

  lemma PairAgents()
    ensures Consistent(PAIR_ENV, Echo, PAIR) && Honest(PAIR_ENV, PAIR_HOST) && NeverFaults(PAIR_HOST)
  {
    PairNames();
    forall i | 0 <= i < |PAIR.steps|
      ensures |PAIR.steps[i].inputs| <= 1
    {
      assert B.inputs.Keys == {"x"};
    }
    FewInputsAreBlind(Echo, PAIR);
  }

  lemma PairSucceedsLocally(now: int)
    ensures RunAll(PAIR_ENV, PAIR_HOST, PAIR, now).phase == FlowSucceeded
  {
    PairNames();
    PairIsValid();
    PairAgents();
    UnlimitedRunsSucceed(PAIR_ENV, PAIR_HOST, PAIR, now);
  }

  // ----------------------------------------------------- the three reconciles

  /** Without schemas and loops, gathering results is all that happens before the submissions. */
  lemma OnlyCollects(steps: seq<StepStatus>, results: seq<Result>)
    requires |steps| == 2
    requires forall i :: 0 <= i < 2 ==> CollectAll(steps, results, 0)[i].outputJSON == ""
    ensures Gathered(PAIR_ENV, PAIR, steps, results, 0) == CollectAll(steps, results, 0)
    ensures AfterLoops(PAIR_ENV, PAIR, Gathered(PAIR_ENV, PAIR, steps, results, 0)) == CollectAll(steps, results, 0)
  {
    PairNames();
    var c := CollectAll(steps, results, 0);
    assert ParseAll(PAIR_ENV, PAIR, c) == c;
    assert LoopAll(PAIR_ENV, PAIR, c, Snapshot(PAIR_ENV, PAIR, c)) == c;
  }

  lemma PairDependencies(steps: seq<StepStatus>)
    requires |steps| == 2 && steps[0].name == "a" && steps[1].name == "b"
    ensures DepsSucceeded(A.dependsOn, steps)
    ensures DepsSucceeded(B.dependsOn, steps) <==> Done(steps[0].phase)
  {
    PairNames();
    assert A.name == "a" && B.name == "b";
    IndexAt(PAIR, steps, 0);
    assert B.dependsOn[0] == "a";
  }

  lemma PairDecides(steps: seq<StepStatus>, data: Data)
    requires |steps| == 2 && steps[0].name == "a" && steps[1].name == "b"
    ensures Decide(PAIR_ENV, PAIR, steps, data, 0) == if steps[0].phase == Pending then LaunchIt else Leave
    ensures Decide(PAIR_ENV, PAIR, steps, data, 1) == if steps[1].phase == Pending && Done(steps[0].phase)
      then LaunchIt else Leave
  {
    PairNames();
    PairDependencies(steps);
  }

  /** A step that is running under a task. */
  function Waits(step: Step, id: nat): StepStatus {
    Launched(Blank(step), Some(id), 0)
  }

  /** A step that took an answer without token counts. */
  function Took(step: Step, id: nat, answer: string): StepStatus {
    Finished(Waits(step, id), answer, 0, 0, false, 0)
  }

  function ResultOf(id: nat, answer: string): Result {
    Result(id, answer, Itoa(0), Itoa(0))
  }

  lemma TakesAnswer(step: Step, id: nat, other: nat, answer: string, rest: string)
    requires other != id
    ensures Collected(Waits(step, id), [ResultOf(id, answer)], 0) == Took(step, id, answer)
    ensures Collected(Waits(step, id), [ResultOf(other, rest), ResultOf(id, answer)], 0) == Took(step, id, answer)
  {
    RoundTrip(0);
    var one, two := [ResultOf(id, answer)], [ResultOf(other, rest), ResultOf(id, answer)];
    assert one[..0] == [] && two[..1] == [ResultOf(other, rest)] && two[..1][..0] == [];
    var st := Waits(step, id);
    assert TakeOne(st, ResultOf(id, answer), 0) == Took(step, id, answer);
    assert TakeAll(st, id, one[..0], 0) == st;
    assert TakeAll(st, id, two[..1], 0) == st;
  }

  /** The records after the launch of step i. */
  function Launch(steps: seq<StepStatus>, i: nat, id: nat): seq<StepStatus>
    requires i < |steps|
  {
    steps[i := Launched(steps[i], Some(id), 0)]
  }

  ghost function TaskFor(i: nat, data: Data): Sent
    requires i < 2
  {
    Sent(i, PromptOf(PAIR_ENV, PAIR.steps[i], data, CALM.shuffle))
  }

  /** A pass looks at the first step, then at the second. */
  lemma PassOfTwo(steps: seq<StepStatus>, data: Data, base: nat, mid: Sub)
    requires |steps| == 2 && mid == SubmitOne(PAIR_ENV, PAIR, Sub(steps, [], true), data, CALM, base, 0) && mid.ok
    ensures SubmitPass(PAIR_ENV, PAIR, steps, data, CALM, base, 2)
      == SubmitOne(PAIR_ENV, PAIR, mid, data, CALM, base, 1)
  {
    assert SubmitPass(PAIR_ENV, PAIR, steps, data, CALM, base, 0) == Sub(steps, [], true);
    assert SubmitPass(PAIR_ENV, PAIR, steps, data, CALM, base, 1) == mid;
  }

  lemma LaunchesOne(steps: seq<StepStatus>, sent: seq<Sent>, data: Data, base: nat, i: nat)
    requires |steps| == 2 && i < 2 && |sent| < 2 && Decide(PAIR_ENV, PAIR, steps, data, i) == LaunchIt
    ensures
      SubmitOne(PAIR_ENV, PAIR, Sub(steps, sent, true), data, CALM, base, i) ==
      Sub(Launch(steps, i, base + |sent|), sent + [TaskFor(i, data)], true)
  {
  }

  lemma LeavesOne(s: Sub, data: Data, base: nat, i: nat)
    requires |s.steps| == 2 && i < 2 && Decide(PAIR_ENV, PAIR, s.steps, data, i) == Leave
    ensures SubmitOne(PAIR_ENV, PAIR, s, data, CALM, base, i) == s
  {
  }

  /** A pass over two fresh steps launches the first. */
  lemma FirstPass(steps: seq<StepStatus>, data: Data, base: nat)
    requires |steps| == 2 && steps[0].name == "a" && steps[1].name == "b" && steps[0].phase == Pending
    ensures SubmitPass(PAIR_ENV, PAIR, steps, data, CALM, base, 2)
      == Sub(Launch(steps, 0, base), [TaskFor(0, data)], true)
  {
    PairDecides(steps, data);
    PairDecides(Launch(steps, 0, base), data);
    LaunchesOne(steps, [], data, base, 0);
    var mid := Sub(Launch(steps, 0, base), [TaskFor(0, data)], true);
    PassOfTwo(steps, data, base, mid);
    LeavesOne(mid, data, base, 1);
  }

  /** Once the first has succeeded, a pass launches the second, if that was not done yet. */
  lemma LaterPass(steps: seq<StepStatus>, data: Data, base: nat)
    requires |steps| == 2 && steps[0].name == "a" && steps[1].name == "b" && steps[0].phase == Succeeded
    ensures
      SubmitPass(PAIR_ENV, PAIR, steps, data, CALM, base, 2) ==
      if steps[1].phase == Pending then Sub(Launch(steps, 1, base), [TaskFor(1, data)], true) else Sub(steps, [], true)
  {
    PairDecides(steps, data);
    LeavesOne(Sub(steps, [], true), data, base, 0);
    PassOfTwo(steps, data, base, Sub(steps, [], true));
    if steps[1].phase == Pending {
      LaunchesOne(steps, [], data, base, 1);
    } else {
      LeavesOne(Sub(steps, [], true), data, base, 1);
    }
  }

  function PairPhase(a: StepStatus, b: StepStatus): Phase {
    if Done(a.phase) && Done(b.phase) then FlowSucceeded else FlowRunning
  }

  /** Nothing stops the flow: it has no deadline and no budget. */
  lemma PairVerdict(st: Status, data: Data, a: StepStatus, b: StepStatus)
    requires st.phase == FlowRunning && st.steps == [a, b] && a.phase != Failed && b.phase != Failed
    ensures Verdict(PAIR_ENV, PAIR, st, data, 0).phase == PairPhase(a, b)
  {
    PairNames();
    assert st.steps[0] == a && st.steps[1] == b;
    VerdictSucceeds(PAIR_ENV, PAIR, st, data, 0);
    VerdictFails(PAIR_ENV, PAIR, st, data, 0);
    if !AllDone(st.steps) {
      VerdictUndecided(PAIR_ENV, PAIR, st, data, 0);
    }
  }

  /** A reconcile of the runnable flow whose submissions get through. */
  lemma PairReconciled(st: Status, steps: seq<StepStatus>, results: seq<Result>, base: nat, s: Sub, a: StepStatus,
          b: StepStatus)
    returns (p: Pass)
    requires !IsTerminal(st.phase) && Initialized(PAIR, st, 0).phase == FlowRunning
    requires |steps| == 2 && steps == Initialized(PAIR, st, 0).steps
    requires s == Sending(PAIR_ENV, PAIR, steps, results, base, CALM) && s.ok
    requires s.steps == [a, b] && a.phase != Failed && b.phase != Failed
    ensures p == Reconciled(PAIR_ENV, PAIR, st, results, base, CALM)
    ensures p.write && p.sent == s.sent && p.status.steps == [a, b]
    ensures p.status.phase == PairPhase(a, b)
  {
    p := Reconciled(PAIR_ENV, PAIR, st, results, base, CALM);
    PairNames();
    PairIsValid();
    var st0 := Initialized(PAIR, st, 0);
    var data := Snapshot(PAIR_ENV, PAIR, Gathered(PAIR_ENV, PAIR, st0.steps, results, 0));
    PairVerdict(st0.(steps := s.steps), data, a, b);
  }

  lemma FreshPair()
    ensures BlankSteps(PAIR) == [Blank(A), Blank(B)] && CollectAll([Blank(A), Blank(B)], [], 0) == [Blank(A), Blank(B)]
    ensures Blank(A).name == "a" && Blank(B).name == "b"
  {
    PairNames();
  }

  /** The first reconcile submits "a", */
  lemma FirstSending() returns (s: Sub)
    ensures s == Sending(PAIR_ENV, PAIR, [Blank(A), Blank(B)], [], 0, CALM)
    ensures s.ok && s.steps == [Waits(A, 0), Blank(B)] && |s.sent| == 1 && s.sent[0].step == 0
  {
    var steps := [Blank(A), Blank(B)];
    FreshPair();
    OnlyCollects(steps, []);
    var data := Snapshot(PAIR_ENV, PAIR, steps);
    FirstPass(steps, data, 0);
    s := Sub(Launch(steps, 0, 0), [TaskFor(0, data)], true);
  }

  lemma SecondCollects(x: string)
    ensures CollectAll([Waits(A, 0), Blank(B)], [ResultOf(0, x)], 0) == [Took(A, 0, x), Blank(B)]
  {
    TakesAnswer(A, 0, 1, x, "");
  }

  /** the second takes its answer and submits "b", */
  lemma SecondSending(x: string) returns (s: Sub)
    ensures s == Sending(PAIR_ENV, PAIR, [Waits(A, 0), Blank(B)], [ResultOf(0, x)], 1, CALM)
    ensures s.ok && s.steps == [Took(A, 0, x), Waits(B, 1)] && |s.sent| == 1 && s.sent[0].step == 1
  {
    var steps := [Took(A, 0, x), Blank(B)];
    SecondCollects(x);
    OnlyCollects([Waits(A, 0), Blank(B)], [ResultOf(0, x)]);
    var data := Snapshot(PAIR_ENV, PAIR, steps);
    LaterPass(steps, data, 1);
    s := Sub(Launch(steps, 1, 1), [TaskFor(1, data)], true);
  }

  /** and the third takes the answer to that. */
  lemma ThirdSending(x: string, y: string)
    ensures Sending(PAIR_ENV, PAIR, [Took(A, 0, x), Waits(B, 1)], [ResultOf(0, x), ResultOf(1, y)], 2, CALM)
      == Sub([Took(A, 0, x), Took(B, 1, y)], [], true)
  {
    PairNames();
    var before, after := [Took(A, 0, x), Waits(B, 1)], [Took(A, 0, x), Took(B, 1, y)];
    var results := [ResultOf(0, x), ResultOf(1, y)];
    TakesAnswer(B, 1, 0, y, x);
    assert CollectAll(before, results, 0) == after;
    OnlyCollects(before, results);
    LaterPass(after, Snapshot(PAIR_ENV, PAIR, after), 2);
  }

  // ------------------------------------------------------------- the history

  /** The history leads to a world whose one flow and whose queue are in the given state. */
  ghost predicate Comes(maxRetries: int, hs: seq<Happening>, w: World, phase: Phase, steps: seq<StepStatus>, q: QState)
  {
    && Evolves(PAIR_ENV, maxRetries, hs, w) && |w.flows| == 1 && w.flows[0].spec == PAIR
    && w.flows[0].stored.phase == phase && w.flows[0].stored.steps == steps && w.books.q == q
  }

  lemma PairCreated(maxRetries: int) returns (w: World)
    ensures Comes(maxRetries, [Create(PAIR)], w, Unset, [], EMPTY_QUEUE) && w.flows[0].stored == FRESH_STATUS
  {
    PairNames();
    w := Then(PAIR_ENV, maxRetries, EMPTY_WORLD, Create(PAIR));
    UnfoldsSnoc(PAIR_ENV, maxRetries, EMPTY_WORLD, [], EMPTY_WORLD, Create(PAIR));
    assert [] + [Create(PAIR)] == [Create(PAIR)];
  }

  lemma PairFormed(maxRetries: int, hs: seq<Happening>, w: World)
    requires IsInt64(maxRetries) && Evolves(PAIR_ENV, maxRetries, hs, w)
    ensures Formed(w)
  {
    AlwaysWhole(PAIR_ENV, maxRetries, hs, w);
  }

  /** What a pass that sends at most one task does to the queue. */
  lemma OneEnrolled(b: Books, steps: seq<StepStatus>, sent: seq<Sent>)
    requires |b.owner| == |b.root| == |b.tries| == |b.fate| == |b.q.stream| && |sent| <= 1
    requires forall x :: 0 <= x < |sent| ==> sent[x].step < |steps|
    ensures Enrolled(b, 0, steps, sent).q == if sent == [] then b.q else Submitted(b.q, sent[0].prompt)
  {
    if sent != [] {
      assert sent[..0] == [] && Enrolled(b, 0, steps, sent[..0]) == b;
    }
  }

  /** A visit stores the status of its pass and puts its one task, if it has one, on the stream. */
  lemma PassHappens(maxRetries: int, hs: seq<Happening>, w: World, p: Pass) returns (w': World)
    requires IsInt64(maxRetries) && Evolves(PAIR_ENV, maxRetries, hs, w) && |w.flows| == 1 && w.flows[0].spec == PAIR
    requires w.flows[0].stored.phase != Unset ==> |w.flows[0].stored.steps| == 2
    requires p == Reconciled(PAIR_ENV, PAIR, w.flows[0].stored, w.books.q.results, |w.books.q.stream|, CALM)
    requires p.write && |p.status.steps| == 2 && |p.sent| <= 1
    ensures
      var q := w.books.q;
      var q' := if p.sent == [] then q else Submitted(q, p.sent[0].prompt);
      Comes(maxRetries, hs + [Visit(0, CALM, false)], w', p.status.phase, PersistedSteps(p.status.steps), q')
  {
    PairFormed(maxRetries, hs, w);
    var visit := Visit(0, CALM, false);
    w' := Then(PAIR_ENV, maxRetries, w, visit);
    UnfoldsSnoc(PAIR_ENV, maxRetries, EMPTY_WORLD, hs, w, visit);
    PassInRange(PAIR_ENV, PAIR, w.flows[0].stored, w.books.q.results, |w.books.q.stream|, CALM);
    OneEnrolled(w.books, p.status.steps, p.sent);
  }

  /** All that happened to the record happened at time zero. */
  predicate AtZero(st: StepStatus) {
    (st.startTime.Some? ==> st.startTime.value == 0) && (st.completionTime.Some? ==> st.completionTime.value == 0)
  }

  lemma ZeroPersists(a: StepStatus, b: StepStatus)
    requires AtZero(a) && AtZero(b)
    ensures PersistedSteps([a, b]) == [a, b]
  {
    assert Truncated(0) == 0;
    assert PersistedStep(a) == a && PersistedStep(b) == b;
  }

  /** A visit of a runnable flow whose submissions get through. */
  lemma PairVisited(maxRetries: int, hs: seq<Happening>, w: World, steps: seq<StepStatus>, s: Sub, a: StepStatus,
          b: StepStatus)
    returns (w': World)
    requires IsInt64(maxRetries) && Evolves(PAIR_ENV, maxRetries, hs, w) && |w.flows| == 1 && w.flows[0].spec == PAIR
    requires w.flows[0].stored == FRESH_STATUS || (w.flows[0].stored.phase == FlowRunning
      && w.flows[0].stored.steps == steps)
    requires |steps| == 2 && steps == Initialized(PAIR, w.flows[0].stored, 0).steps
    requires s == Sending(PAIR_ENV, PAIR, steps, w.books.q.results, |w.books.q.stream|, CALM) && s.ok && |s.sent| <= 1
    requires s.steps == [a, b] && a.phase != Failed && b.phase != Failed && AtZero(a) && AtZero(b)
    ensures
      var q := w.books.q;
      var q' := if s.sent == [] then q else Submitted(q, s.sent[0].prompt);
      Comes(maxRetries, hs + [Visit(0, CALM, false)], w', PairPhase(a, b), [a, b], q')
  {
    var p := PairReconciled(w.flows[0].stored, steps, w.books.q.results, |w.books.q.stream|, s, a, b);
    w' := PassHappens(maxRetries, hs, w, p);
    ZeroPersists(a, b);
  }

  /** A worker takes the last task on the stream, */
  lemma PairDelivered(maxRetries: int, hs: seq<Happening>, w: World, phase: Phase, steps: seq<StepStatus>, q: QState,
          id: nat)
    returns (w': World)
    requires IsInt64(maxRetries) && Comes(maxRetries, hs, w, phase, steps, q)
    requires q.next == id == |q.stream| - 1 && q.pel == {}
    ensures Comes(maxRetries, hs + [Work(Delivery)], w', phase, steps, q.(next := id + 1, pel := {id}))
      && w'.flows == w.flows
  {
    PairFormed(maxRetries, hs, w);
    UnfoldsSnoc(PAIR_ENV, maxRetries, EMPTY_WORLD, hs, w, Work(Delivery));
    w' := Then(PAIR_ENV, maxRetries, w, Work(Delivery));
  }

  function Answering(id: nat, prompt: string): Happening {
    Work(Success(id, Echo(prompt), 0, 0))
  }

  /** and answers it. */
  lemma PairSolved(maxRetries: int, hs: seq<Happening>, w: World, phase: Phase, steps: seq<StepStatus>, q: QState,
          id: nat, prompt: string)
    returns (w': World)
    requires IsInt64(maxRetries) && Comes(maxRetries, hs, w, phase, steps, q)
    requires q.pel == {id} && id < |q.stream| && prompt == Lookup(q.stream[id], "prompt")
    ensures
      var q' := q.(pel := {}, results := q.results + [ResultOf(id, Echo(prompt))]);
      Comes(maxRetries, hs + [Answering(id, prompt)], w', phase, steps, q')
    ensures w'.flows == w.flows
  {
    PairFormed(maxRetries, hs, w);
    UnfoldsSnoc(PAIR_ENV, maxRetries, EMPTY_WORLD, hs, w, Answering(id, prompt));
    w' := Then(PAIR_ENV, maxRetries, w, Answering(id, prompt));
    assert q.pel - {id} == {};
  }

  /** The only task on the way has been answered. */
  lemma PairAnswered(maxRetries: int, hs: seq<Happening>, w: World, phase: Phase, steps: seq<StepStatus>, q: QState,
          id: nat)
    returns (hs': seq<Happening>, w': World)
    requires IsInt64(maxRetries) && Comes(maxRetries, hs, w, phase, steps, q)
    requires q.next == id == |q.stream| - 1 && q.pel == {}
    ensures
      var answer := Echo(Lookup(q.stream[id], "prompt"));
      Comes(maxRetries, hs', w', phase, steps, QState(q.stream, id + 1, {}, q.results + [ResultOf(id, answer)], q.dead))
    ensures w'.flows == w.flows
  {
    var prompt := Lookup(q.stream[id], "prompt");
    var mid := PairDelivered(maxRetries, hs, w, phase, steps, q, id);
    w' := PairSolved(maxRetries, hs + [Work(Delivery)], mid, phase, steps, q.(next := id + 1, pel := {id}), id, prompt);
    hs' := hs + [Work(Delivery)] + [Answering(id, prompt)];
  }

  /** The queue once n tasks have been answered and no more were sent. */
  ghost predicate Served(q: QState, results: seq<Result>) {
    q.next == |q.stream| == |results| && q.pel == {} && q.results == results
  }

  /** One more task is on the stream. */
  ghost predicate OneWaits(q: QState, results: seq<Result>) {
    q.next == |q.stream| - 1 == |results| && q.pel == {} && q.results == results
  }

  lemma FirstVisit(maxRetries: int) returns (hs: seq<Happening>, w: World)
    requires IsInt64(maxRetries)
    ensures Comes(maxRetries, hs, w, FlowRunning, [Waits(A, 0), Blank(B)], w.books.q) && OneWaits(w.books.q, [])
  {
    w := PairCreated(maxRetries);
    FreshPair();
    var s := FirstSending();
    w := PairVisited(maxRetries, [Create(PAIR)], w, [Blank(A), Blank(B)], s, Waits(A, 0), Blank(B));
    hs := [Create(PAIR)] + [Visit(0, CALM, false)];
  }

  lemma FirstAct(maxRetries: int) returns (hs: seq<Happening>, w: World, x: string)
    requires IsInt64(maxRetries)
    ensures Comes(maxRetries, hs, w, FlowRunning, [Waits(A, 0), Blank(B)], w.books.q)
      && Served(w.books.q, [ResultOf(0, x)])
  {
    hs, w := FirstVisit(maxRetries);
    var q := w.books.q;
    hs, w := PairAnswered(maxRetries, hs, w, FlowRunning, [Waits(A, 0), Blank(B)], q, 0);
    x := Echo(Lookup(q.stream[0], "prompt"));
  }

  lemma SecondVisit(maxRetries: int) returns (hs: seq<Happening>, w: World, x: string)
    requires IsInt64(maxRetries)
    ensures Comes(maxRetries, hs, w, FlowRunning, [Took(A, 0, x), Waits(B, 1)], w.books.q)
    ensures OneWaits(w.books.q, [ResultOf(0, x)])
  {
    hs, w, x := FirstAct(maxRetries);
    var s := SecondSending(x);
    w := PairVisited(maxRetries, hs, w, [Waits(A, 0), Blank(B)], s, Took(A, 0, x), Waits(B, 1));
    hs := hs + [Visit(0, CALM, false)];
  }

  lemma SecondAct(maxRetries: int) returns (hs: seq<Happening>, w: World, x: string, y: string)
    requires IsInt64(maxRetries)
    ensures Comes(maxRetries, hs, w, FlowRunning, [Took(A, 0, x), Waits(B, 1)], w.books.q)
    ensures Served(w.books.q, [ResultOf(0, x), ResultOf(1, y)])
  {
    hs, w, x := SecondVisit(maxRetries);
    var q := w.books.q;
    hs, w := PairAnswered(maxRetries, hs, w, FlowRunning, [Took(A, 0, x), Waits(B, 1)], q, 1);
    y := Echo(Lookup(q.stream[1], "prompt"));
  }

  lemma ThirdAct(maxRetries: int) returns (hs: seq<Happening>, w: World, x: string, y: string)
    requires IsInt64(maxRetries)
    ensures Comes(maxRetries, hs, w, FlowSucceeded, [Took(A, 0, x), Took(B, 1, y)], w.books.q)
  {
    hs, w, x, y := SecondAct(maxRetries);
    ThirdSending(x, y);
    var s := Sub([Took(A, 0, x), Took(B, 1, y)], [], true);
    w := PairVisited(maxRetries, hs, w, [Took(A, 0, x), Waits(B, 1)], s, Took(A, 0, x), Took(B, 1, y));
    hs := hs + [Visit(0, CALM, false)];
  }

  /** The flow runs to success in the cluster: both steps are submitted, answered and collected. */
  lemma PairSucceedsInCluster(maxRetries: int) returns (hs: seq<Happening>, w: World)
    requires IsInt64(maxRetries)
    ensures Evolves(PAIR_ENV, maxRetries, hs, w) && |w.flows| == 1 && w.flows[0].spec == PAIR
    ensures w.flows[0].stored.phase == FlowSucceeded && |w.flows[0].stored.steps| == 2
    ensures forall i :: 0 <= i < 2 ==> w.flows[0].stored.steps[i].phase == Succeeded
  {
    var x, y;
    hs, w, x, y := ThirdAct(maxRetries);
  }

  /** So both drivers run it to the same result, with steps that ran and an output that one read of the other. */
  lemma AgreementIsNotEmpty(maxRetries: int, now: int) returns (hs: seq<Happening>, w: World)
    requires IsInt64(maxRetries)
    ensures Evolves(PAIR_ENV, maxRetries, hs, w) && |w.flows| == 1 && w.flows[0].spec == PAIR
    ensures |w.flows[0].stored.steps| == 2
    ensures forall i :: 0 <= i < 2 ==> w.flows[0].stored.steps[i].phase == Succeeded
    ensures w.flows[0].stored.phase == FlowSucceeded && RunAll(PAIR_ENV, PAIR_HOST, PAIR, now).phase == FlowSucceeded
    ensures ValidGraph(PAIR.steps) && ReadsDependencies(PAIR_ENV, PAIR) && OwnLoops(PAIR_ENV, PAIR)
    ensures Consistent(PAIR_ENV, Echo, PAIR) && Honest(PAIR_ENV, PAIR_HOST) && NeverFaults(PAIR_HOST)
    ensures w.flows[0].stored.output == RunAll(PAIR_ENV, PAIR_HOST, PAIR, now).output
  {
    hs, w := PairSucceedsInCluster(maxRetries);
    PairIsValid();
    PairReads();
    PairAgents();
    PairSucceedsLocally(now);
    ClusterResults.DriversAgree(PAIR_ENV, maxRetries, hs, w, 0, PAIR_HOST, now, Echo);
  }
}
