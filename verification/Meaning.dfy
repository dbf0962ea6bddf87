/** Schedule independence: what a flow computes does not depend on the order in which its steps complete. */
module Meaning {
  import opened Wrappers
  import opened FlowTypes
  import opened Templates
  import opened Dag
  import opened Engine

  // ----------------------------------------------------- what templates read

  ghost predicate SameEntry(d: Data, e: Data, x: string) {
    (x in d.steps <==> x in e.steps) && (x in d.steps ==> d.steps[x] == e.steps[x])
  }

  /** The data agree on the pipeline input and on every transitive dependency of a. */
  ghost predicate SameBelow(g: Graph<string>, d: Data, e: Data, a: string) {
    d.input == e.input && forall x :: Reaches(g, a, x) ==> SameEntry(d, e, x)
  }

  /** The data agree on the pipeline input and on step a itself. */
  ghost predicate SameOwn(d: Data, e: Data, a: string) {
    d.input == e.input && SameEntry(d, e, a)
  }

  ghost predicate ReadsBelow(env: Env, g: Graph<string>, tmpl: string, a: string) {
    forall d, e :: SameBelow(g, d, e, a) ==> env.resolve(tmpl, d) == env.resolve(tmpl, e)
  }

  ghost predicate ReadsOwn(env: Env, tmpl: string, a: string) {
    forall d, e :: SameOwn(d, e, a) ==> env.resolve(tmpl, d) == env.resolve(tmpl, e)
  }

  ghost predicate StepReadsBelow(env: Env, g: Graph<string>, step: Step) {
    && ReadsBelow(env, g, step.cond, step.name)
    && forall k :: k in step.inputs ==> ReadsBelow(env, g, step.inputs[k], step.name)
  }

  /** Conditions and inputs read only the pipeline input and transitive dependencies. */
  ghost predicate ReadsDependencies(env: Env, spec: FlowSpec) {
    forall i :: 0 <= i < |spec.steps| ==> StepReadsBelow(env, Adjacency(spec.steps), spec.steps[i])
  }

  /** Loop conditions read only the pipeline input and the step's own answer. */
  ghost predicate OwnLoops(env: Env, spec: FlowSpec) {
    forall i :: 0 <= i < |spec.steps| && spec.steps[i].loop.Some? ==>
                  ReadsOwn(env, spec.steps[i].loop.value.condition, spec.steps[i].name)
  }

  lemma SameInputs(env: Env, g: Graph<string>, step: Step, d: Data, e: Data)
    requires StepReadsBelow(env, g, step) && SameBelow(g, d, e, step.name)
    ensures Wanted(env, step, d) == Wanted(env, step, e)
    ensures InputsResolve(env, step, d) <==> InputsResolve(env, step, e)
    ensures InputsResolve(env, step, d) ==> Resolved(env, step, d) == Resolved(env, step, e)
  {
    forall k | k in step.inputs
      ensures env.resolve(step.inputs[k], d) == env.resolve(step.inputs[k], e)
    {
    }
    if InputsResolve(env, step, d) {
      assert Resolved(env, step, d) == Resolved(env, step, e);
    }
  }

  // ------------------------------------------------- loop release is final

  /** The step's loop would repeat it, judged on its own record alone. */
  ghost predicate RepeatsOwn(env: Env, spec: FlowSpec, step: Step, st: StepStatus) {
    Repeats(env, step, st, Data(spec.input, map[step.name := EntryOfStep(env, st)]))
  }

  /** The record will not change any more: skipped, or succeeded with its answer parsed and its loop at an end. */
  ghost predicate Final(env: Env, spec: FlowSpec, step: Step, st: StepStatus) {
    Done(st.phase) &&
    (st.phase == Succeeded ==> st.outputJSON == ParsedJSON(env, step, st.output) && !RepeatsOwn(env, spec, step, st))
  }

  /** A succeeded step whose loop still asks for a repetition. */
  ghost predicate StillAsks(env: Env, spec: FlowSpec, steps: seq<StepStatus>, j: nat)
    requires |steps| == |spec.steps| && j < |steps|
  {
    steps[j].phase == Succeeded && RepeatsOwn(env, spec, spec.steps[j], steps[j])
  }

  /** Every loop was repeated until its condition was false or the cap was reached. */
  ghost predicate LoopsHonoured(env: Env, spec: FlowSpec, steps: seq<StepStatus>)
    requires |steps| == |spec.steps|
  {
    forall j: nat :: j < |steps| ==> !StillAsks(env, spec, steps, j)
  }

  /** Whatever a released step depends on is final. */
  ghost predicate Released(env: Env, spec: FlowSpec, steps: seq<StepStatus>)
    requires |steps| == |spec.steps|
  {
    forall i, j :: 0 <= i < |steps| && 0 <= j < |steps| && DependsOn(spec, i, j) && Left(steps[i]) ==>
                     Final(env, spec, spec.steps[j], steps[j])
  }

  /** With coherent data the loop decision is the step's own. */
  lemma RepeatsIsOwn(env: Env, spec: FlowSpec, r: Run, j: nat)
    requires UniqueNames(spec.steps) && OwnLoops(env, spec) && Inv(env, spec, r)
    requires r.current && j < |r.steps| && r.steps[j].phase == Succeeded
    ensures Repeats(env, spec.steps[j], r.steps[j], r.data) == RepeatsOwn(env, spec, spec.steps[j], r.steps[j])
  {
    var step := spec.steps[j];
    var own := Data(spec.input, map[step.name := EntryOfStep(env, r.steps[j])]);
    assert SameOwn(r.data, own, step.name);
  }

  lemma DepsFinalAtRelease(env: Env, spec: FlowSpec, r: Run, i: nat)
    requires UniqueNames(spec.steps) && OwnLoops(env, spec) && Inv(env, spec, r)
    requires i < |r.steps| && Releasable(env, spec, r, i)
    ensures forall j :: 0 <= j < |r.steps| && DependsOn(spec, i, j) ==> Final(env, spec, spec.steps[j], r.steps[j])
  {
    DepsSucceededIff(spec, r.steps, i);
    forall j | 0 <= j < |r.steps| && DependsOn(spec, i, j)
      ensures Final(env, spec, spec.steps[j], r.steps[j])
    {
      if r.steps[j].phase == Succeeded {
        RepeatsIsOwn(env, spec, r, j);
      }
    }
  }

  /** A final record is not touched: no move is enabled on it, except parsing an answer that holds no document. */
  lemma FinalStays(env: Env, spec: FlowSpec, r: Run, m: Move, j: nat)
    requires UniqueNames(spec.steps) && OwnLoops(env, spec) && Inv(env, spec, r) && Enabled(env, spec, r, m)
    requires j < |r.steps| && Final(env, spec, spec.steps[j], r.steps[j])
    ensures Apply(env, spec, r, m).steps[j] == r.steps[j]
  {
    if m.Reset? && m.i == j {
      RepeatsIsOwn(env, spec, r, j);
    }
  }

  lemma KeepsReleased(env: Env, spec: FlowSpec, r: Run, m: Move)
    requires UniqueNames(spec.steps) && OwnLoops(env, spec) && Inv(env, spec, r) && Enabled(env, spec, r, m)
    requires Released(env, spec, r.steps)
    ensures Released(env, spec, Apply(env, spec, r, m).steps)
  {
    var r' := Apply(env, spec, r, m);
    if m.Skip? || m.Reject? || m.Start? {
      DepsFinalAtRelease(env, spec, r, m.i);
    }
    forall i, j | 0 <= i < |r.steps| && 0 <= j < |r.steps| && DependsOn(spec, i, j) && Left(r'.steps[i])
      ensures Final(env, spec, spec.steps[j], r'.steps[j])
    {
      assert Left(r.steps[i]) || (i == m.i && (m.Skip? || m.Reject? || m.Start?));
      assert Final(env, spec, spec.steps[j], r.steps[j]);
      FinalStays(env, spec, r, m, j);
    }
  }

  lemma {:induction false} ExecKeepsReleased(env: Env, spec: FlowSpec, r: Run, ms: seq<Move>)
    requires UniqueNames(spec.steps) && OwnLoops(env, spec) && Inv(env, spec, r)
    requires Released(env, spec, r.steps) && Exec(env, spec, r, ms).Some?
    ensures Released(env, spec, Exec(env, spec, r, ms).value.steps)
    decreases |ms|
  {
    if ms != [] {
      var init := ms[..|ms| - 1];
      ExecKeepsReleased(env, spec, r, init);
      ExecKeepsInv(env, spec, r, init);
      KeepsReleased(env, spec, Exec(env, spec, r, init).value, ms[|ms| - 1]);
    }
  }

  /**
   * In every reachable state a released step's dependencies are done for good: no continuation of the run touches
   * their records again.
   */
  lemma ReleaseIsFinal(env: Env, spec: FlowSpec, r: Run, ms: seq<Move>, i: nat, j: nat)
    requires UniqueNames(spec.steps) && OwnLoops(env, spec) && Reachable(env, spec, r)
    requires i < |spec.steps| && j < |spec.steps| && DependsOn(spec, i, j)
    requires r.steps[i].phase != Pending && Exec(env, spec, r, ms).Some?
    ensures Done(r.steps[j].phase) && Exec(env, spec, r, ms).value.steps[j] == r.steps[j]
  {
    ReachableReleased(env, spec, r);
    ReachableInv(env, spec, r);
    FinalForever(env, spec, r, ms, j);
  }

  lemma ReachableReleased(env: Env, spec: FlowSpec, r: Run)
    requires UniqueNames(spec.steps) && OwnLoops(env, spec) && Reachable(env, spec, r)
    ensures Shaped(spec, r) && Released(env, spec, r.steps)
  {
    var ms :| Exec(env, spec, Initial(spec), ms) == Some(r);
    InitialInv(env, spec);
    ExecKeepsReleased(env, spec, Initial(spec), ms);
  }

  lemma {:induction false} FinalForever(env: Env, spec: FlowSpec, r: Run, ms: seq<Move>, j: nat)
    requires UniqueNames(spec.steps) && OwnLoops(env, spec) && Inv(env, spec, r) && Exec(env, spec, r, ms).Some?
    requires j < |r.steps| && Final(env, spec, spec.steps[j], r.steps[j])
    ensures Exec(env, spec, r, ms).value.steps[j] == r.steps[j]
    decreases |ms|
  {
    if ms != [] {
      var init := ms[..|ms| - 1];
      FinalForever(env, spec, r, init, j);
      ExecKeepsInv(env, spec, r, init);
      FinalStays(env, spec, Exec(env, spec, r, init).value, ms[|ms| - 1], j);
    }
  }

  // ------------------------------------------------- the meaning of a flow

  /** The agents give at most one answer to a prompt, the one that f gives. */
  ghost predicate Deterministic(env: Env, f: string -> string) {
    forall p, o :: env.answers(p, o) ==> o == f(p)
  }

  /** f answers a step in the same way, in whatever order its inputs are listed. */
  ghost predicate BlindStep(f: string -> string, step: Step) {
    forall values: map<string, string>, a, b ::
      values.Keys == step.inputs.Keys && IsOrder(values.Keys, a) && IsOrder(values.Keys, b) ==>
        f(PromptText(values, a, step.outputSchema)) == f(PromptText(values, b, step.outputSchema))
  }

  ghost predicate OrderBlind(f: string -> string, spec: FlowSpec) {
    forall i :: 0 <= i < |spec.steps| ==> BlindStep(f, spec.steps[i])
  }

  /** The agents' answers are a function of the prompt that does not depend on the order of its input lines. */
  ghost predicate Consistent(env: Env, f: string -> string, spec: FlowSpec) {
    Deterministic(env, f) && OrderBlind(f, spec)
  }

  lemma {:induction false} SubsetIsSmaller(a: set<string>, b: set<string>)
    requires a <= b
    ensures |a| <= |b|
    decreases |b|
  {
    if x :| x in b {
      SubsetIsSmaller(a - {x}, b - {x});
    }
  }

  lemma OrderIsShort(keys: set<string>, a: seq<string>)
    requires |keys| <= 1 && IsOrder(keys, a)
    ensures |a| <= 1
  {
    if |a| > 1 {
      assert a[0] in a && a[1] in a && |{a[0], a[1]}| == 2;
      SubsetIsSmaller({a[0], a[1]}, keys);
    }
  }

  /** A set of at most one key has only one order. */
  lemma OnlyOrder(keys: set<string>, a: seq<string>, b: seq<string>)
    requires |keys| <= 1 && IsOrder(keys, a) && IsOrder(keys, b)
    ensures a == b
  {
    OrderIsShort(keys, a);
    OrderIsShort(keys, b);
    assert a != [] ==> a[0] in b;
    assert b != [] ==> b[0] in a;
  }

  /** Every answer to a step of at most one input is blind to the order of inputs. */
  lemma FewInputsAreBlind(f: string -> string, spec: FlowSpec)
    requires forall i :: 0 <= i < |spec.steps| ==> |spec.steps[i].inputs| <= 1
    ensures OrderBlind(f, spec)
  {
    forall i | 0 <= i < |spec.steps|
      ensures BlindStep(f, spec.steps[i])
    {
      var step := spec.steps[i];
      forall values: map<string, string>, a, b
        | values.Keys == step.inputs.Keys && IsOrder(values.Keys, a) && IsOrder(values.Keys, b)
        ensures f(PromptText(values, a, step.outputSchema)) == f(PromptText(values, b, step.outputSchema))
      {
        assert |values.Keys| == |step.inputs|;
        OnlyOrder(values.Keys, a, b);
      }
    }
  }

  /** Some order of the keys. */
  ghost function SomeOrder(keys: set<string>): (order: seq<string>)
    ensures IsOrder(keys, order)
  {
    if keys == {} then []
    else
      var k :| k in keys;
      SomeOrder(keys - {k}) + [k]
  }

  /** A flow whose graph is valid and ranked, with templates that read what they may. */
  ghost predicate WellBehaved(env: Env, spec: FlowSpec, rank: seq<nat>) {
    && UniqueNames(spec.steps) && ValidGraph(spec.steps) && Ranked(spec, rank)
    && ReadsDependencies(env, spec) && OwnLoops(env, spec)
  }

  /** What templates see of a step that was skipped (None) or gave an answer. */
  function OutcomeEntry(env: Env, step: Step, outcome: Option<string>): Entry {
    match outcome
    case None => EntryOf(env, "", "")
    case Some(output) => EntryOf(env, output, ParsedJSON(env, step, output))
  }

  /** The data made of the outcomes of all steps ranked below `bound`. */
  ghost function OutcomeData(env: Env, spec: FlowSpec, f: string -> string, rank: seq<nat>, bound: nat): Data
    requires |rank| == |spec.steps|
    decreases bound, 0
  {
    var index := Index(BlankSteps(spec));
    Data(spec.input,
         map x | x in index ::
           if rank[index[x]] < bound then OutcomeEntry(env, spec.steps[index[x]], Outcome(env, spec, f, rank, index[x]))
           else Entry("", None))
  }

  ghost function OutcomePrompt(env: Env, spec: FlowSpec, f: string -> string, rank: seq<nat>, i: nat): string
    requires |rank| == |spec.steps| && i < |rank|
    decreases rank[i], 1
  {
    var data := OutcomeData(env, spec, f, rank, rank[i]);
    PromptIn(env, spec.steps[i], data, SomeOrder(spec.steps[i].inputs.Keys)).GetOr("")
  }

  /**
   * The recursive meaning of a step: skipped if its condition fails on its dependencies' outcomes, else the agent's
   * answer.
   */
  ghost function Outcome(env: Env, spec: FlowSpec, f: string -> string, rank: seq<nat>, i: nat): Option<string>
    requires |rank| == |spec.steps| && i < |rank|
    decreases rank[i], 2
  {
    if Wanted(env, spec.steps[i], OutcomeData(env, spec, f, rank, rank[i]))
    then Some(f(OutcomePrompt(env, spec, f, rank, i)))
    else None
  }

  /** The record agrees with the meaning of its step. */
  ghost predicate Means(env: Env, spec: FlowSpec, f: string -> string, rank: seq<nat>, i: nat, st: StepStatus,
          asked: string)
    requires |rank| == |spec.steps| && i < |rank|
  {
    var outcome := Outcome(env, spec, f, rank, i);
    && (st.phase == Succeeded ==> outcome == Some(st.output))
    && (st.phase == Skipped ==> outcome == None)
    && (st.phase == Running ==> outcome == Some(f(asked)))
    && (st.iterations > 0 ==> outcome.Some?)
  }

  ghost predicate AllMean(env: Env, spec: FlowSpec, f: string -> string, rank: seq<nat>, r: Run)
    requires |rank| == |spec.steps|
  {
    && |r.steps| == |rank| && |r.asked| == |rank|
    && forall i :: 0 <= i < |rank| ==> Means(env, spec, f, rank, i, r.steps[i], r.asked[i])
  }

  /** Everything below a step whose direct dependencies are done is done. */
  lemma {:induction false} AncestorsDone(env: Env, spec: FlowSpec, steps: seq<StepStatus>, p: seq<string>, i: nat,
          a: nat)
    requires UniqueNames(spec.steps) && Aligned(spec, steps) && Released(env, spec, steps)
    requires i < |steps| && a < |steps|
    requires forall j :: 0 <= j < |steps| && DependsOn(spec, i, j) ==> Done(steps[j].phase)
    requires WalkFromTo(Adjacency(spec.steps), p, spec.steps[i].name, spec.steps[a].name)
    ensures Done(steps[a].phase)
    decreases |p|
  {
    var g := Adjacency(spec.steps);
    assert Edge(g, p[0], p[1]);
    AdjacencyAt(spec.steps, i);
    if |p| == 2 {
      assert DependsOn(spec, i, a);
    } else {
      assert Edge(g, p[1], p[2]);
      var j :| 0 <= j < |spec.steps| && spec.steps[j].name == p[1];
      assert DependsOn(spec, i, j);
      WalkSuffix(g, p, 1);
      AncestorsDone(env, spec, steps, p[1..], j, a);
    }
  }

  /** The data's entry of a done step is its outcome's entry. */
  lemma DoneEntry(env: Env, spec: FlowSpec, f: string -> string, rank: seq<nat>, r: Run, a: nat)
    requires |rank| == |spec.steps| && Inv(env, spec, r) && AllMean(env, spec, f, rank, r)
    requires r.current && a < |r.steps| && Done(r.steps[a].phase)
    ensures spec.steps[a].name in r.data.steps
    ensures r.data.steps[spec.steps[a].name] == OutcomeEntry(env, spec.steps[a], Outcome(env, spec, f, rank, a))
  {
    assert Means(env, spec, f, rank, a, r.steps[a], r.asked[a]);
    assert a !in r.dirty;
    assert Clean(env, spec.steps[a], r.steps[a]);
  }

  lemma OutcomeDataAt(env: Env, spec: FlowSpec, f: string -> string, rank: seq<nat>, bound: nat, a: nat)
    requires |rank| == |spec.steps| && UniqueNames(spec.steps) && a < |rank| && rank[a] < bound
    ensures
      var d := OutcomeData(env, spec, f, rank, bound);
      && spec.steps[a].name in d.steps
      && d.steps[spec.steps[a].name] == OutcomeEntry(env, spec.steps[a], Outcome(env, spec, f, rank, a))
  {
    IndexAt(spec, BlankSteps(spec), a);
  }

  ghost predicate LoopFree(spec: FlowSpec) {
    forall i :: 0 <= i < |spec.steps| ==> spec.steps[i].loop.None?
  }

  /**
   * Snapshot coherence: in a loop-free flow, when a step is released, the data built before the skips and launches of
   * the pass shows each of its transitive dependencies as it is at that moment.
   */
  lemma SnapshotCoherent(env: Env, spec: FlowSpec, r: Run, i: nat, a: nat)
    requires UniqueNames(spec.steps) && LoopFree(spec) && Reachable(env, spec, r)
    requires Shaped(spec, r) && i < |spec.steps| && a < |spec.steps| && Releasable(env, spec, r, i)
    requires Reaches(Adjacency(spec.steps), spec.steps[i].name, spec.steps[a].name)
    ensures Done(r.steps[a].phase)
    ensures spec.steps[a].name in r.data.steps && r.data.steps[spec.steps[a].name] == EntryOfStep(env, r.steps[a])
  {
    ReachableInv(env, spec, r);
    ReachableReleased(env, spec, r);
    DepsSucceededIff(spec, r.steps, i);
    var p :| WalkFromTo(Adjacency(spec.steps), p, spec.steps[i].name, spec.steps[a].name);
    AncestorsDone(env, spec, r.steps, p, i, a);
    assert Clean(env, spec.steps[a], r.steps[a]);
    assert a !in r.dirty;
  }

  /** With loops, and agents that answer a prompt in one way, that data is also what the meaning of the flow says. */
  lemma SnapshotIsOutcome(env: Env, spec: FlowSpec, f: string -> string, rank: seq<nat>, r: Run, i: nat)
    requires WellBehaved(env, spec, rank) && Inv(env, spec, r)
    requires Released(env, spec, r.steps) && AllMean(env, spec, f, rank, r)
    requires i < |r.steps| && Releasable(env, spec, r, i)
    ensures SameBelow(Adjacency(spec.steps), r.data, OutcomeData(env, spec, f, rank, rank[i]), spec.steps[i].name)
  {
    var g := Adjacency(spec.steps);
    DepsSucceededIff(spec, r.steps, i);
    forall x | Reaches(g, spec.steps[i].name, x)
      ensures SameEntry(r.data, OutcomeData(env, spec, f, rank, rank[i]), x)
    {
      var p :| WalkFromTo(g, p, spec.steps[i].name, x);
      var a := ReachedStep(spec, p);
      AncestorsDone(env, spec, r.steps, p, i, a);
      RankFalls(spec, rank, p, i, a);
      DoneEntry(env, spec, f, rank, r, a);
      OutcomeDataAt(env, spec, f, rank, rank[i], a);
    }
  }

  /** A walk ends in a step of the flow. */
  lemma ReachedStep(spec: FlowSpec, p: seq<string>) returns (a: nat)
    requires DepsKnown(spec.steps) && |p| >= 2 && Walk(Adjacency(spec.steps), p)
    ensures a < |spec.steps| && spec.steps[a].name == p[|p| - 1]
  {
    var g := Adjacency(spec.steps);
    KnownIsClosed(spec.steps);
    assert Edge(g, p[|p| - 2], p[|p| - 1]);
    a :| a < |spec.steps| && spec.steps[a].name == p[|p| - 1];
  }

  /** Whatever order the inputs were taken in, the answer is that of the meaning's prompt. */
  lemma AskedForOutcome(env: Env, spec: FlowSpec, f: string -> string, rank: seq<nat>, data: Data, i: nat,
          prompt: string)
    requires |rank| == |spec.steps| && i < |rank| && OrderBlind(f, spec) && MayAsk(env, spec.steps[i], data, prompt)
    requires
      var meant := OutcomeData(env, spec, f, rank, rank[i]);
      && (InputsResolve(env, spec.steps[i], data) <==> InputsResolve(env, spec.steps[i], meant))
      && (InputsResolve(env, spec.steps[i], data) ==>
            Resolved(env, spec.steps[i], data) == Resolved(env, spec.steps[i], meant))
    ensures f(prompt) == f(OutcomePrompt(env, spec, f, rank, i))
  {
    var step := spec.steps[i];
    assert BlindStep(f, step);
    if InputsResolve(env, step, data) {
      var values := Resolved(env, step, data);
      var order :| IsOrder(step.inputs.Keys, order) && prompt == PromptText(values, order, step.outputSchema);
      assert values.Keys == step.inputs.Keys;
      assert IsOrder(values.Keys, order) && IsOrder(values.Keys, SomeOrder(step.inputs.Keys));
    }
  }

  /** The step that a move concerns agrees with its meaning afterwards. */
  lemma MovedMeans(env: Env, spec: FlowSpec, f: string -> string, rank: seq<nat>, r: Run, m: Move)
    requires WellBehaved(env, spec, rank) && Consistent(env, f, spec)
    requires Inv(env, spec, r) && Released(env, spec, r.steps) && AllMean(env, spec, f, rank, r)
    requires !m.Refresh? && Enabled(env, spec, r, m)
    ensures var r' := Apply(env, spec, r, m); Means(env, spec, f, rank, m.i, r'.steps[m.i], r'.asked[m.i])
  {
    assert Means(env, spec, f, rank, m.i, r.steps[m.i], r.asked[m.i]);
    if m.Skip? || m.Reject? || m.Start? {
      SnapshotIsOutcome(env, spec, f, rank, r, m.i);
      SameInputs(env, Adjacency(spec.steps), spec.steps[m.i], r.data, OutcomeData(env, spec, f, rank, rank[m.i]));
    }
    if m.Start? {
      AskedForOutcome(env, spec, f, rank, r.data, m.i, m.prompt);
    }
  }

  lemma OneRecordMeans(env: Env, spec: FlowSpec, f: string -> string, rank: seq<nat>, r: Run, r': Run, k: nat)
    requires |rank| == |spec.steps| && AllMean(env, spec, f, rank, r)
    requires |r'.steps| == |r'.asked| == |rank| && k < |rank|
    requires forall i :: 0 <= i < |rank| && i != k ==> r'.steps[i] == r.steps[i] && r'.asked[i] == r.asked[i]
    requires Means(env, spec, f, rank, k, r'.steps[k], r'.asked[k])
    ensures AllMean(env, spec, f, rank, r')
  {
    forall i | 0 <= i < |rank|
      ensures Means(env, spec, f, rank, i, r'.steps[i], r'.asked[i])
    {
      assert Means(env, spec, f, rank, i, r.steps[i], r.asked[i]);
    }
  }

  lemma KeepsMeaning(env: Env, spec: FlowSpec, f: string -> string, rank: seq<nat>, r: Run, m: Move)
    requires WellBehaved(env, spec, rank) && Consistent(env, f, spec)
    requires Inv(env, spec, r) && Released(env, spec, r.steps) && AllMean(env, spec, f, rank, r)
    requires Enabled(env, spec, r, m)
    ensures AllMean(env, spec, f, rank, Apply(env, spec, r, m))
  {
    if !m.Refresh? {
      MovedMeans(env, spec, f, rank, r, m);
      OneRecordMeans(env, spec, f, rank, r, Apply(env, spec, r, m), m.i);
    }
  }

  lemma {:induction false} ExecKeepsMeaning(env: Env, spec: FlowSpec, f: string -> string, rank: seq<nat>, r: Run,
          ms: seq<Move>)
    requires WellBehaved(env, spec, rank) && Consistent(env, f, spec)
    requires Inv(env, spec, r) && Released(env, spec, r.steps) && AllMean(env, spec, f, rank, r)
    requires Exec(env, spec, r, ms).Some?
    ensures AllMean(env, spec, f, rank, Exec(env, spec, r, ms).value)
    decreases |ms|
  {
    if ms != [] {
      var init := ms[..|ms| - 1];
      ExecKeepsMeaning(env, spec, f, rank, r, init);
      ExecKeepsInv(env, spec, r, init);
      ExecKeepsReleased(env, spec, r, init);
      KeepsMeaning(env, spec, f, rank, Exec(env, spec, r, init).value, ms[|ms| - 1]);
    }
  }

  /** In every reachable state, of either driver, each finished step holds exactly what the flow means. */
  lemma ReachableMeans(env: Env, spec: FlowSpec, f: string -> string, rank: seq<nat>, r: Run)
    requires WellBehaved(env, spec, rank) && Consistent(env, f, spec) && Reachable(env, spec, r)
    ensures AllMean(env, spec, f, rank, r)
  {
    var ms :| Exec(env, spec, Initial(spec), ms) == Some(r);
    InitialInv(env, spec);
    ExecKeepsMeaning(env, spec, f, rank, Initial(spec), ms);
  }

  /** Two runs, whatever their schedules, agree on every step that both have finished. */
  lemma RunsAgree(env: Env, spec: FlowSpec, f: string -> string, r: Run, s: Run, i: nat)
    requires UniqueNames(spec.steps) && ValidGraph(spec.steps)
    requires ReadsDependencies(env, spec) && OwnLoops(env, spec) && Consistent(env, f, spec)
    requires Reachable(env, spec, r) && Reachable(env, spec, s) && i < |spec.steps|
    requires Done(r.steps[i].phase) && Done(s.steps[i].phase)
    ensures r.steps[i].phase == s.steps[i].phase && r.steps[i].output == s.steps[i].output
  {
    var rank := RankExists(spec);
    ReachableMeans(env, spec, f, rank, r);
    ReachableMeans(env, spec, f, rank, s);
    ReachableInv(env, spec, r);
    ReachableInv(env, spec, s);
    assert Means(env, spec, f, rank, i, r.steps[i], r.asked[i]);
    assert Means(env, spec, f, rank, i, s.steps[i], s.asked[i]);
    assert Clean(env, spec.steps[i], r.steps[i]) && Clean(env, spec.steps[i], s.steps[i]);
  }

  lemma SameSnapshot(env: Env, spec: FlowSpec, a: seq<StepStatus>, b: seq<StepStatus>)
    requires Aligned(spec, a) && Aligned(spec, b)
    requires forall i :: 0 <= i < |a| ==> EntryOfStep(env, a[i]) == EntryOfStep(env, b[i])
    ensures Snapshot(env, spec, a) == Snapshot(env, spec, b)
  {
    SameSpecSameIndex(spec, a, b);
    assert Snapshot(env, spec, a).steps == Snapshot(env, spec, b).steps;
  }

  /** Two finished runs show templates the same data, so they resolve the flow's output to the same text. */
  lemma FinishedRunsAgree(env: Env, spec: FlowSpec, f: string -> string, r: Run, s: Run)
    requires UniqueNames(spec.steps) && ValidGraph(spec.steps)
    requires ReadsDependencies(env, spec) && OwnLoops(env, spec) && Consistent(env, f, spec)
    requires Reachable(env, spec, r) && Reachable(env, spec, s)
    requires |r.steps| == |s.steps| == |spec.steps|
    requires forall i :: 0 <= i < |spec.steps| ==> Done(r.steps[i].phase) && Done(s.steps[i].phase)
    requires AllParsed(env, spec, r.steps) && AllParsed(env, spec, s.steps)
    ensures Snapshot(env, spec, r.steps) == Snapshot(env, spec, s.steps)
  {
    ReachableInv(env, spec, r);
    ReachableInv(env, spec, s);
    forall i | 0 <= i < |r.steps|
      ensures EntryOfStep(env, r.steps[i]) == EntryOfStep(env, s.steps[i])
    {
      RunsAgree(env, spec, f, r, s, i);
      assert Clean(env, spec.steps[i], r.steps[i]) && Clean(env, spec.steps[i], s.steps[i]);
    }
    SameSnapshot(env, spec, r.steps, s.steps);
  }

  /** The flow's result, as UpdateFlowPhase stores it. */
  function Rendered(env: Env, spec: FlowSpec, data: Data): string {
    if spec.output != "" then ResolveOrEmpty(env, spec.output, data) else ""
  }

  /** Once every step is done, the data in force shows the final records, however long ago it was built. */
  lemma DataWhenDone(env: Env, spec: FlowSpec, f: string -> string, rank: seq<nat>, r: Run, seen: seq<StepStatus>)
    requires |rank| == |spec.steps| && UniqueNames(spec.steps)
    requires Inv(env, spec, r) && AllMean(env, spec, f, rank, r)
    requires r.current && Aligned(spec, seen) && r.data == Snapshot(env, spec, seen)
    requires forall i :: 0 <= i < |r.steps| ==> Done(r.steps[i].phase)
    ensures Snapshot(env, spec, seen) == Snapshot(env, spec, r.steps)
  {
    forall i | 0 <= i < |seen|
      ensures EntryOfStep(env, seen[i]) == EntryOfStep(env, r.steps[i])
    {
      SnapshotAt(env, spec, seen, i);
      DoneEntry(env, spec, f, rank, r, i);
      assert Means(env, spec, f, rank, i, r.steps[i], r.asked[i]);
      assert Clean(env, spec.steps[i], r.steps[i]);
    }
    SameSnapshot(env, spec, seen, r.steps);
  }
}
