/** What every run of the engine keeps: it is bounded, it respects the graph, and it accounts for tokens. */
module History {
  import opened Wrappers
  import opened FlowTypes
  import opened Templates
  import opened Dag
  import opened Engine

  // ------------------------------------------------------------------ sums

  function Sum(s: seq<int>): int {
    if s == [] then 0 else Sum(s[..|s| - 1]) + s[|s| - 1]
  }

  lemma {:induction false} SumUpdate(s: seq<int>, i: nat, x: int)
    requires i < |s|
    ensures Sum(s[i := x]) == Sum(s) - s[i] + x
    decreases |s|
  {
    var t := s[i := x];
    if i == |s| - 1 {
      assert t[..|t| - 1] == s[..|s| - 1];
    } else {
      assert t[..|t| - 1] == s[..|s| - 1][i := x];
      SumUpdate(s[..|s| - 1], i, x);
    }
  }

  lemma {:induction false} SumMonotone(a: seq<int>, b: seq<int>)
    requires |a| == |b| && forall i :: 0 <= i < |a| ==> a[i] <= b[i]
    ensures Sum(a) <= Sum(b)
    decreases |a|
  {
    if a != [] {
      SumMonotone(a[..|a| - 1], b[..|b| - 1]);
    }
  }

  // ---------------------------------------------------------- bounded runs

  function PhaseRank(phase: StepPhase): nat {
    match phase
    case Pending => 2
    case Running => 1
    case _ => 0
  }

  /** How far a step is from its end: three per repetition it may still make, plus its place within this one. */
  function Weight(step: Step, st: StepStatus): int {
    3 * (step.Cap() - st.iterations) + PhaseRank(st.phase)
  }

  function Weights(spec: FlowSpec, steps: seq<StepStatus>): (w: seq<int>)
    requires |steps| == |spec.steps|
    ensures |w| == |steps|
  {
    seq(|steps|, i requires 0 <= i < |steps| => Weight(spec.steps[i], steps[i]))
  }

  function Measure(spec: FlowSpec, steps: seq<StepStatus>): int
    requires |steps| == |spec.steps|
  {
    Sum(Weights(spec, steps))
  }

  /** A move that changes a step's phase. */
  predicate Transition(m: Move) {
    !m.Refresh? && !m.Parse?
  }

  function Transitions(ms: seq<Move>): nat {
    if ms == [] then 0 else Transitions(ms[..|ms| - 1]) + if Transition(ms[|ms| - 1]) then 1 else 0
  }

  /** Every transition brings its step strictly nearer to its end. */
  lemma TransitionFalls(env: Env, spec: FlowSpec, r: Run, m: Move)
    requires Shaped(spec, r) && Enabled(env, spec, r, m) && Transition(m)
    ensures Weight(spec.steps[m.i], Apply(env, spec, r, m).steps[m.i]) < Weight(spec.steps[m.i], r.steps[m.i])
  {
  }

  lemma MeasureFalls(env: Env, spec: FlowSpec, r: Run, m: Move)
    requires Shaped(spec, r) && Enabled(env, spec, r, m)
    ensures
      var r' := Apply(env, spec, r, m);
      Measure(spec, r'.steps) + (if Transition(m) then 1 else 0) <= Measure(spec, r.steps)
  {
    var r' := Apply(env, spec, r, m);
    if m.Refresh? {
    } else {
      var w, w' := Weights(spec, r.steps), Weights(spec, r'.steps);
      assert w' == w[m.i := Weight(spec.steps[m.i], r'.steps[m.i])];
      SumUpdate(w, m.i, w'[m.i]);
      if Transition(m) {
        TransitionFalls(env, spec, r, m);
      }
    }
  }

  lemma {:induction false} TransitionsBounded(env: Env, spec: FlowSpec, r: Run, ms: seq<Move>)
    requires Shaped(spec, r) && Exec(env, spec, r, ms).Some?
    ensures Transitions(ms) + Measure(spec, Exec(env, spec, r, ms).value.steps) <= Measure(spec, r.steps)
    decreases |ms|
  {
    if ms != [] {
      var init := ms[..|ms| - 1];
      TransitionsBounded(env, spec, r, init);
      MeasureFalls(env, spec, Exec(env, spec, r, init).value, ms[|ms| - 1]);
    }
  }

  /** What a flow can cost at most: three transitions per allowed repetition and two for the first execution. */
  function Budget(spec: FlowSpec): int {
    Sum(seq(|spec.steps|, i requires 0 <= i < |spec.steps| => 3 * spec.steps[i].Cap() + 2))
  }

  lemma InitialMeasure(spec: FlowSpec)
    ensures Measure(spec, BlankSteps(spec)) == Budget(spec)
  {
    assert Weights(spec, BlankSteps(spec))
        == seq(|spec.steps|, i requires 0 <= i < |spec.steps| => 3 * spec.steps[i].Cap() + 2);
  }

  lemma {:induction false} SumNonNegative(s: seq<int>)
    requires forall i :: 0 <= i < |s| ==> s[i] >= 0
    ensures Sum(s) >= 0
  {
    if s != [] {
      SumNonNegative(s[..|s| - 1]);
    }
  }

  lemma MeasureNonNegative(env: Env, spec: FlowSpec, steps: seq<StepStatus>)
    requires |steps| == |spec.steps| && AllClean(env, spec, steps)
    ensures Measure(spec, steps) >= 0
  {
    SumNonNegative(Weights(spec, steps));
  }

  /**
   * No run of the engine, under either driver, makes more transitions than the specification allows for: two for each
   * step, and three for each repetition that its loop admits.
   */
  lemma RunsAreBounded(env: Env, spec: FlowSpec, ms: seq<Move>)
    requires UniqueNames(spec.steps) && Exec(env, spec, Initial(spec), ms).Some?
    ensures Transitions(ms) <= Budget(spec)
    ensures Budget(spec) == Sum(seq(|spec.steps|, i requires 0 <= i < |spec.steps| =>
      match spec.steps[i].loop
      case None => 2
      case Some(loop) => if loop.maxIterations <= 0 then 32 else 3 * loop.maxIterations + 2))
  {
    assert seq(|spec.steps|, i requires 0 <= i < |spec.steps| => 3 * spec.steps[i].Cap() + 2)
        == seq(|spec.steps|, i requires 0 <= i < |spec.steps| =>
             match spec.steps[i].loop
             case None => 2
             case Some(loop) => if loop.maxIterations <= 0 then 32 else 3 * loop.maxIterations + 2);
    TransitionsBounded(env, spec, Initial(spec), ms);
    InitialMeasure(spec);
    InitialInv(env, spec);
    ExecKeepsInv(env, spec, Initial(spec), ms);
    MeasureNonNegative(env, spec, Exec(env, spec, Initial(spec), ms).value.steps);
  }

  // -------------------------------------------------------------- launches

  /** How often step i was launched. */
  function Launches(ms: seq<Move>, i: nat): nat {
    if ms == [] then 0
    else Launches(ms[..|ms| - 1], i) + if ms[|ms| - 1].Start? && ms[|ms| - 1].i == i then 1 else 0
  }

  /** A step was launched once per repetition, plus once if this repetition is under way or has succeeded. */
  ghost predicate LaunchCount(st: StepStatus, n: nat) {
    match st.phase
    case Pending => n == st.iterations
    case Skipped => n == st.iterations
    case Running => n == st.iterations + 1
    case Succeeded => n == st.iterations + 1
    case Failed => n == st.iterations || n == st.iterations + 1
  }

  lemma LaunchCountKept(env: Env, spec: FlowSpec, r: Run, m: Move, i: nat, n: nat)
    requires Shaped(spec, r) && Enabled(env, spec, r, m) && i < |r.steps| && LaunchCount(r.steps[i], n)
    ensures LaunchCount(Apply(env, spec, r, m).steps[i], n + if m.Start? && m.i == i then 1 else 0)
  {
  }

  lemma {:induction false} LaunchesCounted(env: Env, spec: FlowSpec, ms: seq<Move>, i: nat)
    requires Exec(env, spec, Initial(spec), ms).Some? && i < |spec.steps|
    ensures LaunchCount(Exec(env, spec, Initial(spec), ms).value.steps[i], Launches(ms, i))
    decreases |ms|
  {
    if ms != [] {
      var init := ms[..|ms| - 1];
      LaunchesCounted(env, spec, init, i);
      LaunchCountKept(env, spec, Exec(env, spec, Initial(spec), init).value, ms[|ms| - 1], i, Launches(init, i));
    }
  }

  /** Each step is launched once, and with a loop at most MaxIterations times more, or ten if that is not positive. */
  lemma LaunchesBounded(env: Env, spec: FlowSpec, ms: seq<Move>, i: nat)
    requires UniqueNames(spec.steps) && Exec(env, spec, Initial(spec), ms).Some? && i < |spec.steps|
    ensures
      match spec.steps[i].loop
      case None => Launches(ms, i) <= 1
      case Some(loop) => Launches(ms, i) <= if loop.maxIterations <= 0 then 11 else 1 + loop.maxIterations
  {
    LaunchesCounted(env, spec, ms, i);
    InitialInv(env, spec);
    ExecKeepsInv(env, spec, Initial(spec), ms);
  }

  // -------------------------------------------------------- happens before

  /** The state after the first k moves. */
  ghost function StateAt(env: Env, spec: FlowSpec, ms: seq<Move>, k: nat): Run
    requires Exec(env, spec, Initial(spec), ms).Some? && k <= |ms|
    ensures Shaped(spec, StateAt(env, spec, ms, k))
  {
    ExecPrefix(env, spec, Initial(spec), ms, k);
    Exec(env, spec, Initial(spec), ms[..k]).value
  }

  /** A step that counts as done at least once really was done in some state of the run. */
  lemma {:induction false} EverDoneWasDone(env: Env, spec: FlowSpec, ms: seq<Move>, j: nat) returns (k: nat)
    requires Exec(env, spec, Initial(spec), ms).Some? && j < |spec.steps|
    requires EverDone(Exec(env, spec, Initial(spec), ms).value.steps[j])
    ensures k <= |ms| && Done(StateAt(env, spec, ms, k).steps[j].phase)
    decreases |ms|
  {
    assert ms[..|ms|] == ms;
    if Done(Exec(env, spec, Initial(spec), ms).value.steps[j].phase) {
      k := |ms|;
    } else {
      var init := ms[..|ms| - 1];
      k := EverDoneWasDone(env, spec, init, j);
      assert init[..k] == ms[..k];
    }
  }

  /** Release is transitive: everything on a walk of dependencies has been done at least once. */
  lemma {:induction false} AncestorsEverDone(spec: FlowSpec, steps: seq<StepStatus>, p: seq<string>, i: nat, a: nat)
    requires UniqueNames(spec.steps) && Aligned(spec, steps) && Ordered(spec, steps)
    requires i < |steps| && a < |steps| && Left(steps[i])
    requires WalkFromTo(Adjacency(spec.steps), p, spec.steps[i].name, spec.steps[a].name)
    ensures EverDone(steps[a])
    decreases |p|
  {
    var g := Adjacency(spec.steps);
    assert Edge(g, p[0], p[1]);
    AdjacencyAt(spec.steps, i);
    if |p| == 2 {
      assert DependsOn(spec, i, a);
    } else {
      assert Edge(g, p[1], p[2]);
      var j :| 0 <= j < |spec.steps| && spec.steps[j].name == p[1];
      assert DependsOn(spec, i, j);
      WalkSuffix(g, p, 1);
      AncestorsEverDone(spec, steps, p[1..], j, a);
    }
  }

  /** A move that takes step i out of Pending. */
  predicate ReleasesStep(m: Move, i: nat) {
    (m.Skip? || m.Reject? || m.Start?) && m.i == i
  }

  /** Nothing but a release takes a step out of its first Pending. */
  lemma {:induction false} SomeRelease(env: Env, spec: FlowSpec, ms: seq<Move>, i: nat) returns (m: nat)
    requires Exec(env, spec, Initial(spec), ms).Some? && i < |spec.steps|
    requires Left(Exec(env, spec, Initial(spec), ms).value.steps[i])
    ensures m < |ms| && ReleasesStep(ms[m], i)
    decreases |ms|
  {
    var init := ms[..|ms| - 1];
    if Left(Exec(env, spec, Initial(spec), init).value.steps[i]) {
      m := SomeRelease(env, spec, init, i);
    } else {
      m := |ms| - 1;
    }
  }

  lemma {:induction false} FirstOf(ms: seq<Move>, i: nat, last: nat) returns (m: nat)
    requires last < |ms| && ReleasesStep(ms[last], i)
    ensures m < |ms| && ReleasesStep(ms[m], i) && forall x :: 0 <= x < m ==> !ReleasesStep(ms[x], i)
    decreases last
  {
    if x: nat :| x < last && ReleasesStep(ms[x], i) {
      m := FirstOf(ms, i, x);
    } else {
      m := last;
    }
  }

  /** The move that releases the step for the first time. */
  lemma FirstRelease(env: Env, spec: FlowSpec, ms: seq<Move>, i: nat) returns (m: nat)
    requires Exec(env, spec, Initial(spec), ms).Some? && i < |spec.steps|
    requires Left(Exec(env, spec, Initial(spec), ms).value.steps[i])
    ensures m < |ms| && ReleasesStep(ms[m], i) && forall x :: 0 <= x < m ==> !ReleasesStep(ms[x], i)
  {
    var last := SomeRelease(env, spec, ms, i);
    m := FirstOf(ms, i, last);
  }

  /** The state before the m-th move satisfies the invariants, */
  lemma StateInv(env: Env, spec: FlowSpec, ms: seq<Move>, m: nat)
    requires UniqueNames(spec.steps) && Exec(env, spec, Initial(spec), ms).Some? && m < |ms|
    ensures Inv(env, spec, StateAt(env, spec, ms, m))
  {
    ExecPrefix(env, spec, Initial(spec), ms, m);
    InitialInv(env, spec);
    ExecKeepsInv(env, spec, Initial(spec), ms[..m]);
  }

  /** and the move is enabled in it. */
  lemma MoveEnabled(env: Env, spec: FlowSpec, ms: seq<Move>, m: nat)
    requires Exec(env, spec, Initial(spec), ms).Some? && m < |ms|
    ensures Enabled(env, spec, StateAt(env, spec, ms, m), ms[m])
  {
    ExecPrefix(env, spec, Initial(spec), ms, m + 1);
    assert ms[..m + 1][..m] == ms[..m];
  }

  /** When a step is released, its direct dependencies are done. */
  lemma ReleasedAfterDependencies(env: Env, spec: FlowSpec, ms: seq<Move>, i: nat, m: nat)
    requires UniqueNames(spec.steps) && Exec(env, spec, Initial(spec), ms).Some?
    requires i < |spec.steps| && m < |ms| && ReleasesStep(ms[m], i)
    ensures forall j: nat :: j < |spec.steps| && DependsOn(spec, i, j) ==>
      Done(StateAt(env, spec, ms, m).steps[j].phase)
  {
    StateInv(env, spec, ms, m);
    MoveEnabled(env, spec, ms, m);
    DepsSucceededIff(spec, StateAt(env, spec, ms, m).steps, i);
  }

  /** A walk begins with a dependency. */
  lemma WalkStartsWith(spec: FlowSpec, p: seq<string>, i: nat, j: nat)
    requires UniqueNames(spec.steps) && Walk(Adjacency(spec.steps), p) && |p| >= 2
    requires i < |spec.steps| && j < |spec.steps| && p[0] == spec.steps[i].name && p[1] == spec.steps[j].name
    ensures DependsOn(spec, i, j)
  {
    assert Edge(Adjacency(spec.steps), p[0], p[1]);
    AdjacencyAt(spec.steps, i);
  }

  /** If the direct dependencies of a step are done, everything it depends on has been done at least once. */
  lemma AncestorsOfReady(env: Env, spec: FlowSpec, steps: seq<StepStatus>, i: nat, a: nat)
    requires UniqueNames(spec.steps) && Aligned(spec, steps) && Ordered(spec, steps) && i < |steps| && a < |steps|
    requires forall j: nat :: j < |steps| && DependsOn(spec, i, j) ==> Done(steps[j].phase)
    requires Reaches(Adjacency(spec.steps), spec.steps[i].name, spec.steps[a].name)
    ensures EverDone(steps[a])
  {
    var g := Adjacency(spec.steps);
    var p :| WalkFromTo(g, p, spec.steps[i].name, spec.steps[a].name);
    if |p| == 2 {
      WalkStartsWith(spec, p, i, a);
    } else {
      assert Edge(g, p[1], p[2]);
      var j :| 0 <= j < |spec.steps| && spec.steps[j].name == p[1];
      WalkStartsWith(spec, p, i, j);
      WalkSuffix(g, p, 1);
      AncestorsEverDone(spec, steps, p[1..], j, a);
    }
  }

  /**
   * A step that has left Pending was released by a first move m. In the state before that move each of its direct
   * dependencies was done, and each of its transitive dependencies was done in that state or an earlier one.
   */
  lemma HappensBefore(env: Env, spec: FlowSpec, ms: seq<Move>, i: nat, a: nat) returns (m: nat, k: nat)
    requires UniqueNames(spec.steps) && Exec(env, spec, Initial(spec), ms).Some?
    requires i < |spec.steps| && a < |spec.steps|
    requires Left(Exec(env, spec, Initial(spec), ms).value.steps[i])
    requires Reaches(Adjacency(spec.steps), spec.steps[i].name, spec.steps[a].name)
    ensures m < |ms| && ReleasesStep(ms[m], i) && forall x :: 0 <= x < m ==> !ReleasesStep(ms[x], i)
    ensures forall j: nat :: j < |spec.steps| && DependsOn(spec, i, j) ==>
      Done(StateAt(env, spec, ms, m).steps[j].phase)
    ensures k <= m && Done(StateAt(env, spec, ms, k).steps[a].phase)
  {
    m := FirstRelease(env, spec, ms, i);
    ReleasedAfterDependencies(env, spec, ms, i, m);
    StateInv(env, spec, ms, m);
    AncestorsOfReady(env, spec, StateAt(env, spec, ms, m).steps, i, a);
    ExecPrefix(env, spec, Initial(spec), ms, m);
    k := EverDoneWasDone(env, spec, ms[..m], a);
    assert ms[..m][..k] == ms[..k];
  }

  // ------------------------------------------------------ token accounting

  function TokensOf(st: StepStatus): int {
    if st.tokens.Some? then st.tokens.value.input + st.tokens.value.output else 0
  }

  /** A record never claims more than was spent, and exactly that if it was never reset. */
  ghost predicate Accounted(st: StepStatus, spent: nat) {
    && 0 <= TokensOf(st) <= spent
    && (st.iterations == 0 ==> TokensOf(st) == spent)
    && (st.iterations == 0 && st.phase != Succeeded ==> st.tokens == None)
    && (st.tokens.Some? ==>
          st.tokens.value.total == TokensOf(st) && st.tokens.value.input >= 0 && st.tokens.value.output >= 0)
  }

  ghost predicate AllAccounted(r: Run) {
    |r.spent| == |r.steps| && forall j :: 0 <= j < |r.steps| ==> Accounted(r.steps[j], r.spent[j])
  }

  lemma KeepsAccounts(env: Env, spec: FlowSpec, r: Run, m: Move)
    requires Shaped(spec, r) && Enabled(env, spec, r, m) && AllAccounted(r)
    ensures AllAccounted(Apply(env, spec, r, m))
  {
  }

  lemma {:induction false} ExecKeepsAccounts(env: Env, spec: FlowSpec, r: Run, ms: seq<Move>)
    requires Shaped(spec, r) && AllAccounted(r) && Exec(env, spec, r, ms).Some?
    ensures AllAccounted(Exec(env, spec, r, ms).value)
    decreases |ms|
  {
    if ms != [] {
      var init := ms[..|ms| - 1];
      ExecKeepsAccounts(env, spec, r, init);
      KeepsAccounts(env, spec, Exec(env, spec, r, init).value, ms[|ms| - 1]);
    }
  }

  function TokenColumn(steps: seq<StepStatus>): (c: seq<int>)
    ensures |c| == |steps|
  {
    seq(|steps|, i requires 0 <= i < |steps| => TokensOf(steps[i]))
  }

  function SpentColumn(spent: seq<nat>): (c: seq<int>)
    ensures |c| == |spent|
  {
    seq(|spent|, i requires 0 <= i < |spent| => spent[i])
  }

  /** The recorded tokens never exceed those spent by successful executions, and equal them without loops. */
  lemma TokensAccounted(env: Env, spec: FlowSpec, r: Run)
    requires Reachable(env, spec, r)
    ensures |r.spent| == |r.steps| == |spec.steps|
    ensures Sum(TokenColumn(r.steps)) <= Sum(SpentColumn(r.spent))
    ensures (forall i :: 0 <= i < |r.steps| ==> r.steps[i].iterations == 0)
            ==> Sum(TokenColumn(r.steps)) == Sum(SpentColumn(r.spent))
  {
    var ms :| Exec(env, spec, Initial(spec), ms) == Some(r);
    ExecKeepsAccounts(env, spec, Initial(spec), ms);
    SumMonotone(TokenColumn(r.steps), SpentColumn(r.spent));
    if forall i :: 0 <= i < |r.steps| ==> r.steps[i].iterations == 0 {
      SumMonotone(SpentColumn(r.spent), TokenColumn(r.steps));
    }
  }

  /** All tokens that the successful executions of a run reported. */
  function Spent(r: Run): int {
    Sum(SpentColumn(r.spent))
  }

  ghost predicate SpentGrew(a: Run, b: Run) {
    |a.spent| == |b.spent| && forall i :: 0 <= i < |a.spent| ==> a.spent[i] <= b.spent[i]
  }

  /** Tokens once spent stay spent. */
  lemma {:induction false} ExecSpends(env: Env, spec: FlowSpec, r: Run, ms: seq<Move>)
    requires Shaped(spec, r) && Exec(env, spec, r, ms).Some?
    ensures SpentGrew(r, Exec(env, spec, r, ms).value)
    decreases |ms|
  {
    if ms != [] {
      ExecSpends(env, spec, r, ms[..|ms| - 1]);
    }
  }

  lemma SpentOnlyGrows(env: Env, spec: FlowSpec, r: Run, ms: seq<Move>, r': Run)
    requires Shaped(spec, r) && Exec(env, spec, r, ms) == Some(r')
    ensures Spent(r) <= Spent(r')
  {
    ExecSpends(env, spec, r, ms);
    SumMonotone(SpentColumn(r.spent), SpentColumn(r'.spent));
  }

  lemma ReachableAccounted(env: Env, spec: FlowSpec, r: Run)
    requires Reachable(env, spec, r)
    ensures AllAccounted(r)
  {
    var ms :| Exec(env, spec, Initial(spec), ms) == Some(r);
    ExecKeepsAccounts(env, spec, Initial(spec), ms);
  }
}
