/**
 * The flow engine as a transition system. Both drivers change step records only through the moves below; Local and
 * Reconciler prove that each of their passes is a sequence of these moves.
 */
module Engine {
  import opened Wrappers
  import opened FlowTypes
  import opened Templates

  // ------------------------------------------------ changes to one record

  function Finished(st: StepStatus, output: string, inTok: int, outTok: int, zeroes: bool, at: int): StepStatus {
    st.(phase := Succeeded, output := output, completionTime := Some(at),
        tokens := if zeroes || inTok > 0 || outTok > 0 then Some(TokenUsage(inTok, outTok, inTok + outTok))
            else st.tokens)
  }

  function Stopped(st: StepStatus, phase: StepPhase, at: int): StepStatus {
    st.(phase := phase, completionTime := Some(at))
  }

  function Parsed(env: Env, step: Step, st: StepStatus): StepStatus {
    if st.phase == Succeeded && st.outputJSON == "" then st.(outputJSON := ParsedJSON(env, step, st.output)) else st
  }

  /** A loop repetition: back to Pending, keeping only the token usage. */
  function Renewed(st: StepStatus): StepStatus {
    st.(iterations := st.iterations + 1, phase := Pending, taskID := None, output := "", outputJSON := "",
        startTime := None, completionTime := None)
  }

  function Launched(st: StepStatus, id: Option<nat>, at: int): StepStatus {
    st.(phase := Running, taskID := id, startTime := Some(at))
  }

  // ------------------------------------------------------------ the moves

  /**
   * The step records, the template data in force, and history: the prompt each step was last launched with, the
   * tokens its successful executions reported, the steps reset since the data was built, and whether the data was
   * built after the last answer came in.
   */
  datatype Run = Run(
    steps: seq<StepStatus>,
    data: Data,
    asked: seq<string>,
    spent: seq<nat>,
    dirty: set<nat>,
    current: bool)

  datatype Move =
    | Finish(i: nat, output: string, inTok: nat, outTok: nat, zeroes: bool, at: int)
    | Crash(i: nat, at: int)
    | Parse(i: nat)
    | Refresh
    | Reset(i: nat)
    | Skip(i: nat, at: int)
    | Reject(i: nat, at: int)
    | Start(i: nat, prompt: string, id: Option<nat>, at: int)

  /** Every answer has been through ParseOutputJSON. */
  ghost predicate AllParsed(env: Env, spec: FlowSpec, steps: seq<StepStatus>)
    requires |steps| == |spec.steps|
  {
    forall j :: 0 <= j < |steps| && steps[j].phase == Succeeded ==>
                  steps[j].outputJSON == ParsedJSON(env, spec.steps[j], steps[j].output)
  }

  /** EvaluateLoops has nothing left to reset. */
  ghost predicate Settled(env: Env, spec: FlowSpec, steps: seq<StepStatus>, data: Data)
    requires |steps| == |spec.steps|
  {
    forall j :: 0 <= j < |steps| && steps[j].phase == Succeeded ==> !Repeats(env, spec.steps[j], steps[j], data)
  }

  /** The step is next in line: Pending, its dependencies done, the loops evaluated. */
  ghost predicate Releasable(env: Env, spec: FlowSpec, r: Run, i: nat)
    requires |r.steps| == |spec.steps| && i < |r.steps|
  {
    && r.current
    && r.steps[i].phase == Pending
    && DepsSucceeded(spec.steps[i].dependsOn, r.steps)
    && Settled(env, spec, r.steps, r.data)
  }

  ghost predicate Shaped(spec: FlowSpec, r: Run) {
    Aligned(spec, r.steps) && |r.asked| == |r.steps| && |r.spent| == |r.steps|
  }

  ghost predicate Enabled(env: Env, spec: FlowSpec, r: Run, m: Move)
    requires Shaped(spec, r)
  {
    match m
    case Refresh => AllParsed(env, spec, r.steps)
    case Finish(i, output, _, _, _, _) => i < |r.steps| && r.steps[i].phase == Running
        && env.answers(r.asked[i], output)
    case Crash(i, _) => i < |r.steps| && r.steps[i].phase == Running
    case Parse(i) => i < |r.steps| && r.steps[i].phase == Succeeded && r.steps[i].outputJSON == ""
    case Reset(i) =>
      && i < |r.steps| && r.current && i !in r.dirty
      && r.steps[i].phase == Succeeded && Repeats(env, spec.steps[i], r.steps[i], r.data)
    case Skip(i, _) => i < |r.steps| && Releasable(env, spec, r, i) && !Wanted(env, spec.steps[i], r.data)
    case Reject(i, _) =>
      && i < |r.steps| && Releasable(env, spec, r, i) && Wanted(env, spec.steps[i], r.data)
      && !InputsResolve(env, spec.steps[i], r.data)
    case Start(i, prompt, _, _) =>
      && i < |r.steps| && Releasable(env, spec, r, i) && Wanted(env, spec.steps[i], r.data)
      && MayAsk(env, spec.steps[i], r.data, prompt)
  }

  /** What a move does to the record it concerns. */
  function StepAfter(env: Env, step: Step, st: StepStatus, m: Move): StepStatus {
    match m
    case Refresh => st
    case Finish(_, output, inTok, outTok, zeroes, at) => Finished(st, output, inTok, outTok, zeroes, at)
    case Crash(_, at) => Stopped(st, Failed, at)
    case Parse(_) => Parsed(env, step, st)
    case Reset(_) => Renewed(st)
    case Skip(_, at) => Stopped(st, Skipped, at)
    case Reject(_, at) => Stopped(st, Failed, at)
    case Start(_, _, id, at) => Launched(st, id, at)
  }

  function Apply(env: Env, spec: FlowSpec, r: Run, m: Move): (r': Run)
    requires |r.steps| == |spec.steps| == |r.asked| == |r.spent|
    ensures |r'.steps| == |spec.steps| == |r'.asked| == |r'.spent|
  {
    if m.Refresh? then r.(data := Snapshot(env, spec, r.steps), dirty := {}, current := true)
    else if m.i >= |r.steps| then r
    else
      Run(
        r.steps[m.i := StepAfter(env, spec.steps[m.i], r.steps[m.i], m)],
        r.data,
        if m.Start? then r.asked[m.i := m.prompt] else r.asked,
        if m.Finish? then r.spent[m.i := r.spent[m.i] + m.inTok + m.outTok] else r.spent,
        if m.Reset? then r.dirty + {m.i} else r.dirty,
        r.current && !m.Finish? && !m.Crash? && !m.Parse?)
  }

  /** Plays the moves in order; None when one of them is not enabled. */
  ghost function Exec(env: Env, spec: FlowSpec, r: Run, ms: seq<Move>): (r': Option<Run>)
    requires Shaped(spec, r)
    ensures r'.Some? ==> Shaped(spec, r'.value)
    decreases |ms|
  {
    if ms == [] then Some(r)
    else
      var mid := Exec(env, spec, r, ms[..|ms| - 1]);
      var m := ms[|ms| - 1];
      if mid.Some? && Enabled(env, spec, mid.value, m) then Some(Apply(env, spec, mid.value, m)) else None
  }

  function Blank(step: Step): StepStatus {
    StepStatus(step.name, Pending, None, "", "", 0, None, None, None)
  }

  function BlankSteps(spec: FlowSpec): seq<StepStatus> {
    seq(|spec.steps|, i requires 0 <= i < |spec.steps| => Blank(spec.steps[i]))
  }

  /** A freshly initialized flow. */
  function Initial(spec: FlowSpec): Run {
    Run(BlankSteps(spec), Data(map[], map[]), seq(|spec.steps|, _ => ""), seq(|spec.steps|, _ => 0), {}, false)
  }

  ghost predicate Reachable(env: Env, spec: FlowSpec, r: Run) {
    exists ms :: Exec(env, spec, Initial(spec), ms) == Some(r)
  }

  lemma ExecOne(env: Env, spec: FlowSpec, r: Run, m: Move)
    requires Shaped(spec, r) && Enabled(env, spec, r, m)
    ensures Exec(env, spec, r, [m]) == Some(Apply(env, spec, r, m))
  {
    assert [m][..0] == [];
  }

  lemma ExecSnoc(env: Env, spec: FlowSpec, r: Run, ms: seq<Move>, m: Move)
    requires Shaped(spec, r) && Exec(env, spec, r, ms).Some? && Enabled(env, spec, Exec(env, spec, r, ms).value, m)
    ensures Exec(env, spec, r, ms + [m]) == Some(Apply(env, spec, Exec(env, spec, r, ms).value, m))
  {
    assert (ms + [m])[..|ms|] == ms;
  }

  lemma ExecTwo(env: Env, spec: FlowSpec, r: Run, m: Move, mid: Run, n: Move)
    requires Shaped(spec, r) && Enabled(env, spec, r, m) && mid == Apply(env, spec, r, m)
    requires Shaped(spec, mid) && Enabled(env, spec, mid, n)
    ensures Exec(env, spec, r, [m] + [n]) == Some(Apply(env, spec, mid, n))
  {
    ExecOne(env, spec, r, m);
    ExecSnoc(env, spec, r, [m], n);
  }

  lemma {:induction false} ExecConcat(env: Env, spec: FlowSpec, r: Run, a: seq<Move>, b: seq<Move>)
    requires Shaped(spec, r) && Exec(env, spec, r, a).Some?
    ensures Exec(env, spec, r, a + b) == Exec(env, spec, Exec(env, spec, r, a).value, b)
    decreases |b|
  {
    if b == [] {
      assert a + b == a;
    } else {
      var init, m := b[..|b| - 1], b[|b| - 1];
      ExecConcat(env, spec, r, a, init);
      assert (a + b)[..|a + b| - 1] == a + init && (a + b)[|a + b| - 1] == m;
    }
  }

  /** Every prefix of a run is a run. */
  lemma {:induction false} ExecPrefix(env: Env, spec: FlowSpec, r: Run, ms: seq<Move>, k: nat)
    requires Shaped(spec, r) && Exec(env, spec, r, ms).Some? && k <= |ms|
    ensures Exec(env, spec, r, ms[..k]).Some?
    decreases |ms|
  {
    if k < |ms| {
      ExecPrefix(env, spec, r, ms[..|ms| - 1], k);
      assert ms[..|ms| - 1][..k] == ms[..k];
    } else {
      assert ms[..k] == ms;
    }
  }

  lemma ReachableThen(env: Env, spec: FlowSpec, r: Run, ms: seq<Move>, r': Run)
    requires Reachable(env, spec, r) && Shaped(spec, r) && Exec(env, spec, r, ms) == Some(r')
    ensures Reachable(env, spec, r')
  {
    var a :| Exec(env, spec, Initial(spec), a) == Some(r);
    ExecConcat(env, spec, Initial(spec), a, ms);
    assert Exec(env, spec, Initial(spec), a + ms) == Some(r');
  }

  // ------------------------------------------------- invariants of a record

  /** What holds of one step's record in every reachable state. */
  ghost predicate Clean(env: Env, step: Step, st: StepStatus) {
    && (st.phase != Succeeded ==> st.output == "" && st.outputJSON == "")
    && (st.outputJSON == "" || st.outputJSON == ParsedJSON(env, step, st.output))
    && (st.phase == Pending || st.phase == Skipped ==> st.taskID == None)
    && st.iterations <= step.Cap()
  }

  ghost predicate AllClean(env: Env, spec: FlowSpec, steps: seq<StepStatus>)
    requires |steps| == |spec.steps|
  {
    forall j :: 0 <= j < |steps| ==> Clean(env, spec.steps[j], steps[j])
  }

  /** The template data agrees with the records, except for steps reset since it was built. */
  ghost predicate Coherent(env: Env, spec: FlowSpec, r: Run)
    requires |r.steps| == |spec.steps|
  {
    && r.data.input == spec.input
    && (forall j :: 0 <= j < |r.steps| && j !in r.dirty ==>
                      spec.steps[j].name in r.data.steps
                          && r.data.steps[spec.steps[j].name] == EntryOfStep(env, r.steps[j]))
    && (forall j :: 0 <= j < |r.steps| && j in r.dirty ==> r.steps[j].phase != Succeeded && r.steps[j].iterations > 0)
  }

  predicate EverDone(st: StepStatus) {
    Done(st.phase) || st.iterations > 0
  }

  /** The step has been released at least once. */
  predicate Left(st: StepStatus) {
    st.phase != Pending || st.iterations > 0
  }

  /** A released step's dependencies have all been done at least once. */
  ghost predicate Ordered(spec: FlowSpec, steps: seq<StepStatus>)
    requires |steps| == |spec.steps|
  {
    forall i, j :: 0 <= i < |steps| && 0 <= j < |steps| && DependsOn(spec, i, j) && Left(steps[i]) ==>
        EverDone(steps[j])
  }

  ghost predicate Inv(env: Env, spec: FlowSpec, r: Run) {
    && Shaped(spec, r)
    && AllClean(env, spec, r.steps)
    && Ordered(spec, r.steps)
    && (r.current ==> AllParsed(env, spec, r.steps) && Coherent(env, spec, r))
  }

  lemma InitialInv(env: Env, spec: FlowSpec)
    ensures Inv(env, spec, Initial(spec))
  {
  }

  lemma RecordStaysClean(env: Env, spec: FlowSpec, r: Run, m: Move)
    requires Shaped(spec, r) && Enabled(env, spec, r, m) && !m.Refresh? && Clean(env, spec.steps[m.i], r.steps[m.i])
    ensures Clean(env, spec.steps[m.i], StepAfter(env, spec.steps[m.i], r.steps[m.i], m))
  {
  }

  lemma KeepsShaped(env: Env, spec: FlowSpec, r: Run, m: Move)
    requires Shaped(spec, r) && Enabled(env, spec, r, m)
    ensures Shaped(spec, Apply(env, spec, r, m))
  {
  }

  lemma KeepsClean(env: Env, spec: FlowSpec, r: Run, m: Move)
    requires Shaped(spec, r) && AllClean(env, spec, r.steps) && Enabled(env, spec, r, m)
    ensures AllClean(env, spec, Apply(env, spec, r, m).steps)
  {
    if !m.Refresh? {
      RecordStaysClean(env, spec, r, m);
    }
  }

  lemma EverDoneStays(env: Env, spec: FlowSpec, r: Run, m: Move, j: nat)
    requires Shaped(spec, r) && Enabled(env, spec, r, m) && j < |r.steps| && EverDone(r.steps[j])
    ensures EverDone(Apply(env, spec, r, m).steps[j])
  {
  }

  /** Only a step next in line leaves Pending. */
  lemma NewlyLeft(env: Env, spec: FlowSpec, r: Run, m: Move, i: nat)
    requires Shaped(spec, r) && Enabled(env, spec, r, m) && i < |r.steps|
    requires !Left(r.steps[i]) && Left(Apply(env, spec, r, m).steps[i])
    ensures Releasable(env, spec, r, i)
  {
  }

  lemma KeepsOrdered(env: Env, spec: FlowSpec, r: Run, m: Move)
    requires UniqueNames(spec.steps)
    requires Shaped(spec, r) && Ordered(spec, r.steps) && Enabled(env, spec, r, m)
    ensures Ordered(spec, Apply(env, spec, r, m).steps)
  {
    var after := Apply(env, spec, r, m).steps;
    forall i, j | 0 <= i < |after| && 0 <= j < |after| && DependsOn(spec, i, j) && Left(after[i])
      ensures EverDone(after[j])
    {
      if !Left(r.steps[i]) {
        NewlyLeft(env, spec, r, m, i);
        DepsSucceededIff(spec, r.steps, i);
      }
      EverDoneStays(env, spec, r, m, j);
    }
  }

  lemma RefreshCoherent(env: Env, spec: FlowSpec, r: Run)
    requires UniqueNames(spec.steps) && Shaped(spec, r)
    ensures Coherent(env, spec, Apply(env, spec, r, Refresh))
  {
    forall j | 0 <= j < |r.steps|
      ensures var d := Snapshot(env, spec, r.steps);
              spec.steps[j].name in d.steps && d.steps[spec.steps[j].name] == EntryOfStep(env, r.steps[j])
    {
      SnapshotAt(env, spec, r.steps, j);
    }
  }

  lemma MoveCoherent(env: Env, spec: FlowSpec, r: Run, m: Move)
    requires Inv(env, spec, r) && Enabled(env, spec, r, m) && !m.Refresh? && Apply(env, spec, r, m).current
    ensures Coherent(env, spec, Apply(env, spec, r, m))
  {
  }

  lemma KeepsParsed(env: Env, spec: FlowSpec, r: Run, m: Move)
    requires Inv(env, spec, r) && Enabled(env, spec, r, m) && Apply(env, spec, r, m).current
    ensures AllParsed(env, spec, Apply(env, spec, r, m).steps)
  {
  }

  lemma KeepsCoherent(env: Env, spec: FlowSpec, r: Run, m: Move)
    requires UniqueNames(spec.steps)
    requires Inv(env, spec, r) && Enabled(env, spec, r, m) && Apply(env, spec, r, m).current
    ensures AllParsed(env, spec, Apply(env, spec, r, m).steps) && Coherent(env, spec, Apply(env, spec, r, m))
  {
    KeepsParsed(env, spec, r, m);
    if m.Refresh? {
      RefreshCoherent(env, spec, r);
    } else {
      MoveCoherent(env, spec, r, m);
    }
  }

  /** Every move keeps every invariant. */
  lemma KeepsInv(env: Env, spec: FlowSpec, r: Run, m: Move)
    requires UniqueNames(spec.steps)
    requires Inv(env, spec, r) && Enabled(env, spec, r, m)
    ensures Inv(env, spec, Apply(env, spec, r, m))
  {
    KeepsShaped(env, spec, r, m);
    KeepsClean(env, spec, r, m);
    KeepsOrdered(env, spec, r, m);
    if Apply(env, spec, r, m).current {
      KeepsCoherent(env, spec, r, m);
    }
  }

  lemma {:induction false} ExecKeepsInv(env: Env, spec: FlowSpec, r: Run, ms: seq<Move>)
    requires UniqueNames(spec.steps)
    requires Inv(env, spec, r) && Exec(env, spec, r, ms).Some?
    ensures Inv(env, spec, Exec(env, spec, r, ms).value)
    decreases |ms|
  {
    if ms != [] {
      var init := ms[..|ms| - 1];
      ExecKeepsInv(env, spec, r, init);
      KeepsInv(env, spec, Exec(env, spec, r, init).value, ms[|ms| - 1]);
    }
  }

  /** The invariants hold in every reachable state. */
  lemma ReachableInv(env: Env, spec: FlowSpec, r: Run)
    requires UniqueNames(spec.steps) && Reachable(env, spec, r)
    ensures Inv(env, spec, r)
  {
    var ms :| Exec(env, spec, Initial(spec), ms) == Some(r);
    InitialInv(env, spec);
    ExecKeepsInv(env, spec, Initial(spec), ms);
  }
}
