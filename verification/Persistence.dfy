/** What is left of a flow's status once it has been written: times in whole seconds, and all else as it was. */
module Persistence {
  import opened Wrappers
  import opened FlowTypes
  import opened Templates
  import opened Engine
  import opened Passes
  import opened Agreement

  function PersistedStep(st: StepStatus): StepStatus {
    st.(startTime := TruncatedOption(st.startTime), completionTime := TruncatedOption(st.completionTime))
  }

  function PersistedSteps(steps: seq<StepStatus>): (r: seq<StepStatus>)
    ensures |r| == |steps|
  {
    seq(|steps|, i requires 0 <= i < |steps| => PersistedStep(steps[i]))
  }

  /** The status as it is read back. */
  function Persisted(st: Status): (r: Status)
    ensures |r.steps| == |st.steps|
  {
    st.(startTime := TruncatedOption(st.startTime), completionTime := TruncatedOption(st.completionTime),
        steps := PersistedSteps(st.steps))
  }

  lemma TruncatedTwice(t: int)
    ensures Truncated(Truncated(t)) == Truncated(t)
  {
  }

  lemma StepPersistedTwice(st: StepStatus)
    ensures PersistedStep(PersistedStep(st)) == PersistedStep(st)
  {
    if st.startTime.Some? {
      TruncatedTwice(st.startTime.value);
    }
    if st.completionTime.Some? {
      TruncatedTwice(st.completionTime.value);
    }
  }

  /** Writing once more changes nothing. */
  lemma PersistedTwice(st: Status)
    ensures Persisted(Persisted(st)) == Persisted(st)
  {
    forall i | 0 <= i < |st.steps|
      ensures PersistedStep(PersistedStep(st.steps[i])) == PersistedStep(st.steps[i])
    {
      StepPersistedTwice(st.steps[i]);
    }
    assert PersistedSteps(PersistedSteps(st.steps)) == PersistedSteps(st.steps);
    if st.startTime.Some? {
      TruncatedTwice(st.startTime.value);
    }
    if st.completionTime.Some? {
      TruncatedTwice(st.completionTime.value);
    }
  }

  // --------------------------------------------- the engine reads no times

  function StampedMove(m: Move): Move {
    match m
    case Finish(i, output, inTok, outTok, zeroes, at) => Finish(i, output, inTok, outTok, zeroes, Truncated(at))
    case Crash(i, at) => Crash(i, Truncated(at))
    case Skip(i, at) => Skip(i, Truncated(at))
    case Reject(i, at) => Reject(i, Truncated(at))
    case Start(i, prompt, id, at) => Start(i, prompt, id, Truncated(at))
    case _ => m
  }

  function StampedMoves(ms: seq<Move>): (r: seq<Move>)
    ensures |r| == |ms|
  {
    seq(|ms|, k requires 0 <= k < |ms| => StampedMove(ms[k]))
  }

  /** The same run with the times of its records in whole seconds. */
  function Stamped(r: Run): Run {
    r.(steps := PersistedSteps(r.steps))
  }

  lemma SameForTemplates(env: Env, spec: FlowSpec, steps: seq<StepStatus>)
    ensures Index(PersistedSteps(steps)) == Index(steps)
    ensures Snapshot(env, spec, PersistedSteps(steps)) == Snapshot(env, spec, steps)
  {
    SameNamesSameIndex(PersistedSteps(steps), steps);
    assert Snapshot(env, spec, PersistedSteps(steps)).steps == Snapshot(env, spec, steps).steps;
  }

  lemma SameDependencies(deps: seq<string>, steps: seq<StepStatus>)
    requires DepsSucceeded(deps, steps)
    ensures DepsSucceeded(deps, PersistedSteps(steps))
  {
    SameNamesSameIndex(PersistedSteps(steps), steps);
  }

  lemma SettledPersists(env: Env, spec: FlowSpec, steps: seq<StepStatus>, data: Data)
    requires |steps| == |spec.steps| && Settled(env, spec, steps, data)
    ensures Settled(env, spec, PersistedSteps(steps), data)
  {
  }

  lemma StampedReleasable(env: Env, spec: FlowSpec, r: Run, i: nat)
    requires |r.steps| == |spec.steps| && i < |r.steps| && Releasable(env, spec, r, i)
    ensures Releasable(env, spec, Stamped(r), i)
  {
    SameDependencies(spec.steps[i].dependsOn, r.steps);
    SettledPersists(env, spec, r.steps, r.data);
  }

  lemma StampedShaped(spec: FlowSpec, r: Run)
    requires Shaped(spec, r)
    ensures Shaped(spec, Stamped(r))
  {
  }

  lemma StampedEnabled(env: Env, spec: FlowSpec, r: Run, m: Move)
    requires Shaped(spec, r) && Shaped(spec, Stamped(r)) && Enabled(env, spec, r, m)
    ensures Enabled(env, spec, Stamped(r), StampedMove(m))
  {
    match m
    case Refresh => RecordsPersist(env, spec, r.steps);
    case Skip(i, _) => StampedReleasable(env, spec, r, i);
    case Reject(i, _) => StampedReleasable(env, spec, r, i);
    case Start(i, _, _, _) => StampedReleasable(env, spec, r, i);
    case _ =>
  }

  lemma StampedStep(env: Env, step: Step, st: StepStatus, m: Move)
    ensures StepAfter(env, step, PersistedStep(st), StampedMove(m)) == PersistedStep(StepAfter(env, step, st, m))
  {
  }

  lemma OneStamped(steps: seq<StepStatus>, i: nat, st: StepStatus)
    requires i < |steps|
    ensures PersistedSteps(steps[i := st]) == PersistedSteps(steps)[i := PersistedStep(st)]
  {
  }

  lemma StampedApply(env: Env, spec: FlowSpec, r: Run, m: Move)
    requires Shaped(spec, r)
    ensures Apply(env, spec, Stamped(r), StampedMove(m)) == Stamped(Apply(env, spec, r, m))
  {
    if m.Refresh? {
      SameForTemplates(env, spec, r.steps);
    } else if m.i < |r.steps| {
      StampedStep(env, spec.steps[m.i], r.steps[m.i], m);
      OneStamped(r.steps, m.i, StepAfter(env, spec.steps[m.i], r.steps[m.i], m));
    }
  }

  lemma {:induction false} StampedExec(env: Env, spec: FlowSpec, r: Run, ms: seq<Move>)
    requires Shaped(spec, r) && Shaped(spec, Stamped(r)) && Exec(env, spec, r, ms).Some?
    ensures Exec(env, spec, Stamped(r), StampedMoves(ms)) == Some(Stamped(Exec(env, spec, r, ms).value))
    decreases |ms|
  {
    if ms != [] {
      var init, m := ms[..|ms| - 1], ms[|ms| - 1];
      StampedExec(env, spec, r, init);
      var mid := Exec(env, spec, r, init).value;
      StampedShaped(spec, mid);
      StampedEnabled(env, spec, mid, m);
      StampedApply(env, spec, mid, m);
      assert StampedMoves(ms)[..|ms| - 1] == StampedMoves(init);
    }
  }

  /** What can be reached can be reached with times in whole seconds. */
  lemma StampedReachable(env: Env, spec: FlowSpec, r: Run)
    requires Reachable(env, spec, r)
    ensures Reachable(env, spec, Stamped(r))
  {
    var ms :| Exec(env, spec, Initial(spec), ms) == Some(r);
    assert PersistedSteps(BlankSteps(spec)) == BlankSteps(spec);
    StampedExec(env, spec, Initial(spec), ms);
  }

  // ------------------------------------------------------ written statuses

  lemma TruncatedShift(t: int, k: int)
    ensures Truncated(t + k * SECOND) == Truncated(t) + k * SECOND
  {
    assert (t + k * SECOND) % SECOND == t % SECOND;
  }

  lemma TruncatedMonotone(a: int, b: int)
    requires a <= b
    ensures Truncated(a) <= Truncated(b)
  {
    assert a / SECOND <= b / SECOND;
    assert Truncated(a) == (a / SECOND) * SECOND && Truncated(b) == (b / SECOND) * SECOND;
  }

  /** Written, a flow that reached its deadline still shows that it did; one that shows it passed, did pass it. */
  lemma DeadlinePersists(spec: FlowSpec, st: Status, at: int)
    ensures DeadlineReached(spec, st, at) ==> DeadlineReached(spec, Persisted(st), Truncated(at))
    ensures PastDeadline(spec, Persisted(st), Truncated(at)) ==> PastDeadline(spec, st, at)
  {
    if spec.timeoutSeconds > 0 && st.startTime.Some? {
      var deadline := st.startTime.value + spec.timeoutSeconds * SECOND;
      TruncatedShift(st.startTime.value, spec.timeoutSeconds);
      if deadline <= at {
        TruncatedMonotone(deadline, at);
      }
      if at <= deadline {
        TruncatedMonotone(at, deadline);
      }
    }
  }

  lemma TotalPersists(spec: FlowSpec, st: Status, r: Run)
    requires TotalOk(spec, st, r)
    ensures TotalOk(spec, Persisted(st), Stamped(r))
  {
    if st.completionTime.Some? {
      DeadlinePersists(spec, st, st.completionTime.value);
    }
  }

  lemma RecordsPersist(env: Env, spec: FlowSpec, steps: seq<StepStatus>)
    requires |steps| == |spec.steps|
    ensures AllParsed(env, spec, steps) ==> AllParsed(env, spec, PersistedSteps(steps))
    ensures AllDone(steps) ==> AllDone(PersistedSteps(steps))
  {
  }

  /** A written status is that of a run of the engine if it was one before. */
  lemma PersistedBacked(env: Env, spec: FlowSpec, st: Status, r: Run, seen: seq<StepStatus>)
    requires Backed(env, spec, st, r, seen)
    ensures Backed(env, spec, Persisted(st), Stamped(r), seen)
  {
    StampedReachable(env, spec, r);
    TotalPersists(spec, st, r);
    RecordsPersist(env, spec, st.steps);
  }
}
