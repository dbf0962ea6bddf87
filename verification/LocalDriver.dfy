/** The local executor itself: Run and collectReadySteps, updating the flow in place. */
module LocalDriver {
  import opened Wrappers
  import opened FlowTypes
  import opened Templates
  import opened Engine
  import opened Passes
  import opened FlowObject
  import opened LocalRun
  import opened LocalTheory
  import opened LocalEnds
  import opened LocalOutcome

  lemma SkipPassAligned(env: Env, spec: FlowSpec, steps: seq<StepStatus>, data: Data, now: int, k: nat)
    requires Aligned(spec, steps) && k <= |steps|
    ensures Aligned(spec, SkipPass(env, spec, steps, data, now, k).steps)
  {
    SkipPassShape(env, spec, steps, data, now, k);
  }

  /** A record while the answers come in: those of the steps in `left` are still out. */
  ghost predicate HalfDoneAt(env: Env, host: Host, spec: FlowSpec, before: seq<StepStatus>, now: seq<StepStatus>,
          data: Data, ready: seq<nat>, left: set<nat>, tick: nat, i: nat)
    requires |before| == |spec.steps|
  {
    && i < |now| == |before|
    && now[i] == if i in left then before[i] else FinishAll(env, host, spec, before, data, ready, tick)[i]
  }

  ghost predicate HalfDone(env: Env, host: Host, spec: FlowSpec, before: seq<StepStatus>, now: seq<StepStatus>,
          data: Data, ready: seq<nat>, left: set<nat>, tick: nat)
    requires |before| == |spec.steps|
  {
    && |now| == |before| && (forall i :: i in left ==> i in ready && i < |now|)
    && forall i: nat :: i < |now| ==> HalfDoneAt(env, host, spec, before, now, data, ready, left, tick, i)
  }

  lemma HalfDoneNext(env: Env, host: Host, spec: FlowSpec, before: seq<StepStatus>, now: seq<StepStatus>, data: Data,
          ready: seq<nat>, left: set<nat>, tick: nat, i: nat)
    requires |before| == |spec.steps| && HalfDone(env, host, spec, before, now, data, ready, left, tick) && i in left
    ensures i < |now|
    ensures
      var reply := ReplyTo(env, host, spec.steps[i], data, tick);
      var next := now[i := Replied(now[i], reply, host.clock(3 * tick + 1))];
      HalfDone(env, host, spec, before, next, data, ready, left - {i}, tick)
  {
    var reply := ReplyTo(env, host, spec.steps[i], data, tick);
    var next := now[i := Replied(now[i], reply, host.clock(3 * tick + 1))];
    assert HalfDoneAt(env, host, spec, before, now, data, ready, left, tick, i);
    FinishAt(env, host, spec, before, data, ready, tick, i);
    forall j: nat | j < |next|
      ensures HalfDoneAt(env, host, spec, before, next, data, ready, left - {i}, tick, j)
    {
      assert HalfDoneAt(env, host, spec, before, now, data, ready, left, tick, j);
    }
  }

  lemma HalfDoneEnds(env: Env, host: Host, spec: FlowSpec, before: seq<StepStatus>, now: seq<StepStatus>, data: Data,
          ready: seq<nat>, tick: nat)
    requires |before| == |spec.steps| && HalfDone(env, host, spec, before, now, data, ready, {}, tick)
    ensures now == FinishAll(env, host, spec, before, data, ready, tick)
  {
    var all := FinishAll(env, host, spec, before, data, ready, tick);
    forall i: nat | i < |now|
      ensures now[i] == all[i]
    {
      assert HalfDoneAt(env, host, spec, before, now, data, ready, {}, tick, i);
    }
  }

  lemma HalfDoneStarts(env: Env, host: Host, spec: FlowSpec, before: seq<StepStatus>, data: Data, ready: seq<nat>,
          left: set<nat>, tick: nat)
    requires |before| == |spec.steps| && (forall x :: 0 <= x < |ready| ==> ready[x] < |before|)
    requires left == set i | i in ready
    ensures HalfDone(env, host, spec, before, before, data, ready, left, tick)
  {
    forall i: nat | i < |before|
      ensures HalfDoneAt(env, host, spec, before, before, data, ready, left, tick, i)
    {
    }
  }

  /** Running the ready steps keeps the records in place. */
  lemma RunAligned(env: Env, host: Host, spec: FlowSpec, steps: seq<StepStatus>, data: Data, ready: seq<nat>, tick: nat)
    requires Aligned(spec, steps)
    ensures Aligned(spec, FinishAll(env, host, spec, StartAll(steps, ready, host.clock(3 * tick)), data, ready, tick))
  {
    var started := StartAll(steps, ready, host.clock(3 * tick));
    forall i | 0 <= i < |steps|
      ensures FinishAll(env, host, spec, started, data, ready, tick)[i].name == steps[i].name
    {
      if i in ready {
        FinishAt(env, host, spec, started, data, ready, tick, i);
      }
    }
  }

  lemma FinishAt(env: Env, host: Host, spec: FlowSpec, steps: seq<StepStatus>, data: Data, ready: seq<nat>, tick: nat,
          i: nat)
    requires |steps| == |spec.steps| && i < |steps| && i in ready
    ensures
      var reply := ReplyTo(env, host, spec.steps[i], data, tick);
      FinishAll(env, host, spec, steps, data, ready, tick)[i] == Replied(steps[i], reply, host.clock(3 * tick + 1))
  {
  }

  class Executor {
    const env: Env
    const host: Host

    constructor (env: Env, host: Host)
      ensures this.env == env && this.host == host
    {
      this.env, this.host := env, host;
    }

    /** Inputs are always taken in some order. */
    ghost predicate Fair() {
      forall tick :: Shuffles(host.shuffle(tick))
    }

    /** One step of collectReadySteps. */
    method CollectOne(f: Flow, byName: map<string, nat>, data: Data, now: int, i: nat, ready: seq<nat>)
      returns (r: seq<nat>)
      requires i < |f.steps| == |f.spec.steps| && byName == Index(f.steps)
      modifies f`steps
      ensures
        match Decide(env, f.spec, old(f.steps), data, i)
        case Leave => f.steps == old(f.steps) && r == ready
        case SkipIt => f.steps == old(f.steps)[i := Stopped(old(f.steps)[i], Skipped, now)] && r == ready
        case _ => f.steps == old(f.steps) && r == ready + [i]
    {
      r := ready;
      var step, st := f.spec.steps[i], f.steps[i];
      if st.phase != Pending {
        return;
      }
      var ok := f.CheckDeps(step.dependsOn, byName);
      if !ok {
        return;
      }
      if step.cond != "" {
        var result := env.resolve(step.cond, data);
        if result.None? || !IsTruthy(result.value) {
          f.steps := f.steps[i := st.(phase := Skipped, completionTime := Some(now))];
          return;
        }
      }
      r := ready + [i];
    }

    /** One turn of its loop. */
    method CollectNext(f: Flow, byName: map<string, nat>, data: Data, now: int, i: nat, ready: seq<nat>,
            ghost before: seq<StepStatus>)
      returns (r: seq<nat>)
      requires Aligned(f.spec, before) && i < |before| && byName == Index(before)
      requires SkipPass(env, f.spec, before, data, now, i) == Sweep(f.steps, ready)
      modifies f`steps
      ensures SkipPass(env, f.spec, before, data, now, i + 1) == Sweep(f.steps, r)
    {
      SkipPassAligned(env, f.spec, before, data, now, i);
      SameSpecSameIndex(f.spec, before, f.steps);
      r := CollectOne(f, byName, data, now, i, ready);
    }

    method CollectReadySteps(f: Flow, byName: map<string, nat>, data: Data, now: int) returns (ready: seq<nat>)
      requires f.Valid() && f.phase != Unset && byName == Index(f.steps)
      modifies f`steps
      ensures
        var s := SkipPass(env, f.spec, old(f.steps), data, now, |old(f.steps)|);
        f.State() == old(f.State()).(steps := s.steps) && ready == s.ready
      ensures f.Valid() && Index(f.steps) == byName
    {
      ghost var before := f.steps;
      ready := [];
      for i := 0 to |f.spec.steps|
        invariant SkipPass(env, f.spec, before, data, now, i) == Sweep(f.steps, ready)
      {
        ready := CollectNext(f, byName, data, now, i, ready, before);
      }
      SkipPassAligned(env, f.spec, before, data, now, |before|);
      SameSpecSameIndex(f.spec, before, f.steps);
    }

    /** The ready steps are marked Running, in order. */
    method StartSteps(f: Flow, ready: seq<nat>, at: int)
      requires forall x :: 0 <= x < |ready| ==> ready[x] < |f.steps|
      requires forall x, y :: 0 <= x < y < |ready| ==> ready[x] != ready[y]
      modifies f`steps
      ensures f.State() == old(f.State()).(steps := StartAll(old(f.steps), ready, at))
    {
      ghost var before := f.steps;
      for x := 0 to |ready|
        invariant f.steps == StartAll(before, ready[..x], at)
      {
        var i := ready[x];
        assert i !in ready[..x] && ready[..x + 1] == ready[..x] + [i];
        f.steps := f.steps[i := f.steps[i].(phase := Running, startTime := Some(at))];
        assert f.steps == StartAll(before, ready[..x + 1], at);
      }
      assert ready[..|ready|] == ready;
    }

    /** One answer is written into its record. */
    method RecordReply(f: Flow, i: nat, reply: Reply, now: int)
      requires i < |f.steps|
      modifies f`steps
      ensures f.steps == old(f.steps)[i := Replied(old(f.steps)[i], reply, now)]
    {
      var st := f.steps[i].(completionTime := Some(now));
      match reply {
        case Fault =>
          st := st.(phase := Failed);
        case Answer(output, inTok, outTok) =>
          st := st.(phase := Succeeded, output := output, tokens := Some(TokenUsage(inTok, outTok, inTok + outTok)));
      }
      f.steps := f.steps[i := st];
    }

    /** The goroutines' answers arrive in no fixed order. */
    method AwaitResults(f: Flow, data: Data, ready: seq<nat>, tick: nat)
      requires Fair()
      requires |f.steps| == |f.spec.steps| && forall x :: 0 <= x < |ready| ==> ready[x] < |f.steps|
      modifies f`steps
      ensures f.State() == old(f.State()).(steps := FinishAll(env, host, f.spec, old(f.steps), data, ready, tick))
    {
      ghost var before := f.steps;
      var left := set i | i in ready;
      HalfDoneStarts(env, host, f.spec, before, data, ready, left, tick);
      while left != {}
        invariant HalfDone(env, host, f.spec, before, f.steps, data, ready, left, tick)
        decreases left
      {
        var i :| i in left;
        HalfDoneNext(env, host, f.spec, before, f.steps, data, ready, left, tick, i);
        var step := f.spec.steps[i];
        var shuffle := host.shuffle(tick);
        var prompt := ResolvePrompt(env, step, data, shuffle(step.name, step.inputs.Keys));
        var reply := host.run(step.name, prompt.GetOr(""), tick);
        RecordReply(f, i, reply, host.clock(3 * tick + 1));
        left := left - {i};
      }
      HalfDoneEnds(env, host, f.spec, before, f.steps, data, ready, tick);
    }

    /** The head of a turn: data, loops, skips. */
    method FindReady(f: Flow, tick: nat) returns (data: Data, ready: seq<nat>)
      requires f.Valid() && f.phase != Unset
      modifies f`steps
      ensures data == Snapshot(env, f.spec, old(f.steps))
      ensures
        var s := Swept(env, host, f.spec, old(f.steps), tick);
        f.State() == old(f.State()).(steps := s.steps) && ready == s.ready
      ensures f.Valid()
      ensures forall x, y :: 0 <= x < y < |ready| ==> ready[x] != ready[y]
    {
      var byName := f.BuildStatusByName();
      data := f.BuildTemplateData(env, byName);
      ghost var looped := LoopAll(env, f.spec, f.steps, data);
      SameSpecSameIndex(f.spec, f.steps, looped);
      f.EvaluateLoops(env, byName, data);
      SkipPassReady(env, f.spec, looped, data, host.clock(3 * tick), |looped|);
      ready := CollectReadySteps(f, byName, data, host.clock(3 * tick));
    }

    /** The rest of a turn: run the ready steps, parse their answers, rebuild the data. */
    method RunReady(f: Flow, data: Data, ready: seq<nat>, tick: nat) returns (seen: Data)
      requires Fair() && f.Valid() && f.phase != Unset
      requires forall x :: 0 <= x < |ready| ==> ready[x] < |f.steps|
      requires forall x, y :: 0 <= x < y < |ready| ==> ready[x] != ready[y]
      modifies f`steps
      ensures
        var started := StartAll(old(f.steps), ready, host.clock(3 * tick));
        var ran := ParseAll(env, f.spec, FinishAll(env, host, f.spec, started, data, ready, tick));
        f.State() == old(f.State()).(steps := ran) && seen == Snapshot(env, f.spec, ran)
      ensures f.Valid()
    {
      StartSteps(f, ready, host.clock(3 * tick));
      AwaitResults(f, data, ready, tick);
      RunAligned(env, host, f.spec, old(f.steps), data, ready, tick);
      ghost var finished := f.steps;
      var byName := f.BuildStatusByName();
      f.ParseOutputJSON(env, byName);
      SameSpecSameIndex(f.spec, finished, f.steps);
      seen := f.BuildTemplateData(env, byName);
    }

    /** One turn of Run's loop. */
    method Turn(f: Flow, tick: nat) returns (stuck: bool)
      requires Fair() && f.Valid() && f.phase != Unset
      modifies f
      ensures f.Valid() && f.phase != Unset
      ensures f.State() == Batch(env, host, f.spec, old(f.State()), tick)
      ensures stuck <==> Swept(env, host, f.spec, old(f.steps), tick).ready == []
    {
      var data, ready := FindReady(f, tick);
      stuck := |ready| == 0;
      if !stuck {
        data := RunReady(f, data, ready, tick);
      }
      f.UpdateFlowPhase(env, data, host.clock(3 * tick + 2));
    }

    /** Run executes the flow until it is decided, or until nothing is ready. */
    method Run(f: Flow, now: int)
      requires Fair() && f.Valid()
      modifies f
      ensures f.Valid()
      ensures f.State() == RunFrom(env, host, f.spec, Initialized(f.spec, old(f.State()), now), 0)
    {
      f.InitializeSteps(now);
      ghost var st := f.State();
      var tick := 0;
      while !IsTerminal(f.phase)
        invariant f.Valid() && f.phase != Unset
        invariant RunFrom(env, host, f.spec, st, 0) == RunFrom(env, host, f.spec, f.State(), tick)
        decreases Fuel(f.spec, f.steps)
      {
        ghost var before := f.State();
        var stuck := Turn(f, tick);
        if stuck {
          RunStops(env, host, f.spec, before, tick);
          return;
        }
        RunGoesOn(env, host, f.spec, before, tick, f.State());
        tick := tick + 1;
      }
      RunStops(env, host, f.spec, f.State(), tick);
    }
  }
}
