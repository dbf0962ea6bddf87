/** What the local driver guarantees: its passes are engine moves, and how and when its runs end. */
module LocalTheory {
  import opened Wrappers
  import opened FlowTypes
  import opened Templates
  import opened Engine
  import opened Passes
  import opened LocalRun

  /** Whatever runStep answers is an answer an agent may give, and every pass takes the inputs in some order. */
  ghost predicate Honest(env: Env, host: Host) {
    && (forall name, prompt, tick :: host.run(name, prompt, tick).Answer? ==>
        env.answers(prompt, host.run(name, prompt, tick).output))
    && forall tick :: Shuffles(host.shuffle(tick))
  }

  // ---------------------------------------------- the passes are moves

  /** Parsing again changes nothing. */
  lemma ParseAllIdentity(env: Env, spec: FlowSpec, steps: seq<StepStatus>)
    requires |steps| == |spec.steps| && AllParsed(env, spec, steps)
    ensures ParseAll(env, spec, steps) == steps
  {
  }

  /** A step that may run: Pending, its dependencies done, its condition true. */
  ghost predicate MayRun(env: Env, spec: FlowSpec, steps: seq<StepStatus>, data: Data, i: nat)
    requires |steps| == |spec.steps|
  {
    && i < |steps| && steps[i].phase == Pending
    && DepsSucceeded(spec.steps[i].dependsOn, steps)
    && Wanted(env, spec.steps[i], data)
  }

  ghost predicate AllMayRun(env: Env, spec: FlowSpec, steps: seq<StepStatus>, data: Data, ready: seq<nat>)
    requires |steps| == |spec.steps|
  {
    Increasing(ready) && forall x :: 0 <= x < |ready| ==> MayRun(env, spec, steps, data, ready[x])
  }

  lemma MayRunMonotone(env: Env, spec: FlowSpec, a: seq<StepStatus>, b: seq<StepStatus>, data: Data, ready: seq<nat>)
    requires UniqueNames(spec.steps) && Aligned(spec, a) && Aligned(spec, b)
    requires forall i :: 0 <= i < |a| && Done(a[i].phase) ==> Done(b[i].phase)
    requires AllMayRun(env, spec, a, data, ready)
    requires forall x :: 0 <= x < |ready| ==> b[ready[x]].phase == Pending
    ensures AllMayRun(env, spec, b, data, ready)
  {
    forall x | 0 <= x < |ready|
      ensures MayRun(env, spec, b, data, ready[x])
    {
      assert MayRun(env, spec, a, data, ready[x]);
      DepsMonotone(spec, spec.steps[ready[x]].dependsOn, a, b);
    }
  }

  lemma OneMoreMayRun(env: Env, spec: FlowSpec, steps: seq<StepStatus>, data: Data, ready: seq<nat>, i: nat)
    requires |steps| == |spec.steps| && AllMayRun(env, spec, steps, data, ready)
    requires i < |steps| && forall x :: 0 <= x < |ready| ==> ready[x] < i
    requires Decide(env, spec, steps, data, i) != Leave && Decide(env, spec, steps, data, i) != SkipIt
    ensures AllMayRun(env, spec, steps, data, ready + [i])
  {
  }

  /** The steps found ready so far may run, as the records are now. */
  ghost predicate SweepReady(env: Env, spec: FlowSpec, data: Data, s: Sweep) {
    Aligned(spec, s.steps) && AllMayRun(env, spec, s.steps, data, s.ready)
  }

  lemma SkipPassReadyOne(env: Env, spec: FlowSpec, steps: seq<StepStatus>, data: Data, now: int, k: nat)
    requires UniqueNames(spec.steps) && Aligned(spec, steps) && 0 < k <= |steps|
    requires SweepReady(env, spec, data, SkipPass(env, spec, steps, data, now, k - 1))
    ensures SweepReady(env, spec, data, SkipPass(env, spec, steps, data, now, k))
  {
    var s := SkipPass(env, spec, steps, data, now, k - 1);
    match Decide(env, spec, s.steps, data, k - 1)
    case Leave =>
    case SkipIt => SkipKeepsReady(env, spec, s.steps, data, now, s.ready, k - 1);
    case _ => OneMoreMayRun(env, spec, s.steps, data, s.ready, k - 1);
  }

  /** What collectReadySteps returns may run once the whole pass is over. */
  lemma {:induction false} SkipPassReady(env: Env, spec: FlowSpec, steps: seq<StepStatus>, data: Data, now: int, k: nat)
    requires UniqueNames(spec.steps) && Aligned(spec, steps) && k <= |steps|
    ensures SweepReady(env, spec, data, SkipPass(env, spec, steps, data, now, k))
  {
    if k > 0 {
      SkipPassReady(env, spec, steps, data, now, k - 1);
      SkipPassReadyOne(env, spec, steps, data, now, k);
    }
  }

  lemma SkipKeepsReady(env: Env, spec: FlowSpec, steps: seq<StepStatus>, data: Data, now: int, ready: seq<nat>, i: nat)
    requires UniqueNames(spec.steps) && Aligned(spec, steps) && i < |steps| && steps[i].phase == Pending
    requires AllMayRun(env, spec, steps, data, ready) && forall x :: 0 <= x < |ready| ==> ready[x] < i
    ensures AllMayRun(env, spec, steps[i := Stopped(steps[i], Skipped, now)], data, ready)
  {
    MayRunMonotone(env, spec, steps, steps[i := Stopped(steps[i], Skipped, now)], data, ready);
  }

  /** Only records have changed, and the loops need not be evaluated again. */
  ghost predicate SkipsOnly(env: Env, spec: FlowSpec, r: Run, r': Run) {
    && r'.data == r.data && r'.current && r'.asked == r.asked && r'.spent == r.spent && r'.dirty == r.dirty
    && |r'.steps| == |spec.steps| && Settled(env, spec, r'.steps, r'.data)
  }

  /** collectReadySteps is a sequence of skips. */
  lemma {:induction false} SkipMoves(env: Env, spec: FlowSpec, r: Run, now: int, k: nat)
    returns (ms: seq<Move>, r': Run)
    requires Shaped(spec, r) && k <= |r.steps|
    requires r.current && Settled(env, spec, r.steps, r.data)
    ensures Exec(env, spec, r, ms) == Some(r')
    ensures r'.steps == SkipPass(env, spec, r.steps, r.data, now, k).steps
    ensures SkipsOnly(env, spec, r, r')
  {
    if k == 0 {
      ms, r' := [], r;
    } else {
      var mid;
      ms, mid := SkipMoves(env, spec, r, now, k - 1);
      r' := mid;
      if Decide(env, spec, mid.steps, r.data, k - 1) == SkipIt {
        r' := SkipOne(env, spec, r, ms, mid, k - 1, now);
        ms := ms + [Skip(k - 1, now)];
      }
    }
  }

  lemma SkipOne(env: Env, spec: FlowSpec, r: Run, before: seq<Move>, mid: Run, i: nat, now: int) returns (r': Run)
    requires Shaped(spec, r) && Exec(env, spec, r, before) == Some(mid) && i < |mid.steps|
    requires SkipsOnly(env, spec, r, mid) && Decide(env, spec, mid.steps, mid.data, i) == SkipIt
    ensures Exec(env, spec, r, before + [Skip(i, now)]) == Some(r')
    ensures r'.steps == mid.steps[i := Stopped(mid.steps[i], Skipped, now)] && SkipsOnly(env, spec, r, r')
  {
    r' := Apply(env, spec, mid, Skip(i, now));
    ExecSnoc(env, spec, r, before, Skip(i, now));
  }

  /** The x-th ready step was last asked what its prompt says. */
  ghost predicate AskedAt(env: Env, spec: FlowSpec, r: Run, ready: seq<nat>, data: Data, shuffle: Shuffle, x: nat)
    requires |r.asked| == |spec.steps|
  {
    && x < |ready| && ready[x] < |spec.steps|
    && r.asked[ready[x]] == PromptOf(env, spec.steps[ready[x]], data, shuffle)
  }

  ghost predicate AllAsked(env: Env, spec: FlowSpec, r: Run, ready: seq<nat>, data: Data, shuffle: Shuffle, k: nat)
    requires |r.asked| == |spec.steps|
  {
    forall x: nat :: x < k ==> AskedAt(env, spec, r, ready, data, shuffle, x)
  }

  /** Launching the first k of the ready steps. */
  lemma {:induction false} StartMoves(env: Env, spec: FlowSpec, r: Run, ready: seq<nat>, shuffle: Shuffle, at: int,
          k: nat)
    returns (ms: seq<Move>, r': Run)
    requires Shuffles(shuffle) && UniqueNames(spec.steps) && Shaped(spec, r) && k <= |ready|
    requires r.current && Settled(env, spec, r.steps, r.data) && AllMayRun(env, spec, r.steps, r.data, ready)
    ensures Exec(env, spec, r, ms) == Some(r') && Shaped(spec, r')
    ensures r'.steps == StartAll(r.steps, ready[..k], at)
    ensures AllAsked(env, spec, r', ready, r.data, shuffle, k)
    ensures r'.data == r.data && r'.current && Settled(env, spec, r'.steps, r'.data)
    decreases k
  {
    if k == 0 {
      ms, r' := [], r;
      assert ready[..0] == [];
      assert StartAll(r.steps, [], at) == r.steps;
    } else {
      var mid;
      ms, mid := StartMoves(env, spec, r, ready, shuffle, at, k - 1);
      var m;
      m, r' := StartNext(env, spec, r, mid, ready, shuffle, at, k - 1);
      ExecSnoc(env, spec, r, ms, m);
      ms := ms + [m];
    }
  }

  lemma AskedNext(env: Env, spec: FlowSpec, mid: Run, r': Run, ready: seq<nat>, data: Data, shuffle: Shuffle, k: nat)
    requires |mid.asked| == |spec.steps| && k < |ready| && ready[k] < |spec.steps| && Increasing(ready)
    requires r'.asked == mid.asked[ready[k] := PromptOf(env, spec.steps[ready[k]], data, shuffle)]
    requires AllAsked(env, spec, mid, ready, data, shuffle, k)
    ensures AllAsked(env, spec, r', ready, data, shuffle, k + 1)
  {
    forall x: nat | x < k + 1
      ensures AskedAt(env, spec, r', ready, data, shuffle, x)
    {
      if x < k {
        assert AskedAt(env, spec, mid, ready, data, shuffle, x);
      }
    }
  }

  /** Launching one more. */
  lemma StartNext(env: Env, spec: FlowSpec, r: Run, mid: Run, ready: seq<nat>, shuffle: Shuffle, at: int, k: nat)
    returns (m: Move, r': Run)
    requires Shuffles(shuffle) && UniqueNames(spec.steps) && Shaped(spec, r) && Shaped(spec, mid) && k < |ready|
    requires AllMayRun(env, spec, r.steps, r.data, ready) && mid.steps == StartAll(r.steps, ready[..k], at)
    requires mid.data == r.data && mid.current && Settled(env, spec, mid.steps, mid.data)
    requires AllAsked(env, spec, mid, ready, r.data, shuffle, k)
    ensures Enabled(env, spec, mid, m) && r' == Apply(env, spec, mid, m) && Shaped(spec, r')
    ensures r'.steps == StartAll(r.steps, ready[..k + 1], at) && AllAsked(env, spec, r', ready, r.data, shuffle, k + 1)
    ensures r'.data == r.data && r'.current && Settled(env, spec, r'.steps, r'.data)
  {
    var i := ready[k];
    StartEnabled(env, spec, r, mid, ready, shuffle, at, k);
    m := Start(i, PromptOf(env, spec.steps[i], r.data, shuffle), mid.steps[i].taskID, at);
    r' := Apply(env, spec, mid, m);
    StartAllNext(r.steps, ready, at, k);
    AskedNext(env, spec, mid, r', ready, r.data, shuffle, k);
  }

  /** Starting one more step. */
  lemma StartAllNext(steps: seq<StepStatus>, ready: seq<nat>, at: int, k: nat)
    requires k < |ready| && ready[k] < |steps| && ready[k] !in ready[..k]
    ensures
      var i := ready[k];
      StartAll(steps, ready[..k], at)[i] == steps[i]
      && StartAll(steps, ready[..k + 1], at)
          == StartAll(steps, ready[..k], at)[i := Launched(steps[i], steps[i].taskID, at)]
  {
    assert ready[..k + 1] == ready[..k] + [ready[k]];
  }

  /** The next of the ready steps can be started. */
  lemma StartEnabled(env: Env, spec: FlowSpec, r: Run, mid: Run, ready: seq<nat>, shuffle: Shuffle, at: int, k: nat)
    requires Shuffles(shuffle) && UniqueNames(spec.steps) && Shaped(spec, r) && Shaped(spec, mid) && k < |ready|
    requires AllMayRun(env, spec, r.steps, r.data, ready) && mid.steps == StartAll(r.steps, ready[..k], at)
    requires mid.data == r.data && mid.current && Settled(env, spec, mid.steps, mid.data)
    ensures
      var i := ready[k];
      && i < |r.steps| && i !in ready[..k] && mid.steps[i] == r.steps[i]
      && Enabled(env, spec, mid, Start(i, PromptOf(env, spec.steps[i], r.data, shuffle), mid.steps[i].taskID, at))
  {
    var i := ready[k];
    assert MayRun(env, spec, r.steps, r.data, i);
    assert i !in ready[..k];
    DepsMonotone(spec, spec.steps[i].dependsOn, r.steps, mid.steps);
    PromptMayBeAsked(env, spec.steps[i], r.data, shuffle);
  }

  /** The answers of the first k ready steps have come in. */
  function FinishSome(env: Env, host: Host, spec: FlowSpec, steps: seq<StepStatus>, data: Data, ready: seq<nat>,
          tick: nat, k: nat): seq<StepStatus>
    requires |steps| == |spec.steps| && k <= |ready|
  {
    FinishAll(env, host, spec, steps, data, ready[..k], tick)
  }

  function FinishMove(host: Host, spec: FlowSpec, i: nat, prompt: string, tick: nat): Move
    requires i < |spec.steps|
  {
    match host.run(spec.steps[i].name, prompt, tick)
    case Answer(output, inTok, outTok) => Finish(i, output, inTok, outTok, true, host.clock(3 * tick + 1))
    case Fault => Crash(i, host.clock(3 * tick + 1))
  }

  lemma {:induction false} FinishMoves(env: Env, host: Host, spec: FlowSpec, r: Run, data: Data, ready: seq<nat>,
          tick: nat, k: nat)
    returns (ms: seq<Move>, r': Run)
    requires Honest(env, host) && Shaped(spec, r) && k <= |ready| && Increasing(ready)
    requires forall x :: 0 <= x < |ready| ==> ready[x] < |r.steps| && r.steps[ready[x]].phase == Running
    requires AllAsked(env, spec, r, ready, data, host.shuffle(tick), |ready|)
    ensures Exec(env, spec, r, ms) == Some(r') && Shaped(spec, r')
    ensures r'.steps == FinishSome(env, host, spec, r.steps, data, ready, tick, k) && r'.asked == r.asked
    decreases k
  {
    if k == 0 {
      ms, r' := [], r;
      assert ready[..0] == [];
      assert FinishAll(env, host, spec, r.steps, data, [], tick) == r.steps;
    } else {
      var mid;
      ms, mid := FinishMoves(env, host, spec, r, data, ready, tick, k - 1);
      assert AskedAt(env, spec, r, ready, data, host.shuffle(tick), k - 1);
      var m;
      m, r' := FinishNext(env, host, spec, r, mid, data, ready, tick, k - 1);
      ExecSnoc(env, spec, r, ms, m);
      ms := ms + [m];
    }
  }

  /** The answer of one more. */
  lemma FinishNext(env: Env, host: Host, spec: FlowSpec, r: Run, mid: Run, data: Data, ready: seq<nat>, tick: nat,
          k: nat)
    returns (m: Move, r': Run)
    requires Honest(env, host) && Shaped(spec, r) && Shaped(spec, mid) && k < |ready| && Increasing(ready)
    requires ready[k] < |r.steps| && r.steps[ready[k]].phase == Running && mid.asked == r.asked
    requires AskedAt(env, spec, r, ready, data, host.shuffle(tick), k)
    requires mid.steps == FinishSome(env, host, spec, r.steps, data, ready, tick, k)
    ensures Enabled(env, spec, mid, m) && r' == Apply(env, spec, mid, m) && Shaped(spec, r')
    ensures r'.steps == FinishSome(env, host, spec, r.steps, data, ready, tick, k + 1) && r'.asked == r.asked
  {
    var i := ready[k];
    assert i !in ready[..k];
    FinishAllNext(env, host, spec, r.steps, data, ready, tick, k);
    FinishEnabled(env, host, spec, mid, data, i, tick);
    m := FinishMove(host, spec, i, mid.asked[i], tick);
    r' := Apply(env, spec, mid, m);
  }

  /** One more answer comes in. */
  lemma FinishAllNext(env: Env, host: Host, spec: FlowSpec, steps: seq<StepStatus>, data: Data, ready: seq<nat>,
          tick: nat, k: nat)
    requires |steps| == |spec.steps| && k < |ready| && ready[k] < |steps| && ready[k] !in ready[..k]
    ensures
      var i := ready[k];
      var before := FinishAll(env, host, spec, steps, data, ready[..k], tick);
      var reply := ReplyTo(env, host, spec.steps[i], data, tick);
      && before[i] == steps[i]
      && FinishAll(env, host, spec, steps, data, ready[..k + 1], tick)
         == before[i := Replied(steps[i], reply, host.clock(3 * tick + 1))]
  {
    assert ready[..k + 1] == ready[..k] + [ready[k]];
  }

  /** The answer to a running step is a move. */
  lemma FinishEnabled(env: Env, host: Host, spec: FlowSpec, r: Run, data: Data, i: nat, tick: nat)
    requires Honest(env, host) && Shaped(spec, r) && i < |r.steps| && r.steps[i].phase == Running
    requires r.asked[i] == PromptOf(env, spec.steps[i], data, host.shuffle(tick))
    ensures
      var m := FinishMove(host, spec, i, r.asked[i], tick);
      var reply := ReplyTo(env, host, spec.steps[i], data, tick);
      && Enabled(env, spec, r, m)
      && Apply(env, spec, r, m).steps == r.steps[i := Replied(r.steps[i], reply, host.clock(3 * tick + 1))]
      && Apply(env, spec, r, m).asked == r.asked
  {
  }

  /** The head of a turn: data rebuilt, loops evaluated, false conditions skipped. */
  lemma SweepMoves(env: Env, host: Host, spec: FlowSpec, r: Run, tick: nat) returns (ms: seq<Move>, r': Run)
    requires UniqueNames(spec.steps) && Inv(env, spec, r) && AllParsed(env, spec, r.steps)
    ensures Exec(env, spec, r, ms) == Some(r')
    ensures
      var s := Swept(env, host, spec, r.steps, tick);
      r'.steps == s.steps && AllMayRun(env, spec, r'.steps, r'.data, s.ready)
    ensures r'.data == Snapshot(env, spec, r.steps) && r'.current && Settled(env, spec, r'.steps, r'.data)
  {
    ParseAllIdentity(env, spec, r.steps);
    var a, ra := RefreshMoves(env, spec, r);
    var b, rb := LoopMoves(env, spec, ra);
    var c, rc := SkipMoves(env, spec, rb, host.clock(3 * tick), |rb.steps|);
    SkipPassReady(env, spec, rb.steps, rb.data, host.clock(3 * tick), |rb.steps|);
    ExecConcat(env, spec, r, a, b);
    ExecConcat(env, spec, r, a + b, c);
    ms, r' := a + b + c, rc;
  }

  /** The rest of a turn: the ready steps run, their answers are parsed, the data is rebuilt. */
  lemma RunMoves(env: Env, host: Host, spec: FlowSpec, r: Run, ready: seq<nat>, data: Data, tick: nat)
    returns (ms: seq<Move>, r': Run)
    requires UniqueNames(spec.steps) && Inv(env, spec, r) && Honest(env, host)
    requires r.current && r.data == data && Settled(env, spec, r.steps, r.data)
      && AllMayRun(env, spec, r.steps, r.data, ready)
    ensures Exec(env, spec, r, ms) == Some(r')
    ensures
      var started := StartAll(r.steps, ready, host.clock(3 * tick));
      r'.steps == ParseAll(env, spec, FinishAll(env, host, spec, started, data, ready, tick))
    ensures r'.data == Snapshot(env, spec, r'.steps) && r'.current && AllParsed(env, spec, r'.steps)
  {
    var a, ra := StartMoves(env, spec, r, ready, host.shuffle(tick), host.clock(3 * tick), |ready|);
    assert ready[..|ready|] == ready;
    forall x | 0 <= x < |ready|
      ensures ready[x] < |ra.steps| && ra.steps[ready[x]].phase == Running
    {
      assert MayRun(env, spec, r.steps, r.data, ready[x]);
      assert ready[x] in ready;
    }
    var b, rb := FinishMoves(env, host, spec, ra, data, ready, tick, |ready|);
    ExecConcat(env, spec, r, a, b);
    ExecKeepsInv(env, spec, r, a + b);
    var c, rc := RefreshMoves(env, spec, rb);
    ExecConcat(env, spec, r, a + b, c);
    ms, r' := a + b + c, rc;
  }

  /** What the verdict of a turn is based on. */
  function Seen(env: Env, host: Host, spec: FlowSpec, steps: seq<StepStatus>, tick: nat): (r: seq<StepStatus>)
    requires |steps| == |spec.steps|
    ensures |r| == |steps|
  {
    if Swept(env, host, spec, steps, tick).ready == [] then steps else After(env, host, spec, steps, tick)
  }

  /** A whole turn of Run's loop is a sequence of moves. */
  lemma BatchMoves(env: Env, host: Host, spec: FlowSpec, r: Run, tick: nat) returns (ms: seq<Move>, r': Run)
    requires UniqueNames(spec.steps) && Inv(env, spec, r) && Honest(env, host) && AllParsed(env, spec, r.steps)
    ensures Exec(env, spec, r, ms) == Some(r')
    ensures r'.steps == After(env, host, spec, r.steps, tick) && AllParsed(env, spec, r'.steps)
    ensures r'.current && r'.data == Snapshot(env, spec, Seen(env, host, spec, r.steps, tick))
  {
    var a, ra := SweepMoves(env, host, spec, r, tick);
    ExecKeepsInv(env, spec, r, a);
    var ready := Swept(env, host, spec, r.steps, tick).ready;
    if ready == [] {
      ms, r' := a, ra;
    } else {
      var b, rb := RunMoves(env, host, spec, ra, ready, ra.data, tick);
      ExecConcat(env, spec, r, a, b);
      ms, r' := a + b, rb;
    }
  }
}
