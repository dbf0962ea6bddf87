/** What one reconcile guarantees: it is a sequence of engine moves, and it makes progress. */
module ReconcilerTheory {
  import opened Wrappers
  import opened FlowTypes
  import opened Templates
  import opened Engine
  import opened Passes
  import opened Decimal
  import opened TaskQueue
  import opened Meaning
  import opened Agreement
  import opened Reconciler

  // -------------------------------------------------- collecting is moves

  ghost predicate UniqueIDs(results: seq<Result>) {
    forall j, k :: 0 <= j < k < |results| ==> results[j].taskID != results[k].taskID
  }

  /** The result is an answer to what the step was last asked, with sensible token counts. */
  ghost predicate Fits(env: Env, st: StepStatus, asked: string, r: Result) {
    IsWaiting(st) && r.taskID == st.taskID.value ==>
      env.answers(asked, r.result) && ToInt64(r.inputTokens) >= 0 && ToInt64(r.outputTokens) >= 0
  }

  ghost predicate AllFit(env: Env, r: Run, results: seq<Result>) {
    |r.asked| == |r.steps| && forall i, k :: 0 <= i < |r.steps| && 0 <= k < |results| ==>
        Fits(env, r.steps[i], r.asked[i], results[k])
  }

  /** With unique IDs a scan takes the one result that carries the ID, or none. */
  lemma {:induction false} ScanTakesOne(st: StepStatus, id: nat, results: seq<Result>, now: int)
    returns (k: Option<nat>)
    requires UniqueIDs(results)
    ensures k.None? ==> TakeAll(st, id, results, now) == st && forall j :: 0 <= j < |results| ==>
      results[j].taskID != id
    ensures k.Some? ==> k.value < |results| && results[k.value].taskID == id
                        && TakeAll(st, id, results, now) == TakeOne(st, results[k.value], now)
    decreases |results|
  {
    if results == [] {
      k := None;
    } else {
      k := ScanTakesOne(st, id, results[..|results| - 1], now);
      if results[|results| - 1].taskID == id {
        k := Some(|results| - 1);
      }
    }
  }

  /** collectResults at one step. */
  lemma CollectMove(env: Env, spec: FlowSpec, r: Run, before: seq<Move>, mid: Run, results: seq<Result>, now: int,
          i: nat)
    returns (ms: seq<Move>, r': Run)
    requires Shaped(spec, r) && Exec(env, spec, r, before) == Some(mid) && UniqueIDs(results) && i < |mid.steps|
    requires forall k :: 0 <= k < |results| ==> Fits(env, mid.steps[i], mid.asked[i], results[k])
    ensures Exec(env, spec, r, ms) == Some(r')
    ensures r'.steps == mid.steps[i := Collected(mid.steps[i], results, now)] && r'.asked == mid.asked
  {
    ms, r' := before, mid;
    if IsWaiting(mid.steps[i]) {
      var k := ScanTakesOne(mid.steps[i], mid.steps[i].taskID.value, results, now);
      if k.Some? {
        var found := results[k.value];
        assert Fits(env, mid.steps[i], mid.asked[i], found);
        var m := Finish(i, found.result, ToInt64(found.inputTokens), ToInt64(found.outputTokens), false, now);
        ExecSnoc(env, spec, r, before, m);
        ms := before + [m];
        r' := Apply(env, spec, mid, m);
      }
    }
  }

  lemma {:induction false} CollectMovesTo(env: Env, spec: FlowSpec, r: Run, results: seq<Result>, now: int, k: nat)
    returns (ms: seq<Move>, r': Run)
    requires Shaped(spec, r) && UniqueIDs(results) && AllFit(env, r, results) && k <= |r.steps|
    ensures Exec(env, spec, r, ms) == Some(r')
    ensures r'.steps == Mixed(r.steps, CollectAll(r.steps, results, now), k) && r'.asked == r.asked
    decreases k
  {
    var all := CollectAll(r.steps, results, now);
    if k == 0 {
      ms, r' := [], r;
      assert Mixed(r.steps, all, 0) == r.steps;
    } else {
      var mid;
      ms, mid := CollectMovesTo(env, spec, r, results, now, k - 1);
      MixedNext(r.steps, all, k - 1);
      ms, r' := CollectMove(env, spec, r, ms, mid, results, now, k - 1);
    }
  }

  // -------------------------------------------------- submitting is moves

  /** The task was sent for the step that now runs under its ID, and asks what that step was asked. */
  ghost predicate Dispatched(r: Run, t: Sent, id: nat) {
    && t.step < |r.steps| && t.step < |r.asked|
    && r.steps[t.step].phase == Running && r.steps[t.step].taskID == Some(id) && r.asked[t.step] == t.prompt
  }

  ghost predicate AllDispatched(r: Run, sent: seq<Sent>, base: nat) {
    forall x: nat :: x < |sent| ==> Dispatched(r, sent[x], base + x)
  }

  /** The step was running and is still running the same task, or it was not running. */
  ghost predicate StillRuns(a: Run, b: Run, j: nat) {
    && j < |a.steps| && j < |b.steps| && j < |a.asked| && j < |b.asked|
    && (a.steps[j].phase == Running ==> b.steps[j] == a.steps[j] && b.asked[j] == a.asked[j])
  }

  ghost predicate AllStillRun(a: Run, b: Run) {
    |b.steps| == |a.steps| && forall j: nat :: j < |a.steps| ==> StillRuns(a, b, j)
  }

  lemma DispatchedStays(a: Run, b: Run, sent: seq<Sent>, base: nat)
    requires AllDispatched(a, sent, base) && AllStillRun(a, b)
    ensures AllDispatched(b, sent, base)
  {
    forall x: nat | x < |sent|
      ensures Dispatched(b, sent[x], base + x)
    {
      assert Dispatched(a, sent[x], base + x);
      assert StillRuns(a, b, sent[x].step);
    }
  }

  lemma StillRunTransitive(a: Run, b: Run, c: Run)
    requires AllStillRun(a, b) && AllStillRun(b, c)
    ensures AllStillRun(a, c)
  {
    forall j: nat | j < |a.steps|
      ensures StillRuns(a, c, j)
    {
      assert StillRuns(a, b, j) && StillRuns(b, c, j);
    }
  }

  /** The move with which submitPendingSteps does what it has decided for step i, if anything. */
  function VerbMove(verb: Verb, prompt: string, i: nat, id: nat, now: int): Move
    requires verb != Leave
  {
    match verb
    case SkipIt => Skip(i, now)
    case RejectIt => Reject(i, now)
    case LaunchIt => Start(i, prompt, Some(id), now)
  }

  /** Something is to be done with the step, and no failing XADD prevents it. */
  predicate Releases(verb: Verb, s: Sub, am: Ambient) {
    verb != Leave && !(verb.LaunchIt? && |s.sent| >= am.accepts)
  }

  /** The move is enabled. */
  lemma VerbEnabled(env: Env, spec: FlowSpec, r: Run, am: Ambient, i: nat, verb: Verb, prompt: string, id: nat)
    requires Shaped(spec, r) && r.current && Settled(env, spec, r.steps, r.data) && i < |r.steps|
    requires verb == Decide(env, spec, r.steps, r.data, i) && verb != Leave
    requires Shuffles(am.shuffle) && prompt == PromptOf(env, spec.steps[i], r.data, am.shuffle)
    ensures Enabled(env, spec, r, VerbMove(verb, prompt, i, id, am.now))
  {
    PromptMayBeAsked(env, spec.steps[i], r.data, am.shuffle);
  }

  /** Releasing a Pending step leaves the data and the loops as they are, and the other steps running. */
  lemma VerbKeeps(env: Env, spec: FlowSpec, r: Run, i: nat, verb: Verb, prompt: string, id: nat, now: int)
    requires Shaped(spec, r) && r.current && Settled(env, spec, r.steps, r.data) && i < |r.steps|
    requires r.steps[i].phase == Pending && verb != Leave
    ensures
      var r' := Apply(env, spec, r, VerbMove(verb, prompt, i, id, now));
      r'.data == r.data && r'.current && Settled(env, spec, r'.steps, r'.data) && AllStillRun(r, r')
  {
    var r' := Apply(env, spec, r, VerbMove(verb, prompt, i, id, now));
    forall j: nat | j < |r.steps|
      ensures StillRuns(r, r', j)
    {
    }
  }

  /** What submitPendingSteps does to the records is what that move does. */
  lemma VerbIsMove(env: Env, spec: FlowSpec, r: Run, s: Sub, am: Ambient, base: nat, i: nat, verb: Verb, prompt: string)
    requires Shaped(spec, r) && i < |r.steps| && r.steps == s.steps && Releases(verb, s, am)
    ensures
      var r' := Apply(env, spec, r, VerbMove(verb, prompt, i, base + |s.sent|, am.now));
      var s' := SubmitVerb(s, verb, prompt, am, base, i);
      && r'.steps == s'.steps
      && if verb.LaunchIt?
         then s'.sent == s.sent + [Sent(i, prompt)] && Dispatched(r', Sent(i, prompt), base + |s.sent|)
         else s'.sent == s.sent
  {
  }

  lemma StillRunSame(a: Run, b: Run)
    requires b == a && |a.asked| == |a.steps|
    ensures AllStillRun(a, b)
  {
    forall j: nat | j < |a.steps|
      ensures StillRuns(a, b, j)
    {
    }
  }

  lemma DispatchedAnother(r: Run, sent: seq<Sent>, base: nat, t: Sent)
    requires AllDispatched(r, sent, base) && Dispatched(r, t, base + |sent|)
    ensures AllDispatched(r, sent + [t], base)
  {
    forall x: nat | x < |sent + [t]|
      ensures Dispatched(r, (sent + [t])[x], base + x)
    {
      if x < |sent| {
        assert Dispatched(r, sent[x], base + x);
      }
    }
  }

  /** A released step, in the records and in the tasks sent. */
  lemma VerbDispatched(env: Env, spec: FlowSpec, mid: Run, s: Sub, am: Ambient, base: nat, i: nat, verb: Verb,
          prompt: string)
    requires Shaped(spec, mid) && i < |mid.steps| && mid.steps == s.steps && mid.steps[i].phase == Pending
    requires mid.current && Settled(env, spec, mid.steps, mid.data) && AllDispatched(mid, s.sent, base)
    requires Releases(verb, s, am)
    ensures
      AllDispatched(Apply(env, spec, mid, VerbMove(verb, prompt, i, base + |s.sent|, am.now)),
                 SubmitVerb(s, verb, prompt, am, base, i).sent, base)
  {
    var r' := Apply(env, spec, mid, VerbMove(verb, prompt, i, base + |s.sent|, am.now));
    VerbKeeps(env, spec, mid, i, verb, prompt, base + |s.sent|, am.now);
    DispatchedStays(mid, r', s.sent, base);
    VerbIsMove(env, spec, mid, s, am, base, i, verb, prompt);
    if verb.LaunchIt? {
      DispatchedAnother(r', s.sent, base, Sent(i, prompt));
    }
  }

  /** The run has come from `mid` to a state that matches the records and the tasks of a pass. */
  ghost predicate Matches(env: Env, spec: FlowSpec, mid: Run, r': Run, s: Sub, base: nat) {
    && |r'.steps| == |spec.steps| && r'.steps == s.steps && AllDispatched(r', s.sent, base)
    && r'.data == mid.data && r'.current && Settled(env, spec, r'.steps, r'.data)
    && AllStillRun(mid, r')
  }

  lemma VerbMatches(env: Env, spec: FlowSpec, mid: Run, s: Sub, am: Ambient, base: nat, i: nat, verb: Verb,
          prompt: string)
    returns (m: Move, r': Run)
    requires Shaped(spec, mid) && i < |mid.steps| && mid.steps == s.steps && mid.steps[i].phase == Pending
    requires mid.current && Settled(env, spec, mid.steps, mid.data) && AllDispatched(mid, s.sent, base)
    requires Releases(verb, s, am)
    ensures m == VerbMove(verb, prompt, i, base + |s.sent|, am.now) && r' == Apply(env, spec, mid, m)
    ensures Matches(env, spec, mid, r', SubmitVerb(s, verb, prompt, am, base, i), base)
  {
    m := VerbMove(verb, prompt, i, base + |s.sent|, am.now);
    r' := Apply(env, spec, mid, m);
    VerbDispatched(env, spec, mid, s, am, base, i, verb, prompt);
    VerbKeeps(env, spec, mid, i, verb, prompt, base + |s.sent|, am.now);
    assert r'.steps == SubmitVerb(s, verb, prompt, am, base, i).steps by {
      VerbIsMove(env, spec, mid, s, am, base, i, verb, prompt);
    }
  }

  /** submitPendingSteps at one step. */
  lemma SubmitMove(env: Env, spec: FlowSpec, r: Run, before: seq<Move>, mid: Run, s: Sub, am: Ambient, base: nat,
          i: nat)
    returns (ms: seq<Move>, r': Run)
    requires Shaped(spec, r) && Exec(env, spec, r, before) == Some(mid) && i < |mid.steps| && mid.steps == s.steps
    requires mid.current && Settled(env, spec, mid.steps, mid.data) && AllDispatched(mid, s.sent, base)
    requires Shuffles(am.shuffle)
    ensures Exec(env, spec, r, ms) == Some(r')
    ensures Matches(env, spec, mid, r', SubmitOne(env, spec, s, mid.data, am, base, i), base)
  {
    var verb, prompt := Decide(env, spec, mid.steps, mid.data, i), PromptOf(env, spec.steps[i], mid.data, am.shuffle);
    if Releases(verb, s, am) {
      var m;
      m, r' := VerbMatches(env, spec, mid, s, am, base, i, verb, prompt);
      VerbEnabled(env, spec, mid, am, i, verb, prompt, base + |s.sent|);
      ExecSnoc(env, spec, r, before, m);
      ms := before + [m];
    } else {
      StillRunSame(mid, mid);
      ms, r' := before, mid;
    }
  }

  lemma MatchesTransitive(env: Env, spec: FlowSpec, a: Run, b: Run, c: Run, s: Sub, base: nat)
    requires b.data == a.data && AllStillRun(a, b) && Matches(env, spec, b, c, s, base)
    ensures Matches(env, spec, a, c, s, base)
  {
    StillRunTransitive(a, b, c);
  }

  /** submitPendingSteps is a sequence of moves. */
  lemma {:induction false} SubmitMoves(env: Env, spec: FlowSpec, r: Run, am: Ambient, base: nat, k: nat)
    returns (ms: seq<Move>, r': Run)
    requires Shaped(spec, r) && k <= |r.steps| && Shuffles(am.shuffle)
    requires r.current && Settled(env, spec, r.steps, r.data)
    ensures Exec(env, spec, r, ms) == Some(r')
    ensures Matches(env, spec, r, r', SubmitPass(env, spec, r.steps, r.data, am, base, k), base)
    decreases k
  {
    if k == 0 {
      StillRunSame(r, r);
      ms, r' := [], r;
    } else {
      var mid;
      ms, mid := SubmitMoves(env, spec, r, am, base, k - 1);
      var s := SubmitPass(env, spec, r.steps, r.data, am, base, k - 1);
      r' := mid;
      if s.ok {
        ms, r' := SubmitMove(env, spec, r, ms, mid, s, am, base, k - 1);
        MatchesTransitive(env, spec, r, mid, r', SubmitOne(env, spec, s, r.data, am, base, k - 1), base);
      }
    }
  }

  // ------------------------------------------------- a whole pass is moves

  /** collectResults, ParseOutputJSON, BuildTemplateData and EvaluateLoops. */
  lemma GatherMoves(env: Env, spec: FlowSpec, r: Run, results: seq<Result>, now: int) returns (ms: seq<Move>, r': Run)
    requires UniqueNames(spec.steps) && Inv(env, spec, r) && UniqueIDs(results) && AllFit(env, r, results)
    ensures Exec(env, spec, r, ms) == Some(r')
    ensures
      var gathered := Gathered(env, spec, r.steps, results, now);
      r'.data == Snapshot(env, spec, gathered) && r'.steps == LoopAll(env, spec, gathered, r'.data)
    ensures r'.current && r'.asked == r.asked && Settled(env, spec, r'.steps, r'.data)
    ensures Aligned(spec, Gathered(env, spec, r.steps, results, now))
  {
    var all := CollectAll(r.steps, results, now);
    var a, ra := CollectMovesTo(env, spec, r, results, now, |r.steps|);
    assert Mixed(r.steps, all, |r.steps|) == all;
    ExecKeepsInv(env, spec, r, a);
    var b, rb := RefreshMoves(env, spec, ra);
    ExecConcat(env, spec, r, a, b);
    var c, rc := LoopMoves(env, spec, rb);
    ExecConcat(env, spec, r, a + b, c);
    ms, r' := a + b + c, rc;
  }

  /** Everything a reconcile does to the records. */
  lemma SendingMoves(env: Env, spec: FlowSpec, r: Run, results: seq<Result>, base: nat, am: Ambient)
    returns (ms: seq<Move>, r': Run)
    requires UniqueNames(spec.steps) && Inv(env, spec, r) && UniqueIDs(results) && AllFit(env, r, results)
    requires Shuffles(am.shuffle)
    ensures Exec(env, spec, r, ms) == Some(r')
    ensures
      var s := Sending(env, spec, r.steps, results, base, am);
      r'.steps == s.steps && AllDispatched(r', s.sent, base)
    ensures r'.data == Snapshot(env, spec, Gathered(env, spec, r.steps, results, am.now))
    ensures r'.current && Settled(env, spec, r'.steps, r'.data)
    ensures Aligned(spec, Gathered(env, spec, r.steps, results, am.now))
    ensures forall j: nat :: j < |r.steps| ==> KeepsAsking(env, spec, r, r', results, am.now, j)
  {
    var a, ra := GatherMoves(env, spec, r, results, am.now);
    var b, rb := SubmitMoves(env, spec, ra, am, base, |r.steps|);
    ExecConcat(env, spec, r, a, b);
    ms, r' := a + b, rb;
    forall j: nat | j < |r.steps|
      ensures KeepsAsking(env, spec, r, r', results, am.now, j)
    {
      assert StillRuns(ra, rb, j);
    }
  }

  /** A step still running once the results are in goes on running, and was not asked anything else. */
  ghost predicate KeepsAsking(env: Env, spec: FlowSpec, r: Run, r': Run, results: seq<Result>, now: int, j: nat)
    requires |r.steps| == |spec.steps|
  {
    && j < |r.steps| && j < |r'.steps| && j < |r.asked| && j < |r'.asked|
    && (AfterLoops(env, spec, Gathered(env, spec, r.steps, results, now))[j].phase == Running ==>
          r'.steps[j] == AfterLoops(env, spec, Gathered(env, spec, r.steps, results, now))[j]
              && r'.asked[j] == r.asked[j])
  }

  /** A reconcile keeps the status backed, whether or not all its XADDs succeed. */
  lemma AdvancedBacked(env: Env, spec: FlowSpec, st: Status, results: seq<Result>, base: nat, am: Ambient, r: Run,
          seen: seq<StepStatus>)
    returns (r': Run, seen': seq<StepStatus>)
    requires UniqueNames(spec.steps) && UniqueIDs(results) && AllFit(env, r, results)
    requires st.phase == FlowRunning && Backed(env, spec, st, r, seen) && Shuffles(am.shuffle)
    ensures
      var p := Advanced(env, spec, st, results, base, am);
      && Backed(env, spec, p.status, r', seen')
      && AllDispatched(r', p.sent, base)
    ensures |r.asked| == |r'.asked| == |st.steps|
    ensures !AnyWaiting(st.steps) || am.readable ==>
              forall j: nat :: j < |st.steps| ==> KeepsAsking(env, spec, r, r', results, am.now, j)
    ensures AnyWaiting(st.steps) && !am.readable ==> r' == r
  {
    ReachableInv(env, spec, r);
    if AnyWaiting(st.steps) && !am.readable {
      r', seen' := r, seen;
    } else {
      var ms;
      ms, r' := SendingMoves(env, spec, r, results, base, am);
      ReachableThen(env, spec, r, ms, r');
      ReachableInv(env, spec, r');
      seen' := Gathered(env, spec, st.steps, results, am.now);
      var moved := st.(steps := r'.steps);
      TotalStays(env, spec, st, r, ms, r');
      assert Backed(env, spec, moved, r', seen');
      VerdictBacked(env, spec, moved, r', seen', am.now);
    }
  }

  lemma {:induction false} ScanKeepsName(st: StepStatus, id: nat, results: seq<Result>, now: int)
    ensures TakeAll(st, id, results, now).name == st.name
    decreases |results|
  {
    if results != [] {
      ScanKeepsName(st, id, results[..|results| - 1], now);
    }
  }

  lemma CollectAligned(spec: FlowSpec, steps: seq<StepStatus>, results: seq<Result>, now: int)
    requires Aligned(spec, steps)
    ensures Aligned(spec, CollectAll(steps, results, now))
  {
    forall i | 0 <= i < |steps|
      ensures Collected(steps[i], results, now).name == steps[i].name
    {
      if IsWaiting(steps[i]) {
        ScanKeepsName(steps[i], steps[i].taskID.value, results, now);
      }
    }
  }

  /** The records stay in place. */
  lemma LoopedAligned(env: Env, spec: FlowSpec, steps: seq<StepStatus>, results: seq<Result>, now: int)
    requires Aligned(spec, steps)
    ensures Aligned(spec, Gathered(env, spec, steps, results, now))
      && Aligned(spec, AfterLoops(env, spec, Gathered(env, spec, steps, results, now)))
  {
    CollectAligned(spec, steps, results, now);
  }

  /** A flow that a reconcile declares succeeded has no loop left that asks to be repeated. */
  lemma SucceedsAfterLoops(env: Env, spec: FlowSpec, st: Status, results: seq<Result>, base: nat, am: Ambient, r: Run,
          seen: seq<StepStatus>)
    requires UniqueNames(spec.steps) && UniqueIDs(results) && AllFit(env, r, results)
    requires st.phase == FlowRunning && Backed(env, spec, st, r, seen) && Shuffles(am.shuffle)
    requires Advanced(env, spec, st, results, base, am).status.phase == FlowSucceeded
    ensures
      var data := Snapshot(env, spec, Gathered(env, spec, st.steps, results, am.now));
      Settled(env, spec, Advanced(env, spec, st, results, base, am).status.steps, data)
  {
    ReachableInv(env, spec, r);
    var ms, r' := SendingMoves(env, spec, r, results, base, am);
  }

  /** If loop conditions read only their own step, every loop of the flow has been honoured. */
  lemma SucceedsHonoured(env: Env, spec: FlowSpec, st: Status, results: seq<Result>, base: nat, am: Ambient, r: Run,
          seen: seq<StepStatus>)
    requires UniqueNames(spec.steps) && UniqueIDs(results) && AllFit(env, r, results) && OwnLoops(env, spec)
    requires st.phase == FlowRunning && Backed(env, spec, st, r, seen) && Shuffles(am.shuffle)
    requires Advanced(env, spec, st, results, base, am).status.phase == FlowSucceeded
    ensures LoopsHonoured(env, spec, Advanced(env, spec, st, results, base, am).status.steps)
  {
    ReachableInv(env, spec, r);
    var ms, r' := SendingMoves(env, spec, r, results, base, am);
    ReachableThen(env, spec, r, ms, r');
    ReachableInv(env, spec, r');
    forall j: nat | j < |r'.steps|
      ensures !StillAsks(env, spec, r'.steps, j)
    {
      if r'.steps[j].phase == Succeeded {
        RepeatsIsOwn(env, spec, r', j);
      }
    }
  }
}
