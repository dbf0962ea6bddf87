/** What one reconcile does, said of fields alone: which answers it takes, what it sends, and when it is tried again. */
module ReconcilerEffects {
  import opened Wrappers
  import opened FlowTypes
  import opened Templates
  import opened Passes
  import opened Effects
  import opened Decimal
  import opened TaskQueue
  import opened Reconciler
  import RT = ReconcilerTheory
  import RP = ReconcilerProgress

  // ------------------------------------------------------------- collecting

  /** The record has succeeded with the result; token counts that are both zero leave the old usage in place. */
  ghost predicate TookAnswer(st: StepStatus, r: Result, now: int, st': StepStatus) {
    var tin, tout := ToInt64(r.inputTokens), ToInt64(r.outputTokens);
    var tokens := if tin > 0 || tout > 0 then Some(TokenUsage(tin, tout, tin + tout)) else st.tokens;
    st' == StepStatus(st.name, Succeeded, st.taskID, r.result, st.outputJSON, st.iterations, tokens, st.startTime,
                      Some(now))
  }

  /** collectResults gives a running step the result of its task, if it is there, and changes no other record. */
  lemma CollectsWell(steps: seq<StepStatus>, results: seq<Result>, now: int, i: nat)
    requires RT.UniqueIDs(results) && i < |steps|
    ensures
      var st, st' := steps[i], CollectAll(steps, results, now)[i];
      && (forall k :: 0 <= k < |results| && st.phase == Running && st.taskID == Some(results[k].taskID) ==>
            TookAnswer(st, results[k], now, st'))
      && (st.phase != Running || (forall k :: 0 <= k < |results| ==> st.taskID != Some(results[k].taskID)) ==>
            st' == st)
  {
    var st := steps[i];
    if st.phase == Running && st.taskID.Some? {
      var found := RT.ScanTakesOne(st, st.taskID.value, results, now);
    }
  }

  // ------------------------------------------------------------- submitting

  /** One more task, sent for step i under the next ID: the step runs, and the prompt shows its inputs. */
  ghost predicate SentOneMore(env: Env, spec: FlowSpec, data: Data, now: int, base: nat, i: nat, s: Sub, s': Sub)
    requires i < |s.steps| && i < |spec.steps|
  {
    && |s'.sent| == |s.sent| + 1 && s'.ok
    && s'.sent == s.sent + [Sent(i, s'.sent[|s.sent|].prompt)]
    && Shows(env, spec.steps[i], data, s'.sent[|s.sent|].prompt)
    && s'.steps == s.steps[i := s.steps[i].(phase := Running, taskID := Some(base + |s.sent|), startTime := Some(now))]
  }

  /** submitPendingSteps at step i. */
  ghost predicate SubmittedWell(env: Env, spec: FlowSpec, data: Data, am: Ambient, base: nat, i: nat, s: Sub, s': Sub)
    requires i < |s.steps| && i < |spec.steps|
  {
    var step, st := spec.steps[i], s.steps[i];
    if st.phase != Pending || !DependenciesMet(step, s.steps) then s' == s
    else if Denied(env, step, data) then
      s' == s.(steps := s.steps[i := st.(phase := Skipped, completionTime := Some(am.now))])
    else if SomeInputFails(env, step, data) then
      s' == s.(steps := s.steps[i := st.(phase := Failed, completionTime := Some(am.now))])
    else if |s.sent| >= am.accepts then s' == s.(ok := false)
    else SentOneMore(env, spec, data, am.now, base, i, s, s')
  }

  lemma SubmitOneWell(env: Env, spec: FlowSpec, s: Sub, data: Data, am: Ambient, base: nat, i: nat)
    requires UniqueNames(spec.steps) && Aligned(spec, s.steps) && i < |s.steps| && s.ok && Shuffles(am.shuffle)
    ensures SubmittedWell(env, spec, data, am, base, i, s, SubmitOne(env, spec, s, data, am, base, i))
  {
    DecidesWell(env, spec, s.steps, data, i);
    PromptOfShows(env, spec.steps[i], data, am.shuffle);
  }

  /**
   * submitPendingSteps goes through the steps in order, and does with each what the records left by the steps before
   * it, its condition and its inputs demand.
   */
  lemma SubmitsWell(env: Env, spec: FlowSpec, steps: seq<StepStatus>, data: Data, am: Ambient, base: nat, i: nat)
    requires UniqueNames(spec.steps) && Aligned(spec, steps) && i < |steps| && Shuffles(am.shuffle)
    ensures
      var s, s' := SubmitPass(env, spec, steps, data, am, base, i), SubmitPass(env, spec, steps, data, am, base, i + 1);
      && s.steps[i] == steps[i]
      && if s.ok then SubmittedWell(env, spec, data, am, base, i, s, s') else s' == s
  {
    var s := SubmitPass(env, spec, steps, data, am, base, i);
    RP.SubmitShape(env, spec, steps, data, am, base, i, i);
    RP.SubmitAligned(env, spec, steps, data, am, base, i);
    SubmitPassNext(env, spec, steps, data, am, base, i + 1, s);
    if s.ok {
      SubmitOneWell(env, spec, s, data, am, base, i);
    }
  }

  /** The x-th task was sent for a step that now runs under its ID. */
  ghost predicate RunsAt(s: Sub, now: int, base: nat, x: nat) {
    && x < |s.sent| && s.sent[x].step < |s.steps|
    && var st := s.steps[s.sent[x].step];
    st.phase == Running && st.taskID == Some(base + x) && st.startTime == Some(now)
  }

  /** Its prompt shows the inputs of the step. */
  ghost predicate ShowsAt(env: Env, spec: FlowSpec, data: Data, sent: seq<Sent>, x: nat) {
    x < |sent| && sent[x].step < |spec.steps| && Shows(env, spec.steps[sent[x].step], data, sent[x].prompt)
  }

  ghost predicate AllRun(s: Sub, now: int, base: nat) {
    forall x: nat :: x < |s.sent| ==> RunsAt(s, now, base, x)
  }

  ghost predicate AllShow(env: Env, spec: FlowSpec, data: Data, sent: seq<Sent>) {
    forall x: nat :: x < |sent| ==> ShowsAt(env, spec, data, sent, x)
  }

  /** A running record, and a task sent, stay as they are. */
  ghost predicate RunsOn(s: Sub, s': Sub, j: nat) {
    && (j < |s.steps| && s.steps[j].phase == Running ==> j < |s'.steps| && s'.steps[j] == s.steps[j])
    && (j < |s.sent| ==> j < |s'.sent| && s'.sent[j] == s.sent[j])
  }

  lemma SubmittedKeeps(env: Env, spec: FlowSpec, data: Data, am: Ambient, base: nat, i: nat, s: Sub, s': Sub)
    requires i < |s.steps| == |spec.steps| && SubmittedWell(env, spec, data, am, base, i, s, s')
    ensures forall j: nat :: RunsOn(s, s', j)
    ensures |s'.sent| <= |s.sent| + 1
    ensures |s'.sent| > |s.sent| ==> RunsAt(s', am.now, base, |s.sent|) && ShowsAt(env, spec, data, s'.sent, |s.sent|)
  {
    var step := spec.steps[i];
    if s.steps[i].phase != Pending || !DependenciesMet(step, s.steps) {
    } else if Denied(env, step, data) || SomeInputFails(env, step, data) {
      OtherRunsOn(s, s', i);
    } else if |s.sent| < am.accepts {
      NewTask(env, spec, data, am.now, base, i, s, s');
    }
  }

  lemma OtherRunsOn(s: Sub, s': Sub, i: nat)
    requires i < |s.steps| && s.steps[i].phase == Pending && s'.sent == s.sent && |s'.steps| == |s.steps|
    requires s'.steps == s.steps[i := s'.steps[i]]
    ensures forall j: nat :: RunsOn(s, s', j)
  {
  }

  lemma NewTask(env: Env, spec: FlowSpec, data: Data, now: int, base: nat, i: nat, s: Sub, s': Sub)
    requires i < |s.steps| == |spec.steps| && s.steps[i].phase == Pending
    requires SentOneMore(env, spec, data, now, base, i, s, s')
    ensures forall j: nat :: RunsOn(s, s', j)
    ensures RunsAt(s', now, base, |s.sent|) && ShowsAt(env, spec, data, s'.sent, |s.sent|)
  {
    assert s'.sent[|s.sent|] == Sent(i, s'.sent[|s.sent|].prompt);
  }

  lemma AddsRun(s: Sub, s': Sub, now: int, base: nat)
    requires AllRun(s, now, base) && forall j: nat :: RunsOn(s, s', j)
    requires |s'.sent| <= |s.sent| + 1 && (|s'.sent| > |s.sent| ==> RunsAt(s', now, base, |s.sent|))
    ensures AllRun(s', now, base)
  {
    forall x: nat | x < |s'.sent|
      ensures RunsAt(s', now, base, x)
    {
      if x < |s.sent| {
        assert RunsAt(s, now, base, x);
        assert RunsOn(s, s', x) && RunsOn(s, s', s.sent[x].step);
      }
    }
  }

  lemma AddsShow(env: Env, spec: FlowSpec, data: Data, s: Sub, s': Sub)
    requires AllShow(env, spec, data, s.sent) && forall j: nat :: RunsOn(s, s', j)
    requires |s'.sent| <= |s.sent| + 1 && (|s'.sent| > |s.sent| ==> ShowsAt(env, spec, data, s'.sent, |s.sent|))
    ensures AllShow(env, spec, data, s'.sent)
  {
    forall x: nat | x < |s'.sent|
      ensures ShowsAt(env, spec, data, s'.sent, x)
    {
      if x < |s.sent| {
        assert ShowsAt(env, spec, data, s.sent, x) && RunsOn(s, s', x);
      }
    }
  }

  lemma StepSentWell(env: Env, spec: FlowSpec, data: Data, am: Ambient, base: nat, i: nat, s: Sub) returns (s': Sub)
    requires UniqueNames(spec.steps) && Aligned(spec, s.steps) && i < |s.steps| && Shuffles(am.shuffle)
    requires AllRun(s, am.now, base) && AllShow(env, spec, data, s.sent)
    ensures |s'.steps| == |s.steps| && AllRun(s', am.now, base) && AllShow(env, spec, data, s'.sent)
    ensures s' == if s.ok then SubmitOne(env, spec, s, data, am, base, i) else s
  {
    s' := s;
    if s.ok {
      s' := SubmitOne(env, spec, s, data, am, base, i);
      SubmitOneWell(env, spec, s, data, am, base, i);
      SubmittedKeeps(env, spec, data, am, base, i, s, s');
      AddsRun(s, s', am.now, base);
      AddsShow(env, spec, data, s, s');
    }
  }

  lemma {:induction false} PassSentWell(env: Env, spec: FlowSpec, steps: seq<StepStatus>, data: Data, am: Ambient,
          base: nat, k: nat)
    returns (s: Sub)
    requires UniqueNames(spec.steps) && Aligned(spec, steps) && k <= |steps| && Shuffles(am.shuffle)
    ensures |s.steps| == |steps| && AllRun(s, am.now, base) && AllShow(env, spec, data, s.sent)
    ensures s == SubmitPass(env, spec, steps, data, am, base, k)
    decreases k
  {
    if k == 0 {
      s := Sub(steps, [], true);
    } else {
      s := PassSentWell(env, spec, steps, data, am, base, k - 1);
      RP.SubmitAligned(env, spec, steps, data, am, base, k - 1);
      s := StepSentWell(env, spec, data, am, base, k - 1, s);
    }
  }

  /**
   * Every task that a reconcile sends is for a step that now runs under its ID, and asks what the step's inputs
   * resolve to on the data of that pass.
   */
  lemma PromptsShowInputs(env: Env, spec: FlowSpec, st: Status, results: seq<Result>, base: nat, am: Ambient, x: nat)
    requires UniqueNames(spec.steps) && Aligned(spec, st.steps) && Shuffles(am.shuffle)
    requires x < |Advanced(env, spec, st, results, base, am).sent|
    ensures
      var p, data := Advanced(env, spec, st, results, base, am),
          Snapshot(env, spec, Gathered(env, spec, st.steps, results, am.now));
      && p.sent[x].step < |p.status.steps| == |spec.steps|
      && Shows(env, spec.steps[p.sent[x].step], data, p.sent[x].prompt)
      && var st := p.status.steps[p.sent[x].step];
      st.phase == Running && st.taskID == Some(base + x) && st.startTime == Some(am.now)
  {
    var gathered := Gathered(env, spec, st.steps, results, am.now);
    var data := Snapshot(env, spec, gathered);
    RT.LoopedAligned(env, spec, st.steps, results, am.now);
    var s := PassSentWell(env, spec, AfterLoops(env, spec, gathered), data, am, base, |st.steps|);
    assert RunsAt(s, am.now, base, x) && ShowsAt(env, spec, data, s.sent, x);
  }

  // ---------------------------------------------------------------- retries

  /** What would be sent if every XADD succeeded. */
  function Unhindered(am: Ambient, n: nat): Ambient {
    am.(accepts := n)
  }

  /** The tasks up to the first XADD that fails; nothing has changed if none does. */
  ghost predicate CutShort(s: Sub, all: Sub, accepts: nat) {
    && all.ok
    && (|all.sent| <= accepts ==> s == all)
    && (|all.sent| > accepts ==> !s.ok && s.sent == all.sent[..accepts])
  }

  lemma VerbCutShort(s: Sub, all: Sub, verb: Verb, prompt: string, am: Ambient, base: nat, i: nat, n: nat)
    requires |s.steps| == |all.steps| && i < |s.steps| && |all.sent| < n && CutShort(s, all, am.accepts)
    ensures
      var all' := SubmitVerb(all, verb, prompt, Unhindered(am, n), base, i);
      && CutShort(if s.ok then SubmitVerb(s, verb, prompt, am, base, i) else s, all', am.accepts)
      && |all'.sent| <= |all.sent| + 1
  {
    if verb.LaunchIt? {
      assert (all.sent + [Sent(i, prompt)])[..|all.sent|] == all.sent;
      if am.accepts < |all.sent| {
        assert (all.sent + [Sent(i, prompt)])[..am.accepts] == all.sent[..am.accepts];
      }
    }
  }

  lemma CutShortNext(env: Env, spec: FlowSpec, s: Sub, all: Sub, data: Data, am: Ambient, base: nat, i: nat, n: nat)
    returns (s': Sub, all': Sub)
    requires |s.steps| == |all.steps| == |spec.steps| && i < |s.steps| && |all.sent| < n
    requires CutShort(s, all, am.accepts)
    ensures |s'.steps| == |all'.steps| == |s.steps| && CutShort(s', all', am.accepts)
    ensures s' == if s.ok then SubmitOne(env, spec, s, data, am, base, i) else s
    ensures all' == SubmitOne(env, spec, all, data, Unhindered(am, n), base, i) && |all'.sent| <= |all.sent| + 1
  {
    VerbCutShort(s, all, Decide(env, spec, all.steps, data, i), PromptOf(env, spec.steps[i], data, am.shuffle), am,
                 base, i, n);
    s' := if s.ok then SubmitOne(env, spec, s, data, am, base, i) else s;
    all' := SubmitOne(env, spec, all, data, Unhindered(am, n), base, i);
  }

  lemma PassCutShortNext(env: Env, spec: FlowSpec, steps: seq<StepStatus>, data: Data, am: Ambient, base: nat, k: nat,
          s: Sub, all: Sub)
    returns (s': Sub, all': Sub)
    requires 0 < k <= |steps| == |spec.steps| == |s.steps| == |all.steps|
    requires CutShort(s, all, am.accepts) && |all.sent| < k
    requires s == SubmitPass(env, spec, steps, data, am, base, k - 1)
    requires all == SubmitPass(env, spec, steps, data, Unhindered(am, |steps|), base, k - 1)
    ensures |s'.steps| == |all'.steps| == |steps| && CutShort(s', all', am.accepts) && |all'.sent| <= k
    ensures s' == SubmitPass(env, spec, steps, data, am, base, k)
    ensures all' == SubmitPass(env, spec, steps, data, Unhindered(am, |steps|), base, k)
  {
    s', all' := CutShortNext(env, spec, s, all, data, am, base, k - 1, |steps|);
    SubmitPassNext(env, spec, steps, data, am, base, k, s);
    SubmitPassNext(env, spec, steps, data, Unhindered(am, |steps|), base, k, all);
  }

  lemma {:induction false} PassCutShort(env: Env, spec: FlowSpec, steps: seq<StepStatus>, data: Data, am: Ambient,
          base: nat, k: nat)
    returns (s: Sub, all: Sub)
    requires |steps| == |spec.steps| && k <= |steps|
    ensures |s.steps| == |all.steps| == |steps| && CutShort(s, all, am.accepts) && |all.sent| <= k
    ensures s == SubmitPass(env, spec, steps, data, am, base, k)
    ensures all == SubmitPass(env, spec, steps, data, Unhindered(am, |steps|), base, k)
    decreases k
  {
    if k == 0 {
      s, all := Sub(steps, [], true), Sub(steps, [], true);
    } else {
      s, all := PassCutShort(env, spec, steps, data, am, base, k - 1);
      s, all := PassCutShortNext(env, spec, steps, data, am, base, k, s, all);
    }
  }

  /**
   * A reconcile asks to be tried again in two cases. If a running step waits for a task and the results cannot be
   * read, nothing is changed, sent or written. If it has more tasks to send than XADDs succeed, it has sent as many
   * as do, the records are written, and no verdict is passed. Otherwise all tasks are sent.
   */
  lemma RetriesIff(env: Env, spec: FlowSpec, st: Status, results: seq<Result>, base: nat, am: Ambient)
    requires |st.steps| == |spec.steps|
    ensures
      var p := Advanced(env, spec, st, results, base, am);
      var all := Advanced(env, spec, st, results, base, Unhindered(am, |st.steps|));
      if !am.readable && exists i :: 0 <= i < |st.steps| && st.steps[i].phase == Running && st.steps[i].taskID.Some?
      then p == Pass(st, false, [], Retry)
      else if |all.sent| <= am.accepts then p == all && p.next != Retry
      else p == Pass(st.(steps := p.status.steps), true, all.sent[..am.accepts], Retry)
  {
    var gathered := Gathered(env, spec, st.steps, results, am.now);
    var data := Snapshot(env, spec, gathered);
    var s, all := PassCutShort(env, spec, AfterLoops(env, spec, gathered), data, am, base, |st.steps|);
    if i :| 0 <= i < |st.steps| && st.steps[i].phase == Running && st.steps[i].taskID.Some? {
      assert IsWaiting(st.steps[i]);
    }
  }
}
