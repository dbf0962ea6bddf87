/**
 * The reconciler itself: Reconcile, collectResults and submitPendingSteps, updating the flow and the queue in place.
 */
module ReconcilerDriver {
  import opened Wrappers
  import opened FlowTypes
  import opened Templates
  import opened Dag
  import opened Engine
  import opened Passes
  import opened Decimal
  import opened TaskQueue
  import opened FlowObject
  import opened Reconciler
  import opened ReconcilerEffects
  import RT = ReconcilerTheory
  import RP = ReconcilerProgress

  /** No two steps wait for the same task. */
  ghost predicate DistinctTasks(steps: seq<StepStatus>) {
    forall i, j :: 0 <= i < j < |steps| && IsWaiting(steps[i]) && IsWaiting(steps[j]) ==>
        steps[i].taskID != steps[j].taskID
  }

  /** The waiting map: task IDs with the records that wait for them, except those named in `left`. */
  ghost predicate WaitingMap(steps: seq<StepStatus>, waiting: map<nat, nat>, left: set<string>) {
    && (forall id :: id in waiting ==>
        && waiting[id] < |steps| && IsWaiting(steps[waiting[id]])
        && steps[waiting[id]].taskID == Some(id))
    && (forall i :: 0 <= i < |steps| && IsWaiting(steps[i]) && steps[i].name !in left ==>
        steps[i].taskID.value in waiting)
  }

  lemma WaitingAt(steps: seq<StepStatus>, waiting: map<nat, nat>, i: nat, id: nat)
    requires DistinctTasks(steps) && WaitingMap(steps, waiting, {}) && i < |steps|
    ensures IsWaiting(steps[i]) && steps[i].taskID == Some(id) <==> id in waiting && waiting[id] == i
  {
  }

  lemma WaitingEmpty(steps: seq<StepStatus>, waiting: map<nat, nat>)
    requires WaitingMap(steps, waiting, {})
    ensures waiting != map[] <==> AnyWaiting(steps)
  {
    if waiting != map[] {
      var id :| id in waiting;
      assert IsWaiting(steps[waiting[id]]);
    }
    if AnyWaiting(steps) {
      var i :| 0 <= i < |steps| && IsWaiting(steps[i]);
      assert steps[i].taskID.value in waiting;
    }
  }

  /** Scanning one more result changes the record that waits for it, if there is one, and no other. */
  lemma ScanNext(before: seq<StepStatus>, waiting: map<nat, nat>, results: seq<Result>, now: int, k: nat, i: nat)
    requires DistinctTasks(before) && WaitingMap(before, waiting, {}) && k < |results| && i < |before|
    ensures
      var id := results[k].taskID;
      Collected(before[i], results[..k + 1], now) ==
      if id in waiting && waiting[id] == i then TakeOne(Collected(before[i], results[..k], now), results[k], now)
      else Collected(before[i], results[..k], now)
  {
    WaitingAt(before, waiting, i, results[k].taskID);
    assert results[..k + 1][..k] == results[..k];
  }

  lemma ScanAll(before: seq<StepStatus>, waiting: map<nat, nat>, results: seq<Result>, now: int, k: nat)
    requires DistinctTasks(before) && WaitingMap(before, waiting, {}) && k < |results|
    ensures
      var a, b := CollectAll(before, results[..k], now), CollectAll(before, results[..k + 1], now);
      var id := results[k].taskID;
      if id in waiting then waiting[id] < |a| && b == a[waiting[id] := TakeOne(a[waiting[id]], results[k], now)]
          else b == a
  {
    forall i: nat | i < |before|
      ensures
        Collected(before[i], results[..k + 1], now) ==
        if results[k].taskID in waiting && waiting[results[k].taskID] == i
            then TakeOne(Collected(before[i], results[..k], now), results[k], now)
        else Collected(before[i], results[..k], now)
    {
      ScanNext(before, waiting, results, now, k, i);
    }
  }

  lemma NothingToCollect(steps: seq<StepStatus>, results: seq<Result>, now: int)
    requires !AnyWaiting(steps)
    ensures CollectAll(steps, results, now) == steps
  {
  }

  /** A failed submission ends the pass. */
  lemma {:induction false} FailedPassStands(env: Env, spec: FlowSpec, steps: seq<StepStatus>, data: Data, am: Ambient,
          base: nat, k: nat, n: nat)
    requires |steps| == |spec.steps| && k <= n <= |steps|
    requires !SubmitPass(env, spec, steps, data, am, base, k).ok
    ensures SubmitPass(env, spec, steps, data, am, base, n) == SubmitPass(env, spec, steps, data, am, base, k)
    decreases n
  {
    if k < n {
      FailedPassStands(env, spec, steps, data, am, base, k, n - 1);
    }
  }

  /** The queue after the given tasks have been put on the stream. */
  function WithTasks(q: QState, sent: seq<Sent>): (r: QState)
    ensures |r.stream| == |q.stream| + |sent|
  {
    if sent == [] then q else Submitted(WithTasks(q, sent[..|sent| - 1]), sent[|sent| - 1].prompt)
  }

  lemma WithOneMore(q: QState, sent: seq<Sent>, t: Sent)
    ensures WithTasks(q, sent + [t]) == Submitted(WithTasks(q, sent), t.prompt)
  {
    assert (sent + [t])[..|sent|] == sent;
  }

  class ArkFlowReconciler {
    const env: Env

    constructor (env: Env)
      ensures this.env == env
    {
      this.env := env;
    }

    /** The waiting map, gathered in no fixed order. */
    method Waiting(f: Flow, byName: map<string, nat>) returns (waiting: map<nat, nat>)
      requires f.Valid() && f.phase != Unset && byName == Index(f.steps) && DistinctTasks(f.steps)
      ensures WaitingMap(f.steps, waiting, {})
      ensures waiting == map[] <==> !AnyWaiting(f.steps)
    {
      waiting := map[];
      var left := byName.Keys;
      while left != {}
        invariant left <= byName.Keys
        invariant WaitingMap(f.steps, waiting, left)
        decreases left
      {
        var name :| name in left;
        var i := byName[name];
        OnlyRecord(f.spec, f.steps, i);
        if f.steps[i].phase == Running && f.steps[i].taskID.Some? {
          waiting := waiting[f.steps[i].taskID.value := i];
        }
        left := left - {name};
      }
      WaitingEmpty(f.steps, waiting);
    }

    /** collectResults; `readable` says whether XRANGE succeeds. */
    method CollectResults(f: Flow, q: Queue, byName: map<string, nat>, readable: bool, now: int) returns (failed: bool)
      requires f.Valid() && f.phase != Unset && byName == Index(f.steps) && DistinctTasks(f.steps)
      modifies f`steps
      ensures failed <==> AnyWaiting(old(f.steps)) && !readable
      ensures f.State() == if failed then old(f.State())
        else old(f.State()).(steps := CollectAll(old(f.steps), q.results, now))
      ensures f.Valid()
    {
      var waiting := Waiting(f, byName);
      failed := waiting != map[] && !readable;
      if failed {
        return;
      }
      RT.CollectAligned(f.spec, f.steps, q.results, now);
      if waiting == map[] {
        NothingToCollect(f.steps, q.results, now);
        return;
      }
      ScanResults(f, q.results, waiting, now);
    }

    /** The loop of collectResults over the messages of the results stream. */
    method ScanResults(f: Flow, msgs: seq<Result>, waiting: map<nat, nat>, now: int)
      requires DistinctTasks(f.steps) && WaitingMap(f.steps, waiting, {})
      modifies f`steps
      ensures f.steps == CollectAll(old(f.steps), msgs, now)
    {
      ghost var before := f.steps;
      assert f.steps == CollectAll(before, [], now);
      for k := 0 to |msgs|
        invariant f.steps == CollectAll(before, msgs[..k], now)
      {
        ScanAll(before, waiting, msgs, now, k);
        if msgs[k].taskID in waiting {
          TakeResult(f, waiting[msgs[k].taskID], msgs[k], now);
        }
      }
      assert msgs[..|msgs|] == msgs;
    }

    /** The record takes its answer and, if there are any, its token counts. */
    method TakeResult(f: Flow, i: nat, msg: Result, now: int)
      requires i < |f.steps|
      modifies f`steps
      ensures f.steps == old(f.steps)[i := TakeOne(old(f.steps)[i], msg, now)]
      ensures TookAnswer(old(f.steps)[i], msg, now, f.steps[i])
    {
      var st := f.steps[i].(phase := Succeeded, output := msg.result, completionTime := Some(now));
      var inTok, outTok := ToInt64(msg.inputTokens), ToInt64(msg.outputTokens);
      if inTok > 0 || outTok > 0 {
        st := st.(tokens := Some(TokenUsage(inTok, outTok, inTok + outTok)));
      }
      f.steps := f.steps[i := st];
    }

    /**
     * submitPendingSteps at one step, `count` tasks having been sent before. The ghost parameters say what they were,
     * and what the queue was like before them.
     */
    method SubmitStep(f: Flow, q: Queue, byName: map<string, nat>, data: Data, am: Ambient, count: nat, i: nat,
            ghost queue: QState, ghost sent: seq<Sent>)
      returns (ok: bool, count': nat)
      requires Shuffles(am.shuffle) && i < |f.steps| == |f.spec.steps| && byName == Index(f.steps)
      requires count == |sent| && q.State() == WithTasks(queue, sent)
      modifies f`steps, q`stream
      ensures
        var s := SubmitOne(env, f.spec, Sub(old(f.steps), sent, true), data, am, |queue.stream|, i);
        ok == s.ok && f.steps == s.steps && count' == |s.sent| && q.State() == WithTasks(queue, s.sent)
    {
      var verb, prompt := Judge(f, byName, data, am, i);
      ok, count' := DoVerb(f, q, verb, prompt, am, count, i, queue, sent);
    }

    /** What is to be done with a step, and its prompt if it is to be launched. */
    method Judge(f: Flow, byName: map<string, nat>, data: Data, am: Ambient, i: nat)
      returns (verb: Verb, prompt: string)
      requires Shuffles(am.shuffle) && i < |f.steps| == |f.spec.steps| && byName == Index(f.steps)
      ensures verb == Decide(env, f.spec, f.steps, data, i)
      ensures verb == LaunchIt ==> prompt == PromptOf(env, f.spec.steps[i], data, am.shuffle)
    {
      var step := f.spec.steps[i];
      if f.steps[i].phase != Pending {
        return Leave, "";
      }
      var done := f.CheckDeps(step.dependsOn, byName);
      if !done {
        return Leave, "";
      }
      if step.cond != "" {
        var result := env.resolve(step.cond, data);
        if result.None? || !IsTruthy(result.value) {
          return SkipIt, "";
        }
      }
      var shuffle := am.shuffle;
      var resolved := ResolvePrompt(env, step, data, shuffle(step.name, step.inputs.Keys));
      if resolved.None? {
        return RejectIt, "";
      }
      return LaunchIt, resolved.value;
    }

    /** submitTask, and what follows its success. */
    method SendTask(f: Flow, q: Queue, i: nat, prompt: string, now: int, ghost queue: QState, ghost sent: seq<Sent>)
      requires i < |f.steps| && q.State() == WithTasks(queue, sent)
      modifies f`steps, q`stream
      ensures f.steps == old(f.steps)[i := Launched(old(f.steps)[i], Some(|queue.stream| + |sent|), now)]
      ensures q.State() == WithTasks(queue, sent + [Sent(i, prompt)])
    {
      WithOneMore(queue, sent, Sent(i, prompt));
      var id := q.Submit(prompt);
      f.steps := f.steps[i := f.steps[i].(phase := Running, taskID := Some(id), startTime := Some(now))];
    }

    /** The end of one turn of submitPendingSteps' loop, once it is known what to do with the step. */
    method DoVerb(f: Flow, q: Queue, verb: Verb, prompt: string, am: Ambient, count: nat, i: nat, ghost queue: QState,
            ghost sent: seq<Sent>)
      returns (ok: bool, count': nat)
      requires i < |f.steps| && count == |sent| && q.State() == WithTasks(queue, sent)
      modifies f`steps, q`stream
      ensures
        var s := SubmitVerb(Sub(old(f.steps), sent, true), verb, prompt, am, |queue.stream|, i);
        ok == s.ok && f.steps == s.steps && count' == |s.sent| && q.State() == WithTasks(queue, s.sent)
    {
      ok, count' := true, count;
      match verb {
        case Leave =>
        case SkipIt =>
          f.steps := f.steps[i := f.steps[i].(phase := Skipped, completionTime := Some(am.now))];
        case RejectIt =>
          f.steps := f.steps[i := f.steps[i].(phase := Failed, completionTime := Some(am.now))];
        case LaunchIt =>
          if count >= am.accepts {
            return false, count;
          }
          SendTask(f, q, i, prompt, am.now, queue, sent);
          count' := count + 1;
      }
    }

    /** One turn of its loop. */
    method SubmitNext(f: Flow, q: Queue, byName: map<string, nat>, data: Data, am: Ambient, count: nat, i: nat,
            ghost before: seq<StepStatus>, ghost queue: QState, ghost sent: seq<Sent>)
      returns (ok: bool, count': nat, ghost sent': seq<Sent>)
      requires Shuffles(am.shuffle) && Aligned(f.spec, before) && i < |before| && byName == Index(before)
      requires SubmitPass(env, f.spec, before, data, am, |queue.stream|, i) == Sub(f.steps, sent, true)
      requires count == |sent| && q.State() == WithTasks(queue, sent)
      modifies f`steps, q`stream
      ensures SubmitPass(env, f.spec, before, data, am, |queue.stream|, i + 1) == Sub(f.steps, sent', ok)
      ensures count' == |sent'| && q.State() == WithTasks(queue, sent')
    {
      RP.SubmitAligned(env, f.spec, before, data, am, |queue.stream|, i);
      SameSpecSameIndex(f.spec, before, f.steps);
      sent' := SubmitOne(env, f.spec, Sub(f.steps, sent, true), data, am, |queue.stream|, i).sent;
      ok, count' := SubmitStep(f, q, byName, data, am, count, i, queue, sent);
    }

    /** The loop of submitPendingSteps: it stops at the end, or at a failed XADD. */
    method SubmitSteps(f: Flow, q: Queue, byName: map<string, nat>, data: Data, am: Ambient)
      returns (ok: bool, i: nat, ghost sent: seq<Sent>)
      requires Shuffles(am.shuffle) && Aligned(f.spec, f.steps) && byName == Index(f.steps)
      modifies f`steps, q`stream
      ensures i <= |old(f.steps)| && (ok ==> i == |old(f.steps)|)
      ensures SubmitPass(env, f.spec, old(f.steps), data, am, |old(q.stream)|, i) == Sub(f.steps, sent, ok)
      ensures q.State() == WithTasks(old(q.State()), sent)
    {
      ghost var before, queue := f.steps, q.State();
      ok, i, sent := true, 0, [];
      var count := 0;
      while ok && i < |f.spec.steps|
        invariant i <= |before| == |f.spec.steps|
        invariant SubmitPass(env, f.spec, before, data, am, |queue.stream|, i) == Sub(f.steps, sent, ok)
        invariant count == |sent| && q.State() == WithTasks(queue, sent)
      {
        ok, count, sent := SubmitNext(f, q, byName, data, am, count, i, before, queue, sent);
        i := i + 1;
      }
    }

    /** submitPendingSteps. */
    method SubmitPendingSteps(f: Flow, q: Queue, byName: map<string, nat>, data: Data, am: Ambient) returns (ok: bool)
      requires Shuffles(am.shuffle) && f.Valid() && f.phase != Unset && byName == Index(f.steps)
      modifies f`steps, q`stream
      ensures
        var s := SubmitPass(env, f.spec, old(f.steps), data, am, |old(q.stream)|, |old(f.steps)|);
        && ok == s.ok && f.State() == old(f.State()).(steps := s.steps)
        && q.State() == WithTasks(old(q.State()), s.sent)
      ensures f.Valid()
    {
      var i;
      ghost var sent;
      ok, i, sent := SubmitSteps(f, q, byName, data, am);
      PassEnds(env, f.spec, old(f.steps), data, am, |old(q.stream)|, i);
    }

    /** What follows InitializeSteps in Reconcile. */
    method Advance(f: Flow, q: Queue, am: Ambient) returns (write: bool, next: Next)
      requires Shuffles(am.shuffle) && f.Valid() && !IsTerminal(f.phase) && f.phase != Unset && DistinctTasks(f.steps)
      modifies f, q`stream
      ensures
        var p := Advanced(env, f.spec, old(f.State()), q.results, |old(q.stream)|, am);
        && f.State() == p.status && write == p.write && next == p.next
        && q.State() == WithTasks(old(q.State()), p.sent)
      ensures f.Valid()
    {
      var byName := f.BuildStatusByName();
      var failed := CollectResults(f, q, byName, am.readable, am.now);
      if failed {
        return false, Retry;
      }
      var data := ParseAndLoop(f, byName, old(f.steps), q.results, am.now);
      var ok := SubmitPendingSteps(f, q, byName, data, am);
      if !ok {
        return true, Retry;
      }
      f.UpdateFlowPhase(env, data, am.now);
      write, next := true, if f.phase == FlowRunning then Requeue else Stop;
    }

    /** ParseOutputJSON, BuildTemplateData and EvaluateLoops, after the results are in. */
    method ParseAndLoop(f: Flow, byName: map<string, nat>, ghost before: seq<StepStatus>, ghost results: seq<Result>,
            now: int)
      returns (data: Data)
      requires f.Valid() && f.phase != Unset && Aligned(f.spec, before) && byName == Index(before)
      requires f.steps == CollectAll(before, results, now)
      modifies f`steps
      ensures data == Snapshot(env, f.spec, Gathered(env, f.spec, before, results, now))
      ensures f.steps == AfterLoops(env, f.spec, Gathered(env, f.spec, before, results, now))
      ensures f.Valid() && byName == Index(f.steps)
    {
      RT.LoopedAligned(env, f.spec, before, results, now);
      SameSpecSameIndex(f.spec, before, f.steps);
      f.ParseOutputJSON(env, byName);
      SameSpecSameIndex(f.spec, before, f.steps);
      data := f.BuildTemplateData(env, byName);
      f.EvaluateLoops(env, byName, data);
      SameSpecSameIndex(f.spec, before, f.steps);
    }

    /** Reconcile; `write` says whether the status is written back. */
    method Reconcile(f: Flow, q: Queue, am: Ambient) returns (write: bool, next: Next)
      requires Shuffles(am.shuffle) && f.Valid() && DistinctTasks(f.steps) && (f.phase == Unset ==> f.steps == [])
      modifies f, q`stream
      ensures
        var p := Reconciled(env, f.spec, old(f.State()), q.results, |old(q.stream)|, am);
        && f.State() == p.status && write == p.write && next == p.next
        && q.State() == WithTasks(old(q.State()), p.sent)
      ensures f.Valid()
    {
      if !am.active {
        return false, Stop;
      }
      var err := ValidateDAG(f.spec);
      if err.Some? {
        f.SetCondition(InvalidDAG);
        return true, Stop;
      }
      if !am.agentsFound {
        f.SetCondition(DeploymentNotFound);
        return true, Stop;
      }
      if IsTerminal(f.phase) {
        return true, Stop;
      }
      if !am.connected {
        f.SetCondition(NoTaskQueue);
        return true, Stop;
      }
      f.InitializeSteps(am.now);
      write, next := Advance(f, q, am);
    }
  }

  /** When the loop stops, for whatever reason, the pass is over. */
  lemma PassEnds(env: Env, spec: FlowSpec, steps: seq<StepStatus>, data: Data, am: Ambient, base: nat, i: nat)
    requires Aligned(spec, steps) && i <= |steps|
    requires i == |steps| || !SubmitPass(env, spec, steps, data, am, base, i).ok
    ensures SubmitPass(env, spec, steps, data, am, base, |steps|) == SubmitPass(env, spec, steps, data, am, base, i)
    ensures Aligned(spec, SubmitPass(env, spec, steps, data, am, base, i).steps)
  {
    if i < |steps| {
      FailedPassStands(env, spec, steps, data, am, base, i, |steps|);
    }
    RP.SubmitAligned(env, spec, steps, data, am, base, i);
  }
}
