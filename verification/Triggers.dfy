/** internal/controller/arkevent_controller.go: when an event fires. */
module Triggers {
  import opened Wrappers
  import opened FlowTypes

  const DAY := 24 * 60 * 60 * SECOND

  /** A parsed cron expression: the instants at which it is due, and the first of them after a given time. */
  datatype Schedule = Schedule(due: int -> bool, next: int -> int)

  /** What the cron library provides for an expression that can be satisfied: due instants are whole seconds. */
  ghost predicate Regular(s: Schedule) {
    && (forall t {:trigger s.next(t)} :: t < s.next(t) && s.due(s.next(t)))
    && (forall t, u :: t < u < s.next(t) ==> !s.due(u))
    && (forall t :: s.due(t) ==> t % SECOND == 0)
  }

  ghost predicate Advances(s: Schedule) {
    forall t {:trigger s.next(t)} :: t < s.next(t)
  }

  // ------------------------------------------------------ mostRecentSchedule

  /** From where mostRecentSchedule looks: the later of the last fire and a day ago. */
  function Lookback(now: int, lastFired: Option<int>): int {
    if lastFired.Some? && lastFired.value > now - DAY then lastFired.value else now - DAY
  }

  function ScanFrom(s: Schedule, t: int, now: int, last: Option<int>): Option<int>
    requires Advances(s)
    decreases if t < now then now - t else 0, if s.next(t) > now then 0 else 1
  {
    if s.next(t) > now then last else ScanFrom(s, s.next(t), now, Some(s.next(t)))
  }

  function MostRecent(s: Schedule, now: int, lastFired: Option<int>): Option<int>
    requires Advances(s)
  {
    ScanFrom(s, Lookback(now, lastFired), now, None)
  }

  /** The greatest due instant in (from, now], if there is one. */
  ghost predicate IsGreatest(s: Schedule, from: int, now: int, r: Option<int>) {
    match r
    case None => forall u :: from < u <= now ==> !s.due(u)
    case Some(v) => from < v <= now && s.due(v) && forall u :: v < u <= now ==> !s.due(u)
  }

  lemma {:induction false} ScanIsGreatest(s: Schedule, from: int, t: int, now: int, last: Option<int>)
    requires Regular(s) && from <= t
    requires match last case None => t == from case Some(v) => v == t && from < v <= now && s.due(v)
    ensures IsGreatest(s, from, now, ScanFrom(s, t, now, last))
    decreases if t < now then now - t else 0, if s.next(t) > now then 0 else 1
  {
    if s.next(t) <= now {
      ScanIsGreatest(s, from, s.next(t), now, Some(s.next(t)));
    }
  }

  /**
   * mostRecentSchedule gives the greatest due instant after the last fire, within a day, or none when there is none.
   */
  lemma MostRecentIsGreatest(s: Schedule, now: int, lastFired: Option<int>)
    requires Regular(s)
    ensures IsGreatest(s, Lookback(now, lastFired), now, MostRecent(s, now, lastFired))
  {
    ScanIsGreatest(s, Lookback(now, lastFired), Lookback(now, lastFired), now, None);
  }

  method MostRecentSchedule(s: Schedule, now: int, lastFired: Option<int>) returns (last: Option<int>)
    requires Advances(s)
    ensures last == MostRecent(s, now, lastFired)
  {
    var lookback := now - DAY;
    if lastFired.Some? && lastFired.value > lookback {
      lookback := lastFired.value;
    }
    var t := lookback;
    last := None;
    while true
      invariant ScanFrom(s, t, now, last) == MostRecent(s, now, lastFired)
      decreases if t < now then now - t else 0, if s.next(t) > now then 0 else 1
    {
      var next := s.next(t);
      if next > now {
        break;
      }
      last := Some(next);
      t := next;
    }
  }

  // ------------------------------------------------------------- the trigger

  /** What `fire` does: it fails, it skips because of the Forbid policy, or it creates the target flows. */
  datatype Firing = Fails | Skips | Creates

  datatype Condition = NoCondition | InvalidSource | NotFound | Watching | Active

  datatype TriggerStatus = TriggerStatus(lastFiredAt: Option<int>, firedCount: int, nextFireAt: Option<int>,
      ready: Condition)

  const NEW_TRIGGER := TriggerStatus(None, 0, None, NoCondition)

  /** The status as it is read back. */
  function Stored(st: TriggerStatus): TriggerStatus {
    st.(lastFiredAt := TruncatedOption(st.lastFiredAt), nextFireAt := TruncatedOption(st.nextFireAt))
  }

  function Fired(st: TriggerStatus, now: int): TriggerStatus {
    st.(lastFiredAt := Some(now), firedCount := st.firedCount + 1)
  }

  /** The slot that reconcileCron fires for. */
  function DueSlot(s: Schedule, st: TriggerStatus, now: int): Option<int>
    requires Advances(s)
  {
    var slot := MostRecent(s, now, st.lastFiredAt);
    if slot.Some? && (st.lastFiredAt.None? || slot.value > st.lastFiredAt.value) then slot else None
  }

  /** reconcileCron; None is an expression that is missing or does not parse. A failed fire leaves no trace. */
  function CronStep(cron: Option<Schedule>, st: TriggerStatus, now: int, firing: Firing): TriggerStatus
    requires cron.Some? ==> Advances(cron.value)
  {
    if cron.None? then st.(ready := InvalidSource)
    else if DueSlot(cron.value, st, now).Some? && firing == Fails then st
    else
      var fired := if DueSlot(cron.value, st, now).Some? then Fired(st, now) else st;
      fired.(nextFireAt := Some(cron.value.next(now)), ready := Active)
  }

  /** What a trigger finds of the flow it watches: no name to look for, no such flow, an error, or the flow. */
  datatype Upstream = Unnamed | Missing | Unreadable | Found(phase: Phase, completion: Option<int>)

  /** The phase a trigger waits for; Succeeded is the default. */
  function Awaited(onPhase: Phase): Phase {
    if onPhase == Unset then FlowSucceeded else onPhase
  }

  predicate Fires(onPhase: Phase, st: TriggerStatus, up: Upstream) {
    && up.Found? && up.phase == Awaited(onPhase)
    && !(up.completion.Some? && st.lastFiredAt.Some? && up.completion.value <= st.lastFiredAt.value)
  }

  /** reconcilePipelineOutput. A failed fire leaves no trace. */
  function OutputStep(onPhase: Phase, st: TriggerStatus, up: Upstream, now: int, firing: Firing): TriggerStatus {
    match up
    case Unnamed => st.(ready := InvalidSource)
    case Missing => st.(ready := NotFound)
    case Unreadable => st.(ready := NotFound)
    case Found(phase, completion) =>
      if phase != Awaited(onPhase) then st.(ready := Watching)
      else if !Fires(onPhase, st, up) then st.(ready := Active)
      else if firing == Fails then st
      else Fired(st, now).(ready := Active)
  }

  class ArkEvent {
    var lastFiredAt: Option<int>
    var firedCount: int
    var nextFireAt: Option<int>
    var ready: Condition

    constructor ()
      ensures State() == NEW_TRIGGER
    {
      lastFiredAt, firedCount, nextFireAt, ready := None, 0, None, NoCondition;
    }

    function State(): TriggerStatus
      reads this
    {
      TriggerStatus(lastFiredAt, firedCount, nextFireAt, ready)
    }

    method ReconcileCron(cron: Option<Schedule>, now: int, firing: Firing) returns (failed: bool, requeueAfter: int)
      requires cron.Some? ==> Advances(cron.value)
      modifies this
      ensures State() == CronStep(cron, old(State()), now, firing)
      ensures failed <==> cron.Some? && firing == Fails && DueSlot(cron.value, old(State()), now).Some?
      ensures cron.Some? && !failed ==> now + requeueAfter == cron.value.next(now) + SECOND && requeueAfter > SECOND
      ensures cron.None? ==> State() == TriggerStatus(old(lastFiredAt), old(firedCount), old(nextFireAt), InvalidSource)
      ensures failed ==> State() == old(State())
      ensures cron.Some? && !failed ==> nextFireAt == Some(cron.value.next(now)) && ready == Active
    {
      failed, requeueAfter := false, 0;
      if cron.None? {
        ready := InvalidSource;
        return;
      }
      var lastScheduled := MostRecentSchedule(cron.value, now, lastFiredAt);
      var shouldFire := lastScheduled.Some? && (lastFiredAt.None? || lastScheduled.value > lastFiredAt.value);
      if shouldFire {
        if firing == Fails {
          return true, 0;
        }
        lastFiredAt := Some(now);
        firedCount := firedCount + 1;
      }
      var next := cron.value.next(now);
      nextFireAt := Some(next);
      ready := Active;
      requeueAfter := next - now + SECOND;
    }

    method ReconcilePipelineOutput(onPhase: Phase, up: Upstream, now: int, firing: Firing) returns (failed: bool)
      modifies this
      ensures State() == OutputStep(onPhase, old(State()), up, now, firing)
      ensures
        var awaited := if onPhase == Unset then FlowSucceeded else onPhase;
        var due :=
          && up.Found? && up.phase == awaited
          && (old(lastFiredAt).None? || up.completion.None? || up.completion.value > old(lastFiredAt).value);
        && (failed <==> up.Unreadable? || (due && firing == Fails))
        && firedCount == old(firedCount) + (if due && !failed then 1 else 0)
        && lastFiredAt == (if due && !failed then Some(now) else old(lastFiredAt))
        && ready == (if up.Unnamed? then InvalidSource
                     else if !up.Found? then NotFound
                     else if up.phase != awaited then Watching
                     else if failed then old(ready)
                     else Active)
    {
      failed := false;
      if up.Unnamed? {
        ready := InvalidSource;
        return;
      }
      if !up.Found? {
        ready := NotFound;
        return up.Unreadable?;
      }
      var desiredPhase := onPhase;
      if desiredPhase == Unset {
        desiredPhase := FlowSucceeded;
      }
      if up.phase != desiredPhase {
        ready := Watching;
        return;
      }
      if up.completion.Some? && lastFiredAt.Some? && up.completion.value <= lastFiredAt.value {
        ready := Active;
        return;
      }
      if firing == Fails {
        return true;
      }
      lastFiredAt := Some(now);
      firedCount := firedCount + 1;
      ready := Active;
    }
  }
}
