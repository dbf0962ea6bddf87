/** How often events fire, over whole runs of the controller with a clock that never goes back. */
module TriggerTheory {
  import opened Wrappers
  import opened FlowTypes
  import opened Triggers

  lemma IncreasingSnoc(s: seq<int>, x: int)
    requires Increasing(s) && (s != [] ==> s[|s| - 1] < x)
    ensures Increasing(s + [x])
  {
  }

  // -------------------------------------------------------------------- cron

  /** One reconcile of a cron trigger: the time, and what would become of a fire. */
  datatype Tick = Tick(now: int, firing: Firing)

  /** The status as last written, the slots fired for, and when the last of them was. */
  datatype CronRun = CronRun(st: TriggerStatus, slots: seq<int>, at: int)

  function Ticked(s: Schedule, r: CronRun, tick: Tick): CronRun
    requires Advances(s)
  {
    var slot := DueSlot(s, r.st, tick.now);
    var st := Stored(CronStep(Some(s), r.st, tick.now, tick.firing));
    if slot.Some? && tick.firing != Fails then CronRun(st, r.slots + [slot.value], tick.now) else r.(st := st)
  }

  function RunCron(s: Schedule, ticks: seq<Tick>): CronRun
    requires Advances(s)
  {
    if ticks == [] then CronRun(NEW_TRIGGER, [], 0) else Ticked(s, RunCron(s, ticks[..|ticks| - 1]), ticks[|ticks| - 1])
  }

  ghost predicate ClockOk(ticks: seq<Tick>) {
    forall i, j :: 0 <= i < j < |ticks| ==> ticks[i].now <= ticks[j].now
  }

  /** The written status says when the trigger fired last, and nothing was due between that slot and that moment. */
  ghost predicate CronLedger(s: Schedule, r: CronRun) {
    && r.st.firedCount == |r.slots|
    && Increasing(r.slots)
    && (r.slots == [] ==> r.st.lastFiredAt == None)
    && (r.slots != [] ==>
          var last := r.slots[|r.slots| - 1];
          && r.st.lastFiredAt == Some(Truncated(r.at))
          && s.due(last) && last <= r.at && forall u :: last < u <= r.at ==> !s.due(u))
  }

  /** A due instant is not lost in the rounding of the time of the fire. */
  lemma RoundingKeepsSlot(s: Schedule, slot: int, at: int)
    requires Regular(s) && s.due(slot) && slot <= at
    ensures slot <= Truncated(at)
  {
    var k := slot / SECOND;
    assert slot == k * SECOND;
    assert Truncated(at) == (at / SECOND) * SECOND;
    DivMonotone(slot, at);
    assert k <= at / SECOND;
  }

  lemma DivMonotone(a: int, b: int)
    requires a <= b
    ensures a / SECOND <= b / SECOND
  {
  }

  lemma TickKeepsLedger(s: Schedule, r: CronRun, tick: Tick)
    requires Regular(s) && CronLedger(s, r) && (r.slots != [] ==> r.at <= tick.now)
    ensures CronLedger(s, Ticked(s, r, tick))
  {
    MostRecentIsGreatest(s, tick.now, r.st.lastFiredAt);
    if r.slots != [] {
      RoundingKeepsSlot(s, r.slots[|r.slots| - 1], r.at);
      assert Truncated(Truncated(r.at)) == Truncated(r.at);
    }
    if DueSlot(s, r.st, tick.now).Some? && tick.firing != Fails {
      IncreasingSnoc(r.slots, DueSlot(s, r.st, tick.now).value);
    }
  }

  /**
   * Whatever the schedule, the times of the reconciles and the outcomes of its fires, a trigger fires for strictly
   * increasing slots, so at most once for each, and counts exactly those fires.
   */
  lemma {:induction false} SlotsIncrease(s: Schedule, ticks: seq<Tick>)
    requires Regular(s) && ClockOk(ticks)
    ensures CronLedger(s, RunCron(s, ticks))
    ensures RunCron(s, ticks).slots != [] ==> ticks != [] && RunCron(s, ticks).at <= ticks[|ticks| - 1].now
    decreases |ticks|
  {
    if ticks != [] {
      var init := ticks[..|ticks| - 1];
      SlotsIncrease(s, init);
      TickKeepsLedger(s, RunCron(s, init), ticks[|ticks| - 1]);
    }
  }

  /** Something has come due in the last day, since the slot the trigger fired for last. */
  ghost predicate NewlyDue(s: Schedule, slots: seq<int>, now: int, u: int) {
    now - 86_400 * SECOND < u <= now && s.due(u) && (slots != [] ==> slots[|slots| - 1] < u)
  }

  lemma DueAfterLookback(s: Schedule, r: CronRun, now: int, u: int)
    requires Regular(s) && CronLedger(s, r) && s.due(u) && u <= now && now - 86_400 * SECOND < u
    ensures NewlyDue(s, r.slots, now, u) <==> Lookback(now, r.st.lastFiredAt) < u
  {
    if r.slots != [] {
      RoundingKeepsSlot(s, r.slots[|r.slots| - 1], r.at);
      if u <= r.at {
        RoundingKeepsSlot(s, u, r.at);
      }
    }
  }

  /** It fires exactly when something has come due in the last day since the slot it fired for last. */
  lemma FiresWhenDue(s: Schedule, ticks: seq<Tick>, now: int)
    requires Regular(s) && ClockOk(ticks) && (ticks != [] ==> ticks[|ticks| - 1].now <= now)
    ensures
      var r := RunCron(s, ticks);
      DueSlot(s, r.st, now).Some? <==> exists u :: NewlyDue(s, r.slots, now, u)
  {
    SlotsIncrease(s, ticks);
    var r := RunCron(s, ticks);
    MostRecentIsGreatest(s, now, r.st.lastFiredAt);
    if DueSlot(s, r.st, now).Some? {
      DueAfterLookback(s, r, now, DueSlot(s, r.st, now).value);
    } else if u :| NewlyDue(s, r.slots, now, u) {
      DueAfterLookback(s, r, now, u);
    }
  }

  lemma StoredTwice(st: TriggerStatus)
    ensures Stored(Stored(st)) == Stored(st)
  {
  }

  lemma RunIsStored(s: Schedule, ticks: seq<Tick>)
    requires Advances(s)
    ensures Stored(RunCron(s, ticks).st) == RunCron(s, ticks).st
  {
    if ticks != [] {
      var r, tick := RunCron(s, ticks[..|ticks| - 1]), ticks[|ticks| - 1];
      StoredTwice(CronStep(Some(s), r.st, tick.now, tick.firing));
    }
  }

  /** The slot is the latest instant that has come due in the last day since the slot fired for last. */
  ghost predicate IsLatest(s: Schedule, slots: seq<int>, now: int, slot: int) {
    NewlyDue(s, slots, now, slot) && forall u :: NewlyDue(s, slots, now, u) ==> u <= slot
  }

  lemma DueSlotIsLatest(s: Schedule, r: CronRun, now: int)
    requires Regular(s) && CronLedger(s, r)
    ensures
      match DueSlot(s, r.st, now)
      case Some(slot) => IsLatest(s, r.slots, now, slot)
      case None => forall u :: !NewlyDue(s, r.slots, now, u)
  {
    MostRecentIsGreatest(s, now, r.st.lastFiredAt);
    forall u | NewlyDue(s, r.slots, now, u)
      ensures DueSlot(s, r.st, now).Some? && u <= DueSlot(s, r.st, now).value
    {
      DueAfterLookback(s, r, now, u);
    }
    if DueSlot(s, r.st, now).Some? {
      DueAfterLookback(s, r, now, DueSlot(s, r.st, now).value);
    }
  }

  /** What a reconcile makes of a run: it fires for the slot, its fire fails, or nothing is due. */
  ghost predicate TickedWell(s: Schedule, r: CronRun, tick: Tick, r': CronRun)
    requires Advances(s)
  {
    var next := Some(Truncated(s.next(tick.now)));
    if exists u :: NewlyDue(s, r.slots, tick.now, u) then
      if tick.firing == Fails then r' == r
      else
        && |r'.slots| == |r.slots| + 1 && r'.slots[..|r.slots|] == r.slots
        && IsLatest(s, r.slots, tick.now, r'.slots[|r.slots|])
        && r'.st == TriggerStatus(Some(Truncated(tick.now)), r.st.firedCount + 1, next, Active)
    else r'.slots == r.slots && r'.st == TriggerStatus(r.st.lastFiredAt, r.st.firedCount, next, Active)
  }

  lemma TicksWell(s: Schedule, r: CronRun, tick: Tick)
    requires Regular(s) && CronLedger(s, r) && Stored(r.st) == r.st
    ensures TickedWell(s, r, tick, Ticked(s, r, tick))
  {
    DueSlotIsLatest(s, r, tick.now);
    var slot := DueSlot(s, r.st, tick.now);
    if slot.Some? {
      assert NewlyDue(s, r.slots, tick.now, slot.value);
      assert (r.slots + [slot.value])[..|r.slots|] == r.slots;
    }
  }

  /**
   * The last reconcile of a run: if something has come due in the last day since the slot that was fired for last, it
   * fires for the latest such instant, once, and notes the time of the fire; a fire that fails leaves everything as
   * it was. Otherwise it does not fire.
   */
  lemma TickFires(s: Schedule, ticks: seq<Tick>)
    requires Regular(s) && ClockOk(ticks) && ticks != []
    ensures TickedWell(s, RunCron(s, ticks[..|ticks| - 1]), ticks[|ticks| - 1], RunCron(s, ticks))
  {
    var init := ticks[..|ticks| - 1];
    SlotsIncrease(s, init);
    RunIsStored(s, init);
    TicksWell(s, RunCron(s, init), ticks[|ticks| - 1]);
  }

  /** A reconcile whose fire does not fail leaves nothing of the last day unfired. */
  lemma TickCatchesUp(s: Schedule, r: CronRun, tick: Tick, u: int)
    requires Regular(s) && CronLedger(s, r) && tick.firing != Fails && (r.slots != [] ==> r.at <= tick.now)
    requires s.due(u) && tick.now - 86_400 * SECOND < u <= tick.now
    ensures var slots := Ticked(s, r, tick).slots; slots != [] && u <= slots[|slots| - 1]
  {
    DueAfterLookback(s, r, tick.now, u);
    TickKeepsLedger(s, r, tick);
    MostRecentIsGreatest(s, tick.now, r.st.lastFiredAt);
  }

  lemma LastTick(s: Schedule, ticks: seq<Tick>) returns (r: CronRun)
    requires Regular(s) && ClockOk(ticks) && ticks != []
    ensures RunCron(s, ticks) == Ticked(s, r, ticks[|ticks| - 1])
    ensures CronLedger(s, r) && (r.slots != [] ==> r.at <= ticks[|ticks| - 1].now)
  {
    r := RunCron(s, ticks[..|ticks| - 1]);
    SlotsIncrease(s, ticks[..|ticks| - 1]);
  }

  /**
   * Nothing that came due within the last day is lost: after a reconcile whose fire did not fail, the last slot fired
   * for is no earlier.
   */
  lemma NothingLost(s: Schedule, ticks: seq<Tick>, u: int)
    requires Regular(s) && ClockOk(ticks) && ticks != [] && ticks[|ticks| - 1].firing != Fails
    requires s.due(u) && ticks[|ticks| - 1].now - 86_400 * SECOND < u <= ticks[|ticks| - 1].now
    ensures var slots := RunCron(s, ticks).slots; slots != [] && u <= slots[|slots| - 1]
  {
    var r := LastTick(s, ticks);
    TickCatchesUp(s, r, ticks[|ticks| - 1], u);
  }

  // --------------------------------------------------------- pipeline output

  datatype Look = Look(now: int, up: Upstream, firing: Firing)

  /** The status as last written, and the completions fired for. */
  datatype OutputRun = OutputRun(st: TriggerStatus, fired: seq<Option<int>>)

  function Looked(onPhase: Phase, r: OutputRun, look: Look): OutputRun {
    OutputRun(
      Stored(OutputStep(onPhase, r.st, look.up, look.now, look.firing)),
      if Fires(onPhase, r.st, look.up) && look.firing != Fails then r.fired + [look.up.completion] else r.fired)
  }

  function RunOutput(onPhase: Phase, looks: seq<Look>): OutputRun {
    if looks == [] then OutputRun(NEW_TRIGGER, [])
        else Looked(onPhase, RunOutput(onPhase, looks[..|looks| - 1]), looks[|looks| - 1])
  }

  /**
   * A flow has a completion time, in whole seconds, exactly when it is decided, and it lies in the past; no flow is
   * ever in the phase Pending, which the API defines but nothing writes.
   */
  ghost predicate Plausible(looks: seq<Look>) {
    && (forall i :: 0 <= i < |looks| && looks[i].up.Found? ==>
          && looks[i].up.phase != FlowPending
          && (looks[i].up.completion.Some? <==> IsTerminal(looks[i].up.phase))
          && (looks[i].up.completion.Some? ==>
                looks[i].up.completion.value <= looks[i].now && looks[i].up.completion.value % SECOND == 0))
    && (forall i, j :: 0 <= i < j < |looks| ==> looks[i].now <= looks[j].now)
  }

  /** The fires are for completions, each later than the one before. */
  ghost predicate OnceEach(fired: seq<Option<int>>) {
    && (forall i :: 0 <= i < |fired| ==> fired[i].Some?)
    && (forall i, j :: 0 <= i < j < |fired| ==> fired[i].value < fired[j].value)
  }

  lemma CompletionKept(completion: int, now: int)
    requires completion <= now && completion % SECOND == 0
    ensures completion <= Truncated(now)
  {
    DivMonotone(completion, now);
    assert completion == (completion / SECOND) * SECOND;
    assert Truncated(now) == (now / SECOND) * SECOND;
  }

  /** What a trigger has fired for is no later than the time its status gives for the last fire. */
  ghost predicate OutputLedger(r: OutputRun) {
    && OnceEach(r.fired) && r.st.firedCount == |r.fired|
    && (r.fired != [] ==>
        && r.st.lastFiredAt.Some? && r.fired[|r.fired| - 1].value <= r.st.lastFiredAt.value
        && r.st.lastFiredAt.value % SECOND == 0)
  }

  lemma LookKeepsLedger(onPhase: Phase, r: OutputRun, look: Look)
    requires IsTerminal(Awaited(onPhase)) && Plausible([look]) && OutputLedger(r)
    ensures OutputLedger(Looked(onPhase, r, look))
  {
    assert [look][0] == look;
    if Fires(onPhase, r.st, look.up) && look.firing != Fails {
      CompletionKept(look.up.completion.value, look.now);
      assert Looked(onPhase, r, look).fired == r.fired + [look.up.completion];
    }
  }

  /** With a terminal phase to wait for, each completion is fired for at most once, and the fires are counted. */
  lemma {:induction false} TerminalFiresOnce(onPhase: Phase, looks: seq<Look>)
    requires IsTerminal(Awaited(onPhase)) && Plausible(looks)
    ensures OutputLedger(RunOutput(onPhase, looks))
    decreases |looks|
  {
    if looks != [] {
      var init, look := looks[..|looks| - 1], looks[|looks| - 1];
      TerminalFiresOnce(onPhase, init);
      LookKeepsLedger(onPhase, RunOutput(onPhase, init), look);
    }
  }

  /** What a reconcile makes of the time of the last fire. */
  lemma LookedTime(onPhase: Phase, r: OutputRun, look: Look)
    ensures
      var r' := Looked(onPhase, r, look);
      if r'.fired == r.fired then r'.st.lastFiredAt == TruncatedOption(r.st.lastFiredAt)
      else r'.fired != [] && r'.st.lastFiredAt == Some(Truncated(look.now))
  {
    assert Fires(onPhase, r.st, look.up) && look.firing != Fails ==> r.fired + [look.up.completion] != r.fired;
  }

  /** The m-th reconcile of the run was the last that fired. */
  ghost predicate FiredLast(onPhase: Phase, looks: seq<Look>, m: nat) {
    && m < |looks| && RunOutput(onPhase, looks[..m]).fired != RunOutput(onPhase, looks).fired
    && RunOutput(onPhase, looks[..m + 1]).fired == RunOutput(onPhase, looks).fired
  }

  lemma StillLast(onPhase: Phase, looks: seq<Look>, m: nat)
    requires looks != [] && FiredLast(onPhase, looks[..|looks| - 1], m)
    requires RunOutput(onPhase, looks).fired == RunOutput(onPhase, looks[..|looks| - 1]).fired
    ensures FiredLast(onPhase, looks, m)
  {
    var init := looks[..|looks| - 1];
    assert init[..m + 1] == looks[..m + 1] && init[..m] == looks[..m];
  }

  /** The written status says when the trigger fired last, if it ever did. */
  lemma {:induction false} LastFire(onPhase: Phase, looks: seq<Look>) returns (m: nat, r: OutputRun)
    ensures r == RunOutput(onPhase, looks)
    ensures r.fired == [] ==> r.st.lastFiredAt.None?
    ensures r.fired != [] ==> FiredLast(onPhase, looks, m) && r.st.lastFiredAt == Some(Truncated(looks[m].now))
    decreases |looks|
  {
    if looks == [] {
      m, r := 0, OutputRun(NEW_TRIGGER, []);
    } else {
      var init, look := looks[..|looks| - 1], looks[|looks| - 1];
      m, r := LastFire(onPhase, init);
      LookedTime(onPhase, r, look);
      if Looked(onPhase, r, look).fired != r.fired {
        m := |looks| - 1;
        assert looks[..m + 1] == looks;
      } else if r.fired != [] {
        StillLast(onPhase, looks, m);
      }
      r := Looked(onPhase, r, look);
    }
  }

  /**
   * What a reconcile makes of a run. It fires if it finds the flow in the awaited phase, which is Succeeded unless
   * another is named, and the trigger has never fired, or the flow is not completed, or it completed after the last
   * fire, as that time was written. A fire that fails, and anything else, changes neither count nor time.
   */
  ghost predicate LookedWell(onPhase: Phase, r: OutputRun, look: Look, r': OutputRun) {
    && (r.fired == [] <==> r.st.lastFiredAt.None?)
    && if && look.up.Found? && look.up.phase == (if onPhase == Unset then FlowSucceeded else onPhase)
          && (r.fired == [] || look.up.completion.None? || look.up.completion.value > r.st.lastFiredAt.value)
          && look.firing != Fails
       then
         && r'.fired == r.fired + [look.up.completion]
         && r'.st.firedCount == r.st.firedCount + 1 && r'.st.lastFiredAt == Some(Truncated(look.now))
       else r'.fired == r.fired && r'.st.firedCount == r.st.firedCount && r'.st.lastFiredAt == r.st.lastFiredAt
  }

  lemma LooksWell(onPhase: Phase, r: OutputRun, look: Look)
    requires r.fired == [] <==> r.st.lastFiredAt.None?
    requires TruncatedOption(r.st.lastFiredAt) == r.st.lastFiredAt
    ensures LookedWell(onPhase, r, look, Looked(onPhase, r, look))
  {
  }

  lemma WrittenTime(onPhase: Phase, looks: seq<Look>) returns (r: OutputRun)
    ensures r == RunOutput(onPhase, looks)
    ensures r.fired == [] <==> r.st.lastFiredAt.None?
    ensures TruncatedOption(r.st.lastFiredAt) == r.st.lastFiredAt
  {
    var m;
    m, r := LastFire(onPhase, looks);
  }

  /** The last reconcile of a run fires exactly under these conditions. */
  lemma LookFires(onPhase: Phase, looks: seq<Look>)
    requires looks != []
    ensures
      LookedWell(onPhase, RunOutput(onPhase, looks[..|looks| - 1]), looks[|looks| - 1], RunOutput(onPhase, looks))
  {
    var r := WrittenTime(onPhase, looks[..|looks| - 1]);
    LooksWell(onPhase, r, looks[|looks| - 1]);
  }

  /** So a trigger that has never fired does so when it first finds a flow in the terminal phase it waits for. */
  lemma FirstFire(onPhase: Phase, looks: seq<Look>)
    requires looks != [] && Plausible(looks) && RunOutput(onPhase, looks[..|looks| - 1]).fired == []
    requires looks[|looks| - 1].firing != Fails && looks[|looks| - 1].up.Found?
    requires
      var phase := looks[|looks| - 1].up.phase;
      || (phase == FlowSucceeded && (onPhase == FlowSucceeded || onPhase == Unset))
      || (phase == FlowFailed && onPhase == FlowFailed)
    ensures looks[|looks| - 1].up.completion.Some?
    ensures RunOutput(onPhase, looks).fired == [looks[|looks| - 1].up.completion]
    ensures RunOutput(onPhase, looks).st.firedCount == 1
  {
    LookFires(onPhase, looks);
    FiresCounted(onPhase, looks[..|looks| - 1]);
  }

  lemma {:induction false} FiresCounted(onPhase: Phase, looks: seq<Look>)
    ensures RunOutput(onPhase, looks).st.firedCount == |RunOutput(onPhase, looks).fired|
    decreases |looks|
  {
    if looks != [] {
      FiresCounted(onPhase, looks[..|looks| - 1]);
    }
  }

  /** Two reconciles that find the same unfinished flow. */
  function Twice(onPhase: Phase): seq<Look> {
    var look := Look(0, Found(Awaited(onPhase), None), Creates);
    [look, look]
  }

  /** Waiting for Running, a trigger fires again and again. */
  lemma RunningRefires(onPhase: Phase)
    requires Awaited(onPhase) == FlowRunning
    ensures Plausible(Twice(onPhase))
    ensures RunOutput(onPhase, Twice(onPhase)).fired == [None, None]
      && RunOutput(onPhase, Twice(onPhase)).st.firedCount == 2
  {
    var looks := Twice(onPhase);
    assert looks[..1] == [looks[0]] && [looks[0]][..0] == [];
    assert RunOutput(onPhase, []) == OutputRun(NEW_TRIGGER, []);
    assert RunOutput(onPhase, [looks[0]]) == Looked(onPhase, OutputRun(NEW_TRIGGER, []), looks[0]);
  }

  /** Waiting for Pending, it never fires. */
  lemma {:induction false} PendingNeverFires(looks: seq<Look>)
    requires Plausible(looks)
    ensures RunOutput(FlowPending, looks).fired == []
    decreases |looks|
  {
    if looks != [] {
      PendingNeverFires(looks[..|looks| - 1]);
    }
  }

  /** So a trigger fires at most once per completion exactly when it does not wait for Running. */
  lemma FiresOnceIffNotRunning(onPhase: Phase)
    ensures (forall looks :: Plausible(looks) ==> OnceEach(RunOutput(onPhase, looks).fired))
      <==> Awaited(onPhase) != FlowRunning
  {
    if Awaited(onPhase) == FlowRunning {
      RunningRefires(onPhase);
      assert RunOutput(onPhase, Twice(onPhase)).fired[0].None?;
    } else {
      forall looks | Plausible(looks)
        ensures OnceEach(RunOutput(onPhase, looks).fired)
      {
        if onPhase == FlowPending {
          PendingNeverFires(looks);
        } else {
          TerminalFiresOnce(onPhase, looks);
        }
      }
    }
  }
}
