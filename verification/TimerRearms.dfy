/** Where the re-arms of every run put the next deadline. */
module TimerRearms {
  import opened Basics
  import opened TimerTable
  import opened TimerRuns
  import opened TimerHistory
  import opened TimerTheorems

  /**
   * A re-arm of a timer with this period: the deadline had passed, the next one
   * lies strictly after the clock reading, at most one period after it, and at
   * least one period after the old deadline. FIXED_RATE keeps the old grid
   * exactly if the catch-up cap does not apply, and counts from the reading if
   * it does; FIXED_DELAY always counts from the reading.
   */
  ghost predicate WellRearmed(r: Obs, period: int, mode: PeriodMode)
    requires r.Rearmed?
  {
    && r.due <= r.at < r.nextDue <= r.at + period && r.nextDue >= r.due + period
    && (mode == FixedRate ==>
          && (r.nextDue == r.due + period <==> !Capped(r.due, period, r.at))
          && (Capped(r.due, period, r.at) ==> r.nextDue == r.at + period))
    && (mode == FixedDelay ==> r.nextDue == r.at + period)
  }

  ghost predicate AsScheduled(log: seq<Obs>, r: Obs)
    requires r.Rearmed?
  {
    && WasScheduled(log, r.id)
    && forall s | s in log && s.Scheduled? && s.id == r.id ::
         s.kind.Every? && WellRearmed(r, s.kind.period, s.kind.periodMode)
  }

  ghost predicate RearmsInv(w: World) {
    forall r | r in w.log && r.Rearmed? :: AsScheduled(w.log, r)
  }

  /** One more observation, not a re-arm, and of a new id if it schedules. */
  lemma OneMore(w: World, w': World, o: Obs)
    requires RearmsInv(w) && IdsInUse(w.log, w.core.nextId) && w'.log == w.log + [o]
    requires !o.Rearmed? && (o.Scheduled? ==> o.id == w.core.nextId)
    ensures RearmsInv(w')
  {
    hide WellRearmed, WasScheduled;
    forall r | r in w'.log && r.Rearmed? ensures AsScheduled(w'.log, r) {
      assert r in w.log && AsScheduled(w.log, r);
      InLog(w.log, w.core.nextId, r);
      ScheduledKept(w.log, w'.log, r.id);
    }
  }

  /** The entry a surviving task is looked up to is the one it was copied from. */
  lemma LookedUp(w: World, k: nat, times: seq<Time>) returns (e: Entry)
    requires TableInv(w) && Enabled(w, ReconcileBatch(times)) && k < |w.loc.batch|
    ensures var task, i := w.loc.batch[k], IndexOf(w.core.timers, w.loc.batch[k].id);
      i < |w.core.timers| && e == w.core.timers[i] && e in w.core.timers && Matches(e, task, w.clock)
  {
    hide TaskFor;
    assert Held(w.core.timers, w.loc.batch[k], w.clock);
    e :| e in w.core.timers && Matches(e, w.loc.batch[k], w.clock);
    var j :| 0 <= j < |w.core.timers| && w.core.timers[j] == e;
    UniqueIndex(w.core.timers, j);
  }

  lemma RearmIsGood(w: World, times: seq<Time>, k: nat, r: Obs, s: Obs)
    requires TableInv(w) && RateInv(w) && Enabled(w, ReconcileBatch(times)) && k < |w.loc.batch|
    requires RearmOf(w.core.timers, w.loc.batch[k], times[k]) == Some(r)
    requires s in w.log && s.Scheduled? && s.id == r.id
    ensures r.Rearmed? && s.kind.Every? && WellRearmed(r, s.kind.period, s.kind.periodMode)
  {
    hide TableInv, IndexOf, TaskFor;
    var e := LookedUp(w, k, times);
    var task := w.loc.batch[k];
    assert Obeys(w, s) && OnSchedule(w.log, Started(w.loc, e.id), e, s.at, s.kind);
    RearmBounds(task.periodMode, e.nextFire, task.period, times[k]);
  }

  lemma ReconcileKeepsRearms(w: World, times: seq<Time>)
    requires TableInv(w) && RateInv(w) && RearmsInv(w) && Enabled(w, ReconcileBatch(times))
    ensures RearmsInv(AfterReconcile(w, times))
  {
    hide WellRearmed, WasScheduled, TableInv, RearmLog, Obeys, Reconcile, RearmOf;
    var timers, batch, log' := w.core.timers, w.loc.batch, AfterReconcile(w, times).log;
    RearmsOnly(timers, batch, times);
    RearmLogEntries(timers, batch, times);
    forall r | r in log' && r.Rearmed? ensures AsScheduled(log', r) {
      if r in w.log {
        assert AsScheduled(w.log, r);
        ScheduledKept(w.log, log', r.id);
      } else {
        var k :| 0 <= k < |batch| && RearmOf(timers, batch[k], times[k]) == Some(r);
        NewRearm(w, times, k, r);
        ScheduledKept(w.log, log', r.id);
        assert AsScheduled(w.log, r);
      }
    }
  }

  lemma NewRearm(w: World, times: seq<Time>, k: nat, r: Obs)
    requires TableInv(w) && RateInv(w) && Enabled(w, ReconcileBatch(times)) && k < |w.loc.batch|
    requires RearmOf(w.core.timers, w.loc.batch[k], times[k]) == Some(r)
    ensures r.Rearmed? && AsScheduled(w.log, r)
  {
    hide TableInv, IndexOf, WellRearmed, WasScheduled, Obeys;
    var e := LookedUp(w, k, times);
    assert WasScheduled(w.log, e.id);
    forall s | s in w.log && s.Scheduled? && s.id == r.id
      ensures s.kind.Every? && WellRearmed(r, s.kind.period, s.kind.periodMode)
    {
      RearmIsGood(w, times, k, r, s);
    }
  }

  lemma StepKeepsRearms(w: World, e: Event)
    requires Inv(w) && RearmsInv(w) && Enabled(w, e)
    ensures RearmsInv(Step(w, e))
  {
    hide TableInv, RateInv, CancelsAreFinal, EntryCancel, QuietSinceCancel, IdsInUse, AsScheduled;
    hide Earliest, RearmLog, Reconcile, Without, IndexOf;
    var w' := Step(w, e);
    if e.ReconcileBatch? {
      ReconcileKeepsRearms(w, e.times);
    } else if w'.log != w.log {
      OneMore(w, w', w'.log[|w.log|]);
    }
  }

  lemma {:induction false} RunKeepsRearms(ws: seq<World>, es: seq<Event>, i: nat)
    requires IsRun(ws, es) && i < |ws|
    ensures RearmsInv(ws[i])
  {
    hide IsRun, Enabled, Step, Inv, RearmsInv;
    if i == 0 {
      NoRearmsYet(ws, es);
    } else {
      RunKeepsRearms(ws, es, i - 1);
      RunKeepsInv(ws, es, i - 1);
      RunSteps(ws, es, i - 1);
      StepKeepsRearms(ws[i - 1], es[i - 1]);
    }
  }

  lemma NoRearmsYet(ws: seq<World>, es: seq<Event>)
    requires IsRun(ws, es)
    ensures RearmsInv(ws[0])
  {
    assert ws[0].log == [];
  }

  /**
   * Every re-arm of every run is that of a periodic timer, and moves its
   * deadline as WellRearmed says for the period and mode it was scheduled with.
   */
  lemma RearmsAreBounded(ws: seq<World>, es: seq<Event>, i: nat, r: Obs, s: Obs)
    requires IsRun(ws, es) && i < |ws| && r in ws[i].log && r.Rearmed?
    requires s in ws[i].log && s.Scheduled? && s.id == r.id
    ensures s.kind.Every? && WellRearmed(r, s.kind.period, s.kind.periodMode)
    ensures WasScheduled(ws[i].log, r.id)
  {
    hide IsRun;
    RunKeepsRearms(ws, es, i);
  }
}
