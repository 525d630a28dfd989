/** The scheduler's promises, stated over every run. */
module TimerTheorems {
  import opened Basics
  import opened TimerTable
  import opened TimerRuns
  import opened TimerHistory

  ghost predicate Inv(w: World) {
    TableInv(w) && ParkInv(w) && CancelInv(w) && RateInv(w)
  }

  lemma StepKeepsInv(w: World, e: Event)
    requires Inv(w) && Enabled(w, e)
    ensures Inv(Step(w, e))
  {
    hide TableInv, ParkInv, CancelInv, RateInv, Enabled, Step;
    StepKeepsTable(w, e);
    StepKeepsPark(w, e);
    StepKeepsCancel(w, e);
    StepKeepsRate(w, e);
  }

  lemma {:induction false} RunKeepsInv(ws: seq<World>, es: seq<Event>, i: nat)
    requires IsRun(ws, es) && i < |ws|
    ensures Inv(ws[i])
  {
    hide Inv, IsRun, Enabled, Step;
    if i == 0 {
      StartInv(ws, es);
    } else {
      RunKeepsInv(ws, es, i - 1);
      RunSteps(ws, es, i - 1);
      StepKeepsInv(ws[i - 1], es[i - 1]);
    }
  }

  lemma StartInv(ws: seq<World>, es: seq<Event>)
    requires IsRun(ws, es)
    ensures Inv(ws[0])
  {
    assert Init(ws[0]);
    hide IsRun;
  }

  /**
   * The scheduler never oversleeps. While it is parked with nothing to
   * reconsider, its target is no later than any PENDING deadline, and it sleeps
   * without a target only if no timer is PENDING. Once there is something to
   * reconsider, the notification has reached it.
   */
  lemma NeverOversleeps(ws: seq<World>, es: seq<Event>, i: nat)
    requires IsRun(ws, es) && i < |ws| && ws[i].loc.Parked?
    ensures ws[i].core.running && !ws[i].core.reschedule ==>
      match ws[i].loc.deadline
      case Some(d) => forall e | e in ws[i].core.timers && e.state == Pending :: d <= e.nextFire
      case None => forall e | e in ws[i].core.timers :: e.state != Pending
    ensures !ws[i].core.running || ws[i].core.reschedule ==> ws[i].loc.woken
  {
    RunKeepsInv(ws, es, i);
  }

  /**
   * The table and the batch agree. Ids are distinct and below `nextId`, the
   * table holds at most 64 timers, outside a batch every timer is PENDING, and
   * inside one the timers that are not PENDING are exactly the collected ones,
   * so looking up a collected timer never misses.
   */
  lemma BatchIsExact(ws: seq<World>, es: seq<Event>, i: nat)
    requires IsRun(ws, es) && i < |ws|
    ensures Distinct(ws[i].core.timers) && |ws[i].core.timers| <= 64
    ensures forall e | e in ws[i].core.timers :: 0 < e.id < ws[i].core.nextId
    ensures !ws[i].loc.Executing? ==> forall e | e in ws[i].core.timers :: e.state == Pending
    ensures ws[i].loc.Executing? ==>
      && DistinctTasks(ws[i].loc.batch)
      && (forall e | e in ws[i].core.timers :: e.state != Pending <==> TaskFor(ws[i].loc.batch, e.id).Some?)
      && (forall k | 0 <= k < |ws[i].loc.batch| ::
            IndexOf(ws[i].core.timers, ws[i].loc.batch[k].id) < |ws[i].core.timers|)
  {
    RunKeepsInv(ws, es, i);
    var w := ws[i];
    if w.loc.Executing? {
      forall e | e in w.core.timers && TaskFor(w.loc.batch, e.id).Some? ensures e.state != Pending {
        var k := TaskFor(w.loc.batch, e.id).value;
        assert Held(w.core.timers, w.loc.batch[k], w.clock);
      }
      forall k | 0 <= k < |w.loc.batch| ensures IndexOf(w.core.timers, w.loc.batch[k].id) < |w.core.timers| {
        assert Held(w.core.timers, w.loc.batch[k], w.clock);
      }
    }
  }

  /** A collected timer that was cancelled, threw or is one-shot. */
  ghost predicate Finished(batch: seq<Task>, e: Entry) {
    exists k :: 0 <= k < |batch| && batch[k].id == e.id
      && (e.state == Cancelled || batch[k].threw || batch[k].mode == OneShot)
  }

  ghost predicate Present(timers: seq<Entry>, id: TimerId) {
    exists e :: e in timers && e.id == id
  }

  /**
   * Reconciling leaves every surviving timer PENDING, and a timer disappears
   * exactly if it was collected and was cancelled, threw or is one-shot.
   */
  lemma ReconcileRemovesTheFinished(ws: seq<World>, es: seq<Event>, i: nat)
    requires IsRun(ws, es) && i < |es| && es[i].ReconcileBatch?
    ensures ws[i].loc.Executing?
    ensures forall e | e in ws[i + 1].core.timers :: e.state == Pending
    ensures forall e | e in ws[i].core.timers ::
      Present(ws[i + 1].core.timers, e.id) <==> !Finished(ws[i].loc.batch, e)
  {
    RunKeepsInv(ws, es, i);
    RunKeepsInv(ws, es, i + 1);
    RunSteps(ws, es, i);
    hide IsRun, CancelInv, RateInv, ParkInv, Reconcile, RearmLog, Present, Finished;
    var w := ws[i];
    forall e | e in w.core.timers ensures Present(ws[i + 1].core.timers, e.id) <==> !Finished(w.loc.batch, e) {
      var j :| 0 <= j < |w.core.timers| && w.core.timers[j] == e;
      PresentUnlessFinished(w.core.timers, w.loc.batch, es[i].times, j);
    }
  }

  lemma PresentUnlessFinished(timers: seq<Entry>, batch: seq<Task>, times: seq<Time>, j: nat)
    requires Distinct(timers) && DistinctTasks(batch) && |times| == |batch| && j < |timers|
    ensures Present(Reconcile(timers, batch, times), timers[j].id) <==> !Finished(batch, timers[j])
  {
    hide Reconcile, TaskFor;
    ReconcileFate(timers, batch, times, j);
    var k := TaskFor(batch, timers[j].id);
    if Finished(batch, timers[j]) {
      var n :| 0 <= n < |batch| && batch[n].id == timers[j].id
        && (timers[j].state == Cancelled || batch[n].threw || batch[n].mode == OneShot);
      UniqueTask(batch, n);
    }
  }

  /**
   * Cancellation is final. After a Cancel of `id` has succeeded, no other
   * Cancel of it does, it is never re-armed, and its callback starts at most
   * once more, and not at all if the timer was PENDING.
   */
  lemma CancellationIsFinal(ws: seq<World>, es: seq<Event>, i: nat, c: nat, id: TimerId)
    requires IsRun(ws, es) && i < |ws|
    requires c < |ws[i].log| && ws[i].log[c].CancelSucceeded? && ws[i].log[c].id == id
    ensures forall j | c < j < |ws[i].log| && ws[i].log[j].id == id ::
      !ws[i].log[j].CancelSucceeded? && !ws[i].log[j].Rearmed? && !(ws[i].log[c].wasPending && ws[i].log[j].Fired?)
    ensures Fires(ws[i].log[c..], id) <= 1
  {
    RunKeepsInv(ws, es, i);
    hide IsRun, Step, TableInv, RateInv, ParkInv;
    var log := ws[i].log;
    assert CancelsAreFinal(log);
    var after := log[c..];
    forall j, k | 0 <= j < k < |after| && after[j].Fired? && after[k].Fired?
      ensures !(after[j].id == after[k].id == id)
    {
      assert after[j] == log[c + j] && after[k] == log[c + k];
      assert j > 0;
    }
    AtMostOneFire(after, id);
  }

  lemma {:induction false} AtMostOneFire(log: seq<Obs>, id: TimerId)
    requires forall j, k | 0 <= j < k < |log| && log[j].Fired? && log[k].Fired? :: !(log[j].id == log[k].id == id)
    ensures Fires(log, id) <= 1
    ensures Fires(log, id) == 1 ==> exists j :: 0 <= j < |log| && log[j].Fired? && log[j].id == id
  {
    if log != [] {
      var n := |log| - 1;
      AtMostOneFire(log[..n], id);
      if Fires(log[..n], id) == 1 {
        var j :| 0 <= j < n && log[..n][j].Fired? && log[..n][j].id == id;
        assert log[j] == log[..n][j];
      }
    }
  }

  lemma Extend(ws: seq<World>, es: seq<Event>, e: Event) returns (ws': seq<World>, es': seq<Event>)
    requires IsRun(ws, es) && Enabled(ws[|es|], e)
    ensures IsRun(ws', es') && es' == es + [e] && ws'[|es'|] == Step(ws[|es|], e)
  {
    hide Enabled, Step;
    es' := es + [e];
    ws' := ws + [Step(ws[|es|], e)];
    forall i | 0 <= i < |es'| ensures Enabled(ws'[i], es'[i]) && ws'[i + 1] == Step(ws'[i], es'[i]) {
      if i < |es| {
        assert ws'[i] == ws[i] && es'[i] == es[i] && ws'[i + 1] == ws[i + 1];
      }
    }
  }

  /** A fresh scheduler is started and a timer scheduled at 0. */
  lemma OneScheduled(kind: Kind) returns (ws: seq<World>, es: seq<Event>)
    requires Interval(kind) > 0
    ensures IsRun(ws, es)
    ensures ws[|es|] == World(Core([NewEntry(kind, 1, 0)], 2, true, true), Top, 0, [Scheduled(1, 0, kind)])
  {
    ws, es := [World(FRESH, NotStarted, 0, [])], [];
    assert IsRun(ws, es);
    hide IsRun, NewEntry;
    ws, es := Extend(ws, es, Start(true));
    ws, es := Extend(ws, es, ScheduleTimer(kind, true, 0));
  }

  /** And collected when it is due. */
  lemma OneCollected(kind: Kind, at: Time) returns (ws: seq<World>, es: seq<Event>)
    requires 0 < Interval(kind) <= at
    ensures IsRun(ws, es)
    ensures var e := NewEntry(kind, 1, 0);
      ws[|es|] == World(Core([e.(state := TimerState.Running)], 2, true, false),
                        Executing([TaskOf(e)], 0, false), at, [Scheduled(1, 0, kind)])
  {
    ws, es := OneScheduled(kind);
    OneEntry(NewEntry(kind, 1, 0), at);
    hide IsRun, Earliest, Marked, DueTasks, NewEntry;
    ws, es := Extend(ws, es, LoopTop(at));
  }

  lemma OneEntry(e: Entry, now: Time)
    requires Due(e, now)
    ensures Earliest([e]).Some? && Marked([e], now) == [e.(state := TimerState.Running)]
    ensures DueTasks([e], now) == [TaskOf(e)]
  {
    assert e in [e];
    assert [e][..0] == [];
    assert DueTasks([], now) == [];
  }

  /** The one callback more is not avoidable: phase 4 does not look at the state again. */
  lemma ACollectedTimerStillFires() returns (ws: seq<World>, es: seq<Event>)
    ensures IsRun(ws, es)
    ensures ws[|es|].log == [Scheduled(1, 0, After(1)), CancelSucceeded(1, false), Fired(1, 5, 1)]
  {
    ws, es := OneCollected(After(1), 5);
    hide IsRun;
    ws, es := Extend(ws, es, CancelTimer(1));
    ws, es := Extend(ws, es, CallbackStarts(5));
  }

  /**
   * The rate bound. A one-shot timer fires at most once; by any moment of any
   * run, a periodic timer scheduled at `at` has fired at most
   * floor((now - at) / period) times, in either period mode.
   */
  lemma RateIsBounded(ws: seq<World>, es: seq<Event>, i: nat, o: Obs)
    requires IsRun(ws, es) && i < |ws| && o in ws[i].log && o.Scheduled?
    ensures Interval(o.kind) > 0
    ensures o.kind.After? ==> Fires(ws[i].log, o.id) <= 1
    ensures o.kind.Every? ==> Fires(ws[i].log, o.id) <= (ws[i].clock - o.at) / o.kind.period
  {
    RunKeepsInv(ws, es, i);
    hide IsRun, Step, TableInv, CancelInv, ParkInv;
    assert Obeys(ws[i], o);
    if o.kind.Every? {
      var n, p := Fires(ws[i].log, o.id), o.kind.period;
      GridIsLinear(o.at, p, n);
      QuotientBound(n, p, ws[i].clock - o.at);
    }
  }

  lemma CancelFactor(a: int, b: int, p: int)
    requires p > 0
    ensures a * p < b * p ==> a < b
  {
    if a >= b {
      assert a * p - b * p == (a - b) * p;
    }
  }

  lemma QuotientBound(n: nat, p: int, t: int)
    requires p > 0 && n * p <= t
    ensures n <= t / p
  {
    var q := t / p;
    assert t < q * p + p;
    assert q * p + p == (q + 1) * p;
    CancelFactor(n, q + 1, p);
  }

  /**
   * No callback starts early. When the callback of a timer scheduled at `at`
   * starts for the n-th time, its deadline has passed; that deadline is
   * at + delay for a one-shot timer and no earlier than at + n * period for a
   * periodic one, and exactly that for a FIXED_RATE timer that was never
   * re-armed a whole period late.
   */
  lemma NoCallbackStartsEarly(ws: seq<World>, es: seq<Event>, i: nat) returns (f: Obs)
    requires IsRun(ws, es) && i < |es| && es[i].CallbackStarts?
    ensures ws[i + 1].log == ws[i].log + [f] && f.Fired? && f.at == es[i].at && f.deadline <= f.at
    ensures WasScheduled(ws[i].log, f.id)
    ensures forall o | o in ws[i].log && o.Scheduled? && o.id == f.id ::
      var n := Fires(ws[i + 1].log, f.id);
      match o.kind
      case After(delay) => f.deadline == o.at + delay && n == 1
      case Every(period, mode) =>
        && f.deadline >= o.at + n * period
        && (mode == FixedRate && !EverCapped(ws[i].log, f.id, period) ==> f.deadline == o.at + n * period)
  {
    RunKeepsInv(ws, es, i);
    RunSteps(ws, es, i);
    var w, at := ws[i], es[i].at;
    f := FiringStep(w, at);
    hide IsRun, Step, TableInv, CancelInv, ParkInv;
    forall o | o in w.log && o.Scheduled? && o.id == f.id
      ensures var n := Fires(ws[i + 1].log, f.id);
        match o.kind
        case After(delay) => f.deadline == o.at + delay && n == 1
        case Every(period, mode) =>
          && f.deadline >= o.at + n * period
          && (mode == FixedRate && !EverCapped(w.log, f.id, period) ==> f.deadline == o.at + n * period)
    {
      FiringIsOnGrid(w, at, o, f);
    }
  }

  lemma FiringStep(w: World, at: Time) returns (f: Obs)
    requires Inv(w) && Enabled(w, CallbackStarts(at))
    ensures f.Fired? && f.at == at && f.deadline <= at && Step(w, CallbackStarts(at)).log == w.log + [f]
    ensures exists e :: e in w.core.timers && e.id == f.id && e.nextFire == f.deadline && !Started(w.loc, e.id)
    ensures WasScheduled(w.log, f.id)
  {
    var e := StartingTimer(w, at);
    f := Fired(e.id, at, e.nextFire);
  }

  lemma FiringIsOnGrid(w: World, at: Time, o: Obs, f: Obs)
    requires RateInv(w) && o in w.log && o.Scheduled? && f.Fired? && o.id == f.id
    requires exists e :: e in w.core.timers && e.id == f.id && e.nextFire == f.deadline && !Started(w.loc, e.id)
    ensures var n := Fires(w.log + [f], f.id);
      match o.kind
      case After(delay) => f.deadline == o.at + delay && n == 1
      case Every(period, mode) =>
        && f.deadline >= o.at + n * period
        && (mode == FixedRate && !EverCapped(w.log, f.id, period) ==> f.deadline == o.at + n * period)
  {
    hide Started;
    var e :| e in w.core.timers && e.id == f.id && e.nextFire == f.deadline && !Started(w.loc, e.id);
    FiresAppend(w.log, f, f.id);
    assert Obeys(w, o) && OnSchedule(w.log, false, e, o.at, o.kind);
    if o.kind.Every? {
      GridIsLinear(o.at, o.kind.period, Fires(w.log, f.id) + 1);
    }
  }

  /** The log only grows, so the verdicts above, read at the end of a run, speak about all of it. */
  lemma {:induction false} LogOnlyGrows(ws: seq<World>, es: seq<Event>, i: nat, j: nat)
    requires IsRun(ws, es) && i <= j < |ws|
    ensures ws[i].log <= ws[j].log && ws[i].clock <= ws[j].clock
    decreases j
  {
    hide IsRun, Enabled, Step;
    if i < j {
      LogOnlyGrows(ws, es, i, j - 1);
      RunSteps(ws, es, j - 1);
      StepGrows(ws[j - 1], es[j - 1]);
    }
  }

  lemma StepGrows(w: World, e: Event)
    requires Enabled(w, e)
    ensures w.log <= Step(w, e).log && w.clock <= Step(w, e).clock
  {
    hide Reconcile, Earliest, RearmLog, IndexOf, Without;
  }
}
