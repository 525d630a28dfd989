/**
 * What every step of every run does, told from the state before it in the
 * source's own terms, and runs in which periodic timers fire.
 */
module TimerSteps {
  import opened Basics
  import opened TimerTable
  import opened TimerRuns
  import opened TimerHistory
  import opened TimerTheorems
  import opened TimerCancellation

  // ---------------------------------------------------------------------------
  // Callers
  // ---------------------------------------------------------------------------

  /** A parked thread hears a notification; nobody else is changed by one. */
  ghost predicate Hears(loc: Loc, loc': Loc) {
    loc' == match loc case Parked(deadline, woken) => Parked(deadline, true) case _ => loc
  }

  /** The log tells that the Cancel of `id` succeeded and whether the timer was PENDING; the loop hears if it was. */
  ghost predicate Observed(w: World, w': World, id: TimerId) {
    exists e :: (
      && e in w.core.timers && e.id == id
      && w'.log == w.log + [CancelSucceeded(id, e.state == Pending)]
      && (e.state == Pending ==> Hears(w.loc, w'.loc))
      && (e.state == Running ==> w'.loc == w.loc))
  }

  /**
   * Cancel, for every id in every state of every run: its answer and what it
   * does to the table; a step that cancels does just that, is observed exactly
   * if it succeeds, and wakes the loop exactly if the timer was PENDING.
   */
  lemma CancelsAreAnsweredExactly(ws: seq<World>, es: seq<Event>, i: nat, id: TimerId)
    requires IsRun(ws, es) && i < |ws|
    ensures var r := Cancel(ws[i].core, id); CancelMeans(ws[i].core, id, r.0, r.1)
    ensures i < |es| && es[i] == CancelTimer(id) ==>
      var w, w', r := ws[i], ws[i + 1], Cancel(ws[i].core, id);
      && w'.core == r.0 && w'.clock == w.clock
      && (r.1 != Success ==> w' == w)
      && (r.1 == Success ==> Observed(w, w', id))
  {
    TableInEveryRun(ws, es, i);
    CancelIsExact(ws[i].core, id);
    if i < |es| && es[i] == CancelTimer(id) {
      RunSteps(ws, es, i);
      if Cancel(ws[i].core, id).1 == Success {
        CancelStep(ws[i], id);
      }
    }
  }

  lemma CancelStep(w: World, id: TimerId)
    requires TableInv(w) && Cancel(w.core, id).1 == Success
    ensures Observed(w, AfterCancel(w, id), id)
  {
    hide Without, BatchInv;
    var e := w.core.timers[IndexOf(w.core.timers, id)];
    assert e in w.core.timers && e.id == id;
  }

  /** Scheduling: its answer, the entry it adds, and that it wakes the loop exactly if it succeeds. */
  lemma SchedulesAreAnsweredExactly(ws: seq<World>, es: seq<Event>, i: nat)
    requires IsRun(ws, es) && i < |es| && es[i].ScheduleTimer?
    ensures var w, w', e, r := ws[i], ws[i + 1], es[i], Schedule(ws[i].core, es[i].kind, es[i].hasCallback, es[i].at);
      && ScheduleMeans(w.core, e.kind, e.hasCallback, e.at, w'.core, r.1, r.2)
      && (r.1 == Success ==> w'.log == w.log + [Scheduled(w.core.nextId, e.at, e.kind)] && Hears(w.loc, w'.loc))
      && (r.1 != Success ==> w'.log == w.log && w'.loc == w.loc)
  {
    RunSteps(ws, es, i);
    ScheduleIsExact(ws[i].core, es[i].kind, es[i].hasCallback, es[i].at);
  }

  /** Start runs the loop exactly if it was not running and got a thread; Stop ends it exactly if it was. */
  lemma StartsAndStopsAreExact(ws: seq<World>, es: seq<Event>, i: nat)
    requires IsRun(ws, es) && i < |es|
    ensures es[i].Start? ==>
      if !ws[i].core.running && es[i].created
      then ws[i + 1] == ws[i].(core := ws[i].core.(running := true), loc := Top)
      else ws[i + 1] == ws[i]
    ensures es[i].Stop? ==>
      if ws[i].core.running
      then
        && ws[i + 1].core == ws[i].core.(running := false)
        && ws[i + 1].log == ws[i].log && Hears(ws[i].loc, ws[i + 1].loc)
      else ws[i + 1] == ws[i]
    ensures es[i].Join? ==> ws[i + 1] == ws[i].(loc := NotStarted)
  {
    RunSteps(ws, es, i);
  }

  // ---------------------------------------------------------------------------
  // The loop
  // ---------------------------------------------------------------------------

  ghost predicate SomePending(timers: seq<Entry>) {
    exists e :: e in timers && e.state == Pending
  }

  /** The target of a wait: the earliest PENDING deadline, and none exactly if nothing is PENDING. */
  ghost predicate IsTarget(timers: seq<Entry>, deadline: Option<Time>) {
    && (deadline.Some? <==> SomePending(timers))
    && (deadline.Some? ==>
          && (forall e | e in timers && e.state == Pending :: deadline.value <= e.nextFire)
          && exists e :: e in timers && e.state == Pending && e.nextFire == deadline.value)
  }

  /**
   * The head of the loop: it ends exactly if the scheduler has been stopped,
   * parks with its target exactly if there is nothing to reconsider, starts over
   * if nothing is PENDING, and collects otherwise.
   */
  lemma LoopTopIsExact(ws: seq<World>, es: seq<Event>, i: nat)
    requires IsRun(ws, es) && i < |es| && es[i].LoopTop?
    ensures var w, w' := ws[i], ws[i + 1];
      && (w'.loc == Exited <==> !w.core.running)
      && (w'.loc.Parked? <==> w.core.running && !w.core.reschedule)
      && (w'.loc.Parked? ==> IsTarget(w.core.timers, w'.loc.deadline) && !w'.loc.woken && w'.core == w.core)
      && (w'.loc == Top <==> w.core.running && w.core.reschedule && !SomePending(w.core.timers))
      && (w'.loc.Executing? <==> w.core.running && w.core.reschedule && SomePending(w.core.timers))
      && (w.core.running && w.core.reschedule ==> !w'.core.reschedule)
      && w'.core.running == w.core.running && w'.log == w.log
  {
    RunSteps(ws, es, i);
    hide IsRun, DueTasks, Marked;
    var d := Earliest(ws[i].core.timers);
  }

  /** A wait goes on exactly if nothing has changed and the target is ahead; otherwise as at the head of the loop. */
  lemma WaitEndsIsExact(ws: seq<World>, es: seq<Event>, i: nat)
    requires IsRun(ws, es) && i < |es| && es[i].WaitEnds?
    ensures ws[i].loc.Parked?
    ensures var w, w', d := ws[i], ws[i + 1], ws[i].loc.deadline;
      var wakes := !w.core.running || w.core.reschedule || es[i].timedOut;
      && (!wakes ==> w'.loc == Parked(d, false) && w'.core == w.core)
      && (wakes ==> !w'.core.reschedule)
      && (wakes && d.None? ==> w'.loc == Top && w'.core.timers == w.core.timers)
      && (wakes && d.Some? && !w.core.running ==> w'.loc == Exited && w'.core.timers == w.core.timers)
      && (wakes && d.Some? && w.core.running ==> w'.loc.Executing?)
      && w'.core.running == w.core.running && w'.log == w.log
  {
    RunSteps(ws, es, i);
    hide IsRun, DueTasks, Marked;
  }

  /**
   * Collecting, at every step of every run after which the loop is executing: an
   * entry has a task in the batch exactly if it was PENDING with its deadline
   * reached at the reading, the tasks are in table order and carry the timer's
   * data, those entries are RUNNING now and all others are unchanged.
   */
  lemma CollectsExactly(ws: seq<World>, es: seq<Event>, i: nat) returns (positions: seq<nat>)
    requires IsRun(ws, es) && i < |es| && (es[i].LoopTop? || es[i].WaitEnds?) && ws[i + 1].loc.Executing?
    ensures ws[i + 1].loc.next == 0 && !ws[i + 1].loc.inCallback
    ensures BatchMeans(ws[i].core.timers, es[i].at, ws[i + 1].loc.batch, positions)
    ensures MarkMeans(ws[i].core.timers, es[i].at, ws[i + 1].core.timers)
    ensures ws[i + 1].clock == es[i].at
  {
    RunSteps(ws, es, i);
    hide IsRun, DueTasks, Marked;
    MarkIsExact(ws[i].core.timers, es[i].at);
    positions := CollectIsExact(ws[i].core.timers, es[i].at);
  }

  /** Callbacks start in batch order, one at a time, and the loop re-arms and starts over after the last. */
  lemma CallbacksRunInOrder(ws: seq<World>, es: seq<Event>, i: nat)
    requires IsRun(ws, es) && i < |es|
    ensures es[i].CallbackStarts? ==>
      && ws[i].loc.Executing? && ws[i + 1].core == ws[i].core && |ws[i + 1].log| == |ws[i].log| + 1
      && ws[i + 1].loc == Executing(ws[i].loc.batch, ws[i].loc.next + 1, true)
      && ws[i + 1].log[|ws[i].log|].Fired? && ws[i + 1].log[|ws[i].log|].id == ws[i].loc.batch[ws[i].loc.next].id
    ensures es[i].CallbackReturns? ==>
      && ws[i].loc.Executing? && ws[i + 1].core == ws[i].core && ws[i + 1].log == ws[i].log
      && var k, batch := ws[i].loc.next - 1, ws[i].loc.batch;
         ws[i + 1].loc == Executing(batch[k := batch[k].(threw := es[i].threw)], k + 1, false)
    ensures es[i].ReconcileBatch? ==>
      ws[i].loc.Executing? && ws[i].loc.next == |ws[i].loc.batch| && ws[i + 1].loc == Top
  {
    RunSteps(ws, es, i);
    hide IsRun, Reconcile, RearmLog;
  }

  // ---------------------------------------------------------------------------
  // Periodic timers do fire
  // ---------------------------------------------------------------------------

  /**
   * A periodic timer scheduled at 0 for every 10 fires at 10 and, re-armed at
   * 12, is due next at 20 or at 22, by its period mode.
   */
  lemma APeriodicTimerFires(mode: PeriodMode) returns (ws: seq<World>, es: seq<Event>)
    ensures IsRun(ws, es)
    ensures var next := match mode case FixedRate => 20 case FixedDelay => 22;
      && ws[|es|].log == [Scheduled(1, 0, Every(10, mode)), Fired(1, 10, 10), Rearmed(1, 10, 12, next)]
      && ws[|es|].core.timers == [Entry(1, Periodic, mode, 10, next, Pending)] && ws[|es|].loc == Top
  {
    ws, es := PeriodicRan(mode);
    hide IsRun, Reconcile, RearmLog, IndexOf;
    var e, task := Entry(1, Periodic, mode, 10, 10, TimerState.Running), Task(1, Periodic, 10, mode, false);
    RearmOne(e, task, 12);
    ws, es := Extend(ws, es, ReconcileBatch([12]));
  }

  lemma PeriodicRan(mode: PeriodMode) returns (ws: seq<World>, es: seq<Event>)
    ensures IsRun(ws, es)
    ensures ws[|es|] ==
      World(Core([Entry(1, Periodic, mode, 10, 10, TimerState.Running)], 2, true, false),
            Executing([Task(1, Periodic, 10, mode, false)], 1, false), 10,
            [Scheduled(1, 0, Every(10, mode)), Fired(1, 10, 10)])
  {
    ws, es := OneCollected(Every(10, mode), 10);
    hide IsRun, Reconcile, RearmLog;
    var task := Task(1, Periodic, 10, mode, false);
    ws, es := Extend(ws, es, CallbackStarts(10));
    assert ws[|es|].loc == Executing([task], 1, true);
    ws, es := Extend(ws, es, CallbackReturns(false));
    assert ws[|es|].loc.batch == [task];
    assert ws[|es|].log == [Scheduled(1, 0, Every(10, mode)), Fired(1, 10, 10)];
  }

  lemma RearmOne(e: Entry, task: Task, now: Time)
    requires e.id == task.id && Survives(e, task)
    ensures Reconcile([e], [task], [now]) == [Rearm(e, task, now)]
    ensures RearmLog([e], [task], [now]) == [Rearmed(e.id, e.nextFire, now, Rearm(e, task, now).nextFire)]
  {
    assert IndexOf([e], e.id) == 0;
    assert TaskFor([task], e.id) == Some(0) by { UniqueTask([task], 0); }
    assert ToErase([e], [task][..0]) == [] && RearmLog([e], [task][..0], [now][..0]) == [];
    assert ToErase([e], [task]) == [];
    assert ReconciledAll([e], [task], [now]) == [Rearm(e, task, now)];
    assert Filtered([Rearm(e, task, now)][..0], []) == [];
  }
}
