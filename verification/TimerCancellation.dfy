/**
 * What a successful Cancel does to the callback, exactly.
 *
 * Phase 4 of the loop runs the whole batch without looking at the table, so a
 * collected timer whose callback has not started yet is owed that one start.
 * Any other timer is spent: its callback never starts again.
 */
module TimerCancellation {
  import opened Basics
  import opened TimerTable
  import opened TimerRuns
  import opened TimerHistory
  import opened TimerTheorems

  ghost predicate OnlyCancelled(w: World, id: TimerId) {
    0 < id < w.core.nextId && forall e | e in w.core.timers && e.id == id :: e.state == Cancelled
  }

  /** Timer `id` has fired `n` times and has no start ahead of it. */
  ghost predicate Spent(w: World, id: TimerId, n: nat) {
    OnlyCancelled(w, id) && Fires(w.log, id) == n && (Present(w.core.timers, id) ==> Started(w.loc, id))
  }

  /** Timer `id` has fired `n` times and is in the batch, its callback not yet started. */
  ghost predicate Owed(w: World, id: TimerId, n: nat) {
    && OnlyCancelled(w, id) && Fires(w.log, id) == n
    && w.loc.Executing? && TaskFor(w.loc.batch, id).Some? && !Started(w.loc, id)
  }

  /** May the callback of `id` still start if it is cancelled now? Only if it was collected and has not started. */
  ghost predicate CollectedNotStarted(w: World, id: TimerId) {
    var i := IndexOf(w.core.timers, id);
    i < |w.core.timers| && w.core.timers[i].state == TimerState.Running && !Started(w.loc, id)
  }

  /** Outside a batch every timer is PENDING, so a cancelled one is gone. */
  lemma GoneBetweenBatches(w: World, id: TimerId)
    requires TableInv(w) && OnlyCancelled(w, id) && !w.loc.Executing?
    ensures !Present(w.core.timers, id)
  {
  }

  lemma CancelDecides(w: World, id: TimerId)
    requires TableInv(w) && Cancel(w.core, id).1 == Success
    ensures var w', n := AfterCancel(w, id), Fires(w.log, id);
      if CollectedNotStarted(w, id) then Owed(w', id, n) else Spent(w', id, n)
  {
    hide Cancel, Without, IndexOf, TaskFor, Fires;
    var e := CancelEffect(w.core, id);
    var o := CancelSucceeded(id, e.state == Pending);
    FiresAppend(w.log, o, id);
    StartedAfterNotify(w.loc, id);
    assert AfterCancel(w, id).log == w.log + [o];
  }

  lemma ScheduleKeeps(w: World, kind: Kind, hasCallback: bool, at: Time, id: TimerId, n: nat)
    requires TableInv(w) && OnlyCancelled(w, id)
    ensures var w' := AfterSchedule(w, kind, hasCallback, at);
      && (Spent(w, id, n) ==> Spent(w', id, n))
      && (Owed(w, id, n) ==> Owed(w', id, n))
  {
    hide TaskFor, Fires, BatchInv;
    var w' := AfterSchedule(w, kind, hasCallback, at);
    FiresAppend(w.log, Scheduled(w.core.nextId, at, kind), id);
    StartedAfterNotify(w.loc, id);
    assert forall e | e in w'.core.timers && e.id == id :: e in w.core.timers;
  }

  lemma CancelKeeps(w: World, other: TimerId, id: TimerId, n: nat)
    requires TableInv(w) && OnlyCancelled(w, id)
    ensures var w' := AfterCancel(w, other);
      && (Spent(w, id, n) ==> Spent(w', id, n))
      && (Owed(w, id, n) ==> Owed(w', id, n))
  {
    hide Cancel, Without, IndexOf, TaskFor, Fires, BatchInv;
    if Cancel(w.core, other).1 == Success {
      var e := CancelEffect(w.core, other);
      FiresAppend(w.log, CancelSucceeded(other, e.state == Pending), id);
      StartedAfterNotify(w.loc, id);
    }
  }

  /** LoopTop and WaitEnds only mark timers, and there is none left to mark. */
  lemma WaitingKeeps(w: World, e: Event, id: TimerId, n: nat)
    requires TableInv(w) && Enabled(w, e) && (e.LoopTop? || e.WaitEnds?) && Spent(w, id, n)
    ensures Spent(Step(w, e), id, n)
  {
    hide Earliest, DueTasks, TaskFor, Fires, BatchInv;
    GoneBetweenBatches(w, id);
    var w' := Step(w, e);
    forall x | x in w'.core.timers ensures x.id != id {
      var k :| 0 <= k < |w'.core.timers| && w'.core.timers[k] == x;
      assert w.core.timers[k] in w.core.timers && w.core.timers[k].id == x.id;
    }
  }

  lemma CallbackStartsKeeps(w: World, at: Time, id: TimerId, n: nat)
    requires TableInv(w) && Enabled(w, CallbackStarts(at))
    ensures var w' := AfterCallbackStarts(w, at);
      && (Spent(w, id, n) ==> Spent(w', id, n))
      && (Owed(w, id, n) ==> Owed(w', id, n) || Spent(w', id, n + 1))
  {
    hide TableInv, IndexOf, TaskFor, Fires, Started, Spent, Owed;
    var e := StartingTimer(w, at);
    FiresAppend(w.log, Fired(e.id, at, e.nextFire), id);
    StartingKeeps(w, AfterCallbackStarts(w, at), e, id, n);
  }

  lemma StartingKeeps(w: World, w': World, e: Entry, id: TimerId, n: nat)
    requires w'.core == w.core && w.loc.Executing? && w'.loc.Executing? && w'.loc.batch == w.loc.batch
    requires Fires(w'.log, id) == Fires(w.log, id) + (if e.id == id then 1 else 0)
    requires e in w.core.timers && !Started(w.loc, e.id) && Started(w'.loc, e.id)
    requires e.id != id ==> Started(w'.loc, id) == Started(w.loc, id)
    ensures Spent(w, id, n) ==> Spent(w', id, n)
    ensures Owed(w, id, n) ==> Owed(w', id, n) || Spent(w', id, n + 1)
  {
    hide TaskFor, Fires, Started;
    assert e.id == id ==> Present(w.core.timers, id);
  }

  lemma CallbackReturnsKeeps(w: World, threw: bool, id: TimerId, n: nat)
    requires Enabled(w, CallbackReturns(threw))
    ensures var w' := AfterCallbackReturns(w, threw);
      && (Spent(w, id, n) ==> Spent(w', id, n))
      && (Owed(w, id, n) ==> Owed(w', id, n))
  {
    hide TaskFor, Fires;
    SameTaskFor(w.loc.batch, AfterCallbackReturns(w, threw).loc.batch, id);
  }

  /** Reconciling removes what is cancelled and records no start. */
  lemma ReconcileKeeps(w: World, times: seq<Time>, id: TimerId, n: nat)
    requires TableInv(w) && Enabled(w, ReconcileBatch(times)) && Spent(w, id, n)
    ensures Spent(AfterReconcile(w, times), id, n)
  {
    hide Reconcile, RearmLog, Fires, TaskFor, BatchInv;
    var timers, batch := w.core.timers, w.loc.batch;
    DistinctInTable(w);
    RearmsOnly(timers, batch, times);
    FiresAppendRearms(w.log, RearmLog(timers, batch, times), id);
    forall e' | e' in Reconcile(timers, batch, times) ensures e'.id != id {
      var i := ReconcileOrigin(timers, batch, times, e');
      assert timers[i] in timers;
    }
  }

  /** By the time the batch is reconciled every callback in it has started. */
  lemma NothingOwedAtReconcile(w: World, times: seq<Time>, id: TimerId, n: nat)
    requires Enabled(w, ReconcileBatch(times))
    ensures !Owed(w, id, n)
  {
    hide TaskFor, Fires;
  }

  lemma QuietKeeps(w: World, e: Event, id: TimerId, n: nat)
    requires TableInv(w) && Enabled(w, e) && (e.Start? || e.Stop? || e.Join?)
    ensures Spent(w, id, n) ==> Spent(Step(w, e), id, n)
    ensures Owed(w, id, n) ==> Owed(Step(w, e), id, n)
  {
    hide TaskFor, Fires, BatchInv;
    if Spent(w, id, n) && !w.loc.Executing? {
      GoneBetweenBatches(w, id);
    }
  }

  lemma StepKeepsSpent(w: World, e: Event, id: TimerId, n: nat)
    requires TableInv(w) && Enabled(w, e) && Spent(w, id, n)
    ensures Spent(Step(w, e), id, n)
  {
    assert OnlyCancelled(w, id);
    hide TableInv, Spent, Owed, OnlyCancelled;
    hide AfterSchedule, AfterCancel, AfterCallbackStarts, AfterCallbackReturns, AfterReconcile, AfterTop, AfterWaitEnds;
    match e
    case ScheduleTimer(kind, hasCallback, at) => ScheduleKeeps(w, kind, hasCallback, at, id, n);
    case CancelTimer(other) => CancelKeeps(w, other, id, n);
    case LoopTop(at) => WaitingKeeps(w, e, id, n);
    case WaitEnds(at, timedOut) => WaitingKeeps(w, e, id, n);
    case CallbackStarts(at) => CallbackStartsKeeps(w, at, id, n);
    case CallbackReturns(threw) => CallbackReturnsKeeps(w, threw, id, n);
    case ReconcileBatch(times) => ReconcileKeeps(w, times, id, n);
    case _ => QuietKeeps(w, e, id, n);
  }

  /** What is owed is paid before the batch ends, and once. */
  lemma StepKeepsOwed(w: World, e: Event, id: TimerId, n: nat)
    requires TableInv(w) && Enabled(w, e) && Owed(w, id, n)
    ensures !e.ReconcileBatch?
    ensures Owed(Step(w, e), id, n) || Spent(Step(w, e), id, n + 1)
  {
    assert OnlyCancelled(w, id) && w.loc.Executing?;
    hide TableInv, Spent, Owed, OnlyCancelled;
    hide AfterSchedule, AfterCancel, AfterCallbackStarts, AfterCallbackReturns, AfterReconcile, AfterTop, AfterWaitEnds;
    match e
    case ScheduleTimer(kind, hasCallback, at) => ScheduleKeeps(w, kind, hasCallback, at, id, n);
    case CancelTimer(other) => CancelKeeps(w, other, id, n);
    case CallbackStarts(at) => CallbackStartsKeeps(w, at, id, n);
    case CallbackReturns(threw) => CallbackReturnsKeeps(w, threw, id, n);
    case ReconcileBatch(times) => NothingOwedAtReconcile(w, times, id, n);
    case _ => QuietKeeps(w, e, id, n);
  }

  lemma {:induction false} StaysSpent(ws: seq<World>, es: seq<Event>, i: nat, j: nat, id: TimerId, n: nat)
    requires IsRun(ws, es) && i <= j < |ws| && Spent(ws[i], id, n)
    ensures Spent(ws[j], id, n)
    decreases j
  {
    hide IsRun, Inv, Enabled, Step, Spent, TableInv;
    if i < j {
      StaysSpent(ws, es, i, j - 1, id, n);
      RunSteps(ws, es, j - 1);
      TableInEveryRun(ws, es, j - 1);
      StepKeepsSpent(ws[j - 1], es[j - 1], id, n);
    }
  }

  lemma TableInEveryRun(ws: seq<World>, es: seq<Event>, i: nat)
    requires IsRun(ws, es) && i < |ws|
    ensures TableInv(ws[i])
  {
    hide IsRun, TableInv, ParkInv, CancelInv, RateInv;
    RunKeepsInv(ws, es, i);
  }

  ghost predicate NoReconcile(es: seq<Event>, i: nat, j: nat) {
    forall k | i <= k < j && k < |es| :: !es[k].ReconcileBatch?
  }

  lemma {:induction false} OwedUntilPaid(ws: seq<World>, es: seq<Event>, i: nat, j: nat, id: TimerId, n: nat)
    requires IsRun(ws, es) && i <= j < |ws| && Owed(ws[i], id, n)
    ensures Spent(ws[j], id, n + 1) || (Owed(ws[j], id, n) && NoReconcile(es, i, j))
    decreases j
  {
    hide IsRun, Inv, Enabled, Step, Spent, Owed, TableInv;
    if i < j {
      OwedUntilPaid(ws, es, i, j - 1, id, n);
      RunSteps(ws, es, j - 1);
      TableInEveryRun(ws, es, j - 1);
      if Spent(ws[j - 1], id, n + 1) {
        StepKeepsSpent(ws[j - 1], es[j - 1], id, n + 1);
      } else {
        StepKeepsOwed(ws[j - 1], es[j - 1], id, n);
      }
    }
  }

  /**
   * A successful Cancel, at step `i` of any run. If the timer was PENDING, or
   * its callback in the current batch had started already, the callback never
   * starts again. If it had been collected and not started, it starts exactly
   * once more: at most once at any moment, and it has by the time that batch
   * has been reconciled.
   */
  lemma CancelStopsTheCallbackUnlessCollected(ws: seq<World>, es: seq<Event>, i: nat, j: nat, id: TimerId)
    requires IsRun(ws, es) && i < |es| && i < j < |ws|
    requires es[i] == CancelTimer(id) && Cancel(ws[i].core, id).1 == Success
    ensures var before, after := Fires(ws[i].log, id), Fires(ws[j].log, id);
      && (!CollectedNotStarted(ws[i], id) ==> after == before)
      && (CollectedNotStarted(ws[i], id) ==>
            before <= after <= before + 1 && (!NoReconcile(es, i + 1, j) ==> after == before + 1))
  {
    TableInEveryRun(ws, es, i);
    RunSteps(ws, es, i);
    var n := Fires(ws[i].log, id);
    CancelDecides(ws[i], id);
    hide IsRun, TableInv, Cancel, OnlyCancelled, Started;
    assert ws[i + 1] == AfterCancel(ws[i], id);
    if CollectedNotStarted(ws[i], id) {
      OwedUntilPaid(ws, es, i + 1, j, id, n);
    } else {
      StaysSpent(ws, es, i + 1, j, id, n);
    }
  }
}
