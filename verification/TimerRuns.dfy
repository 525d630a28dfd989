/**
 * Every interleaving of the scheduler thread with its callers.
 *
 * A step is one locked section of SchedulerLoop or of a caller, or the start or
 * return of one callback. Callers may step between any two of those, so a
 * callback that schedules, cancels or stops is covered too. Start is taken only
 * after the previous Join has returned. `log` records what can be observed.
 */
module TimerRuns {
  import opened Basics
  import opened TimerTable

  /** Where the scheduler thread is. */
  datatype Loc =
    | NotStarted
    | Top                                               // about to take the lock at the head of the loop
    | Parked(deadline: Option<Time>, woken: bool)       // waiting; `woken` once a notification has arrived
    | Executing(batch: seq<Task>, next: nat, inCallback: bool)
    | Exited

  datatype Obs =
    | Scheduled(id: TimerId, at: Time, kind: Kind)
    | CancelSucceeded(id: TimerId, wasPending: bool)
    | Fired(id: TimerId, at: Time, deadline: Time)
    | Rearmed(id: TimerId, due: Time, at: Time, nextDue: Time)

  datatype World = World(core: Core, loc: Loc, clock: Time, log: seq<Obs>)

  datatype Event =
    | Start(created: bool)
    | Stop
    | Join
    | ScheduleTimer(kind: Kind, hasCallback: bool, at: Time)
    | CancelTimer(id: TimerId)
    | LoopTop(at: Time)
    | WaitEnds(at: Time, timedOut: bool)
    | CallbackStarts(at: Time)
    | CallbackReturns(threw: bool)
    | ReconcileBatch(times: seq<Time>)

  ghost predicate Init(w: World) {
    w.core == FRESH && w.loc == NotStarted && w.log == []
  }

  /** Clock readings taken one after the other, none earlier than `from`. */
  ghost predicate Readings(from: Time, times: seq<Time>) {
    && (forall k | 0 <= k < |times| :: from <= times[k])
    && (forall j, k | 0 <= j < k < |times| :: times[j] <= times[k])
  }

  /**
   * CallbackStarts reads the deadline of its entry, for the log only; that the
   * entry is always there is TimerTheorems.BatchIsExact.
   */
  ghost predicate Enabled(w: World, e: Event) {
    match e
    case Start(created) => w.core.running || w.loc == NotStarted
    case Stop => true
    case Join => w.loc == Exited || w.loc == NotStarted
    case ScheduleTimer(kind, hasCallback, at) => w.clock <= at
    case CancelTimer(id) => true
    case LoopTop(at) => w.loc == Top && w.clock <= at
    case WaitEnds(at, timedOut) =>
      && w.loc.Parked? && w.clock <= at
      && (timedOut ==> w.loc.deadline.Some? && w.loc.deadline.value <= at)
    case CallbackStarts(at) =>
      w.loc.Executing? && !w.loc.inCallback && w.loc.next < |w.loc.batch| && w.clock <= at
      && IndexOf(w.core.timers, w.loc.batch[w.loc.next].id) < |w.core.timers|
    case CallbackReturns(threw) => w.loc.Executing? && w.loc.inCallback && 0 < w.loc.next <= |w.loc.batch|
    case ReconcileBatch(times) =>
      && w.loc.Executing? && !w.loc.inCallback && w.loc.next == |w.loc.batch|
      && |times| == |w.loc.batch| && Readings(w.clock, times)
  }

  /** cv_.notify_all(): only a parked scheduler thread hears it. */
  function Notified(loc: Loc): Loc {
    if loc.Parked? then loc.(woken := true) else loc
  }

  function AfterSchedule(w: World, kind: Kind, hasCallback: bool, at: Time): World {
    var r := Schedule(w.core, kind, hasCallback, at);
    if r.1 == Success
    then World(r.0, Notified(w.loc), at, w.log + [Scheduled(w.core.nextId, at, kind)])
    else w.(clock := at)
  }

  function AfterCancel(w: World, id: TimerId): World {
    var r, i := Cancel(w.core, id), IndexOf(w.core.timers, id);
    if r.1 != Success then w
    else
      var wasPending := w.core.timers[i].state == Pending;
      World(r.0, if wasPending then Notified(w.loc) else w.loc, w.clock, w.log + [CancelSucceeded(id, wasPending)])
  }

  /** From the end of phase 2 to the release of the lock. */
  function Collect(w: World, at: Time): World {
    var c := w.core.(reschedule := false);
    if !c.running then World(c, Exited, at, w.log)
    else World(c.(timers := Marked(c.timers, at)), Executing(DueTasks(c.timers, at), 0, false), at, w.log)
  }

  function AfterWait(w: World, deadline: Option<Time>, at: Time): World {
    if deadline.None? then World(w.core.(reschedule := false), Top, at, w.log) else Collect(w, at)
  }

  function AfterTop(w: World, at: Time): World {
    if !w.core.running then w.(loc := Exited, clock := at)
    else if w.core.reschedule then AfterWait(w, Earliest(w.core.timers), at)
    else w.(loc := Parked(Earliest(w.core.timers), false), clock := at)
  }

  function AfterWaitEnds(w: World, at: Time, timedOut: bool): World
    requires w.loc.Parked?
  {
    if w.core.running && !w.core.reschedule && !timedOut
    then w.(loc := Parked(w.loc.deadline, false), clock := at)
    else AfterWait(w, w.loc.deadline, at)
  }

  function AfterCallbackStarts(w: World, at: Time): World
    requires w.loc.Executing? && w.loc.next < |w.loc.batch|
    requires IndexOf(w.core.timers, w.loc.batch[w.loc.next].id) < |w.core.timers|
  {
    var id := w.loc.batch[w.loc.next].id;
    var e := w.core.timers[IndexOf(w.core.timers, id)];
    World(w.core, w.loc.(next := w.loc.next + 1, inCallback := true), at, w.log + [Fired(id, at, e.nextFire)])
  }

  function AfterCallbackReturns(w: World, threw: bool): World
    requires w.loc.Executing? && 0 < w.loc.next <= |w.loc.batch|
  {
    var k := w.loc.next - 1;
    w.(loc := w.loc.(batch := w.loc.batch[k := w.loc.batch[k].(threw := threw)], inCallback := false))
  }

  /** What phase 5 records for one task: a re-arm, if the timer survives. */
  function RearmOf(timers: seq<Entry>, task: Task, now: Time): Option<Obs> {
    var i := IndexOf(timers, task.id);
    if i < |timers| && Survives(timers[i], task)
    then Some(Rearmed(task.id, timers[i].nextFire, now, Rearm(timers[i], task, now).nextFire))
    else None
  }

  /** The re-arms of phase 5, in batch order. */
  function RearmLog(timers: seq<Entry>, batch: seq<Task>, times: seq<Time>): (r: seq<Obs>)
    requires |times| == |batch|
  {
    if batch == [] then []
    else
      var n := |batch| - 1;
      var o := RearmOf(timers, batch[n], times[n]);
      RearmLog(timers, batch[..n], times[..n]) + (if o.Some? then [o.value] else [])
  }

  lemma {:induction false} RearmLogEntries(timers: seq<Entry>, batch: seq<Task>, times: seq<Time>)
    requires |times| == |batch|
    ensures forall o | o in RearmLog(timers, batch, times) ::
      exists k :: 0 <= k < |batch| && RearmOf(timers, batch[k], times[k]) == Some(o)
    ensures forall k | 0 <= k < |batch| && RearmOf(timers, batch[k], times[k]).Some? ::
      RearmOf(timers, batch[k], times[k]).value in RearmLog(timers, batch, times)
  {
    if batch != [] {
      var n := |batch| - 1;
      RearmLogEntries(timers, batch[..n], times[..n]);
      var rest := RearmLog(timers, batch[..n], times[..n]);
      forall o | o in rest ensures exists k :: 0 <= k < |batch| && RearmOf(timers, batch[k], times[k]) == Some(o) {
        var k :| 0 <= k < n && RearmOf(timers, batch[..n][k], times[..n][k]) == Some(o);
        assert RearmOf(timers, batch[k], times[k]) == Some(o);
      }
      forall k | 0 <= k < n && RearmOf(timers, batch[k], times[k]).Some?
        ensures RearmOf(timers, batch[k], times[k]).value in RearmLog(timers, batch, times)
      {
        assert batch[..n][k] == batch[k] && times[..n][k] == times[k];
      }
    }
  }

  function AfterReconcile(w: World, times: seq<Time>): World
    requires w.loc.Executing? && |times| == |w.loc.batch|
  {
    World(
      w.core.(timers := Reconcile(w.core.timers, w.loc.batch, times)),
      Top,
      if times == [] then w.clock else times[|times| - 1],
      w.log + RearmLog(w.core.timers, w.loc.batch, times))
  }

  ghost function Step(w: World, e: Event): World
    requires Enabled(w, e)
  {
    match e
    case Start(created) =>
      var r := StartSection(w.core, created);
      w.(core := r.0, loc := if r.1 == Success then Top else w.loc)
    case Stop =>
      var r := StopSection(w.core);
      w.(core := r.0, loc := if r.1 == Success then Notified(w.loc) else w.loc)
    case Join => w.(loc := NotStarted)
    case ScheduleTimer(kind, hasCallback, at) => AfterSchedule(w, kind, hasCallback, at)
    case CancelTimer(id) => AfterCancel(w, id)
    case LoopTop(at) => AfterTop(w, at)
    case WaitEnds(at, timedOut) => AfterWaitEnds(w, at, timedOut)
    case CallbackStarts(at) => AfterCallbackStarts(w, at)
    case CallbackReturns(threw) => AfterCallbackReturns(w, threw)
    case ReconcileBatch(times) => AfterReconcile(w, times)
  }

  ghost predicate IsRun(ws: seq<World>, es: seq<Event>) {
    && |ws| == |es| + 1
    && Init(ws[0])
    && forall i | 0 <= i < |es| :: Enabled(ws[i], es[i]) && ws[i + 1] == Step(ws[i], es[i])
  }

  lemma RunSteps(ws: seq<World>, es: seq<Event>, i: nat)
    requires IsRun(ws, es) && i + 1 < |ws|
    ensures i < |es| && Enabled(ws[i], es[i]) && ws[i + 1] == Step(ws[i], es[i])
  {
  }

  // ---------------------------------------------------------------------------
  // The table and the batch
  // ---------------------------------------------------------------------------

  /** The entry a collected task was copied from: no longer PENDING, and due. */
  ghost predicate Matches(e: Entry, task: Task, clock: Time) {
    && e.id == task.id && e.mode == task.mode && e.period == task.period && e.periodMode == task.periodMode
    && e.state != Pending && e.nextFire <= clock
  }

  ghost predicate Held(timers: seq<Entry>, task: Task, clock: Time) {
    exists e :: e in timers && Matches(e, task, clock)
  }

  ghost predicate BatchInv(w: World) {
    match w.loc
    case Executing(batch, next, inCallback) =>
      && next <= |batch| && (inCallback ==> next > 0) && DistinctTasks(batch)
      && (forall k | 0 <= k < |batch| :: Held(w.core.timers, batch[k], w.clock))
      && (forall e | e in w.core.timers && e.state != Pending :: TaskFor(batch, e.id).Some?)
    case _ => forall e | e in w.core.timers :: e.state == Pending
  }

  ghost predicate TableInv(w: World) {
    && Distinct(w.core.timers) && |w.core.timers| <= MAX_TIMERS && w.core.nextId > 0
    && (forall e | e in w.core.timers :: 0 < e.id < w.core.nextId && (e.mode == Periodic ==> e.period > 0))
    && (w.loc == NotStarted || w.loc == Exited ==> !w.core.running)
    && BatchInv(w)
  }

  lemma ScheduleKeepsTable(w: World, kind: Kind, hasCallback: bool, at: Time)
    requires TableInv(w) && w.clock <= at
    ensures TableInv(AfterSchedule(w, kind, hasCallback, at))
  {
    var w' := AfterSchedule(w, kind, hasCallback, at);
    if w.loc.Executing? {
      forall k | 0 <= k < |w.loc.batch| ensures Held(w'.core.timers, w.loc.batch[k], at) {
        assert Held(w.core.timers, w.loc.batch[k], w.clock);
        var e :| e in w.core.timers && Matches(e, w.loc.batch[k], w.clock);
        assert e in w'.core.timers && Matches(e, w.loc.batch[k], at);
      }
    }
  }

  /** What a successful Cancel does to the table: it drops the PENDING entry, or marks the RUNNING one. */
  lemma CancelEffect(c: Core, id: TimerId) returns (e: Entry)
    requires Distinct(c.timers) && Cancel(c, id).1 == Success
    ensures var i, c' := IndexOf(c.timers, id), Cancel(c, id).0;
      && i < |c.timers| && e == c.timers[i] && e in c.timers && e.id == id && e.state != Cancelled
      && Distinct(c'.timers) && |c'.timers| <= |c.timers| && c'.nextId == c.nextId && c'.running == c.running
      && (e.state == Pending ==> c'.reschedule && c'.timers == Without(c.timers, [id]))
      && (e.state == Running ==>
            c'.reschedule == c.reschedule && c'.timers == c.timers[i := e.(state := Cancelled)])
      && (forall x | x in c'.timers && x.id != id :: x in c.timers)
      && (forall x | x in c'.timers && x.id == id :: e.state == Running && x == e.(state := Cancelled))
  {
    var i := IndexOf(c.timers, id);
    e := c.timers[i];
    if e.state == Pending {
      WithoutKeepsDistinct(c.timers, [id]);
    } else {
      var timers' := c.timers[i := e.(state := Cancelled)];
      forall x | x in timers' ensures if x.id == id then x == e.(state := Cancelled) else x in c.timers {
        var j :| 0 <= j < |timers'| && timers'[j] == x;
        assert j != i ==> c.timers[j] == x && x.id != id;
      }
    }
  }

  lemma CancelKeepsTable(w: World, id: TimerId)
    requires TableInv(w)
    ensures TableInv(AfterCancel(w, id))
  {
    hide Cancel, Without, IndexOf, TaskFor, Held;
    var w' := AfterCancel(w, id);
    if Cancel(w.core, id).1 == Success {
      var e0 := CancelEffect(w.core, id);
      var i := IndexOf(w.core.timers, id);
      if w.loc.Executing? {
        forall k | 0 <= k < |w.loc.batch| ensures Held(w'.core.timers, w.loc.batch[k], w.clock) {
          CancelKeepsHeld(w.core.timers, i, w.loc.batch[k], w.clock);
        }
      }
    }
  }

  lemma CancelKeepsHeld(timers: seq<Entry>, i: nat, task: Task, clock: Time)
    requires Distinct(timers) && i < |timers| && Held(timers, task, clock)
    ensures timers[i].state == Pending ==> Held(Without(timers, [timers[i].id]), task, clock)
    ensures Held(timers[i := timers[i].(state := Cancelled)], task, clock)
  {
    hide Without;
    var e :| e in timers && Matches(e, task, clock);
    var j :| 0 <= j < |timers| && timers[j] == e;
    if timers[i].state == Pending {
      assert e in Without(timers, [timers[i].id]);
    }
    var timers' := timers[i := timers[i].(state := Cancelled)];
    assert timers'[j] in timers' && Matches(timers'[j], task, clock);
  }

  lemma CollectedIsHeld(timers: seq<Entry>, at: Time, k: nat)
    requires Distinct(timers) && k < |DueTasks(timers, at)|
    ensures Held(Marked(timers, at), DueTasks(timers, at)[k], at)
  {
    DueTasksAreTheDueTimers(timers, at);
    hide DueTasks, Marked;
    var timers', task := Marked(timers, at), DueTasks(timers, at)[k];
    assert IsDueTask(timers, at, task);
    var i :| 0 <= i < |timers| && Due(timers[i], at) && task == TaskOf(timers[i]);
    assert timers'[i] in timers' && Matches(timers'[i], task, at);
  }

  /** A marked entry is one of the table; if it was due, it is in the batch. */
  lemma MarkedOrigin(timers: seq<Entry>, at: Time, e: Entry) returns (o: Entry)
    requires Distinct(timers) && e in Marked(timers, at)
    ensures o in timers && e == Mark(o, at)
    ensures Due(o, at) ==> TaskFor(DueTasks(timers, at), o.id).Some?
  {
    hide DueTasks, Marked, TaskFor;
    DueTasksAreTheDueTimers(timers, at);
    var i :| 0 <= i < |timers| && Marked(timers, at)[i] == e;
    o := timers[i];
    if Due(o, at) {
      assert IsDueTask(timers, at, TaskOf(o));
      assert TaskOf(o) in DueTasks(timers, at);
    }
  }

  lemma MarkedKeepsDistinct(timers: seq<Entry>, at: Time)
    requires Distinct(timers)
    ensures Distinct(Marked(timers, at))
  {
  }

  lemma CollectKeepsTable(w: World, at: Time)
    requires TableInv(w) && !w.loc.Executing? && w.clock <= at
    requires w.loc != NotStarted && w.loc != Exited
    ensures TableInv(Collect(w, at))
  {
    hide DueTasks, TaskFor, Marked, Held, Distinct, DistinctTasks;
    var timers, timers', batch := w.core.timers, Marked(w.core.timers, at), DueTasks(w.core.timers, at);
    if w.core.running {
      DueTasksAreTheDueTimers(timers, at);
      MarkedKeepsDistinct(timers, at);
      forall k | 0 <= k < |batch| ensures Held(timers', batch[k], at) {
        CollectedIsHeld(timers, at, k);
      }
      forall e | e in timers' ensures 0 < e.id < w.core.nextId && (e.mode == Periodic ==> e.period > 0)
        && (e.state != Pending ==> TaskFor(batch, e.id).Some?)
      {
        var o := MarkedOrigin(timers, at, e);
      }
    }
  }

  lemma CallbackStartsKeepsTable(w: World, at: Time)
    requires TableInv(w) && Enabled(w, CallbackStarts(at))
    ensures TableInv(AfterCallbackStarts(w, at))
  {
    forall k | 0 <= k < |w.loc.batch| ensures Held(w.core.timers, w.loc.batch[k], at) {
      assert Held(w.core.timers, w.loc.batch[k], w.clock);
      var e :| e in w.core.timers && Matches(e, w.loc.batch[k], w.clock);
      assert Matches(e, w.loc.batch[k], at);
    }
  }

  lemma HeldIgnoresThrew(timers: seq<Entry>, task: Task, clock: Time, threw: bool)
    requires Held(timers, task, clock)
    ensures Held(timers, task.(threw := threw), clock)
  {
    var e :| e in timers && Matches(e, task, clock);
    assert Matches(e, task.(threw := threw), clock);
  }

  lemma SameTasks(batch: seq<Task>, batch': seq<Task>, id: TimerId)
    requires |batch'| == |batch| && forall k | 0 <= k < |batch| :: batch'[k].id == batch[k].id
    requires TaskFor(batch, id).Some?
    ensures TaskFor(batch', id).Some?
  {
    hide TaskFor;
    var k := TaskFor(batch, id);
    assert batch'[k.value].id == id;
  }

  lemma CallbackReturnsKeepsTable(w: World, threw: bool)
    requires TableInv(w) && Enabled(w, CallbackReturns(threw))
    ensures TableInv(AfterCallbackReturns(w, threw))
  {
    hide TaskFor, Held;
    var k0, batch, batch' := w.loc.next - 1, w.loc.batch, AfterCallbackReturns(w, threw).loc.batch;
    HeldIgnoresThrew(w.core.timers, batch[k0], w.clock, threw);
    forall e | e in w.core.timers && e.state != Pending ensures TaskFor(batch', e.id).Some? {
      SameTasks(batch, batch', e.id);
    }
  }

  /** After reconciling, every timer left is PENDING again. */
  lemma ReconcileKeepsTable(w: World, times: seq<Time>)
    requires TableInv(w) && Enabled(w, ReconcileBatch(times))
    ensures TableInv(AfterReconcile(w, times))
  {
    hide Reconcile, RearmLog, TaskFor, Held, Distinct;
    var timers, batch := w.core.timers, w.loc.batch;
    ReconcileKeepsDistinct(timers, batch, times);
    forall e' | e' in Reconcile(timers, batch, times)
      ensures e'.state == Pending && 0 < e'.id < w.core.nextId && (e'.mode == Periodic ==> e'.period > 0)
    {
      var i := ReconcileOrigin(timers, batch, times, e');
      assert timers[i] in timers;
    }
  }

  lemma StepKeepsTable(w: World, e: Event)
    requires TableInv(w) && Enabled(w, e)
    ensures TableInv(Step(w, e))
  {
    hide AfterSchedule, AfterCancel, AfterCallbackStarts, AfterCallbackReturns, AfterReconcile, Collect, Earliest;
    hide TaskFor, Held, Distinct, DistinctTasks;
    match e
    case Start(created) =>
    case Stop =>
    case Join =>
    case ScheduleTimer(kind, hasCallback, at) => ScheduleKeepsTable(w, kind, hasCallback, at);
    case CancelTimer(id) => CancelKeepsTable(w, id);
    case LoopTop(at) => CollectKeepsTable(w, at);
    case WaitEnds(at, timedOut) => CollectKeepsTable(w, at);
    case CallbackStarts(at) => CallbackStartsKeepsTable(w, at);
    case CallbackReturns(threw) => CallbackReturnsKeepsTable(w, threw);
    case ReconcileBatch(times) => ReconcileKeepsTable(w, times);
  }

  // ---------------------------------------------------------------------------
  // The wake-up protocol
  // ---------------------------------------------------------------------------

  /**
   * A parked thread either has been notified of what changed since it computed
   * its target, or its target is still the earliest deadline.
   */
  ghost predicate ParkInv(w: World) {
    w.loc.Parked? ==>
      if w.core.running && !w.core.reschedule then w.loc.deadline == Earliest(w.core.timers) else w.loc.woken
  }

  lemma StepKeepsPark(w: World, e: Event)
    requires TableInv(w) && ParkInv(w) && Enabled(w, e)
    ensures ParkInv(Step(w, e))
  {
    hide Earliest, Reconcile, Marked, DueTasks, RearmLog;
    if e.CancelTimer? && w.loc.Parked? {
      var i := IndexOf(w.core.timers, e.id);
      if i < |w.core.timers| {
        assert w.core.timers[i] in w.core.timers;
      }
    }
  }
}
