/**
 * What the log of a run keeps: nothing in it contradicts a successful Cancel,
 * and every deadline is where the timer's past firings put it.
 */
module TimerHistory {
  import opened Basics
  import opened TimerTable
  import opened TimerRuns

  // ---------------------------------------------------------------------------
  // Cancellation
  // ---------------------------------------------------------------------------

  /** The verdict on a log: nothing in it contradicts an earlier successful Cancel. */
  ghost predicate CancelsAreFinal(log: seq<Obs>) {
    && (forall i, j | 0 <= i < j < |log| && log[i].CancelSucceeded? && log[j].CancelSucceeded? ::
          log[i].id != log[j].id)
    && (forall i, j | 0 <= i < j < |log| && log[i].CancelSucceeded? && log[j].Rearmed? :: log[i].id != log[j].id)
    && (forall i, j | 0 <= i < j < |log| && log[i].CancelSucceeded? && log[i].wasPending && log[j].Fired? ::
          log[i].id != log[j].id)
    && (forall i, j, k | 0 <= i < j < k < |log| && log[i].CancelSucceeded? && log[j].Fired? && log[k].Fired? ::
          !(log[i].id == log[j].id == log[k].id))
  }

  /** Has timer `id`, once cancelled, not fired since? */
  ghost predicate QuietSinceCancel(log: seq<Obs>, id: TimerId) {
    forall i, j | 0 <= i < j < |log| && log[i].CancelSucceeded? && log[j].Fired? :: !(log[i].id == log[j].id == id)
  }

  ghost predicate NeverCancelled(log: seq<Obs>, id: TimerId) {
    forall i | 0 <= i < |log| && log[i].CancelSucceeded? :: log[i].id != id
  }

  ghost predicate OnlyCancelledWhileRunning(log: seq<Obs>, id: TimerId) {
    forall i | 0 <= i < |log| && log[i].CancelSucceeded? && log[i].id == id :: !log[i].wasPending
  }

  /** When may an observation follow a log? */
  ghost predicate Admits(log: seq<Obs>, o: Obs) {
    match o
    case Scheduled(_, _, _) => true
    case CancelSucceeded(id, _) => NeverCancelled(log, id)
    case Fired(id, _, _) => QuietSinceCancel(log, id) && OnlyCancelledWhileRunning(log, id)
    case Rearmed(id, _, _, _) => NeverCancelled(log, id)
  }

  lemma AppendKeepsFinal(log: seq<Obs>, o: Obs)
    requires CancelsAreFinal(log) && Admits(log, o)
    ensures CancelsAreFinal(log + [o])
  {
  }

  lemma {:induction false} AppendRearmsKeepsFinal(log: seq<Obs>, more: seq<Obs>)
    requires CancelsAreFinal(log) && forall o | o in more :: o.Rearmed? && NeverCancelled(log, o.id)
    ensures CancelsAreFinal(log + more)
    decreases |more|
  {
    if more == [] {
      assert log + more == log;
    } else {
      var o := more[0];
      AppendKeepsFinal(log, o);
      AppendRearmsKeepsFinal(log + [o], more[1..]);
      assert log + more == (log + [o]) + more[1..];
    }
  }

  /** An entry still in the table tells what the log may say about its cancellation. */
  ghost predicate EntryCancel(log: seq<Obs>, e: Entry) {
    OnlyCancelledWhileRunning(log, e.id) && (e.state != Cancelled ==> NeverCancelled(log, e.id))
  }

  ghost predicate IdsInUse(log: seq<Obs>, nextId: TimerId) {
    forall i | 0 <= i < |log| :: 0 < log[i].id < nextId
  }

  ghost predicate CancelInv(w: World) {
    && IdsInUse(w.log, w.core.nextId)
    && CancelsAreFinal(w.log)
    && (forall e | e in w.core.timers :: EntryCancel(w.log, e))
    && (w.loc.Executing? ==>
          forall k | 0 <= w.loc.next <= k < |w.loc.batch| :: QuietSinceCancel(w.log, w.loc.batch[k].id))
  }

  lemma ScheduleKeepsCancel(w: World, kind: Kind, hasCallback: bool, at: Time)
    requires TableInv(w) && CancelInv(w) && w.clock <= at
    ensures CancelInv(AfterSchedule(w, kind, hasCallback, at))
  {
    hide CancelsAreFinal, BatchInv;
    var log' := w.log + [Scheduled(w.core.nextId, at, kind)];
    AppendKeepsFinal(w.log, Scheduled(w.core.nextId, at, kind));
    assert forall id | QuietSinceCancel(w.log, id) :: QuietSinceCancel(log', id);
    assert forall e | EntryCancel(w.log, e) :: EntryCancel(log', e);
  }

  lemma CancelKeepsCancel(w: World, id: TimerId)
    requires TableInv(w) && CancelInv(w)
    ensures CancelInv(AfterCancel(w, id))
  {
    hide CancelsAreFinal, Cancel, Without, IndexOf, BatchInv;
    if Cancel(w.core, id).1 == Success {
      var e0 := CancelEffect(w.core, id);
      assert EntryCancel(w.log, e0);
      AppendKeepsFinal(w.log, CancelSucceeded(id, e0.state == Pending));
    }
  }

  lemma CollectKeepsCancel(w: World, at: Time)
    requires TableInv(w) && CancelInv(w) && !w.loc.Executing? && w.clock <= at
    ensures CancelInv(Collect(w, at))
  {
    hide CancelsAreFinal, DueTasks, Marked, TaskFor;
    var timers, timers', batch := w.core.timers, Marked(w.core.timers, at), DueTasks(w.core.timers, at);
    forall e | e in timers' ensures EntryCancel(w.log, e) {
      var i :| 0 <= i < |timers'| && timers'[i] == e;
      assert timers[i] in timers;
    }
    DueTasksAreTheDueTimers(timers, at);
    forall k | 0 <= k < |batch| ensures QuietSinceCancel(w.log, batch[k].id) {
      assert batch[k] in batch;
      var i :| 0 <= i < |timers| && Due(timers[i], at) && batch[k] == TaskOf(timers[i]);
      assert timers[i] in timers;
    }
  }

  lemma CallbackStartsKeepsCancel(w: World, at: Time)
    requires TableInv(w) && CancelInv(w) && Enabled(w, CallbackStarts(at))
    ensures CancelInv(AfterCallbackStarts(w, at))
  {
    hide IndexOf, TaskFor, CancelsAreFinal;
    var task := w.loc.batch[w.loc.next];
    assert Held(w.core.timers, task, w.clock);
    var e :| e in w.core.timers && Matches(e, task, w.clock);
    assert EntryCancel(w.log, e);
    var o := AfterCallbackStarts(w, at).log[|w.log|];
    AppendKeepsFinal(w.log, o);
  }

  lemma ReconcileKeepsCancel(w: World, times: seq<Time>)
    requires TableInv(w) && CancelInv(w) && Enabled(w, ReconcileBatch(times))
    ensures CancelInv(AfterReconcile(w, times))
  {
    hide CancelsAreFinal, Reconcile, RearmLog, TaskFor, IndexOf;
    var timers, batch, more := w.core.timers, w.loc.batch, RearmLog(w.core.timers, w.loc.batch, times);
    RearmLogEntries(timers, batch, times);
    forall o | o in more ensures o.Rearmed? && NeverCancelled(w.log, o.id) && 0 < o.id < w.core.nextId {
      var k :| 0 <= k < |batch| && RearmOf(timers, batch[k], times[k]) == Some(o);
      var e := timers[IndexOf(timers, batch[k].id)];
      assert e in timers && EntryCancel(w.log, e);
    }
    AppendRearmsKeepsFinal(w.log, more);
    forall e' | e' in Reconcile(timers, batch, times) ensures EntryCancel(w.log + more, e') {
      var i := ReconcileOrigin(timers, batch, times, e');
      assert timers[i] in timers && EntryCancel(w.log, timers[i]);
    }
  }

  lemma StepKeepsCancel(w: World, e: Event)
    requires TableInv(w) && CancelInv(w) && Enabled(w, e)
    ensures CancelInv(Step(w, e))
  {
    hide TableInv, CancelInv, Collect, AfterSchedule, AfterCancel, AfterCallbackStarts, AfterReconcile;
    match e
    case Start(created) => QuietSteps(w, e);
    case Stop => QuietSteps(w, e);
    case Join => QuietSteps(w, e);
    case ScheduleTimer(kind, hasCallback, at) => ScheduleKeepsCancel(w, kind, hasCallback, at);
    case CancelTimer(id) => CancelKeepsCancel(w, id);
    case LoopTop(at) =>
      CollectKeepsCancel(w, at);
      QuietSteps(w, e);
    case WaitEnds(at, timedOut) =>
      CollectKeepsCancel(w, at);
      QuietSteps(w, e);
    case CallbackStarts(at) => CallbackStartsKeepsCancel(w, at);
    case CallbackReturns(threw) => QuietSteps(w, e);
    case ReconcileBatch(times) => ReconcileKeepsCancel(w, times);
  }

  /** The steps that neither touch the table nor observe anything. */
  ghost predicate Quiet(w: World, e: Event) {
    match e
    case Start(_) => true
    case Stop => true
    case Join => true
    case CallbackReturns(_) => true
    case LoopTop(at) => !w.core.running || !w.core.reschedule || Earliest(w.core.timers).None?
    case WaitEnds(at, timedOut) =>
      w.loc.Parked? && (w.loc.deadline.None? || (w.core.running && !w.core.reschedule && !timedOut))
    case _ => false
  }

  lemma QuietSteps(w: World, e: Event)
    requires CancelInv(w) && Enabled(w, e)
    ensures Quiet(w, e) ==> CancelInv(Step(w, e))
  {
    hide CancelsAreFinal, Earliest, EntryCancel;
  }

  // ---------------------------------------------------------------------------
  // Rate
  // ---------------------------------------------------------------------------

  /** How often has timer `id` fired? */
  ghost function Fires(log: seq<Obs>, id: TimerId): nat {
    if log == [] then 0
    else
      var last := log[|log| - 1];
      Fires(log[..|log| - 1], id) + (if last.Fired? && last.id == id then 1 else 0)
  }

  lemma FiresAppend(log: seq<Obs>, o: Obs, id: TimerId)
    ensures Fires(log + [o], id) == Fires(log, id) + (if o.Fired? && o.id == id then 1 else 0)
  {
    assert (log + [o])[..|log|] == log;
  }

  lemma {:induction false} FiresAppendRearms(log: seq<Obs>, more: seq<Obs>, id: TimerId)
    requires forall o | o in more :: o.Rearmed?
    ensures Fires(log + more, id) == Fires(log, id)
    decreases |more|
  {
    if more == [] {
      assert log + more == log;
    } else {
      assert more[0] in more;
      FiresAppend(log, more[0], id);
      FiresAppendRearms(log + [more[0]], more[1..], id);
      assert log + more == (log + [more[0]]) + more[1..];
    }
  }

  lemma {:induction false} UnusedNeverFired(log: seq<Obs>, id: TimerId)
    requires forall i | 0 <= i < |log| :: log[i].id != id
    ensures Fires(log, id) == 0
  {
    if log != [] {
      UnusedNeverFired(log[..|log| - 1], id);
    }
  }

  /** The `n`-th point of the grid that starts at `at` with the given period. */
  ghost function Grid(at: Time, period: int, n: nat): Time {
    if n == 0 then at else Grid(at, period, n - 1) + period
  }

  lemma {:induction false} GridIsLinear(at: Time, period: int, n: nat)
    ensures Grid(at, period, n) == at + n * period
  {
    if n > 0 {
      GridIsLinear(at, period, n - 1);
      assert (n - 1) * period + period == n * period;
    }
  }

  /** Was timer `id` ever re-armed a whole period late, so that the cap applied? */
  ghost predicate EverCapped(log: seq<Obs>, id: TimerId, period: int) {
    exists o :: o in log && o.Rearmed? && o.id == id && Capped(o.due, period, o.at)
  }

  /** Has the callback of `id` in the current batch already been started? */
  ghost predicate Started(loc: Loc, id: TimerId) {
    loc.Executing? && TaskFor(loc.batch, id).Some? && TaskFor(loc.batch, id).value < loc.next
  }

  /**
   * The deadline of a timer scheduled at `at`, against how often it has fired:
   * on the grid of a FIXED_RATE timer never capped, at or after it otherwise.
   */
  ghost predicate OnSchedule(log: seq<Obs>, started: bool, e: Entry, at: Time, kind: Kind) {
    var n := Fires(log, e.id);
    match kind
    case After(delay) =>
      e.mode == OneShot && e.nextFire == at + delay && n == (if started then 1 else 0)
    case Every(period, mode) =>
      var k := if started then n else n + 1;
      && e.mode == Periodic && e.period == period && e.periodMode == mode
      && Grid(at, period, k) <= e.nextFire
      && (mode == FixedRate && !EverCapped(log, e.id, period) ==> e.nextFire == Grid(at, period, k))
  }

  ghost predicate WithinRate(log: seq<Obs>, clock: Time, id: TimerId, at: Time, kind: Kind) {
    match kind
    case After(_) => Fires(log, id) <= 1
    case Every(period, _) => Grid(at, period, Fires(log, id)) <= clock
  }

  ghost predicate Obeys(w: World, o: Obs)
    requires o.Scheduled?
  {
    && Interval(o.kind) > 0
    && WithinRate(w.log, w.clock, o.id, o.at, o.kind)
    && forall e | e in w.core.timers && e.id == o.id :: OnSchedule(w.log, Started(w.loc, e.id), e, o.at, o.kind)
  }

  ghost predicate RateInv(w: World) {
    && (forall o | o in w.log && o.Scheduled? :: Obeys(w, o))
    && (forall e | e in w.core.timers :: WasScheduled(w.log, e.id))
  }

  ghost predicate WasScheduled(log: seq<Obs>, id: TimerId) {
    exists o :: o in log && o.Scheduled? && o.id == id
  }

  /** A step that leaves the observed fires, the entry and its progress in the batch alone. */
  lemma OnScheduleKept(log: seq<Obs>, log': seq<Obs>, started: bool, e: Entry, at: Time, kind: Kind)
    requires OnSchedule(log, started, e, at, kind) && log <= log' && Fires(log', e.id) == Fires(log, e.id)
    ensures OnSchedule(log', started, e, at, kind)
  {
    forall o | o in log ensures o in log' {
      var i :| 0 <= i < |log| && log[i] == o;
      assert log'[i] == o;
    }
  }

  lemma ObeysKept(w: World, w': World, o: Obs)
    requires o.Scheduled? && Obeys(w, o) && w.log <= w'.log && w.clock <= w'.clock
    requires Fires(w'.log, o.id) == Fires(w.log, o.id)
    requires forall e | e in w'.core.timers && e.id == o.id ::
      Started(w'.loc, e.id) == Started(w.loc, e.id)
      && exists e0 :: e0 in w.core.timers && e0.(state := e.state) == e
    ensures Obeys(w', o)
  {
    hide Started;
    forall e | e in w'.core.timers && e.id == o.id
      ensures OnSchedule(w'.log, Started(w'.loc, e.id), e, o.at, o.kind)
    {
      var e0 :| e0 in w.core.timers && e0.(state := e.state) == e;
      assert OnSchedule(w.log, Started(w.loc, e.id), e, o.at, o.kind);
      OnScheduleKept(w.log, w'.log, Started(w.loc, e.id), e, o.at, o.kind);
    }
  }

  lemma ScheduledKept(log: seq<Obs>, log': seq<Obs>, id: TimerId)
    requires WasScheduled(log, id) && log <= log'
    ensures WasScheduled(log', id)
  {
    var o :| o in log && o.Scheduled? && o.id == id;
    var i :| 0 <= i < |log| && log[i] == o;
    assert log'[i] == o;
  }

  lemma InLog(log: seq<Obs>, nextId: TimerId, o: Obs)
    requires IdsInUse(log, nextId) && o in log
    ensures 0 < o.id < nextId
  {
  }

  /** Steps that observe nothing and change at most the states of entries. */
  lemma SilentKeepsRate(w: World, w': World)
    requires RateInv(w) && w'.log == w.log && w.clock <= w'.clock
    requires forall e | e in w'.core.timers ::
      Started(w'.loc, e.id) == Started(w.loc, e.id)
      && exists e0 :: e0 in w.core.timers && e0.(state := e.state) == e
    ensures RateInv(w')
  {
    hide Obeys, Started, WasScheduled;
    forall o | o in w'.log && o.Scheduled? ensures Obeys(w', o) {
      ObeysKept(w, w', o);
    }
  }

  lemma ScheduleKeepsRate(w: World, kind: Kind, hasCallback: bool, at: Time)
    requires TableInv(w) && CancelInv(w) && RateInv(w) && w.clock <= at
    ensures RateInv(AfterSchedule(w, kind, hasCallback, at))
  {
    hide Obeys, WasScheduled, Started, BatchInv, CancelsAreFinal, EntryCancel;
    var w', id := AfterSchedule(w, kind, hasCallback, at), w.core.nextId;
    if Schedule(w.core, kind, hasCallback, at).1 == Success {
      var o' := Scheduled(id, at, kind);
      NewTimerObeys(w, kind, hasCallback, at);
      forall o | o in w'.log && o.Scheduled? ensures Obeys(w', o) {
        if o != o' {
          assert o in w.log;
          InLog(w.log, id, o);
          FiresAppend(w.log, o', o.id);
          StartedAfterNotify(w.loc, o.id);
          assert forall e | e in w'.core.timers && e.id == o.id :: e in w.core.timers && e.(state := e.state) == e;
          ObeysKept(w, w', o);
        }
      }
      forall e | e in w'.core.timers ensures WasScheduled(w'.log, e.id) {
        if e in w.core.timers {
          ScheduledKept(w.log, w'.log, e.id);
        } else {
          NewlyScheduled(w'.log, o');
        }
      }
    } else {
      assert forall e | e in w'.core.timers :: e in w.core.timers && e.(state := e.state) == e;
      SilentKeepsRate(w, w');
    }
  }

  lemma NewlyScheduled(log: seq<Obs>, o: Obs)
    requires o in log && o.Scheduled?
    ensures WasScheduled(log, o.id)
  {
  }

  lemma StartedAfterNotify(loc: Loc, id: TimerId)
    ensures Started(Notified(loc), id) == Started(loc, id)
  {
  }

  lemma BatchIdsInUse(w: World)
    requires TableInv(w)
    ensures w.loc.Executing? ==> forall k | 0 <= k < |w.loc.batch| :: w.loc.batch[k].id < w.core.nextId
  {
    if w.loc.Executing? {
      forall k | 0 <= k < |w.loc.batch| ensures w.loc.batch[k].id < w.core.nextId {
        assert Held(w.core.timers, w.loc.batch[k], w.clock);
      }
    }
  }

  lemma NewTimerObeys(w: World, kind: Kind, hasCallback: bool, at: Time)
    requires TableInv(w) && CancelInv(w)
    requires Schedule(w.core, kind, hasCallback, at).1 == Success
    ensures Obeys(AfterSchedule(w, kind, hasCallback, at), Scheduled(w.core.nextId, at, kind))
  {
    hide CancelsAreFinal, EntryCancel, QuietSinceCancel, BatchInv, TaskFor, Fires, Started, Distinct, Grid;
    var w', id := AfterSchedule(w, kind, hasCallback, at), w.core.nextId;
    UnusedNeverFired(w.log, id);
    FiresAppend(w.log, Scheduled(id, at, kind), id);
    forall o | o in w'.log && o.Rearmed? ensures o.id != id {
      InLog(w.log, id, o);
    }
    NotStartedYet(w, id);
    StartedAfterNotify(w.loc, id);
    if kind.Every? {
      GridIsLinear(at, kind.period, 0);
      GridIsLinear(at, kind.period, 1);
    }
  }

  lemma NotStartedYet(w: World, id: TimerId)
    requires TableInv(w) && id >= w.core.nextId
    ensures !Started(w.loc, id)
  {
    hide TaskFor;
    BatchIdsInUse(w);
  }

  lemma CancelKeepsRate(w: World, id: TimerId)
    requires TableInv(w) && RateInv(w)
    ensures RateInv(AfterCancel(w, id))
  {
    hide Obeys, WasScheduled, Started, BatchInv, Cancel, Without, IndexOf;
    var w' := AfterCancel(w, id);
    if Cancel(w.core, id).1 == Success {
      var e0 := CancelEffect(w.core, id);
      assert w'.log == w.log + [w'.log[|w.log|]];
      forall e | e in w'.core.timers ensures exists x :: x in w.core.timers && x.(state := e.state) == e {
        if e.id == id {
          assert e0 in w.core.timers && e0.(state := e.state) == e;
        } else {
          assert e in w.core.timers && e.(state := e.state) == e;
        }
      }
      forall o | o in w'.log && o.Scheduled? ensures Obeys(w', o) {
        FiresAppend(w.log, w'.log[|w.log|], o.id);
        StartedAfterNotify(w.loc, o.id);
        ObeysKept(w, w', o);
      }
      forall e | e in w'.core.timers ensures WasScheduled(w'.log, e.id) {
        ScheduledKept(w.log, w'.log, e.id);
      }
    }
  }

  lemma CollectKeepsRate(w: World, at: Time)
    requires TableInv(w) && RateInv(w) && !w.loc.Executing? && w.clock <= at
    ensures RateInv(Collect(w, at))
  {
    hide RateInv, TableInv, DueTasks;
    var w' := Collect(w, at);
    forall e | e in w'.core.timers ensures exists x :: x in w.core.timers && x.(state := e.state) == e {
      var i :| 0 <= i < |w'.core.timers| && w'.core.timers[i] == e;
      assert w.core.timers[i] in w.core.timers && w.core.timers[i].(state := e.state) == e;
    }
    SilentKeepsRate(w, w');
  }

  /** The timer whose callback starts: it had not started before, and its deadline has passed. */
  lemma StartingTimer(w: World, at: Time) returns (e: Entry)
    requires TableInv(w) && Enabled(w, CallbackStarts(at))
    ensures var task := w.loc.batch[w.loc.next];
      && e in w.core.timers && e.id == task.id && e.nextFire <= w.clock
      && e == w.core.timers[IndexOf(w.core.timers, task.id)]
      && !Started(w.loc, e.id) && Started(AfterCallbackStarts(w, at).loc, e.id)
    ensures forall x | x in w.core.timers && x.id == e.id :: x == e
    ensures forall id | id != e.id :: Started(AfterCallbackStarts(w, at).loc, id) == Started(w.loc, id)
  {
    hide IndexOf, TaskFor, Started;
    var task := w.loc.batch[w.loc.next];
    assert Held(w.core.timers, task, w.clock);
    e :| e in w.core.timers && Matches(e, task, w.clock);
    var i :| 0 <= i < |w.core.timers| && w.core.timers[i] == e;
    UniqueIndex(w.core.timers, i);
    StartingAdvances(w.loc, w.loc.(next := w.loc.next + 1, inCallback := true));
  }

  lemma StartingAdvances(loc: Loc, loc': Loc)
    requires loc.Executing? && loc'.Executing? && DistinctTasks(loc.batch) && loc.next < |loc.batch|
    requires loc'.batch == loc.batch && loc'.next == loc.next + 1
    ensures !Started(loc, loc.batch[loc.next].id) && Started(loc', loc.batch[loc.next].id)
    ensures forall id | id != loc.batch[loc.next].id :: Started(loc', id) == Started(loc, id)
  {
    hide TaskFor;
    UniqueTask(loc.batch, loc.next);
  }

  lemma CallbackStartsKeepsRate(w: World, at: Time)
    requires TableInv(w) && RateInv(w) && Enabled(w, CallbackStarts(at))
    ensures RateInv(AfterCallbackStarts(w, at))
  {
    hide TableInv, IndexOf, TaskFor, Started, WasScheduled, EverCapped;
    var w', e := AfterCallbackStarts(w, at), w.core.timers[IndexOf(w.core.timers, w.loc.batch[w.loc.next].id)];
    var x := StartingTimer(w, at);
    var f := Fired(e.id, at, e.nextFire);
    assert w'.log == w.log + [f];
    forall o | o in w'.log && o.Scheduled? ensures Obeys(w', o) {
      assert o in w.log && Obeys(w, o);
      FiresAppend(w.log, f, o.id);
      if o.id == e.id {
        FiringObeys(w, w', o, e);
      } else {
        assert forall y | y in w'.core.timers && y.id == o.id :: y in w.core.timers && y.(state := y.state) == y;
        ObeysKept(w, w', o);
      }
    }
    forall y | y in w'.core.timers ensures WasScheduled(w'.log, y.id) {
      ScheduledKept(w.log, w'.log, y.id);
    }
  }

  lemma FiringObeys(w: World, w': World, o: Obs, e: Entry)
    requires o.Scheduled? && Obeys(w, o) && e in w.core.timers && e.id == o.id && e.nextFire <= w.clock <= w'.clock
    requires w.log <= w'.log && Fires(w'.log, e.id) == Fires(w.log, e.id) + 1 && w'.core.timers == w.core.timers
    requires !Started(w.loc, e.id) && Started(w'.loc, e.id)
    requires forall x | x in w.core.timers && x.id == e.id :: x == e
    ensures Obeys(w', o)
  {
    hide Started;
    assert OnSchedule(w.log, false, e, o.at, o.kind);
    forall c | c in w.log ensures c in w'.log {
      var i :| 0 <= i < |w.log| && w.log[i] == c;
      assert w'.log[i] == c;
    }
    assert OnSchedule(w'.log, true, e, o.at, o.kind);
  }

  lemma CallbackReturnsKeepsRate(w: World, threw: bool)
    requires TableInv(w) && RateInv(w) && Enabled(w, CallbackReturns(threw))
    ensures RateInv(AfterCallbackReturns(w, threw))
  {
    hide TableInv, RateInv, TaskFor;
    var w' := AfterCallbackReturns(w, threw);
    forall e | e in w'.core.timers ensures Started(w'.loc, e.id) == Started(w.loc, e.id) {
      SameTaskFor(w.loc.batch, w'.loc.batch, e.id);
    }
    assert forall e | e in w'.core.timers :: e in w.core.timers && e.(state := e.state) == e;
    SilentKeepsRate(w, w');
  }

  lemma {:induction false} SameTaskFor(batch: seq<Task>, batch': seq<Task>, id: TimerId)
    requires |batch'| == |batch| && forall k | 0 <= k < |batch| :: batch'[k].id == batch[k].id
    ensures TaskFor(batch', id) == TaskFor(batch, id)
  {
    if batch != [] {
      SameTaskFor(batch[..|batch| - 1], batch'[..|batch| - 1], id);
    }
  }

  /** Re-arming moves a timer that has fired `n` times to, or past, the next point of its grid. */
  lemma RearmStaysOnSchedule(
    log: seq<Obs>, log': seq<Obs>, e: Entry, task: Task, now: Time, at: Time, kind: Kind)
    requires OnSchedule(log, true, e, at, kind) && Interval(kind) > 0 && e.nextFire <= now
    requires task.mode == e.mode == Periodic && task.period == e.period && task.periodMode == e.periodMode
    requires log <= log' && Fires(log', e.id) == Fires(log, e.id)
    requires Rearmed(e.id, e.nextFire, now, Rearm(e, task, now).nextFire) in log'
    ensures OnSchedule(log', false, Rearm(e, task, now), at, kind)
  {
    RearmBounds(task.periodMode, e.nextFire, task.period, now);
    forall o | o in log ensures o in log' {
      var i :| 0 <= i < |log| && log[i] == o;
      assert log'[i] == o;
    }
    if kind.Every? {
      assert Grid(at, kind.period, Fires(log, e.id) + 1) == Grid(at, kind.period, Fires(log, e.id)) + kind.period;
    }
  }

  lemma ReconcileKeepsRate(w: World, times: seq<Time>)
    requires TableInv(w) && RateInv(w) && Enabled(w, ReconcileBatch(times))
    ensures RateInv(AfterReconcile(w, times))
  {
    hide Reconcile, RearmLog, WasScheduled, OnSchedule, WithinRate, TableInv;
    var w', timers, batch := AfterReconcile(w, times), w.core.timers, w.loc.batch;
    var more := RearmLog(timers, batch, times);
    RearmsOnly(timers, batch, times);
    DistinctInTable(w);
    forall o | o in w'.log && o.Scheduled? ensures Obeys(w', o) {
      assert o in w.log && Obeys(w, o);
      FiresAppendRearms(w.log, more, o.id);
      WithinRateLater(w.log, w'.log, w.clock, w'.clock, o.id, o.at, o.kind);
      forall e' | e' in w'.core.timers && e'.id == o.id ensures OnSchedule(w'.log, false, e', o.at, o.kind) {
        ReconciledOnSchedule(w, times, o, e');
      }
    }
    forall e' | e' in w'.core.timers ensures WasScheduled(w'.log, e'.id) {
      var i := ReconcileOrigin(timers, batch, times, e');
      assert timers[i] in timers;
      ScheduledKept(w.log, w'.log, e'.id);
    }
  }

  lemma RearmsOnly(timers: seq<Entry>, batch: seq<Task>, times: seq<Time>)
    requires |times| == |batch|
    ensures forall o | o in RearmLog(timers, batch, times) :: o.Rearmed?
  {
    RearmLogEntries(timers, batch, times);
  }

  lemma DistinctInTable(w: World)
    requires TableInv(w)
    ensures Distinct(w.core.timers) && (w.loc.Executing? ==> DistinctTasks(w.loc.batch))
  {
  }

  lemma WithinRateLater(log: seq<Obs>, log': seq<Obs>, clock: Time, clock': Time, id: TimerId, at: Time, kind: Kind)
    requires WithinRate(log, clock, id, at, kind) && clock <= clock' && Fires(log', id) == Fires(log, id)
    ensures WithinRate(log', clock', id, at, kind)
  {
  }

  lemma ReconciledOnSchedule(w: World, times: seq<Time>, o: Obs, e': Entry)
    requires TableInv(w) && Enabled(w, ReconcileBatch(times))
    requires o.Scheduled? && Obeys(w, o)
    requires e' in Reconcile(w.core.timers, w.loc.batch, times) && e'.id == o.id
    ensures OnSchedule(w.log + RearmLog(w.core.timers, w.loc.batch, times), false, e', o.at, o.kind)
  {
    hide Reconcile, RearmLog, OnSchedule, WithinRate, TableInv, TaskFor;
    var timers, batch, more := w.core.timers, w.loc.batch, RearmLog(w.core.timers, w.loc.batch, times);
    DistinctInTable(w);
    var i := ReconcileOrigin(timers, batch, times, e');
    var e, k := timers[i], TaskFor(batch, e'.id);
    assert e in timers && OnSchedule(w.log, Started(w.loc, e.id), e, o.at, o.kind);
    RearmsOnly(timers, batch, times);
    FiresAppendRearms(w.log, more, o.id);
    if k.None? {
      OnScheduleKept(w.log, w.log + more, false, e, o.at, o.kind);
    } else {
      RearmedOnSchedule(w, times, o, i, k.value);
    }
  }

  lemma RearmedOnSchedule(w: World, times: seq<Time>, o: Obs, i: nat, k: nat)
    requires TableInv(w) && Enabled(w, ReconcileBatch(times)) && o.Scheduled? && Interval(o.kind) > 0
    requires i < |w.core.timers| && k < |w.loc.batch| && w.loc.batch[k].id == w.core.timers[i].id
    requires Survives(w.core.timers[i], w.loc.batch[k])
    requires OnSchedule(w.log, true, w.core.timers[i], o.at, o.kind)
    ensures OnSchedule(w.log + RearmLog(w.core.timers, w.loc.batch, times), false,
                       Rearm(w.core.timers[i], w.loc.batch[k], times[k]), o.at, o.kind)
  {
    hide RearmLog, OnSchedule, TaskFor;
    var timers, batch, more := w.core.timers, w.loc.batch, RearmLog(w.core.timers, w.loc.batch, times);
    UniqueIndex(timers, i);
    assert Held(timers, batch[k], w.clock);
    RearmLogEntries(timers, batch, times);
    assert RearmOf(timers, batch[k], times[k]).Some?;
    RearmsOnly(timers, batch, times);
    FiresAppendRearms(w.log, more, timers[i].id);
    RearmStaysOnSchedule(w.log, w.log + more, timers[i], batch[k], times[k], o.at, o.kind);
  }

  lemma QuietKeepsRate(w: World, e: Event)
    requires TableInv(w) && RateInv(w) && Enabled(w, e) && Quiet(w, e) && !e.CallbackReturns?
    ensures RateInv(Step(w, e))
  {
    hide RateInv, Earliest;
    var w' := Step(w, e);
    assert forall x | x in w'.core.timers :: x in w.core.timers && x.(state := x.state) == x;
    SilentKeepsRate(w, w');
  }

  lemma StepKeepsRate(w: World, e: Event)
    requires TableInv(w) && CancelInv(w) && RateInv(w) && Enabled(w, e)
    ensures RateInv(Step(w, e))
  {
    hide TableInv, CancelInv, RateInv, Collect, AfterSchedule, AfterCancel, AfterCallbackStarts, AfterReconcile;
    match e
    case ScheduleTimer(kind, hasCallback, at) => ScheduleKeepsRate(w, kind, hasCallback, at);
    case CancelTimer(id) => CancelKeepsRate(w, id);
    case CallbackStarts(at) => CallbackStartsKeepsRate(w, at);
    case CallbackReturns(threw) => CallbackReturnsKeepsRate(w, threw);
    case ReconcileBatch(times) => ReconcileKeepsRate(w, times);
    case LoopTop(at) =>
      if Quiet(w, e) { QuietKeepsRate(w, e); } else { CollectKeepsRate(w, at); }
    case WaitEnds(at, timedOut) =>
      if Quiet(w, e) { QuietKeepsRate(w, e); } else { CollectKeepsRate(w, at); }
    case _ => QuietKeepsRate(w, e);
  }
}
