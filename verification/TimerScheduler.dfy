/**
 * The scheduler object: the fields the mutex protects and the locked sections
 * that update them in place. The scheduler thread itself is in TimerRuns.
 */
module TimerScheduler {
  import opened Basics
  import opened TimerTable

  class Scheduler {
    var timers: seq<Entry>
    var nextId: TimerId
    var running: bool
    var reschedule: bool

    ghost function View(): Core
      reads this
    {
      Core(timers, nextId, running, reschedule)
    }

    constructor ()
      ensures View() == FRESH
    {
      timers := [];
      nextId := 1;
      running := false;
      reschedule := false;
    }

    method Start(created: bool) returns (error: TimerError)
      modifies this`running
      ensures (View(), error) == StartSection(old(View()), created)
      ensures error == if old(running) then AlreadyRunning else if created then Success else ThreadCreationFailed
      ensures running == (old(running) || created)
    {
      if running {
        return AlreadyRunning;
      }
      if !created {
        return ThreadCreationFailed;
      }
      running := true;
      error := Success;
    }

    method Stop() returns (error: TimerError)
      modifies this`running
      ensures (View(), error) == StopSection(old(View()))
      ensures error == if old(running) then Success else NotRunning
      ensures !running
    {
      if !running {
        return NotRunning;
      }
      running := false;
      error := Success;
    }

    method ScheduleOneShot(delay: int, hasCallback: bool, now: Time) returns (error: TimerError, id: Option<TimerId>)
      modifies this
      ensures (View(), error, id) == Schedule(old(View()), After(delay), hasCallback, now)
      ensures ScheduleMeans(old(View()), After(delay), hasCallback, now, View(), error, id)
    {
      id := None;
      if delay <= 0 || !hasCallback {
        return InvalidArgument, None;
      }
      if !running {
        return NotRunning, None;
      }
      if |timers| >= MAX_TIMERS {
        return TimerLimitReached, None;
      }
      id := Some(nextId);
      timers := timers + [Entry(nextId, OneShot, FixedDelay, 0, now + delay, Pending)];
      nextId := nextId + 1;
      reschedule := true;
      error := Success;
    }

    method SchedulePeriodic(period: int, mode: PeriodMode, hasCallback: bool, now: Time)
      returns (error: TimerError, id: Option<TimerId>)
      modifies this
      ensures (View(), error, id) == Schedule(old(View()), Every(period, mode), hasCallback, now)
      ensures ScheduleMeans(old(View()), Every(period, mode), hasCallback, now, View(), error, id)
    {
      id := None;
      if period <= 0 || !hasCallback {
        return InvalidArgument, None;
      }
      if !running {
        return NotRunning, None;
      }
      if |timers| >= MAX_TIMERS {
        return TimerLimitReached, None;
      }
      id := Some(nextId);
      timers := timers + [Entry(nextId, Periodic, mode, period, now + period, Pending)];
      nextId := nextId + 1;
      reschedule := true;
      error := Success;
    }

    method FindEntry(id: TimerId) returns (found: Option<nat>)
      ensures found == if IndexOf(timers, id) < |timers| then Some(IndexOf(timers, id)) else None
    {
      var i := 0;
      while i < |timers|
        invariant i <= |timers|
        invariant forall j | 0 <= j < i :: timers[j].id != id
      {
        if timers[i].id == id {
          return Some(i);
        }
        i := i + 1;
      }
      found := None;
    }

    method CancelTimer(id: TimerId) returns (error: TimerError)
      modifies this
      ensures (View(), error) == Cancel(old(View()), id)
      ensures Distinct(old(timers)) ==> CancelMeans(old(View()), id, View(), error)
    {
      if Distinct(timers) {
        CancelIsExact(View(), id);
      }
      if id == 0 {
        return InvalidArgument;
      }
      var found := FindEntry(id);
      if found.None? {
        return TimerNotFound;
      }
      match timers[found.value].state {
        case Pending =>
          timers := Without(timers, [id]);
          reschedule := true;
          error := Success;
        case Running =>
          timers := timers[found.value := timers[found.value].(state := Cancelled)];
          error := Success;
        case Cancelled =>
          error := TimerNotFound;
      }
    }

    /** Phase 1 of the loop. */
    method EarliestDeadline() returns (deadline: Option<Time>)
      ensures deadline == Earliest(timers)
    {
      deadline := None;
      var i := 0;
      while i < |timers|
        invariant i <= |timers|
        invariant deadline == Earliest(timers[..i])
      {
        assert timers[..i + 1][..i] == timers[..i];
        if timers[i].state == Pending {
          if deadline.None? || timers[i].nextFire < deadline.value {
            deadline := Some(timers[i].nextFire);
          }
        }
        i := i + 1;
      }
      assert timers[..i] == timers;
    }

    /** Phase 3 of the loop: mark the due timers RUNNING and copy them out. */
    method CollectDue(now: Time) returns (batch: seq<Task>)
      modifies this`timers
      ensures timers == Marked(old(timers), now) && MarkMeans(old(timers), now, timers)
      ensures batch == DueTasks(old(timers), now)
      ensures exists positions :: BatchMeans(old(timers), now, batch, positions)
    {
      ghost var positions := CollectIsExact(timers, now);
      MarkIsExact(timers, now);
      batch := [];
      ghost var before := timers;
      var i := 0;
      while i < |timers|
        invariant i <= |timers| == |before|
        invariant forall j | 0 <= j < i :: timers[j] == Mark(before[j], now)
        invariant forall j | i <= j < |timers| :: timers[j] == before[j]
        invariant batch == DueTasks(before[..i], now)
      {
        assert before[..i + 1][..i] == before[..i];
        if timers[i].state == Pending {
          if timers[i].nextFire <= now {
            timers := timers[i := timers[i].(state := Running)];
            batch := batch + [TaskOf(timers[i])];
          }
        }
        i := i + 1;
      }
      assert before[..i] == before;
    }

    /** One task of phase 5: look it up, and re-arm it or report that it is to be erased. */
    method ReconcileTask(task: Task, now: Time) returns (drop: bool)
      modifies this`timers
      ensures drop == Dropped(old(timers), task)
      ensures timers == Settled(old(timers), task, now)
    {
      drop := false;
      var found := FindEntry(task.id);
      if found.Some? {
        var e := timers[found.value];
        if e.state == Cancelled {
          return true;
        }
        if task.threw {
          return true;
        }
        if task.mode == OneShot {
          return true;
        }
        var due := now + task.period;
        if task.periodMode == FixedRate {
          var candidate := e.nextFire + task.period;
          if candidate <= now {
            candidate := now + task.period;
          }
          due := candidate;
        }
        timers := timers[found.value := e.(nextFire := due, state := Pending)];
      }
    }

    /**
     * Phase 5 of the loop: settle each task, then erase the dropped ones.
     * `times[k]` is what the clock reads while task `k` is handled.
     */
    method ReconcileBatch(batch: seq<Task>, times: seq<Time>)
      requires Distinct(timers) && DistinctTasks(batch) && |times| == |batch|
      modifies this`timers
      ensures timers == Reconcile(old(timers), batch, times)
    {
      var erase: seq<TimerId> := [];
      ghost var before := timers;
      var k := 0;
      assert timers == ReconciledAll(before, batch[..0], times[..0]);
      while k < |batch|
        invariant k <= |batch|
        invariant timers == ReconciledAll(before, batch[..k], times[..k])
        invariant erase == ToErase(before, batch[..k])
      {
        hide ReconciledAll, ToErase, Dropped, Settled;
        ReconcileOne(before, batch, times, k);
        var drop := ReconcileTask(batch[k], times[k]);
        if drop {
          erase := erase + [batch[k].id];
        }
        k := k + 1;
      }
      assert batch[..k] == batch && times[..k] == times;
      timers := Without(timers, erase);
    }
  }

  /** The table once the entry of `task`, if it is there and survives, has been re-armed. */
  function Settled(timers: seq<Entry>, task: Task, now: Time): seq<Entry> {
    var i := IndexOf(timers, task.id);
    if i < |timers| && Survives(timers[i], task) then timers[i := Rearm(timers[i], task, now)] else timers
  }

  /** One turn of the reconcile loop touches the entry of its own task and no other. */
  lemma ReconcileOne(before: seq<Entry>, batch: seq<Task>, times: seq<Time>, k: nat)
    requires Distinct(before) && DistinctTasks(batch) && |times| == |batch| && k < |batch|
    ensures var now := ReconciledAll(before, batch[..k], times[..k]);
      && Settled(now, batch[k], times[k]) == ReconciledAll(before, batch[..k + 1], times[..k + 1])
      && Dropped(now, batch[k]) == Dropped(before, batch[k])
    ensures ToErase(before, batch[..k + 1]) ==
            ToErase(before, batch[..k]) + (if Dropped(before, batch[k]) then [batch[k].id] else [])
  {
    var now := ReconciledAll(before, batch[..k], times[..k]);
    var next := ReconciledAll(before, batch[..k + 1], times[..k + 1]);
    var task, i := batch[k], IndexOf(before, batch[k].id);
    assert batch[..k + 1][..k] == batch[..k];
    assert TaskFor(batch[..k], task.id).None?;
    SameIndex(before, now, task.id);
    forall j | 0 <= j < |before| && j != i ensures next[j] == now[j] {
      assert before[j].id != task.id;
    }
    if i < |before| {
      assert TaskFor(batch[..k + 1], task.id) == Some(k);
      assert now[i] == before[i];
      assert next[i] == if Survives(before[i], task) then Rearm(before[i], task, times[k]) else before[i];
      assert next == now[i := next[i]];
    } else {
      assert next == now;
    }
  }

  lemma SameIndex(a: seq<Entry>, b: seq<Entry>, id: TimerId)
    requires |a| == |b| && forall i | 0 <= i < |a| :: a[i].id == b[i].id
    ensures IndexOf(a, id) == IndexOf(b, id)
  {
    assert forall k | 0 <= k < |a| :: a[k].id == id <==> b[k].id == id;
  }
}
