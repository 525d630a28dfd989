/**
 * The timer table and the locked sections of the timer scheduler
 * (framework/timer/timer_scheduler.cpp).
 *
 * Every function here is what one locked section, or one phase of the loop,
 * does to the fields the mutex protects. Times are integers on the steady
 * clock; ids and times are unbounded.
 */
module TimerTable {
  import opened Basics

  type TimerId = nat

  type Time = int

  datatype TimerMode = OneShot | Periodic

  datatype PeriodMode = FixedDelay | FixedRate

  datatype TimerState = Pending | Running | Cancelled

  datatype TimerError =
    | Success | AlreadyRunning | NotRunning | InvalidArgument
    | TimerNotFound | TimerLimitReached | ThreadCreationFailed

  datatype Entry = Entry(
    id: TimerId, mode: TimerMode, periodMode: PeriodMode, period: int, nextFire: Time, state: TimerState)

  /** A collected timer, copied out of the table so that its callback can run without the lock. */
  datatype Task = Task(id: TimerId, mode: TimerMode, period: int, periodMode: PeriodMode, threw: bool)

  /** What a caller asks for: ScheduleOneShot(delay) or SchedulePeriodic(period, mode). */
  datatype Kind = After(delay: int) | Every(period: int, periodMode: PeriodMode)

  datatype Core = Core(timers: seq<Entry>, nextId: TimerId, running: bool, reschedule: bool)

  const MAX_TIMERS := 64

  const FRESH := Core([], 1, false, false)

  // ---------------------------------------------------------------------------
  // Lookup and removal
  // ---------------------------------------------------------------------------

  ghost predicate Distinct(timers: seq<Entry>) {
    forall i, j | 0 <= i < j < |timers| :: timers[i].id != timers[j].id
  }

  ghost predicate DistinctTasks(batch: seq<Task>) {
    forall i, j | 0 <= i < j < |batch| :: batch[i].id != batch[j].id
  }

  /** The first index holding `id`, or the length of the table. */
  function IndexOf(timers: seq<Entry>, id: TimerId): (i: nat)
    ensures i <= |timers|
    ensures i < |timers| ==> timers[i].id == id
    ensures forall j | 0 <= j < i :: timers[j].id != id
  {
    if timers == [] then 0
    else if timers[0].id == id then 0
    else 1 + IndexOf(timers[1..], id)
  }

  /** The entries whose id is not listed, in order. */
  function Filtered(timers: seq<Entry>, ids: seq<TimerId>): (r: seq<Entry>)
    ensures |r| <= |timers|
  {
    if timers == [] then []
    else
      var last := timers[|timers| - 1];
      Filtered(timers[..|timers| - 1], ids) + (if last.id in ids then [] else [last])
  }

  lemma {:induction false} FilteredMembers(timers: seq<Entry>, ids: seq<TimerId>)
    ensures forall e :: e in Filtered(timers, ids) <==> e in timers && e.id !in ids
  {
    if timers != [] {
      var init, last := timers[..|timers| - 1], timers[|timers| - 1];
      assert timers == init + [last];
      FilteredMembers(init, ids);
    }
  }

  function Without(timers: seq<Entry>, ids: seq<TimerId>): (r: seq<Entry>)
    ensures |r| <= |timers|
    ensures forall e :: e in r <==> e in timers && e.id !in ids
  {
    FilteredMembers(timers, ids);
    Filtered(timers, ids)
  }

  lemma {:induction false} FilteredKeepsDistinct(timers: seq<Entry>, ids: seq<TimerId>)
    requires Distinct(timers)
    ensures Distinct(Filtered(timers, ids))
  {
    if timers != [] {
      var init, last := timers[..|timers| - 1], timers[|timers| - 1];
      FilteredKeepsDistinct(init, ids);
      FilteredMembers(init, ids);
      forall e | e in Filtered(init, ids) ensures e.id != last.id {
        assert e in init;
      }
    }
  }

  lemma WithoutKeepsDistinct(timers: seq<Entry>, ids: seq<TimerId>)
    requires Distinct(timers)
    ensures Distinct(Without(timers, ids))
  {
    FilteredKeepsDistinct(timers, ids);
  }

  // ---------------------------------------------------------------------------
  // Starting and stopping
  // ---------------------------------------------------------------------------

  /** `created` says whether the operating system gave us the thread. */
  function StartSection(c: Core, created: bool): (r: (Core, TimerError)) {
    if c.running then (c, AlreadyRunning)
    else if !created then (c, ThreadCreationFailed)
    else (c.(running := true), Success)
  }

  function StopSection(c: Core): (r: (Core, TimerError)) {
    if c.running then (c.(running := false), Success) else (c, NotRunning)
  }

  // ---------------------------------------------------------------------------
  // Scheduling and cancelling
  // ---------------------------------------------------------------------------

  function Interval(kind: Kind): int {
    match kind case After(delay) => delay case Every(period, _) => period
  }

  function NewEntry(kind: Kind, id: TimerId, now: Time): Entry {
    match kind
    case After(delay) => Entry(id, OneShot, FixedDelay, 0, now + delay, Pending)
    case Every(period, mode) => Entry(id, Periodic, mode, period, now + period, Pending)
  }

  function Schedule(c: Core, kind: Kind, hasCallback: bool, now: Time): (r: (Core, TimerError, Option<TimerId>)) {
    if Interval(kind) <= 0 || !hasCallback then (c, InvalidArgument, None)
    else if !c.running then (c, NotRunning, None)
    else if |c.timers| >= MAX_TIMERS then (c, TimerLimitReached, None)
    else
      (c.(timers := c.timers + [NewEntry(kind, c.nextId, now)], nextId := c.nextId + 1, reschedule := true),
       Success, Some(c.nextId))
  }

  /**
   * What scheduling means: the refusals in their order, and on success one more
   * PENDING entry at the end, with a new id and the deadline one interval ahead.
   */
  ghost predicate ScheduleMeans(
    c: Core, kind: Kind, hasCallback: bool, now: Time, c': Core, error: TimerError, id: Option<TimerId>)
  {
    var interval := match kind case After(delay) => delay case Every(period, _) => period;
    var valid := interval > 0 && hasCallback;
    && (error == InvalidArgument <==> !valid)
    && (error == NotRunning <==> valid && !c.running)
    && (error == TimerLimitReached <==> valid && c.running && |c.timers| >= 64)
    && (error == Success <==> valid && c.running && |c.timers| < 64)
    && (error != Success ==> c' == c && id == None)
    && (error == Success ==>
          && id == Some(c.nextId) && c'.nextId == c.nextId + 1 && c'.running && c'.reschedule
          && |c'.timers| == |c.timers| + 1 && c'.timers[..|c.timers|] == c.timers
          && var e := c'.timers[|c.timers|];
             && e.id == c.nextId && e.state == Pending && e.nextFire == now + interval
             && (kind.After? ==> e.mode == OneShot)
             && (kind.Every? ==> e.mode == Periodic && e.period == kind.period && e.periodMode == kind.periodMode))
  }

  lemma ScheduleIsExact(c: Core, kind: Kind, hasCallback: bool, now: Time)
    ensures var r := Schedule(c, kind, hasCallback, now); ScheduleMeans(c, kind, hasCallback, now, r.0, r.1, r.2)
  {
  }

  function Cancel(c: Core, id: TimerId): (r: (Core, TimerError)) {
    if id == 0 then (c, InvalidArgument)
    else
      var i := IndexOf(c.timers, id);
      if i == |c.timers| then (c, TimerNotFound)
      else match c.timers[i].state
        case Pending => (c.(timers := Without(c.timers, [id]), reschedule := true), Success)
        case Running => (c.(timers := c.timers[i := c.timers[i].(state := Cancelled)]), Success)
        case Cancelled => (c, TimerNotFound)
  }

  /**
   * What cancelling means, in a table of distinct ids: it succeeds exactly if an
   * entry of that id is PENDING or RUNNING. A PENDING one is taken out, the
   * others staying in order; a RUNNING one is marked CANCELLED, the others
   * staying as they are.
   */
  ghost predicate CancelMeans(c: Core, id: TimerId, c': Core, error: TimerError) {
    && (error == InvalidArgument <==> id == 0)
    && (error == Success <==>
          id != 0 && exists e :: e in c.timers && e.id == id && (e.state == Pending || e.state == Running))
    && (error == InvalidArgument || error == Success || error == TimerNotFound)
    && (error != Success ==> c' == c)
    && c'.nextId == c.nextId && c'.running == c.running
    && (error == Success ==> forall k | 0 <= k < |c.timers| && c.timers[k].id == id ::
          && (c.timers[k].state == Pending ==> c'.timers == c.timers[..k] + c.timers[k + 1..] && c'.reschedule)
          && (c.timers[k].state == Running ==>
                c'.timers == c.timers[k := c.timers[k].(state := Cancelled)] && c'.reschedule == c.reschedule))
  }

  lemma {:induction false} FilteredNone(timers: seq<Entry>, id: TimerId)
    requires NoneIs(timers, id)
    ensures Filtered(timers, [id]) == timers
  {
    if timers != [] {
      FilteredNone(timers[..|timers| - 1], id);
    }
  }

  lemma {:induction false} FilteredConcat(a: seq<Entry>, b: seq<Entry>, ids: seq<TimerId>)
    ensures Filtered(a + b, ids) == Filtered(a, ids) + Filtered(b, ids)
  {
    if b == [] {
      assert a + b == a;
    } else {
      var n := |b| - 1;
      FilteredConcat(a, b[..n], ids);
      assert (a + b)[..|a + b| - 1] == a + b[..n] && (a + b)[|a + b| - 1] == b[n];
    }
  }

  lemma FilteredSingle(e: Entry)
    ensures Filtered([e], [e.id]) == []
  {
    assert Filtered([e][..0], [e.id]) == [];
  }

  lemma FilteredPieces(pre: seq<Entry>, e: Entry, post: seq<Entry>)
    ensures Filtered(pre + ([e] + post), [e.id]) == Filtered(pre, [e.id]) + Filtered(post, [e.id])
  {
    hide Filtered;
    FilteredConcat(pre, [e] + post, [e.id]);
    FilteredConcat([e], post, [e.id]);
    FilteredSingle(e);
    assert [] + Filtered(post, [e.id]) == Filtered(post, [e.id]);
  }

  ghost predicate NoneIs(timers: seq<Entry>, id: TimerId) {
    forall i | 0 <= i < |timers| :: timers[i].id != id
  }

  lemma OthersDiffer(timers: seq<Entry>, k: nat)
    requires Distinct(timers) && k < |timers|
    ensures NoneIs(timers[..k], timers[k].id) && NoneIs(timers[k + 1..], timers[k].id)
  {
  }

  lemma FilteredOne(timers: seq<Entry>, k: nat)
    requires Distinct(timers) && k < |timers|
    ensures Filtered(timers, [timers[k].id]) == timers[..k] + timers[k + 1..]
  {
    hide Filtered, Distinct, NoneIs;
    OthersDiffer(timers, k);
    FilteredNone(timers[..k], timers[k].id);
    FilteredNone(timers[k + 1..], timers[k].id);
    FilteredPieces(timers[..k], timers[k], timers[k + 1..]);
    assert timers == timers[..k] + ([timers[k]] + timers[k + 1..]);
  }

  /** Taking out one id of a table of distinct ids takes out one entry. */
  lemma WithoutOne(timers: seq<Entry>, k: nat)
    requires Distinct(timers) && k < |timers|
    ensures Without(timers, [timers[k].id]) == timers[..k] + timers[k + 1..]
  {
    hide Filtered, Distinct;
    FilteredOne(timers, k);
  }

  lemma OnlyIndex(timers: seq<Entry>, id: TimerId)
    requires Distinct(timers)
    ensures forall k | 0 <= k < |timers| && timers[k].id == id :: k == IndexOf(timers, id)
  {
    forall k | 0 <= k < |timers| && timers[k].id == id ensures k == IndexOf(timers, id) {
      UniqueIndex(timers, k);
    }
  }

  lemma CancelIsExact(c: Core, id: TimerId)
    requires Distinct(c.timers)
    ensures var r := Cancel(c, id); CancelMeans(c, id, r.0, r.1)
  {
    hide Without, Distinct, IndexOf;
    var i := IndexOf(c.timers, id);
    OnlyIndex(c.timers, id);
    if i == |c.timers| {
      assert forall e | e in c.timers :: e.id != id;
    } else {
      var e := c.timers[i];
      assert e in c.timers && forall x | x in c.timers && x.id == id :: x == e;
      if e.state == Pending {
        WithoutOne(c.timers, i);
      }
    }
  }

  // ---------------------------------------------------------------------------
  // Phases 1 and 3: the earliest deadline, and the due timers
  // ---------------------------------------------------------------------------

  /** The earliest deadline of a PENDING timer. */
  function Earliest(timers: seq<Entry>): (d: Option<Time>)
    ensures d.None? <==> forall e | e in timers :: e.state != Pending
    ensures d.Some? ==>
      && (forall e | e in timers && e.state == Pending :: d.value <= e.nextFire)
      && (exists e :: e in timers && e.state == Pending && e.nextFire == d.value)
  {
    if timers == [] then None
    else
      var init, last := timers[..|timers| - 1], timers[|timers| - 1];
      assert timers == init + [last];
      var d := Earliest(init);
      if last.state != Pending then d
      else if d.None? || last.nextFire < d.value then Some(last.nextFire)
      else
        var e :| e in init && e.state == Pending && e.nextFire == d.value;
        assert e in timers;
        d
  }

  predicate Due(e: Entry, now: Time) {
    e.state == Pending && e.nextFire <= now
  }

  function Mark(e: Entry, now: Time): Entry {
    if Due(e, now) then e.(state := Running) else e
  }

  function Marked(timers: seq<Entry>, now: Time): (r: seq<Entry>)
    ensures |r| == |timers|
    ensures forall i | 0 <= i < |timers| :: r[i] == Mark(timers[i], now)
  {
    seq(|timers|, i requires 0 <= i < |timers| => Mark(timers[i], now))
  }

  function TaskOf(e: Entry): Task {
    Task(e.id, e.mode, e.period, e.periodMode, false)
  }

  /** The due timers, in table order. */
  function DueTasks(timers: seq<Entry>, now: Time): (batch: seq<Task>) {
    if timers == [] then []
    else
      var last := timers[|timers| - 1];
      DueTasks(timers[..|timers| - 1], now) + (if Due(last, now) then [TaskOf(last)] else [])
  }

  ghost predicate IsDueTask(timers: seq<Entry>, now: Time, task: Task) {
    exists i :: 0 <= i < |timers| && Due(timers[i], now) && task == TaskOf(timers[i])
  }

  /**
   * What collecting means: the tasks are those of the entries at `positions`, in
   * table order, and these are exactly the PENDING ones whose deadline has come.
   */
  ghost predicate BatchMeans(timers: seq<Entry>, now: Time, batch: seq<Task>, positions: seq<nat>) {
    && |positions| == |batch|
    && (forall a, b | 0 <= a < b < |positions| :: positions[a] < positions[b])
    && (forall a | 0 <= a < |positions| ::
          && positions[a] < |timers|
          && batch[a].id == timers[positions[a]].id && batch[a].mode == timers[positions[a]].mode
          && batch[a].period == timers[positions[a]].period
          && batch[a].periodMode == timers[positions[a]].periodMode && !batch[a].threw)
    && (forall k | 0 <= k < |timers| ::
          k in positions <==> timers[k].state == Pending && timers[k].nextFire <= now)
  }

  ghost predicate MarkMeans(timers: seq<Entry>, now: Time, timers': seq<Entry>) {
    && |timers'| == |timers|
    && forall k | 0 <= k < |timers| ::
         timers'[k] == if timers[k].state == Pending && timers[k].nextFire <= now
                       then timers[k].(state := Running) else timers[k]
  }

  lemma MarkIsExact(timers: seq<Entry>, now: Time)
    ensures MarkMeans(timers, now, Marked(timers, now))
  {
  }

  /** One more entry at the end of the table: one more task if it is due, and none otherwise. */
  lemma OneMoreEntry(init: seq<Entry>, last: Entry, now: Time, batch: seq<Task>, before: seq<nat>)
    requires BatchMeans(init, now, batch, before)
    ensures last.state == Pending && last.nextFire <= now ==>
      BatchMeans(init + [last], now, batch + [TaskOf(last)], before + [|init|])
    ensures !(last.state == Pending && last.nextFire <= now) ==> BatchMeans(init + [last], now, batch, before)
  {
    var n, timers := |init|, init + [last];
    assert forall k | 0 <= k < n :: timers[k] == init[k];
    assert forall a | 0 <= a < |before| :: before[a] < n;
    if last.state == Pending && last.nextFire <= now {
      InTheMiddle(before, n);
    }
  }

  lemma InTheMiddle(before: seq<nat>, n: nat)
    requires forall a | 0 <= a < |before| :: before[a] < n
    ensures forall k: nat :: k in before + [n] <==> k in before || k == n
  {
  }

  lemma {:induction false} CollectIsExact(timers: seq<Entry>, now: Time) returns (positions: seq<nat>)
    ensures BatchMeans(timers, now, DueTasks(timers, now), positions)
  {
    positions := [];
    if timers != [] {
      hide BatchMeans;
      var n := |timers| - 1;
      positions := CollectIsExact(timers[..n], now);
      OneMoreEntry(timers[..n], timers[n], now, DueTasks(timers[..n], now), positions);
      assert timers == timers[..n] + [timers[n]];
      if timers[n].state == Pending && timers[n].nextFire <= now {
        positions := positions + [n];
      }
    }
  }

  /** The batch holds the due timers, all of them, once each. */
  lemma DueTasksAreTheDueTimers(timers: seq<Entry>, now: Time)
    requires Distinct(timers)
    ensures DistinctTasks(DueTasks(timers, now))
    ensures forall task :: task in DueTasks(timers, now) <==> IsDueTask(timers, now, task)
  {
    hide DueTasks, BatchMeans;
    var batch := DueTasks(timers, now);
    var positions := CollectIsExact(timers, now);
    BatchIsDistinct(timers, now, batch, positions);
    forall task ensures task in batch <==> IsDueTask(timers, now, task) {
      BatchHolds(timers, now, batch, positions, task);
    }
  }

  lemma BatchIsDistinct(timers: seq<Entry>, now: Time, batch: seq<Task>, positions: seq<nat>)
    requires Distinct(timers) && BatchMeans(timers, now, batch, positions)
    ensures DistinctTasks(batch)
  {
    forall i, j | 0 <= i < j < |batch| ensures batch[i].id != batch[j].id {
      assert positions[i] < positions[j];
    }
  }

  lemma BatchHolds(timers: seq<Entry>, now: Time, batch: seq<Task>, positions: seq<nat>, task: Task)
    requires BatchMeans(timers, now, batch, positions)
    ensures task in batch <==> IsDueTask(timers, now, task)
  {
    if task in batch {
      var a :| 0 <= a < |batch| && batch[a] == task;
      assert positions[a] in positions;
      assert task == TaskOf(timers[positions[a]]);
    }
    if IsDueTask(timers, now, task) {
      var k :| 0 <= k < |timers| && Due(timers[k], now) && task == TaskOf(timers[k]);
      assert k in positions;
      var a :| 0 <= a < |positions| && positions[a] == k;
      assert batch[a] == task;
    }
  }

  // ---------------------------------------------------------------------------
  // Phase 5: reconcile
  // ---------------------------------------------------------------------------

  /** The deadline a periodic timer is re-armed with, `now` being the clock read while re-arming. */
  function NextDeadline(mode: PeriodMode, due: Time, period: int, now: Time): Time {
    match mode
    case FixedDelay => now + period
    case FixedRate => if due + period <= now then now + period else due + period
  }

  /** Does the catch-up cap of FIXED_RATE apply? */
  predicate Capped(due: Time, period: int, now: Time) {
    due + period <= now
  }

  /** A collected timer stays in the table unless it was cancelled, threw, or is one-shot. */
  predicate Survives(e: Entry, task: Task) {
    e.state != Cancelled && !task.threw && task.mode == Periodic
  }

  function Rearm(e: Entry, task: Task, now: Time): Entry {
    e.(nextFire := NextDeadline(task.periodMode, e.nextFire, task.period, now), state := Pending)
  }

  /** The position of the task of timer `id` in the batch. */
  function TaskFor(batch: seq<Task>, id: TimerId): (k: Option<nat>)
    ensures k.Some? ==> k.value < |batch| && batch[k.value].id == id
    ensures k.None? ==> forall j | 0 <= j < |batch| :: batch[j].id != id
  {
    if batch == [] then None
    else
      var k := TaskFor(batch[..|batch| - 1], id);
      if k.Some? then k
      else if batch[|batch| - 1].id == id then Some(|batch| - 1)
      else None
  }

  function Reconciled(e: Entry, batch: seq<Task>, times: seq<Time>): Entry
    requires |times| == |batch|
  {
    var k := TaskFor(batch, e.id);
    if k.Some? && Survives(e, batch[k.value]) then Rearm(e, batch[k.value], times[k.value]) else e
  }

  function ReconciledAll(timers: seq<Entry>, batch: seq<Task>, times: seq<Time>): (r: seq<Entry>)
    requires |times| == |batch|
    ensures |r| == |timers|
    ensures forall i | 0 <= i < |timers| :: r[i] == Reconciled(timers[i], batch, times)
  {
    seq(|timers|, i requires 0 <= i < |timers| => Reconciled(timers[i], batch, times))
  }

  predicate Dropped(timers: seq<Entry>, task: Task) {
    var i := IndexOf(timers, task.id);
    i < |timers| && !Survives(timers[i], task)
  }

  function ToErase(timers: seq<Entry>, batch: seq<Task>): (ids: seq<TimerId>)
    ensures forall id :: id in ids <==> exists k :: 0 <= k < |batch| && batch[k].id == id && Dropped(timers, batch[k])
  {
    if batch == [] then []
    else
      var init, last := batch[..|batch| - 1], batch[|batch| - 1];
      assert batch == init + [last];
      assert forall k | 0 <= k < |init| :: batch[k] == init[k];
      ToErase(timers, init) + (if Dropped(timers, last) then [last.id] else [])
  }

  function Reconcile(timers: seq<Entry>, batch: seq<Task>, times: seq<Time>): seq<Entry>
    requires |times| == |batch|
  {
    Without(ReconciledAll(timers, batch, times), ToErase(timers, batch))
  }

  lemma UniqueIndex(timers: seq<Entry>, i: nat)
    requires Distinct(timers) && i < |timers|
    ensures IndexOf(timers, timers[i].id) == i
  {
    var j := IndexOf(timers, timers[i].id);
    assert j <= i;
  }

  lemma UniqueTask(batch: seq<Task>, k: nat)
    requires DistinctTasks(batch) && k < |batch|
    ensures TaskFor(batch, batch[k].id) == Some(k)
  {
    var j := TaskFor(batch, batch[k].id);
    assert j.Some? && batch[j.value].id == batch[k].id;
  }

  /**
   * What becomes of the timer at `i`: untouched if it was not collected, gone if
   * it was cancelled, threw or is one-shot, re-armed otherwise.
   */
  lemma ReconcileFate(timers: seq<Entry>, batch: seq<Task>, times: seq<Time>, i: nat)
    requires Distinct(timers) && DistinctTasks(batch) && |times| == |batch| && i < |timers|
    ensures var e, k, r := timers[i], TaskFor(batch, timers[i].id), Reconcile(timers, batch, times);
      && (k.None? ==> e in r)
      && (k.Some? && Survives(e, batch[k.value]) ==> Rearm(e, batch[k.value], times[k.value]) in r)
      && (k.Some? && !Survives(e, batch[k.value]) ==> forall e' | e' in r :: e'.id != e.id)
  {
    var e, all, drop := timers[i], ReconciledAll(timers, batch, times), ToErase(timers, batch);
    var k := TaskFor(batch, e.id);
    UniqueIndex(timers, i);
    if k.None? || Survives(e, batch[k.value]) {
      assert e.id !in drop by {
        if e.id in drop {
          var j :| 0 <= j < |batch| && batch[j].id == e.id && Dropped(timers, batch[j]);
          UniqueTask(batch, j);
        }
      }
      assert all[i] in all;
    } else {
      assert Dropped(timers, batch[k.value]);
      assert e.id in drop;
    }
  }

  /** Every timer left after reconciling comes from one timer before it. */
  lemma ReconcileOrigin(timers: seq<Entry>, batch: seq<Task>, times: seq<Time>, e': Entry) returns (i: nat)
    requires Distinct(timers) && DistinctTasks(batch) && |times| == |batch|
    requires e' in Reconcile(timers, batch, times)
    ensures i < |timers| && timers[i].id == e'.id
    ensures e' == Reconciled(timers[i], batch, times)
    ensures var k := TaskFor(batch, e'.id); k.Some? ==> Survives(timers[i], batch[k.value])
  {
    var all := ReconciledAll(timers, batch, times);
    assert e' in all && e'.id !in ToErase(timers, batch);
    var j :| 0 <= j < |all| && all[j] == e';
    i := j;
    UniqueIndex(timers, i);
    var k := TaskFor(batch, e'.id);
    if k.Some? {
      assert Dropped(timers, batch[k.value]) <==> !Survives(timers[i], batch[k.value]);
      assert Dropped(timers, batch[k.value]) ==> e'.id in ToErase(timers, batch);
    }
  }

  lemma ReconcileKeepsDistinct(timers: seq<Entry>, batch: seq<Task>, times: seq<Time>)
    requires Distinct(timers) && |times| == |batch|
    ensures Distinct(Reconcile(timers, batch, times)) && |Reconcile(timers, batch, times)| <= |timers|
  {
    WithoutKeepsDistinct(ReconciledAll(timers, batch, times), ToErase(timers, batch));
  }

  // ---------------------------------------------------------------------------
  // Deadline arithmetic
  // ---------------------------------------------------------------------------

  /**
   * A FIXED_RATE re-arm of a timer whose deadline had passed lands strictly
   * after the clock reading, at most one period after it and at least one
   * period after the old deadline; it keeps the old grid exactly when the cap
   * does not apply. FIXED_DELAY lands one period after the reading, hence also
   * at least one period after the old deadline.
   */
  lemma RearmBounds(mode: PeriodMode, due: Time, period: int, now: Time)
    requires period > 0 && due <= now
    ensures var d := NextDeadline(mode, due, period, now);
      && now < d <= now + period && d >= due + period
      && (mode == FixedRate ==> (d == due + period <==> !Capped(due, period, now)))
      && (mode == FixedDelay ==> d == now + period)
  {
  }
}
