/**
 * Every interleaving of calls on one queue.
 *
 * A `World` is the mutex-protected core, the blocking calls in flight and three
 * histories: the items accepted, the items handed out and the items an
 * IMMEDIATE shutdown threw away. A step is one critical section of some thread,
 * or a blocked thread leaving its wait by time-out or spurious wake-up.
 */
module QueueRuns {
  import opened Basics
  import opened BoundedQueue

  datatype Call<T> = PopCall(timed: bool) | PushCall(item: T)

  datatype World<T> = World(
    q: Core<T>,
    calls: map<ThreadId, Call<T>>,
    pushed: seq<T>,
    popped: seq<T>,
    discarded: seq<T>)

  datatype Event<T> =
    | Push(t: ThreadId, item: T, woken: Option<ThreadId>)
    | PushFor(t: ThreadId, item: T, expired: bool, woken: Option<ThreadId>)
    | PushForResumes(t: ThreadId, expired: bool, woken: Option<ThreadId>)
    | Pop(t: ThreadId, timed: bool, expired: bool, woken: Option<ThreadId>)
    | PopResumes(t: ThreadId, expired: bool, woken: Option<ThreadId>)
    | WaitEnds(t: ThreadId)
    | Close(t: ThreadId, mode: ShutdownMode)

  function Start<T>(capacity: nat): World<T> {
    World(Create(capacity), map[], [], [], [])
  }

  predicate Awake(cv: CondVar, t: ThreadId) {
    t in cv.notified || t in cv.stirred
  }

  ghost predicate Enabled<T>(w: World<T>, e: Event<T>) {
    match e
    case Push(t, item, woken) => t !in w.calls && (Appends(w.q) ==> w.q.notEmpty.CanNotifyOne(woken))
    case PushFor(t, item, expired, woken) => t !in w.calls && (Appends(w.q) ==> w.q.notEmpty.CanNotifyOne(woken))
    case PushForResumes(t, expired, woken) =>
      t in w.calls && w.calls[t].PushCall? && Awake(w.q.notFull, t)
      && (Appends(w.q) ==> w.q.notEmpty.CanNotifyOne(woken))
    case Pop(t, timed, expired, woken) =>
      t !in w.calls && (expired ==> timed) && (w.q.items != [] ==> w.q.notFull.CanNotifyOne(woken))
    case PopResumes(t, expired, woken) =>
      t in w.calls && w.calls[t].PopCall? && Awake(w.q.notEmpty, t) && (expired ==> w.calls[t].timed)
      && (w.q.items != [] ==> w.q.notFull.CanNotifyOne(woken))
    case WaitEnds(t) => t in w.q.notEmpty.asleep || t in w.q.notFull.asleep
    case Close(t, mode) => t !in w.calls
  }

  /** The world after a producer's section: the call stays in flight exactly when it blocked. */
  function AfterPush<T>(w: World<T>, t: ThreadId, item: T, r: (Core<T>, Reply<T>)): World<T> {
    var calls := if r.1.Blocked? then w.calls[t := PushCall(item)] else w.calls - {t};
    World(r.0, calls, if r.1 == Pushed(Success) then w.pushed + [item] else w.pushed, w.popped, w.discarded)
  }

  function AfterPop<T>(w: World<T>, t: ThreadId, timed: bool, r: (Core<T>, Reply<T>)): World<T> {
    var calls := if r.1.Blocked? then w.calls[t := PopCall(timed)] else w.calls - {t};
    var popped := if r.1.Popped? && r.1.item.Some? then w.popped + [r.1.item.value] else w.popped;
    World(r.0, calls, w.pushed, popped, w.discarded)
  }

  function AfterWaitEnds<T>(w: World<T>, t: ThreadId): World<T>
    requires t in w.q.notEmpty.asleep || t in w.q.notFull.asleep
  {
    if t in w.q.notEmpty.asleep
    then w.(q := w.q.(notEmpty := w.q.notEmpty.Stir(t)))
    else w.(q := w.q.(notFull := w.q.notFull.Stir(t)))
  }

  function AfterClose<T>(w: World<T>, mode: ShutdownMode): World<T> {
    var r := ShutdownSection(w.q, mode);
    w.(q := r.0, discarded := if mode == Immediate && w.q.state != Shutdown then w.q.items else w.discarded)
  }

  ghost function Step<T>(w: World<T>, e: Event<T>): World<T>
    requires Enabled(w, e)
  {
    match e
    case Push(t, item, woken) => AfterPush(w, t, item, PushSection(w.q, item, woken))
    case PushFor(t, item, expired, woken) =>
      AfterPush(w, t, item, PushForSection(w.q, t, item, expired, woken))
    case PushForResumes(t, expired, woken) =>
      AfterPush(w, t, w.calls[t].item, PushForSection(w.q, t, w.calls[t].item, expired, woken))
    case Pop(t, timed, expired, woken) => AfterPop(w, t, timed, PopSection(w.q, t, expired, woken))
    case PopResumes(t, expired, woken) => AfterPop(w, t, w.calls[t].timed, PopSection(w.q, t, expired, woken))
    case WaitEnds(t) => AfterWaitEnds(w, t)
    case Close(t, mode) => AfterClose(w, mode)
  }

  /** The reply a consumer's section gives, if `e` is one. */
  ghost function ConsumerReply<T>(w: World<T>, e: Event<T>): Option<Reply<T>>
    requires Enabled(w, e)
  {
    match e
    case Pop(t, timed, expired, woken) => Some(PopSection(w.q, t, expired, woken).1)
    case PopResumes(t, expired, woken) => Some(PopSection(w.q, t, expired, woken).1)
    case _ => None
  }

  ghost predicate IsRun<T>(capacity: nat, ws: seq<World<T>>, es: seq<Event<T>>) {
    && |ws| == |es| + 1
    && ws[0] == Start(capacity)
    && forall i | 0 <= i < |es| :: Enabled(ws[i], es[i]) && ws[i + 1] == Step(ws[i], es[i])
  }

  lemma RunSteps<T>(capacity: nat, ws: seq<World<T>>, es: seq<Event<T>>, i: nat)
    requires IsRun(capacity, ws, es) && i + 1 < |ws|
    ensures i < |es| && Enabled(ws[i], es[i]) && ws[i + 1] == Step(ws[i], es[i])
  {
  }

  // ---------------------------------------------------------------------------
  // The invariant
  // ---------------------------------------------------------------------------

  ghost predicate LifeCycle<T>(q: Core<T>) {
    && |q.items| <= q.capacity
    && (q.capacity == 0 ==> q.state == Shutdown)
    && (q.state == Draining ==> q.items != [])
    && (q.state == Shutdown ==> q.items == [])
  }

  ghost predicate NoLostWakeUp<T>(q: Core<T>) {
    && (q.notEmpty.asleep != {} ==> q.state == Running && |q.notEmpty.notified| >= |q.items|)
    && (q.notFull.asleep != {} ==> q.state == Running && |q.notFull.notified| >= q.capacity - |q.items|)
  }

  function Consumers<T>(calls: map<ThreadId, Call<T>>): set<ThreadId> {
    set t | t in calls && calls[t].PopCall?
  }

  function Producers<T>(calls: map<ThreadId, Call<T>>): set<ThreadId> {
    set t | t in calls && calls[t].PushCall?
  }

  ghost predicate WaitersAreCallers<T>(w: World<T>) {
    w.q.notEmpty.Members() == Consumers(w.calls) && w.q.notFull.Members() == Producers(w.calls)
  }

  ghost predicate Conserved<T>(w: World<T>) {
    && w.pushed == w.popped + w.q.items + w.discarded
    && (w.discarded != [] ==> w.q.state == Shutdown)
  }

  /** What the mutex-protected core keeps by itself. */
  ghost predicate Sound<T>(q: Core<T>) {
    LifeCycle(q) && NoLostWakeUp(q) && q.notEmpty.Disjoint() && q.notFull.Disjoint()
  }

  ghost predicate Inv<T>(w: World<T>) {
    Sound(w.q) && WaitersAreCallers(w) && Conserved(w)
  }

  // ---------------------------------------------------------------------------
  // Each critical section keeps it
  // ---------------------------------------------------------------------------

  lemma NotifyOneCounts(cv: CondVar, pick: Option<ThreadId>)
    requires cv.Disjoint() && cv.CanNotifyOne(pick)
    ensures var c := cv.NotifyOne(pick);
      && c.Disjoint() && c.Members() == cv.Members()
      && |c.notified| == |cv.notified| + (if cv.asleep == {} then 0 else 1)
      && (c.asleep != {} ==> cv.asleep != {})
  {
  }

  lemma LeaveCounts(cv: CondVar, t: ThreadId)
    requires cv.Disjoint() && t !in cv.asleep
    ensures var c := cv.Leave(t);
      && c.Disjoint() && c.asleep == cv.asleep && c.Members() == cv.Members() - {t}
      && |cv.notified| - 1 <= |c.notified| <= |cv.notified|
  {
    if t in cv.notified {
      assert cv.notified == (cv.notified - {t}) + {t};
    } else {
      assert cv.notified - {t} == cv.notified;
    }
  }

  lemma SleepCounts(cv: CondVar, t: ThreadId)
    requires cv.Disjoint() && t !in cv.Members()
    ensures cv.Sleep(t).Disjoint() && cv.Sleep(t).Members() == cv.Members() + {t}
  {
  }

  lemma NotifyAllCounts(cv: CondVar)
    requires cv.Disjoint()
    ensures cv.NotifyAll().Disjoint() && cv.NotifyAll().Members() == cv.Members()
  {
  }

  /** The waiters a section of thread `t` leaves behind: `t` is among them exactly when it blocked. */
  ghost function Adjusted(members: set<ThreadId>, t: ThreadId, blocked: bool): set<ThreadId> {
    if blocked then members + {t} else members - {t}
  }

  /** A producer's section appends its item exactly when it reports success. */
  ghost predicate PushEffect<T>(q: Core<T>, item: T, r: (Core<T>, Reply<T>)) {
    && r.0.state == q.state && r.0.capacity == q.capacity
    && (r.1 == Pushed(Success) ==> q.state == Running && r.0.items == q.items + [item])
    && (r.1 != Pushed(Success) ==> r.0.items == q.items)
  }

  /** A consumer's section removes the front item exactly when it hands it out. */
  ghost predicate PopEffect<T>(q: Core<T>, r: (Core<T>, Reply<T>)) {
    && r.0.capacity == q.capacity && !r.1.Pushed?
    && Rank(q.state) <= Rank(r.0.state)
    && (r.1.Popped? && r.1.item.Some? ==>
          q.items != [] && r.1 == Popped(Success, Some(q.items[0])) && r.0.items == q.items[1..])
    && (!(r.1.Popped? && r.1.item.Some?) ==> r.0.items == q.items && r.0.state == q.state)
  }

  lemma PushSound<T>(q: Core<T>, item: T, woken: Option<ThreadId>)
    requires Sound(q) && (Appends(q) ==> q.notEmpty.CanNotifyOne(woken))
    ensures var r := PushSection(q, item, woken);
      && Sound(r.0)
      && PushEffect(q, item, r) && !r.1.Blocked?
      && r.0.notEmpty.Members() == q.notEmpty.Members() && r.0.notFull == q.notFull
  {
    if Appends(q) {
      NotifyOneCounts(q.notEmpty, woken);
    }
  }

  lemma PushForEffect<T>(q: Core<T>, t: ThreadId, item: T, expired: bool, woken: Option<ThreadId>)
    requires Appends(q) ==> q.notEmpty.CanNotifyOne(woken)
    ensures PushEffect(q, item, PushForSection(q, t, item, expired, woken))
  {
  }

  lemma PushForSound<T>(q: Core<T>, t: ThreadId, item: T, expired: bool, woken: Option<ThreadId>)
    requires Sound(q) && t !in q.notFull.asleep && (Appends(q) ==> q.notEmpty.CanNotifyOne(woken))
    ensures var r := PushForSection(q, t, item, expired, woken);
      && Sound(r.0)
      && r.0.notEmpty.Members() == q.notEmpty.Members()
      && r.0.notFull.Members() == Adjusted(q.notFull.Members(), t, r.1.Blocked?)
  {
    hide CondVar.Members, CondVar.Disjoint, CondVar.Leave, CondVar.Sleep, CondVar.NotifyOne, CondVar.CanNotifyOne;
    LeaveCounts(q.notFull, t);
    SleepCounts(q.notFull.Leave(t), t);
    if Appends(q) {
      NotifyOneCounts(q.notEmpty, woken);
    }
  }

  lemma RemoveFrontSound<T>(q: Core<T>, woken: Option<ThreadId>)
    requires LifeCycle(q) && q.items != [] && q.notFull.CanNotifyOne(woken)
    requires q.notEmpty.Disjoint() && q.notFull.Disjoint()
    requires q.notEmpty.asleep != {} ==> q.state == Running && |q.notEmpty.notified| >= |q.items| - 1
    requires q.notFull.asleep != {} ==> q.state == Running && |q.notFull.notified| >= q.capacity - |q.items|
    ensures var q' := RemoveFront(q, woken);
      && Sound(q') && q'.items == q.items[1..] && q'.capacity == q.capacity
      && q'.notEmpty.Members() == q.notEmpty.Members()
      && q'.notFull.Members() == q.notFull.Members()
  {
    hide CondVar.Members, CondVar.Disjoint;
    NotifyOneCounts(q.notFull, woken);
    NotifyAllCounts(q.notEmpty);
    NotifyAllCounts(q.notFull.NotifyOne(woken));
  }

  lemma PopHasEffect<T>(q: Core<T>, t: ThreadId, expired: bool, woken: Option<ThreadId>)
    requires LifeCycle(q) && (q.items != [] ==> q.notFull.CanNotifyOne(woken))
    ensures PopEffect(q, PopSection(q, t, expired, woken))
  {
  }

  lemma PopSound<T>(q: Core<T>, t: ThreadId, expired: bool, woken: Option<ThreadId>)
    requires Sound(q) && t !in q.notEmpty.asleep && (q.items != [] ==> q.notFull.CanNotifyOne(woken))
    ensures var r := PopSection(q, t, expired, woken);
      && Sound(r.0)
      && r.0.notFull.Members() == q.notFull.Members()
      && r.0.notEmpty.Members() == Adjusted(q.notEmpty.Members(), t, r.1.Blocked?)
  {
    hide CondVar.Members, CondVar.Disjoint, CondVar.Leave, CondVar.Sleep, RemoveFront, CondVar.CanNotifyOne;
    LeaveCounts(q.notEmpty, t);
    SleepCounts(q.notEmpty.Leave(t), t);
    if q.items != [] {
      RemoveFrontSound(q.(notEmpty := q.notEmpty.Leave(t)), woken);
    }
  }

  lemma CloseSound<T>(q: Core<T>, mode: ShutdownMode)
    requires Sound(q)
    ensures var r := ShutdownSection(q, mode);
      && Sound(r.0)
      && r.0.notEmpty.Members() == q.notEmpty.Members()
      && r.0.notFull.Members() == q.notFull.Members()
  {
    NotifyAllCounts(q.notEmpty);
    NotifyAllCounts(q.notFull);
  }

  lemma CallsAfterPush<T>(calls: map<ThreadId, Call<T>>, t: ThreadId, item: T)
    requires t in calls ==> calls[t].PushCall?
    ensures Consumers(calls[t := PushCall(item)]) == Consumers(calls - {t}) == Consumers(calls)
    ensures Producers(calls[t := PushCall(item)]) == Producers(calls) + {t}
    ensures Producers(calls - {t}) == Producers(calls) - {t}
  {
  }

  lemma CallsAfterPop<T>(calls: map<ThreadId, Call<T>>, t: ThreadId, timed: bool)
    requires t in calls ==> calls[t].PopCall?
    ensures Producers(calls[t := PopCall(timed)]) == Producers(calls - {t}) == Producers(calls)
    ensures Consumers(calls[t := PopCall(timed)]) == Consumers(calls) + {t}
    ensures Consumers(calls - {t}) == Consumers(calls) - {t}
  {
  }

  lemma PushKeepsInv<T>(w: World<T>, t: ThreadId, item: T, woken: Option<ThreadId>)
    requires Inv(w) && t !in w.calls && (Appends(w.q) ==> w.q.notEmpty.CanNotifyOne(woken))
    ensures Inv(AfterPush(w, t, item, PushSection(w.q, item, woken)))
  {
    hide CondVar.Members, Sound, PushSection;
    PushSound(w.q, item, woken);
    assert w.calls - {t} == w.calls;
    assert w.popped + (w.q.items + [item]) == (w.popped + w.q.items) + [item];
  }

  lemma ProducerKeepsInv<T>(w: World<T>, t: ThreadId, item: T, expired: bool, woken: Option<ThreadId>)
    requires Inv(w) && t !in w.q.notFull.asleep
    requires t !in w.calls || w.calls[t].PushCall?
    requires Appends(w.q) ==> w.q.notEmpty.CanNotifyOne(woken)
    ensures Inv(AfterPush(w, t, item, PushForSection(w.q, t, item, expired, woken)))
  {
    hide CondVar.Members, Sound, PushForSection, Consumers, Producers;
    PushForSound(w.q, t, item, expired, woken);
    PushForEffect(w.q, t, item, expired, woken);
    CallsAfterPush(w.calls, t, item);
    assert w.popped + (w.q.items + [item]) == (w.popped + w.q.items) + [item];
  }

  lemma SoundLives<T>(q: Core<T>)
    requires Sound(q)
    ensures LifeCycle(q)
  {
  }

  lemma ConsumerKeepsInv<T>(w: World<T>, t: ThreadId, timed: bool, expired: bool, woken: Option<ThreadId>)
    requires Inv(w) && t !in w.q.notEmpty.asleep
    requires t !in w.calls || w.calls[t].PopCall?
    requires w.q.items != [] ==> w.q.notFull.CanNotifyOne(woken)
    ensures Inv(AfterPop(w, t, timed, PopSection(w.q, t, expired, woken)))
  {
    hide CondVar.Members, Sound, PopSection, Consumers, Producers;
    assert LifeCycle(w.q) by { SoundLives(w.q); }
    PopSound(w.q, t, expired, woken);
    PopHasEffect(w.q, t, expired, woken);
    CallsAfterPop(w.calls, t, timed);
    if w.q.items != [] {
      assert w.popped + w.q.items == (w.popped + [w.q.items[0]]) + w.q.items[1..];
    }
  }

  lemma CloseKeepsInv<T>(w: World<T>, mode: ShutdownMode)
    requires Inv(w)
    ensures Inv(AfterClose(w, mode))
  {
    CloseSound(w.q, mode);
  }

  lemma StirCounts(cv: CondVar, t: ThreadId)
    requires cv.Disjoint() && t in cv.asleep
    ensures cv.Stir(t).Disjoint() && cv.Stir(t).Members() == cv.Members()
  {
  }

  lemma WaitEndsKeepsInv<T>(w: World<T>, t: ThreadId)
    requires Inv(w) && (t in w.q.notEmpty.asleep || t in w.q.notFull.asleep)
    ensures Inv(AfterWaitEnds(w, t))
  {
    if t in w.q.notEmpty.asleep {
      StirCounts(w.q.notEmpty, t);
    } else {
      StirCounts(w.q.notFull, t);
    }
  }

  /** A thread with the mutex, fresh or awake, is not among the sleepers. */
  lemma NotAsleep<T>(w: World<T>, t: ThreadId)
    requires Inv(w)
    ensures t !in w.calls || Awake(w.q.notFull, t) ==> t !in w.q.notFull.asleep
    ensures t !in w.calls || Awake(w.q.notEmpty, t) ==> t !in w.q.notEmpty.asleep
  {
    assert t !in w.calls ==> t !in Consumers(w.calls) && t !in Producers(w.calls);
  }

  lemma StepKeepsInv<T>(w: World<T>, e: Event<T>)
    requires Inv(w) && Enabled(w, e)
    ensures Inv(Step(w, e))
  {
    hide Inv, AfterPush, AfterPop, AfterWaitEnds, AfterClose, PushSection, PushForSection, PopSection;
    NotAsleep(w, e.t);
    match e
    case Push(t, item, woken) => PushKeepsInv(w, t, item, woken);
    case PushFor(t, item, expired, woken) => ProducerKeepsInv(w, t, item, expired, woken);
    case PushForResumes(t, expired, woken) => ProducerKeepsInv(w, t, w.calls[t].item, expired, woken);
    case Pop(t, timed, expired, woken) => ConsumerKeepsInv(w, t, timed, expired, woken);
    case PopResumes(t, expired, woken) => ConsumerKeepsInv(w, t, w.calls[t].timed, expired, woken);
    case WaitEnds(t) => WaitEndsKeepsInv(w, t);
    case Close(t, mode) => CloseKeepsInv(w, mode);
  }

  /** Nothing a run does ever breaks the invariant. */
  lemma {:induction false} RunKeepsInv<T>(capacity: nat, ws: seq<World<T>>, es: seq<Event<T>>, i: nat)
    requires IsRun(capacity, ws, es) && i < |ws|
    ensures Inv(ws[i]) && ws[i].q.capacity == capacity
  {
    hide Inv, IsRun, Enabled, Step;
    if i == 0 {
      StartInv(capacity, ws, es);
    } else {
      RunKeepsInv(capacity, ws, es, i - 1);
      RunSteps(capacity, ws, es, i - 1);
      StepKeepsInv(ws[i - 1], es[i - 1]);
      StepAdvances(ws[i - 1], es[i - 1]);
    }
  }

  lemma StartInv<T>(capacity: nat, ws: seq<World<T>>, es: seq<Event<T>>)
    requires IsRun(capacity, ws, es)
    ensures Inv(ws[0]) && ws[0].q.capacity == capacity
  {
    assert ws[0] == Start(capacity);
    hide IsRun;
  }

  // ---------------------------------------------------------------------------
  // What it means for whole runs
  // ---------------------------------------------------------------------------

  /**
   * No wake-up is lost. If a consumer sleeps un-notified, the consumers already
   * notified are at least as many as the queued items; if a producer does, the
   * notified producers are at least as many as the free slots; and nobody sleeps
   * un-notified once the queue has left RUNNING. So with no notification
   * outstanding a sleeping consumer faces an empty queue and a sleeping producer
   * a full one, and the two never sleep at once.
   */
  lemma NoWakeUpIsLost<T>(capacity: nat, ws: seq<World<T>>, es: seq<Event<T>>, i: nat)
    requires IsRun(capacity, ws, es) && i < |ws|
    ensures var q := ws[i].q;
      && (q.notEmpty.asleep != {} ==> |q.notEmpty.notified| >= |q.items|)
      && (q.notFull.asleep != {} ==> |q.notFull.notified| >= capacity - |q.items|)
      && (q.state != Running ==> q.notEmpty.asleep == {} && q.notFull.asleep == {})
    ensures var q := ws[i].q;
      q.notEmpty.notified == {} && q.notFull.notified == {} ==>
        && (q.notEmpty.asleep != {} ==> q.items == [])
        && (q.notFull.asleep != {} ==> |q.items| == capacity)
        && (q.notEmpty.asleep == {} || q.notFull.asleep == {})
  {
    RunKeepsInv(capacity, ws, es, i);
  }

  /** First in, first out, and nothing is lost but what an IMMEDIATE shutdown discards. */
  lemma HistoryIsFifo<T>(capacity: nat, ws: seq<World<T>>, es: seq<Event<T>>, i: nat)
    requires IsRun(capacity, ws, es) && i < |ws|
    ensures ws[i].pushed == ws[i].popped + ws[i].q.items + ws[i].discarded
    ensures (forall j | 0 <= j < i :: !(es[j].Close? && es[j].mode == Immediate)) ==> ws[i].discarded == []
    ensures |ws[i].q.items| <= capacity
    ensures ws[i].q.state == Draining ==> ws[i].q.items != []
    ensures ws[i].q.state == Shutdown ==> ws[i].q.items == []
  {
    RunKeepsInv(capacity, ws, es, i);
    if forall j | 0 <= j < i :: !(es[j].Close? && es[j].mode == Immediate) {
      NothingDiscarded(capacity, ws, es, i);
    }
  }

  lemma {:induction false} NothingDiscarded<T>(capacity: nat, ws: seq<World<T>>, es: seq<Event<T>>, i: nat)
    requires IsRun(capacity, ws, es) && i < |ws|
    requires forall j | 0 <= j < i :: !(es[j].Close? && es[j].mode == Immediate)
    ensures ws[i].discarded == []
  {
    if i > 0 {
      NothingDiscarded(capacity, ws, es, i - 1);
      assert Enabled(ws[i - 1], es[i - 1]) && ws[i] == Step(ws[i - 1], es[i - 1]);
    }
  }

  function Rank(s: QueueState): nat {
    match s case Running => 0 case Draining => 1 case Shutdown => 2
  }

  ghost predicate Advances<T>(w: World<T>, w': World<T>) {
    && w'.q.capacity == w.q.capacity
    && Rank(w.q.state) <= Rank(w'.q.state)
    && w.pushed <= w'.pushed && w.popped <= w'.popped
    && (w.q.state != Running ==> w'.pushed == w.pushed)
    && (w.q.state == Shutdown ==> w'.popped == w.popped && w'.discarded == w.discarded)
  }

  lemma StepAdvances<T>(w: World<T>, e: Event<T>)
    requires Inv(w) && Enabled(w, e)
    ensures Advances(w, Step(w, e))
  {
    hide Sound, Conserved, WaitersAreCallers, PushSection, PushForSection, PopSection;
    hide CondVar.CanNotifyOne, CondVar.Stir, CondVar.NotifyAll;
    SoundLives(w.q);
    match e
    case Push(t, item, woken) => PushHasEffect(w.q, item, woken);
    case PushFor(t, item, expired, woken) => PushForEffect(w.q, t, item, expired, woken);
    case PushForResumes(t, expired, woken) => PushForEffect(w.q, t, w.calls[t].item, expired, woken);
    case Pop(t, timed, expired, woken) => PopHasEffect(w.q, t, expired, woken);
    case PopResumes(t, expired, woken) => PopHasEffect(w.q, t, expired, woken);
    case _ =>
  }

  lemma PushHasEffect<T>(q: Core<T>, item: T, woken: Option<ThreadId>)
    requires Appends(q) ==> q.notEmpty.CanNotifyOne(woken)
    ensures PushEffect(q, item, PushSection(q, item, woken)) && !PushSection(q, item, woken).1.Blocked?
  {
  }

  lemma AdvancesTransitive<T>(a: World<T>, b: World<T>, c: World<T>)
    requires Advances(a, b) && Advances(b, c)
    ensures Advances(a, c)
  {
  }

  /** The life cycle and both histories only move forward; acceptance ends when RUNNING does. */
  lemma {:induction false} RunAdvances<T>(capacity: nat, ws: seq<World<T>>, es: seq<Event<T>>, i: nat, j: nat)
    requires IsRun(capacity, ws, es) && i <= j < |ws|
    ensures Advances(ws[i], ws[j])
    decreases j
  {
    hide Inv, Enabled, Step, IsRun;
    if i < j {
      hide Advances;
      RunAdvances(capacity, ws, es, i, j - 1);
      RunKeepsInv(capacity, ws, es, j - 1);
      RunSteps(capacity, ws, es, j - 1);
      StepAdvances(ws[j - 1], es[j - 1]);
      AdvancesTransitive(ws[i], ws[j - 1], ws[j]);
    }
  }

  /**
   * Draining is complete before it is announced: in a run with no IMMEDIATE
   * shutdown so far, once some consumer is told QUEUE_SHUTDOWN every accepted
   * item has been handed out in order, and neither history changes again.
   */
  lemma DrainedBeforeShutdownIsSeen<T>(
    capacity: nat, ws: seq<World<T>>, es: seq<Event<T>>, i: nat, j: nat)
    requires IsRun(capacity, ws, es) && i < |es| && i < j < |ws|
    requires forall k | 0 <= k < i :: !(es[k].Close? && es[k].mode == Immediate)
    requires Enabled(ws[i], es[i]) && ConsumerReply(ws[i], es[i]) == Some(Popped(QueueShutdown, None))
    ensures ws[j].popped == ws[j].pushed == ws[i].pushed
  {
    RunKeepsInv(capacity, ws, es, i);
    NothingDiscarded(capacity, ws, es, i);
    assert ws[i].q.items == [] && ws[i].q.state == Shutdown;
    RunAdvances(capacity, ws, es, i, j);
  }

  // ---------------------------------------------------------------------------
  // What every step answers
  // ---------------------------------------------------------------------------

  /** The reply a producer's section gives, if `e` is one. */
  ghost function ProducerReply<T>(w: World<T>, e: Event<T>): Option<Reply<T>>
    requires Enabled(w, e)
  {
    match e
    case Push(t, item, woken) => Some(PushSection(w.q, item, woken).1)
    case PushFor(t, item, expired, woken) => Some(PushForSection(w.q, t, item, expired, woken).1)
    case PushForResumes(t, expired, woken) => Some(PushForSection(w.q, t, w.calls[t].item, expired, woken).1)
    case _ => None
  }

  ghost predicate Untimed<T>(w: World<T>, e: Event<T>) {
    match e
    case Pop(t, timed, _, _) => !timed
    case PopResumes(t, _, _) => t in w.calls && w.calls[t].PopCall? && !w.calls[t].timed
    case _ => false
  }

  /**
   * Every turn of a Pop in every run, from the state before it: it takes and
   * hands out the front item if there is one, blocks, times out or reports the
   * shutdown exactly when it should, and stays in flight exactly if it blocked.
   * An untimed Pop never times out.
   */
  lemma ConsumersAreAnsweredExactly<T>(capacity: nat, ws: seq<World<T>>, es: seq<Event<T>>, i: nat)
    requires IsRun(capacity, ws, es) && i < |es| && (es[i].Pop? || es[i].PopResumes?)
    ensures Enabled(ws[i], es[i]) && ConsumerReply(ws[i], es[i]).Some?
    ensures var w, w', e, r := ws[i], ws[i + 1], es[i], ConsumerReply(ws[i], es[i]).value;
      && PopMeans(w.q, e.t, e.expired, w'.q, r)
      && (e.t in w'.calls <==> r == Blocked)
      && w'.popped == w.popped + (if w.q.items == [] then [] else [w.q.items[0]])
      && w'.pushed == w.pushed && w'.discarded == w.discarded
      && (Untimed(w, e) ==> r != Popped(QueueTimeout, None))
  {
    RunSteps(capacity, ws, es, i);
    hide IsRun, PopSection, CondVar.CanNotifyOne;
    PopIsExact(ws[i].q, es[i].t, es[i].expired, es[i].woken);
  }

  /** Every turn of a Push or PushFor likewise: the item is accepted exactly if the queue runs and has room. */
  lemma ProducersAreAnsweredExactly<T>(capacity: nat, ws: seq<World<T>>, es: seq<Event<T>>, i: nat)
    requires IsRun(capacity, ws, es) && i < |es| && (es[i].Push? || es[i].PushFor? || es[i].PushForResumes?)
    ensures Enabled(ws[i], es[i]) && ProducerReply(ws[i], es[i]).Some?
    ensures var w, w', e, r := ws[i], ws[i + 1], es[i], ProducerReply(ws[i], es[i]).value;
      var item := if e.PushForResumes? then w.calls[e.t].item else e.item;
      && (if e.Push? then r.Pushed? && PushMeans(w.q, item, w'.q, r.error)
          else PushForMeans(w.q, e.t, item, e.expired, w'.q, r))
      && (e.t in w'.calls <==> r == Blocked) && (r == Blocked ==> w'.calls[e.t] == PushCall(item))
      && w'.pushed == w.pushed + (if w.q.state == Running && |w.q.items| < w.q.capacity then [item] else [])
      && w'.popped == w.popped && w'.discarded == w.discarded
  {
    RunSteps(capacity, ws, es, i);
    hide IsRun, PushSection, PushForSection, CondVar.CanNotifyOne;
    var w, e := ws[i], es[i];
    match e
    case Push(t, item, woken) => PushIsExact(w.q, item, woken);
    case PushFor(t, item, expired, woken) => PushForIsExact(w.q, t, item, expired, woken);
    case PushForResumes(t, expired, woken) => PushForIsExact(w.q, t, w.calls[t].item, expired, woken);
  }

  /** A shutdown discards what is queued exactly if it is IMMEDIATE and the first to complete. */
  lemma ShutdownIsAnsweredExactly<T>(capacity: nat, ws: seq<World<T>>, es: seq<Event<T>>, i: nat)
    requires IsRun(capacity, ws, es) && i < |es| && es[i].Close?
    ensures CloseMeans(ws[i].q, es[i].mode, ws[i + 1].q, ShutdownSection(ws[i].q, es[i].mode).1)
    ensures ws[i + 1].calls == ws[i].calls && ws[i + 1].pushed == ws[i].pushed && ws[i + 1].popped == ws[i].popped
    ensures ws[i + 1].discarded ==
      if es[i].mode == Immediate && ws[i].q.state != Shutdown then ws[i].q.items else ws[i].discarded
  {
    RunSteps(capacity, ws, es, i);
    CloseIsExact(ws[i].q, es[i].mode);
  }

  /** A wait that ends by itself, by time-out or spuriously, leaves the thread awake but not notified. */
  lemma WaitsEndExactly<T>(capacity: nat, ws: seq<World<T>>, es: seq<Event<T>>, i: nat)
    requires IsRun(capacity, ws, es) && i < |es| && es[i].WaitEnds?
    ensures var q, q', t := ws[i].q, ws[i + 1].q, es[i].t;
      && ws[i + 1] == ws[i].(q := q') && q'.items == q.items && q'.state == q.state && q'.capacity == q.capacity
      && (t in q.notEmpty.asleep ==>
            && q'.notEmpty == CondVar(q.notEmpty.asleep - {t}, q.notEmpty.notified, q.notEmpty.stirred + {t})
            && q'.notFull == q.notFull)
      && (t !in q.notEmpty.asleep ==>
            && q'.notFull == CondVar(q.notFull.asleep - {t}, q.notFull.notified, q.notFull.stirred + {t})
            && q'.notEmpty == q.notEmpty)
  {
    RunSteps(capacity, ws, es, i);
  }

  // ---------------------------------------------------------------------------
  // Waiting is served
  // ---------------------------------------------------------------------------

  lemma Extend<T>(capacity: nat, ws: seq<World<T>>, es: seq<Event<T>>, e: Event<T>)
    returns (ws': seq<World<T>>, es': seq<Event<T>>)
    requires IsRun(capacity, ws, es) && Enabled(ws[|es|], e)
    ensures IsRun(capacity, ws', es') && es' == es + [e] && ws'[|es'|] == Step(ws[|es|], e) && ws <= ws'
    ensures |ws| == |es'|
  {
    hide Enabled, Step;
    es' := es + [e];
    ws' := ws + [Step(ws[|es|], e)];
    forall i | 0 <= i < |es'| ensures Enabled(ws'[i], es'[i]) && ws'[i + 1] == Step(ws'[i], es'[i]) {
      if i < |es| {
        assert ws'[i] == ws[i] && es'[i] == es[i] && ws'[i + 1] == ws[i + 1];
      }
    }
  }

  /** A consumer sleeps on an empty queue, a push notifies it, and it takes the item. */
  lemma ASleepingConsumerIsServed<T>(capacity: nat, x: T) returns (ws: seq<World<T>>, es: seq<Event<T>>)
    requires capacity > 0
    ensures IsRun(capacity, ws, es) && |es| == 3
    ensures ws[1].q.notEmpty.asleep == {1} && ws[2].q.notEmpty.notified == {1}
    ensures ws[3].popped == [x] && ws[3].q.items == [] && ws[3].calls == map[]
  {
    ws, es := [Start(capacity)], [];
    assert IsRun(capacity, ws, es);
    hide IsRun;
    ws, es := Extend(capacity, ws, es, Pop(1, false, false, None));
    ws, es := Extend(capacity, ws, es, Push(2, x, Some(1)));
    ws, es := Extend(capacity, ws, es, PopResumes(1, false, None));
  }

  /** A producer sleeps on a full queue, a pop notifies it, and its item is accepted. */
  lemma ASleepingProducerIsServed<T>(x: T, y: T) returns (ws: seq<World<T>>, es: seq<Event<T>>)
    ensures IsRun(1, ws, es) && |es| == 4
    ensures ws[2].q.notFull.asleep == {2} && ws[3].q.notFull.notified == {2}
    ensures ws[4].pushed == [x, y] && ws[4].popped == [x] && ws[4].q.items == [y] && ws[4].calls == map[]
  {
    ws, es := [Start(1)], [];
    assert IsRun(1, ws, es);
    hide IsRun;
    ws, es := Extend(1, ws, es, Push(1, x, None));
    ws, es := Extend(1, ws, es, PushFor(2, y, false, None));
    ws, es := Extend(1, ws, es, Pop(3, false, false, Some(2)));
    ws, es := Extend(1, ws, es, PushForResumes(2, false, None));
  }
}
