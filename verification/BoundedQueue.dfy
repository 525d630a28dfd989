/**
 * The bounded multi-producer, multi-consumer queue (framework/queue/queue.tpp).
 *
 * `Core` is what the mutex protects: the items, the life-cycle state and the two
 * condition variables. Each function below is one critical section: the span
 * between acquiring the mutex and either returning or blocking on a condition
 * variable. The class at the end performs the same sections in place.
 */
module BoundedQueue {
  import opened Basics

  type ThreadId = nat

  datatype QueueError = Success | QueueFull | QueueShutdown | QueueTimeout

  datatype ShutdownMode = Immediate | Drain

  datatype QueueState = Running | Draining | Shutdown

  /**
   * A condition variable: the threads blocked on it, those a notification has
   * released and that have not yet re-acquired the mutex, and those that left
   * the wait on their own (time-out or spurious wake-up) and have not yet
   * re-acquired it either.
   */
  datatype CondVar = CondVar(asleep: set<ThreadId>, notified: set<ThreadId>, stirred: set<ThreadId>) {

    function Members(): set<ThreadId> {
      asleep + notified + stirred
    }

    predicate Disjoint() {
      asleep !! notified && asleep !! stirred && notified !! stirred
    }

    /** `pick` is the thread the implementation happened to release. */
    predicate CanNotifyOne(pick: Option<ThreadId>) {
      if asleep == {} then pick == None else pick.Some? && pick.value in asleep
    }

    function NotifyOne(pick: Option<ThreadId>): CondVar
      requires CanNotifyOne(pick)
    {
      if pick == None then this
      else CondVar(asleep - {pick.value}, notified + {pick.value}, stirred)
    }

    function NotifyAll(): CondVar {
      CondVar({}, notified + asleep, stirred)
    }

    function Sleep(t: ThreadId): CondVar {
      CondVar(asleep + {t}, notified, stirred)
    }

    /** Thread `t` has the mutex again and is no longer waiting. */
    function Leave(t: ThreadId): CondVar {
      CondVar(asleep, notified - {t}, stirred - {t})
    }

    /** Thread `t` stops blocking without having been notified. */
    function Stir(t: ThreadId): CondVar
      requires t in asleep
    {
      CondVar(asleep - {t}, notified, stirred + {t})
    }
  }

  const NOBODY := CondVar({}, {}, {})

  datatype Core<T> = Core(items: seq<T>, capacity: nat, state: QueueState, notEmpty: CondVar, notFull: CondVar)

  function Create<T>(capacity: nat): Core<T> {
    Core([], capacity, if capacity > 0 then Running else Shutdown, NOBODY, NOBODY)
  }

  /** What a critical section ends with: a reply to the caller, or a block on the condition variable. */
  datatype Reply<+T> = Pushed(error: QueueError) | Popped(error: QueueError, item: Option<T>) | Blocked

  predicate HasRoom<T>(q: Core<T>) {
    q.state != Running || |q.items| < q.capacity
  }

  predicate HasWork<T>(q: Core<T>) {
    q.items != [] || q.state != Running
  }

  function Append<T>(q: Core<T>, item: T, woken: Option<ThreadId>): Core<T>
    requires q.notEmpty.CanNotifyOne(woken)
  {
    q.(items := q.items + [item], notEmpty := q.notEmpty.NotifyOne(woken))
  }

  /** Push appends exactly when the queue is running and not full. */
  predicate Appends<T>(q: Core<T>) {
    q.state == Running && |q.items| < q.capacity
  }

  function PushSection<T>(q: Core<T>, item: T, woken: Option<ThreadId>): (r: (Core<T>, Reply<T>))
    requires Appends(q) ==> q.notEmpty.CanNotifyOne(woken)
  {
    if q.state != Running then (q, Pushed(QueueShutdown))
    else if |q.items| >= q.capacity then (q, Pushed(QueueFull))
    else (Append(q, item, woken), Pushed(Success))
  }

  /**
   * One turn of PushFor with the mutex held by `t`: evaluate the wait
   * predicate, then block, give up or push. `expired` says that the deadline
   * has passed when the predicate is found false.
   */
  function PushForSection<T>(q: Core<T>, t: ThreadId, item: T, expired: bool, woken: Option<ThreadId>)
    : (r: (Core<T>, Reply<T>))
    requires Appends(q) ==> q.notEmpty.CanNotifyOne(woken)
  {
    var q' := q.(notFull := q.notFull.Leave(t));
    if !HasRoom(q) then
      if expired then (q', Pushed(QueueTimeout)) else (q'.(notFull := q'.notFull.Sleep(t)), Blocked)
    else if q.state != Running then (q', Pushed(QueueShutdown))
    else (Append(q', item, woken), Pushed(Success))
  }

  function NotifyEveryone<T>(q: Core<T>): Core<T> {
    q.(notEmpty := q.notEmpty.NotifyAll(), notFull := q.notFull.NotifyAll())
  }

  function RemoveFront<T>(q: Core<T>, woken: Option<ThreadId>): Core<T>
    requires q.items != [] && q.notFull.CanNotifyOne(woken)
  {
    var q' := q.(items := q.items[1..], notFull := q.notFull.NotifyOne(woken));
    if q.state == Draining && q'.items == [] then NotifyEveryone(q'.(state := Shutdown)) else q'
  }

  /** One turn of Pop or PopFor with the mutex held by `t`; Pop never expires. */
  function PopSection<T>(q: Core<T>, t: ThreadId, expired: bool, woken: Option<ThreadId>)
    : (r: (Core<T>, Reply<T>))
    requires q.items != [] ==> q.notFull.CanNotifyOne(woken)
  {
    var q' := q.(notEmpty := q.notEmpty.Leave(t));
    if !HasWork(q) then
      if expired then (q', Popped(QueueTimeout, None)) else (q'.(notEmpty := q'.notEmpty.Sleep(t)), Blocked)
    else if q.items != [] then (RemoveFront(q', woken), Popped(Success, Some(q.items[0])))
    else (q', Popped(QueueShutdown, None))
  }

  function ShutdownSection<T>(q: Core<T>, mode: ShutdownMode): (r: (Core<T>, QueueError)) {
    if q.state == Shutdown then (q, QueueShutdown)
    else if mode == Immediate then (NotifyEveryone(q.(items := [], state := Shutdown)), Success)
    else (NotifyEveryone(q.(state := if q.items == [] then Shutdown else Draining)), Success)
  }

  // ---------------------------------------------------------------------------
  // What the sections mean, field by field
  // ---------------------------------------------------------------------------

  /** A notification, if there is one to give, releases exactly one of the sleepers. */
  ghost predicate ReleasesOne(cv: CondVar, cv': CondVar) {
    && cv'.stirred == cv.stirred
    && (cv.asleep == {} ==> cv'.asleep == {} && cv'.notified == cv.notified)
    && (cv.asleep != {} ==>
          exists t :: t in cv.asleep && cv'.asleep == cv.asleep - {t} && cv'.notified == cv.notified + {t})
  }

  /** Thread `t` has given up its place, or has gone to sleep. */
  ghost predicate Attends(cv: CondVar, cv': CondVar, t: ThreadId, sleeps: bool) {
    && cv'.asleep == (if sleeps then cv.asleep + {t} else cv.asleep)
    && cv'.notified == cv.notified - {t} && cv'.stirred == cv.stirred - {t}
  }

  /** Everybody who slept has been released. */
  ghost predicate ReleasesAll(cv: CondVar, cv': CondVar) {
    cv'.asleep == {} && cv'.notified == cv.notified + cv.asleep && cv'.stirred == cv.stirred
  }

  /** Push succeeds exactly if the queue runs and has room, and then the item is its last. */
  ghost predicate PushMeans<T>(q: Core<T>, item: T, q': Core<T>, error: QueueError) {
    && (error == QueueShutdown <==> q.state != Running)
    && (error == QueueFull <==> q.state == Running && |q.items| >= q.capacity)
    && (error == Success <==> q.state == Running && |q.items| < q.capacity)
    && (error != Success ==> q' == q)
    && (error == Success ==>
          && q'.items == q.items + [item] && q'.state == Running && q'.capacity == q.capacity
          && ReleasesOne(q.notEmpty, q'.notEmpty) && q'.notFull == q.notFull)
  }

  /** PushFor waits exactly while the queue runs, is full and the deadline is ahead. */
  ghost predicate PushForMeans<T>(
    q: Core<T>, t: ThreadId, item: T, expired: bool, q': Core<T>, reply: Reply<T>)
  {
    var full := q.state == Running && |q.items| >= q.capacity;
    && (reply == Blocked <==> full && !expired)
    && (reply == Pushed(QueueTimeout) <==> full && expired)
    && (reply == Pushed(QueueShutdown) <==> q.state != Running)
    && (reply == Pushed(Success) <==> q.state == Running && |q.items| < q.capacity)
    && q'.state == q.state && q'.capacity == q.capacity && Attends(q.notFull, q'.notFull, t, reply == Blocked)
    && (reply == Pushed(Success) ==>
          q'.items == q.items + [item] && ReleasesOne(q.notEmpty, q'.notEmpty))
    && (reply != Pushed(Success) ==> q'.items == q.items && q'.notEmpty == q.notEmpty)
  }

  /**
   * Pop takes the front item exactly if there is one, and otherwise waits
   * exactly while the queue runs and the deadline is ahead. Taking the last
   * item of a drain ends it.
   */
  ghost predicate PopMeans<T>(q: Core<T>, t: ThreadId, expired: bool, q': Core<T>, reply: Reply<T>) {
    && (reply == Blocked <==> q.items == [] && q.state == Running && !expired)
    && (reply == Popped(QueueTimeout, None) <==> q.items == [] && q.state == Running && expired)
    && (reply == Popped(QueueShutdown, None) <==> q.items == [] && q.state != Running)
    && (q.items != [] ==> reply == Popped(Success, Some(q.items[0])) && q'.items == q.items[1..])
    && q'.capacity == q.capacity
    && (q.items == [] ==>
          && q'.items == [] && q'.state == q.state && q'.notFull == q.notFull
          && Attends(q.notEmpty, q'.notEmpty, t, reply == Blocked))
    && (q.items != [] && !(q.state == Draining && |q.items| == 1) ==>
          && q'.state == q.state
          && Attends(q.notEmpty, q'.notEmpty, t, false) && ReleasesOne(q.notFull, q'.notFull))
    && (q.items != [] && q.state == Draining && |q.items| == 1 ==>
          q'.state == Shutdown && q'.notEmpty.asleep == {} && q'.notFull.asleep == {})
  }

  /** Shutdown is refused exactly if it is complete; IMMEDIATE, or DRAIN with nothing to drain, completes it. */
  ghost predicate CloseMeans<T>(q: Core<T>, mode: ShutdownMode, q': Core<T>, error: QueueError) {
    && error == (if q.state == Shutdown then QueueShutdown else Success)
    && q'.capacity == q.capacity
    && (error != Success ==> q' == q)
    && (error == Success ==>
          && q'.items == (if mode == Immediate then [] else q.items)
          && q'.state == (if mode == Drain && q.items != [] then Draining else Shutdown)
          && ReleasesAll(q.notEmpty, q'.notEmpty) && ReleasesAll(q.notFull, q'.notFull))
  }

  lemma NotifyReleasesOne(cv: CondVar, pick: Option<ThreadId>)
    requires cv.CanNotifyOne(pick)
    ensures ReleasesOne(cv, cv.NotifyOne(pick))
  {
  }

  lemma PushIsExact<T>(q: Core<T>, item: T, woken: Option<ThreadId>)
    requires Appends(q) ==> q.notEmpty.CanNotifyOne(woken)
    ensures var r := PushSection(q, item, woken); r.1.Pushed? && PushMeans(q, item, r.0, r.1.error)
  {
    if Appends(q) {
      NotifyReleasesOne(q.notEmpty, woken);
    }
  }

  lemma PushForIsExact<T>(q: Core<T>, t: ThreadId, item: T, expired: bool, woken: Option<ThreadId>)
    requires Appends(q) ==> q.notEmpty.CanNotifyOne(woken)
    ensures var r := PushForSection(q, t, item, expired, woken); PushForMeans(q, t, item, expired, r.0, r.1)
  {
    if Appends(q) {
      NotifyReleasesOne(q.notEmpty, woken);
    }
  }

  lemma PopIsExact<T>(q: Core<T>, t: ThreadId, expired: bool, woken: Option<ThreadId>)
    requires q.items != [] ==> q.notFull.CanNotifyOne(woken)
    ensures var r := PopSection(q, t, expired, woken); PopMeans(q, t, expired, r.0, r.1)
  {
    if q.items != [] {
      NotifyReleasesOne(q.notFull, woken);
    }
  }

  lemma CloseIsExact<T>(q: Core<T>, mode: ShutdownMode)
    ensures var r := ShutdownSection(q, mode); CloseMeans(q, mode, r.0, r.1)
  {
  }

  /** The queue object. Every method runs its critical section in place. */
  class Queue<T> {
    var items: seq<T>
    const capacity: nat
    var state: QueueState
    var notEmpty: CondVar
    var notFull: CondVar

    ghost function View(): Core<T>
      reads this
    {
      Core(items, capacity, state, notEmpty, notFull)
    }

    constructor (capacity: nat)
      ensures View() == Create(capacity)
    {
      this.items := [];
      this.capacity := capacity;
      this.state := if capacity > 0 then Running else Shutdown;
      this.notEmpty := NOBODY;
      this.notFull := NOBODY;
    }

    method NotifyNotEmpty() returns (woken: Option<ThreadId>)
      modifies this`notEmpty
      ensures old(notEmpty).CanNotifyOne(woken) && notEmpty == old(notEmpty).NotifyOne(woken)
    {
      woken := None;
      if notEmpty.asleep != {} {
        var t :| t in notEmpty.asleep;
        woken := Some(t);
        notEmpty := CondVar(notEmpty.asleep - {t}, notEmpty.notified + {t}, notEmpty.stirred);
      }
    }

    method NotifyNotFull() returns (woken: Option<ThreadId>)
      modifies this`notFull
      ensures old(notFull).CanNotifyOne(woken) && notFull == old(notFull).NotifyOne(woken)
    {
      woken := None;
      if notFull.asleep != {} {
        var t :| t in notFull.asleep;
        woken := Some(t);
        notFull := CondVar(notFull.asleep - {t}, notFull.notified + {t}, notFull.stirred);
      }
    }

    method Push(item: T) returns (error: QueueError, woken: Option<ThreadId>)
      modifies this
      ensures Appends(old(View())) ==> old(notEmpty).CanNotifyOne(woken)
      ensures (View(), Pushed(error)) == PushSection(old(View()), item, woken)
      ensures PushMeans(old(View()), item, View(), error)
    {
      woken := None;
      if state != Running {
        return QueueShutdown, None;
      }
      if |items| >= capacity {
        return QueueFull, None;
      }
      items := items + [item];
      woken := NotifyNotEmpty();
      error := Success;
    }

    method PushFor(t: ThreadId, item: T, expired: bool) returns (reply: Reply<T>, woken: Option<ThreadId>)
      modifies this
      ensures Appends(old(View())) ==> old(notEmpty).CanNotifyOne(woken)
      ensures (View(), reply) == PushForSection(old(View()), t, item, expired, woken)
      ensures PushForMeans(old(View()), t, item, expired, View(), reply)
    {
      woken := None;
      notFull := notFull.Leave(t);
      if state == Running && |items| >= capacity {
        if expired {
          return Pushed(QueueTimeout), None;
        }
        notFull := notFull.Sleep(t);
        return Blocked, None;
      }
      if state != Running {
        return Pushed(QueueShutdown), None;
      }
      items := items + [item];
      woken := NotifyNotEmpty();
      reply := Pushed(Success);
    }

    method Pop(t: ThreadId, expired: bool) returns (reply: Reply<T>, woken: Option<ThreadId>)
      modifies this
      ensures old(items) != [] ==> old(notFull).CanNotifyOne(woken)
      ensures (View(), reply) == PopSection(old(View()), t, expired, woken)
      ensures PopMeans(old(View()), t, expired, View(), reply)
    {
      woken := None;
      notEmpty := notEmpty.Leave(t);
      if |items| == 0 && state == Running {
        if expired {
          return Popped(QueueTimeout, None), None;
        }
        notEmpty := notEmpty.Sleep(t);
        return Blocked, None;
      }
      if |items| != 0 {
        var item := items[0];
        items := items[1..];
        woken := NotifyNotFull();
        if state == Draining && |items| == 0 {
          state := Shutdown;
          notEmpty := notEmpty.NotifyAll();
          notFull := notFull.NotifyAll();
        }
        return Popped(Success, Some(item)), woken;
      }
      reply := Popped(QueueShutdown, None);
    }

    method Close(mode: ShutdownMode) returns (error: QueueError)
      modifies this
      ensures (View(), error) == ShutdownSection(old(View()), mode)
      ensures CloseMeans(old(View()), mode, View(), error)
    {
      if state == Shutdown {
        return QueueShutdown;
      }
      if mode == Immediate {
        while |items| != 0
          invariant state == old(state) && notEmpty == old(notEmpty) && notFull == old(notFull)
          decreases |items|
        {
          items := items[1..];
        }
        state := Shutdown;
        notEmpty := notEmpty.NotifyAll();
        notFull := notFull.NotifyAll();
        return Success;
      }
      state := Draining;
      if |items| == 0 {
        state := Shutdown;
      }
      notEmpty := notEmpty.NotifyAll();
      notFull := notFull.NotifyAll();
      error := Success;
    }
  }
}
