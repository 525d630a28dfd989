/**
 * The worker life cycle of ThreadManager (framework/thread/thread_manager.cpp):
 * Start, Stop, the two Joins and Detach, called concurrently from any threads.
 *
 * Each successful Start begins an epoch with its own worker. A step is one
 * critical section, or the return of a worker function or of an OS join.
 */
module ThreadManager {
  import opened Basics

  type Epoch = nat

  type ThreadId = nat

  datatype ThreadError =
    | Success | InvalidArgument | AlreadyRunning | NotRunning | ThreadCreationFailed | JoinTimeout | JoinFailed

  /** A worker runs its function, then posts completion under the lock, then exits. */
  datatype Worker = Working | FunctionReturned | Posted

  /** The fields the mutex protects; `thread` is worker_thread, joinable when it names an epoch. */
  datatype Manager = Manager(running: bool, finished: bool, thread: Option<Epoch>, stop: bool, nextEpoch: Epoch)

  const NEW_MANAGER := Manager(false, false, None, false, 0)

  datatype Release = Joined(epoch: Epoch) | Detached(epoch: Epoch)

  datatype Joiner = Waiting(timed: bool) | InOsJoin(epoch: Epoch)

  datatype World = World(
    m: Manager,
    workers: map<Epoch, Worker>,
    joiners: map<ThreadId, Joiner>,
    releases: seq<Release>)          // the epochs whose thread was handed to an OS join or detached

  datatype Event =
    | StartCalled(hasWorker: bool, created: bool)
    | StopCalled
    | JoinCalled(t: ThreadId, timed: bool)
    | JoinWakes(t: ThreadId, expired: bool)
    | OsJoinReturns(t: ThreadId)
    | DetachCalled
    | WorkerReturns(epoch: Epoch)
    | WorkerPosts(epoch: Epoch)

  function StartSection(m: Manager, hasWorker: bool, created: bool): (r: (Manager, ThreadError)) {
    if !hasWorker then (m, InvalidArgument)
    else if m.running then (m, AlreadyRunning)
    else if !created then (m.(stop := false, finished := false), ThreadCreationFailed)
    else (Manager(true, false, Some(m.nextEpoch), false, m.nextEpoch + 1), Success)
  }

  function StopSection(m: Manager): (r: (Manager, ThreadError)) {
    if m.running then (m.(stop := true), Success) else (m, NotRunning)
  }

  /** CompleteJoin up to the release of the lock: on success the caller goes on to join the epoch. */
  function CompleteJoin(m: Manager): (r: (Manager, ThreadError)) {
    if !m.running then (m, NotRunning)
    else if m.thread.None? then (m, JoinFailed)
    else (m.(running := false, thread := None), Success)
  }

  function DetachSection(m: Manager): Manager {
    if m.thread.Some? then m.(running := false, thread := None) else m
  }

  ghost predicate Enabled(w: World, e: Event) {
    match e
    case StartCalled(_, _) => true
    case StopCalled => true
    case JoinCalled(t, _) => t !in w.joiners
    case JoinWakes(t, expired) => t in w.joiners && w.joiners[t].Waiting? && (expired ==> w.joiners[t].timed)
    case OsJoinReturns(t) =>
      && t in w.joiners && w.joiners[t].InOsJoin?
      && w.joiners[t].epoch in w.workers && w.workers[w.joiners[t].epoch] == Posted
    case DetachCalled => true
    case WorkerReturns(epoch) => epoch in w.workers && w.workers[epoch] == Working
    case WorkerPosts(epoch) => epoch in w.workers && w.workers[epoch] == FunctionReturned
  }

  function AfterStart(w: World, hasWorker: bool, created: bool): World {
    var r := StartSection(w.m, hasWorker, created);
    if r.1 == Success then w.(m := r.0, workers := w.workers[w.m.nextEpoch := Working]) else w.(m := r.0)
  }

  /** A waiting Join gets the lock: complete, time out, or wait on. */
  function AfterJoinWakes(w: World, t: ThreadId, expired: bool): World
    requires t in w.joiners
  {
    if !w.m.finished then if expired then w.(joiners := w.joiners - {t}) else w
    else
      var r := CompleteJoin(w.m);
      if r.1 == Success && w.m.thread.Some?
      then w.(m := r.0, joiners := w.joiners[t := InOsJoin(w.m.thread.value)],
              releases := w.releases + [Joined(w.m.thread.value)])
      else w.(joiners := w.joiners - {t})
  }

  function AfterDetach(w: World): World {
    if w.m.thread.Some?
    then w.(m := DetachSection(w.m), releases := w.releases + [Detached(w.m.thread.value)])
    else w
  }

  ghost function Step(w: World, e: Event): World
    requires Enabled(w, e)
  {
    match e
    case StartCalled(hasWorker, created) => AfterStart(w, hasWorker, created)
    case StopCalled => w.(m := StopSection(w.m).0)
    case JoinCalled(t, timed) => if w.m.running then w.(joiners := w.joiners[t := Waiting(timed)]) else w
    case JoinWakes(t, expired) => AfterJoinWakes(w, t, expired)
    case OsJoinReturns(t) => w.(joiners := w.joiners - {t})
    case DetachCalled => AfterDetach(w)
    case WorkerReturns(epoch) => w.(workers := w.workers[epoch := FunctionReturned])
    case WorkerPosts(epoch) => w.(workers := w.workers[epoch := Posted], m := w.m.(finished := true))
  }

  const IDLE := World(NEW_MANAGER, map[], map[], [])

  ghost predicate IsRun(ws: seq<World>, es: seq<Event>) {
    && |ws| == |es| + 1
    && ws[0] == IDLE
    && forall i | 0 <= i < |es| :: Enabled(ws[i], es[i]) && ws[i + 1] == Step(ws[i], es[i])
  }

  lemma RunSteps(ws: seq<World>, es: seq<Event>, i: nat)
    requires IsRun(ws, es) && i + 1 < |ws|
    ensures i < |es| && Enabled(ws[i], es[i]) && ws[i + 1] == Step(ws[i], es[i])
  {
  }

  // ---------------------------------------------------------------------------
  // The invariant
  // ---------------------------------------------------------------------------

  /** Epochs are numbered as they begin; the thread at hand is the last one's, all others have been released. */
  ghost predicate LifeInv(w: World) {
    && (w.m.running <==> w.m.thread.Some?)
    && (forall e: Epoch :: e in w.workers <==> e < w.m.nextEpoch)
    && (w.m.thread.Some? ==> w.m.thread.value + 1 == w.m.nextEpoch)
    && (forall i | 0 <= i < |w.releases| ::
          w.releases[i].epoch < w.m.nextEpoch && w.m.thread != Some(w.releases[i].epoch))
    && (forall i, j | 0 <= i < j < |w.releases| :: w.releases[i].epoch != w.releases[j].epoch)
    && (forall e | e in w.workers :: w.m.thread == Some(e) || Joined(e) in w.releases || Detached(e) in w.releases)
  }

  lemma StepKeepsLife(w: World, e: Event)
    requires LifeInv(w) && Enabled(w, e)
    ensures LifeInv(Step(w, e))
  {
    match e
    case StartCalled(hasWorker, created) =>
    case JoinWakes(t, expired) => ReleaseKeepsLife(w, e);
    case DetachCalled => ReleaseKeepsLife(w, e);
    case _ =>
  }

  lemma ReleaseKeepsLife(w: World, e: Event)
    requires LifeInv(w) && Enabled(w, e) && (e.JoinWakes? || e.DetachCalled?)
    ensures LifeInv(Step(w, e))
  {
    var w' := Step(w, e);
    if w'.releases != w.releases {
      var last := w'.releases[|w.releases|];
      assert w'.releases == w.releases + [last] && w.m.thread == Some(last.epoch);
    }
  }

  lemma {:induction false} RunKeepsInv(ws: seq<World>, es: seq<Event>, i: nat)
    requires IsRun(ws, es) && i < |ws|
    ensures LifeInv(ws[i])
  {
    hide LifeInv, IsRun, Enabled, Step;
    if i == 0 {
      IdleInv(ws, es);
    } else {
      RunKeepsInv(ws, es, i - 1);
      RunSteps(ws, es, i - 1);
      StepKeepsLife(ws[i - 1], es[i - 1]);
    }
  }

  lemma IdleInv(ws: seq<World>, es: seq<Event>)
    requires IsRun(ws, es)
    ensures LifeInv(ws[0])
  {
    assert ws[0] == IDLE;
    hide IsRun;
  }

  // ---------------------------------------------------------------------------
  // What it means for whole runs
  // ---------------------------------------------------------------------------

  /**
   * Running means joinable. Whenever the mutex is free, `running` holds exactly
   * when there is a thread to join; so JOIN_FAILED is never returned, and a Start
   * that creates a thread never overwrites one.
   */
  lemma RunningMeansJoinable(ws: seq<World>, es: seq<Event>, i: nat)
    requires IsRun(ws, es) && i < |ws|
    ensures ws[i].m.running <==> ws[i].m.thread.Some?
    ensures CompleteJoin(ws[i].m).1 != JoinFailed
    ensures forall hasWorker, created ::
      StartSection(ws[i].m, hasWorker, created).1 == Success ==> ws[i].m.thread == None
  {
    RunKeepsInv(ws, es, i);
    hide IsRun;
  }

  /** No worker's thread is joined or detached twice. */
  lemma ReleasedAtMostOnce(ws: seq<World>, es: seq<Event>, i: nat, j: nat, k: nat)
    requires IsRun(ws, es) && i < |ws| && j < k < |ws[i].releases|
    ensures ws[i].releases[j].epoch != ws[i].releases[k].epoch
  {
    RunKeepsInv(ws, es, i);
  }

  // ---------------------------------------------------------------------------
  // What every step does
  // ---------------------------------------------------------------------------

  /**
   * Start and Stop in every run. A Start begins an epoch exactly if it has a
   * function, nothing is running and the thread could be created; short of the
   * thread it still clears the request and the completion. A Stop sets the
   * request, and nothing else, exactly if a worker is running.
   */
  lemma StartsAndStopsAreExact(ws: seq<World>, es: seq<Event>, i: nat)
    requires IsRun(ws, es) && i < |es|
    ensures es[i].StartCalled? ==>
      var w, w', e := ws[i], ws[i + 1], es[i];
      if !e.hasWorker || w.m.running then w' == w
      else if !e.created then w' == w.(m := w.m.(stop := false, finished := false))
      else
        && w'.m == Manager(true, false, Some(w.m.nextEpoch), false, w.m.nextEpoch + 1)
        && w' == w.(m := w'.m, workers := w.workers[w.m.nextEpoch := Working])
    ensures es[i].StopCalled? ==>
      ws[i + 1] == if ws[i].m.running then ws[i].(m := ws[i].m.(stop := true)) else ws[i]
  {
    RunSteps(ws, es, i);
  }

  /**
   * Join, Detach and the workers. A Join is let in exactly if a worker is
   * running, and when it wakes goes on waiting, gives up, or takes the thread
   * over; whoever takes it, by Join or Detach, leaves nothing running.
   */
  lemma JoinsAndWorkersAreExact(ws: seq<World>, es: seq<Event>, i: nat)
    requires IsRun(ws, es) && i < |es|
    ensures es[i].JoinCalled? ==>
      ws[i + 1] == if ws[i].m.running then ws[i].(joiners := ws[i].joiners[es[i].t := Waiting(es[i].timed)]) else ws[i]
    ensures es[i].JoinWakes? ==>
      var w, w', t := ws[i], ws[i + 1], es[i].t;
      if !w.m.finished && !es[i].expired then w' == w
      else if !w.m.finished || !w.m.running then w' == w.(joiners := w.joiners - {t})
      else
        && w.m.thread.Some? && w'.m == w.m.(running := false, thread := None) && w'.workers == w.workers
        && w'.joiners == w.joiners[t := InOsJoin(w.m.thread.value)]
        && w'.releases == w.releases + [Joined(w.m.thread.value)]
    ensures es[i].DetachCalled? ==>
      var w, w' := ws[i], ws[i + 1];
      if !w.m.running then w' == w
      else
        && w.m.thread.Some?
        && w' == w.(m := w.m.(running := false, thread := None), releases := w.releases + [Detached(w.m.thread.value)])
    ensures es[i].WorkerReturns? ==>
      ws[i + 1] == ws[i].(workers := ws[i].workers[es[i].epoch := FunctionReturned])
    ensures es[i].WorkerPosts? ==>
      ws[i + 1] == ws[i].(workers := ws[i].workers[es[i].epoch := Posted], m := ws[i].m.(finished := true))
    ensures es[i].OsJoinReturns? ==> ws[i + 1] == ws[i].(joiners := ws[i].joiners - {es[i].t})
  {
    RunSteps(ws, es, i);
    RunKeepsInv(ws, es, i);
    hide IsRun;
  }

  // ---------------------------------------------------------------------------
  // Epochs and their completion
  // ---------------------------------------------------------------------------

  ghost predicate AllPosted(w: World) {
    forall e | e in w.workers :: w.workers[e] == Posted
  }

  /** Step `k` begins the epoch `ws[k].m.nextEpoch`. */
  ghost predicate Begins(ws: seq<World>, es: seq<Event>, k: nat) {
    && IsRun(ws, es) && k < |es| && es[k].StartCalled?
    && StartSection(ws[k].m, es[k].hasWorker, es[k].created).1 == Success
  }

  /** Completion speaks for epoch `e`: no earlier worker can post it any more. */
  ghost predicate Clean(w: World, e: Epoch) {
    && e < w.m.nextEpoch
    && (forall x | x in w.workers && x < e :: w.workers[x] == Posted)
    && (w.m.thread == Some(e) && w.m.finished && e in w.workers ==> w.workers[e] == Posted)
    && (Joined(e) in w.releases && e in w.workers ==> w.workers[e] == Posted)
  }

  lemma StepKeepsClean(w: World, ev: Event, e: Epoch)
    requires LifeInv(w) && Clean(w, e) && Enabled(w, ev)
    ensures Clean(Step(w, ev), e)
  {
    var w' := Step(w, ev);
    match ev
    case WorkerPosts(x) => assert x >= e && (w.m.thread == Some(e) ==> x == e);
    case JoinWakes(t, expired) => ReleaseKeepsClean(w, ev, e);
    case DetachCalled => ReleaseKeepsClean(w, ev, e);
    case StartCalled(hasWorker, created) => assert w'.releases == w.releases;
    case _ =>
  }

  lemma ReleaseKeepsClean(w: World, ev: Event, e: Epoch)
    requires LifeInv(w) && Clean(w, e) && Enabled(w, ev) && (ev.JoinWakes? || ev.DetachCalled?)
    ensures Clean(Step(w, ev), e)
  {
  }

  lemma {:induction false} RunKeepsClean(ws: seq<World>, es: seq<Event>, k: nat, j: nat)
    requires Begins(ws, es, k) && AllPosted(ws[k]) && k < j < |ws|
    ensures Clean(ws[j], ws[k].m.nextEpoch)
    decreases j
  {
    hide LifeInv, Clean, IsRun, Enabled, Step;
    RunSteps(ws, es, j - 1);
    RunKeepsInv(ws, es, j - 1);
    if j == k + 1 {
      StartIsClean(ws[k], es[k]);
    } else {
      RunKeepsClean(ws, es, k, j - 1);
      StepKeepsClean(ws[j - 1], es[j - 1], ws[k].m.nextEpoch);
    }
  }

  lemma StartIsClean(w: World, ev: Event)
    requires LifeInv(w) && AllPosted(w) && ev.StartCalled?
    requires StartSection(w.m, ev.hasWorker, ev.created).1 == Success
    ensures Clean(Step(w, ev), w.m.nextEpoch)
  {
    assert Joined(w.m.nextEpoch) !in w.releases by {
      if i :| 0 <= i < |w.releases| && w.releases[i] == Joined(w.m.nextEpoch) {
        assert false;
      }
    }
  }

  /**
   * If every earlier worker had posted its completion when epoch `e` began, the
   * OS join of `e` is reached only after its own worker function has returned,
   * whatever was detached or restarted before or since.
   */
  lemma JoinedAfterTheFunctionReturned(ws: seq<World>, es: seq<Event>, k: nat, j: nat)
    requires Begins(ws, es, k) && AllPosted(ws[k]) && k < j < |ws|
    ensures var e := ws[k].m.nextEpoch;
      e in ws[j].workers && (Joined(e) in ws[j].releases ==> ws[j].workers[e] == Posted)
  {
    RunKeepsClean(ws, es, k, j);
    RunKeepsInv(ws, es, j);
    hide IsRun;
  }

  /**
   * And a worker of such an epoch sees its stop request taken back only if it
   * has been detached: a step that clears the request finds it posted otherwise.
   */
  lemma StopRequestIsKept(ws: seq<World>, es: seq<Event>, k: nat, j: nat)
    requires Begins(ws, es, k) && AllPosted(ws[k]) && k < j < |es|
    requires ws[j].m.stop && !ws[j + 1].m.stop
    ensures var e := ws[k].m.nextEpoch;
      e in ws[j].workers && (ws[j].workers[e] == Posted || Detached(e) in ws[j].releases)
  {
    RunKeepsClean(ws, es, k, j);
    RunKeepsInv(ws, es, j);
    RunSteps(ws, es, j);
    hide IsRun;
  }

  /** Without Detach, whatever is unfinished is the epoch at hand. */
  ghost predicate NeverDetached(w: World) {
    && (forall e | e in w.workers && w.workers[e] != Posted :: w.m.thread == Some(e))
    && (w.m.finished ==> AllPosted(w))
    && (forall r | r in w.releases :: r.Joined?)
  }

  lemma StepKeepsNeverDetached(w: World, ev: Event)
    requires LifeInv(w) && NeverDetached(w) && Enabled(w, ev) && ev != DetachCalled
    ensures NeverDetached(Step(w, ev))
  {
  }

  /** In a run without Detach every epoch begins with all earlier workers posted. */
  lemma {:induction false} NoDetachNoOverlap(ws: seq<World>, es: seq<Event>, k: nat)
    requires IsRun(ws, es) && k < |ws| && forall n | 0 <= n < k :: es[n] != DetachCalled
    ensures NeverDetached(ws[k]) && (Begins(ws, es, k) ==> AllPosted(ws[k]))
  {
    RunKeepsInv(ws, es, k);
    if k > 0 {
      hide LifeInv, Enabled, Step;
      NoDetachNoOverlap(ws, es, k - 1);
      RunKeepsInv(ws, es, k - 1);
      RunSteps(ws, es, k - 1);
      StepKeepsNeverDetached(ws[k - 1], es[k - 1]);
    }
    BeginningAfresh(ws, es, k);
  }

  /**
   * So in runs without Detach no OS join is reached before the function of its
   * epoch has returned, and no worker sees its stop request taken back.
   */
  lemma WithoutDetach(ws: seq<World>, es: seq<Event>, i: nat)
    requires IsRun(ws, es) && i < |ws| && forall n | 0 <= n < i :: es[n] != DetachCalled
    ensures forall e | Joined(e) in ws[i].releases :: e in ws[i].workers && ws[i].workers[e] == Posted
    ensures i < |es| && ws[i].m.stop && !ws[i + 1].m.stop ==> AllPosted(ws[i])
  {
    RunKeepsInv(ws, es, i);
    NoDetachNoOverlap(ws, es, i);
    forall e | Joined(e) in ws[i].releases ensures e in ws[i].workers && ws[i].workers[e] == Posted {
      var k :| 0 <= k < |ws[i].releases| && ws[i].releases[k] == Joined(e);
      assert ws[i].releases[k].epoch == e;
    }
    if i < |es| {
      RunSteps(ws, es, i);
    }
  }

  /** The stop request that the worker of epoch `e` is to see is set, or it needs none any more. */
  ghost predicate Requested(w: World, e: Epoch) {
    e in w.workers && (w.m.stop || w.workers[e] == Posted)
  }

  lemma RequestMade(w: World)
    requires LifeInv(w) && w.m.running
    ensures w.m.thread.Some? && Requested(Step(w, StopCalled), w.m.thread.value)
  {
  }

  lemma RequestKept(w: World, ev: Event, e: Epoch)
    requires LifeInv(w) && Enabled(w, ev) && Requested(w, e)
    requires w.m.stop && !Step(w, ev).m.stop ==> AllPosted(w)
    ensures Requested(Step(w, ev), e)
  {
  }

  /**
   * A stop request lasts. In a run without Detach, once a Stop has succeeded the
   * request stays set until the worker it was made of has posted.
   */
  lemma {:induction false} StopRequestLasts(ws: seq<World>, es: seq<Event>, i: nat, j: nat)
    requires IsRun(ws, es) && i < |es| && es[i] == StopCalled && ws[i].m.running && i < j < |ws|
    requires forall n | 0 <= n < j :: es[n] != DetachCalled
    ensures ws[i].m.thread.Some? && Requested(ws[j], ws[i].m.thread.value)
    decreases j
  {
    hide IsRun, LifeInv, Enabled, Step, Requested, AllPosted;
    RunSteps(ws, es, j - 1);
    RunKeepsInv(ws, es, j - 1);
    if j == i + 1 {
      RequestMade(ws[i]);
    } else {
      StopRequestLasts(ws, es, i, j - 1);
      WithoutDetach(ws, es, j - 1);
      RequestKept(ws[j - 1], es[j - 1], ws[i].m.thread.value);
    }
  }

  lemma BeginningAfresh(ws: seq<World>, es: seq<Event>, k: nat)
    requires k < |ws| && LifeInv(ws[k]) && NeverDetached(ws[k])
    ensures Begins(ws, es, k) ==> AllPosted(ws[k])
  {
  }

  // ---------------------------------------------------------------------------
  // Starting over an unfinished worker
  // ---------------------------------------------------------------------------

  lemma Extend(ws: seq<World>, es: seq<Event>, e: Event) returns (ws': seq<World>, es': seq<Event>)
    requires IsRun(ws, es) && Enabled(ws[|es|], e)
    ensures IsRun(ws', es') && |ws'| == |es'| + 1 && es' == es + [e] && ws'[|es'|] == Step(ws[|es|], e)
  {
    hide Enabled, Step;
    es' := es + [e];
    ws' := ws + [Step(ws[|es|], e)];
    forall i | 0 <= i < |es'| ensures Enabled(ws'[i], es'[i]) && ws'[i + 1] == Step(ws'[i], es'[i]) {
      if i < |es| {
        assert ws'[i] == ws[i] && es'[i] == es[i] && ws'[i + 1] == ws[i + 1];
      }
    }
  }

  /** A run that goes on from step `k` and reaches the OS join of the epoch begun there, its function still working. */
  ghost predicate JoinsTooEarly(ws: seq<World>, es: seq<Event>, k: nat, ws': seq<World>, es': seq<Event>)
    requires k < |ws| && k < |es|
  {
    && IsRun(ws', es') && es[..k + 1] <= es'
    && Joined(ws[k].m.nextEpoch) in ws'[|es'|].releases
    && ws[k].m.nextEpoch in ws'[|es'|].workers && ws'[|es'|].workers[ws[k].m.nextEpoch] == Working
  }

  /** The worker `x` of an earlier epoch, returning and posting, completes the new one. */
  lemma StrayCompletes(ws: seq<World>, es: seq<Event>, x: Epoch) returns (ws': seq<World>, es': seq<Event>)
    requires IsRun(ws, es) && x in ws[|es|].workers && ws[|es|].workers[x] != Posted
    ensures IsRun(ws', es') && es <= es' && forall m | |es| <= m < |es'| :: !es'[m].StartCalled?
    ensures ws'[|es'|] ==
      ws[|es|].(workers := ws[|es|].workers[x := Posted], m := ws[|es|].m.(finished := true))
  {
    ws', es' := ws, es;
    var w := ws[|es|];
    hide IsRun;
    if w.workers[x] == Working {
      ws', es' := Extend(ws', es', WorkerReturns(x));
    }
    ws', es' := Extend(ws', es', WorkerPosts(x));
    assert w.workers[x := FunctionReturned][x := Posted] == w.workers[x := Posted];
  }

  lemma JoinGoesThrough(ws: seq<World>, es: seq<Event>) returns (ws': seq<World>, es': seq<Event>)
    requires IsRun(ws, es) && ws[|es|].m.finished && ws[|es|].m.running && ws[|es|].m.thread.Some?
    ensures IsRun(ws', es') && es <= es' && ws'[|es'|].workers == ws[|es|].workers
    ensures Joined(ws[|es|].m.thread.value) in ws'[|es'|].releases
  {
    var w := ws[|es|];
    hide IsRun;
    var t := SomeoneElse(w.joiners.Keys);
    ws', es' := Extend(ws, es, JoinCalled(t, false));
    ws', es' := Extend(ws', es', JoinWakes(t, false));
    assert ws'[|es'|].releases == w.releases + [Joined(w.m.thread.value)];
  }

  /**
   * Starting over an unfinished worker always endangers Join: from every such
   * Start some continuation joins a function that is still working, the earlier
   * worker having posted the completion of the new epoch.
   */
  lemma OverlapBreaksJoin(ws: seq<World>, es: seq<Event>, k: nat) returns (ws': seq<World>, es': seq<Event>)
    requires Begins(ws, es, k) && !AllPosted(ws[k])
    ensures JoinsTooEarly(ws, es, k, ws', es')
  {
    var x :| x in ws[k].workers && ws[k].workers[x] != Posted;
    RunKeepsInv(ws, es, k);
    RunSteps(ws, es, k);
    ws', es' := ws[..k + 2], es[..k + 1];
    Prefix(ws, es, k + 1);
    hide IsRun;
    assert x < ws[k].m.nextEpoch;
    ws', es' := StrayCompletes(ws', es', x);
    ws', es' := JoinGoesThrough(ws', es');
  }

  lemma Prefix(ws: seq<World>, es: seq<Event>, n: nat)
    requires IsRun(ws, es) && n <= |es|
    ensures IsRun(ws[..n + 1], es[..n])
  {
  }

  lemma {:induction false} SameBeginning(ws: seq<World>, es: seq<Event>, ws': seq<World>, es': seq<Event>, n: nat)
    requires IsRun(ws, es) && IsRun(ws', es') && n <= |es| && es[..n] <= es'
    ensures ws'[n] == ws[n]
  {
    if n > 0 {
      assert es[..n - 1] <= es' && es'[n - 1] == es[n - 1];
      hide Enabled, Step;
      SameBeginning(ws, es, ws', es', n - 1);
      assert ws[n] == Step(ws[n - 1], es[n - 1]) && ws'[n] == Step(ws'[n - 1], es'[n - 1]);
    }
  }

  /**
   * The exact condition, one the caller of Start can meet: some continuation
   * joins the new epoch while its function still works if and only if some
   * earlier worker has not posted its completion yet.
   */
  lemma JoinIsSafeExactlyIfAllPosted(ws: seq<World>, es: seq<Event>, k: nat)
    requires Begins(ws, es, k)
    ensures (exists ws', es' :: JoinsTooEarly(ws, es, k, ws', es')) <==> !AllPosted(ws[k])
  {
    if !AllPosted(ws[k]) {
      var ws', es' := OverlapBreaksJoin(ws, es, k);
    } else {
      forall ws', es' | JoinsTooEarly(ws, es, k, ws', es') ensures false {
        SameBeginning(ws, es, ws', es', k);
        assert es'[k] == es[k];
        hide IsRun;
        JoinedAfterTheFunctionReturned(ws', es', k, |es'|);
      }
    }
  }

  // ---------------------------------------------------------------------------
  // In place
  // ---------------------------------------------------------------------------

  class ThreadManager {
    var running: bool
    var finished: bool
    var thread: Option<Epoch>
    var stop: bool
    var nextEpoch: Epoch

    ghost function View(): Manager
      reads this
    {
      Manager(running, finished, thread, stop, nextEpoch)
    }

    constructor ()
      ensures View() == NEW_MANAGER
    {
      running, finished, thread, stop, nextEpoch := false, false, None, false, 0;
    }

    method Start(hasWorker: bool, created: bool) returns (error: ThreadError)
      requires running <==> thread.Some?
      modifies this
      ensures (View(), error) == StartSection(old(View()), hasWorker, created)
      ensures running <==> thread.Some?
      ensures error == InvalidArgument <==> !hasWorker
      ensures error == AlreadyRunning <==> hasWorker && old(running)
      ensures error == ThreadCreationFailed <==> hasWorker && !old(running) && !created
      ensures error == Success <==> hasWorker && !old(running) && created
      ensures !hasWorker || old(running) ==> View() == old(View())
      ensures hasWorker && !old(running) ==> !stop && !finished && running == created
      ensures error == Success ==>
        old(thread) == None && thread == Some(old(nextEpoch)) && nextEpoch == old(nextEpoch) + 1
      ensures error != Success ==> thread == old(thread) && nextEpoch == old(nextEpoch)
    {
      if !hasWorker {
        return InvalidArgument;
      }
      if running {
        return AlreadyRunning;
      }
      stop := false;
      finished := false;
      if !created {
        running := false;
        return ThreadCreationFailed;
      }
      thread := Some(nextEpoch);
      nextEpoch := nextEpoch + 1;
      running := true;
      error := Success;
    }

    method Stop() returns (error: ThreadError)
      modifies this
      ensures (View(), error) == StopSection(old(View()))
      ensures error == Success <==> old(running)
      ensures error != Success ==> error == NotRunning && View() == old(View())
      ensures error == Success ==> stop && View() == old(View()).(stop := true)
    {
      if !running {
        return NotRunning;
      }
      stop := true;
      error := Success;
    }

    /** The locked part of Join once completion has been posted; on success the caller joins `epoch`. */
    method Complete() returns (error: ThreadError, epoch: Option<Epoch>)
      requires running <==> thread.Some?
      modifies this
      ensures (View(), error) == CompleteJoin(old(View()))
      ensures error == if old(running) then Success else NotRunning
      ensures epoch == if error == Success then old(thread) else None
      ensures View() == old(View()).(running := false, thread := None)
      ensures running <==> thread.Some?
    {
      if !running {
        return NotRunning, None;
      }
      if thread.None? {
        return JoinFailed, None;
      }
      epoch := thread;
      thread := None;
      running := false;
      error := Success;
    }

    method Detach()
      modifies this
      ensures View() == DetachSection(old(View()))
      ensures View() == if old(thread).Some? then old(View()).(running := false, thread := None) else old(View())
    {
      if thread.Some? {
        thread := None;
        running := false;
      }
    }
  }
}
