/**
 * NetworkServer's tracking of its connections (services/network/network.cpp):
 * the accept thread registers them, disconnect events remove them, Stop closes
 * what is left.
 *
 * A step is one critical section, one atomic exchange, the snapshot a Publish
 * takes of its subscribers, or one run of OnDisconnected. Any thread may tear
 * any connection down at any moment. A handler in a snapshot runs even if the
 * subscription is cancelled meanwhile, perhaps after Stop has returned. Start
 * is not called while a Stop is under way.
 */
module ServerTracking {
  import opened Basics

  type ConnId = nat

  datatype Acceptor =
    | NoThread
    | Idle
    | Fresh(conn: ConnId)        // accepted and started, not yet in the list
    | Announcing(conn: ConnId)   // in the list, about to publish NetworkConnected
    | Ended

  datatype Stopper =
    | NotStopping
    | Joining                    // won the exchange on running_
    | Snapshotting               // the accept thread has been joined
    | Closing(toClose: seq<ConnId>, next: nat, mine: Option<ConnId>)   // `mine`: the last one it took down itself

  datatype World = World(
    running: bool, starting: bool, acceptor: Acceptor, stopper: Stopper, subscribed: bool,
    tracked: seq<ConnId>,        // connections_
    created: set<ConnId>, registered: set<ConnId>,
    down: set<ConnId>,           // connected_ is false
    unpublished: set<ConnId>,    // torn down, its disconnect event not yet published
    dispatching: set<ConnId>)    // published to a snapshot with the server in it, OnDisconnected not yet run

  datatype Event =
    | StartSpawns
    | StartCommits
    | Accepts(conn: ConnId, started: bool)
    | Registers
    | Announces
    | AcceptReturns
    | TearsDown(conn: ConnId)
    | Publishes(conn: ConnId, rejected: bool)
    | EventHandled(conn: ConnId)
    | StopWins
    | StopJoins
    | StopSnapshots
    | StopCloses
    | StopReturns

  ghost predicate NoDuplicates(list: seq<ConnId>) {
    forall i, j | 0 <= i < j < |list| :: list[i] != list[j]
  }

  lemma {:induction false} RemoveKeepsNoDuplicates(list: seq<ConnId>, conn: ConnId)
    requires NoDuplicates(list)
    ensures NoDuplicates(Erased(list, conn))
  {
    if list != [] {
      var init, last := list[..|list| - 1], list[|list| - 1];
      RemoveKeepsNoDuplicates(init, conn);
      assert last !in init;
      assert last !in Erased(init, conn);
    }
  }

  const IDLE_SERVER := World(false, false, NoThread, NotStopping, false, [], {}, {}, {}, {}, {})

  ghost predicate Enabled(w: World, e: Event) {
    match e
    case StartSpawns => !w.running && !w.starting && w.stopper.NotStopping? && w.acceptor.NoThread?
    case StartCommits => w.starting
    case Accepts(conn, _) => w.acceptor.Idle? && conn !in w.created
    case Registers => w.acceptor.Fresh?
    case Announces => w.acceptor.Announcing?
    case AcceptReturns => w.acceptor.Idle?
    case TearsDown(conn) => conn in w.created && conn !in w.down
    case Publishes(conn, _) => conn in w.unpublished
    case EventHandled(conn) => conn in w.dispatching
    case StopWins => w.running
    case StopJoins => w.stopper.Joining? && w.acceptor.Ended?
    case StopSnapshots => w.stopper.Snapshotting?
    case StopCloses => w.stopper.Closing? && CloseReturned(w) && w.stopper.next < |w.stopper.toClose|
    case StopReturns => w.stopper.Closing? && CloseReturned(w) && w.stopper.next == |w.stopper.toClose|
  }

  function TakenDown(w: World, conn: ConnId): World {
    if conn in w.down then w else w.(down := w.down + {conn}, unpublished := w.unpublished + {conn})
  }

  /** Close publishes on the thread of Stop, so Stop goes on only when its own event has been handled. */
  predicate CloseReturned(w: World)
    requires w.stopper.Closing?
  {
    w.stopper.mine.Some? ==>
      w.stopper.mine.value !in w.unpublished && w.stopper.mine.value !in w.dispatching
  }

  function ClosedByStop(w: World): World
    requires w.stopper.Closing? && w.stopper.next < |w.stopper.toClose|
  {
    var conn := w.stopper.toClose[w.stopper.next];
    TakenDown(w, conn).(
      stopper := Closing(w.stopper.toClose, w.stopper.next + 1, if conn in w.down then None else Some(conn)))
  }

  /**
   * Publish up to its snapshot. It is rejected on a thread that is already
   * dispatching; otherwise the server is in the snapshot if it is subscribed.
   */
  function Published(w: World, conn: ConnId, rejected: bool): World {
    w.(unpublished := w.unpublished - {conn},
       dispatching := if rejected || !w.subscribed then w.dispatching else w.dispatching + {conn})
  }

  /** The locked section of the accept thread: the new connection goes to the end of the list. */
  function Enlisted(list: seq<ConnId>, conn: ConnId): seq<ConnId> {
    list + [conn]
  }

  ghost function Step(w: World, e: Event): World
    requires Enabled(w, e)
  {
    match e
    case StartSpawns => w.(starting := true, acceptor := Idle, subscribed := true)
    case StartCommits => w.(starting := false, running := true)
    case Accepts(conn, started) =>
      // one that could not be started is destroyed before anybody else has seen it
      if started then w.(created := w.created + {conn}, acceptor := Fresh(conn)) else w
    case Registers =>
      w.(tracked := Enlisted(w.tracked, w.acceptor.conn), registered := w.registered + {w.acceptor.conn},
         acceptor := Announcing(w.acceptor.conn))
    case Announces => w.(acceptor := Idle)
    case AcceptReturns => w.(acceptor := Ended)
    case TearsDown(conn) => TakenDown(w, conn)
    case Publishes(conn, rejected) => Published(w, conn, rejected)
    case EventHandled(conn) =>
      w.(dispatching := w.dispatching - {conn}, tracked := Erased(w.tracked, conn))
    case StopWins => w.(running := false, stopper := Joining)
    case StopJoins => w.(stopper := Snapshotting, acceptor := NoThread)
    case StopSnapshots => w.(stopper := Closing(w.tracked, 0, None))
    case StopCloses => ClosedByStop(w)
    case StopReturns => w.(stopper := NotStopping, subscribed := false)
  }

  ghost predicate IsRun(ws: seq<World>, es: seq<Event>) {
    && |ws| == |es| + 1
    && ws[0] == IDLE_SERVER
    && forall i | 0 <= i < |es| :: Enabled(ws[i], es[i]) && ws[i + 1] == Step(ws[i], es[i])
  }

  lemma RunSteps(ws: seq<World>, es: seq<Event>, i: nat)
    requires IsRun(ws, es) && i + 1 < |ws|
    ensures i < |es| && Enabled(ws[i], es[i]) && ws[i + 1] == Step(ws[i], es[i])
  {
  }

  // ---------------------------------------------------------------------------
  // The invariant
  // ---------------------------------------------------------------------------

  ghost predicate ThreadsInv(w: World) {
    && (w.running || w.starting ==> w.stopper.NotStopping?)
    && !(w.running && w.starting)
    && (w.stopper.Snapshotting? || w.stopper.Closing? ==> w.acceptor.NoThread?)
    && (w.acceptor.Fresh? ==> w.acceptor.conn in w.created && w.acceptor.conn !in w.registered)
  }

  ghost predicate ListInv(w: World) {
    && NoDuplicates(w.tracked)
    && (forall c | c in w.tracked :: c in w.registered)
    && (forall c | c in w.registered :: c in w.created)
    && (forall c | c in w.registered :: c in w.tracked || c in w.down)
    && (forall c | c in w.unpublished || c in w.dispatching :: c in w.down)
    && w.unpublished !! w.dispatching
    && (forall c | c in w.down :: c in w.created)
  }

  /** While Stop closes the connections, those not yet down are still ahead of it. */
  ghost predicate ClosingInv(w: World) {
    w.stopper.Closing? ==>
      && w.stopper.next <= |w.stopper.toClose|
      && (forall c | c in w.stopper.toClose :: c in w.registered)
      && forall c | c in w.registered :: c in w.down || c in w.stopper.toClose[w.stopper.next..]
  }

  ghost predicate Inv(w: World) {
    ThreadsInv(w) && ListInv(w) && ClosingInv(w)
  }

  lemma HandledKeepsInv(w: World, conn: ConnId)
    requires Inv(w) && conn in w.dispatching
    ensures Inv(Step(w, EventHandled(conn)))
  {
    hide Erased;
    RemoveKeepsNoDuplicates(w.tracked, conn);
  }

  lemma ClosesKeepsInv(w: World)
    requires Inv(w) && Enabled(w, StopCloses)
    ensures Inv(Step(w, StopCloses))
  {
    var list, k := w.stopper.toClose, w.stopper.next;
    assert list[k..] == [list[k]] + list[k + 1..];
    assert list[k] in list;
  }

  lemma StepKeepsInv(w: World, e: Event)
    requires Inv(w) && Enabled(w, e)
    ensures Inv(Step(w, e))
  {
    match e
    case EventHandled(conn) => HandledKeepsInv(w, conn);
    case StopCloses => ClosesKeepsInv(w);
    case StopSnapshots => assert w.tracked[0..] == w.tracked;
    case Registers => RegistersKeepsInv(w);
    case TearsDown(conn) => TearsDownKeepsInv(w, conn);
    case Accepts(conn, started) => AcceptsKeepsInv(w, conn, started);
    case _ =>
  }

  lemma RegistersKeepsInv(w: World)
    requires Inv(w) && Enabled(w, Registers)
    ensures Inv(Step(w, Registers))
  {
  }

  lemma TearsDownKeepsInv(w: World, conn: ConnId)
    requires Inv(w) && conn in w.created && conn !in w.down
    ensures Inv(TakenDown(w, conn))
  {
  }

  lemma AcceptsKeepsInv(w: World, conn: ConnId, started: bool)
    requires Inv(w) && Enabled(w, Accepts(conn, started))
    ensures Inv(Step(w, Accepts(conn, started)))
  {
  }

  lemma {:induction false} RunKeepsInv(ws: seq<World>, es: seq<Event>, i: nat)
    requires IsRun(ws, es) && i < |ws|
    ensures Inv(ws[i])
  {
    hide Inv, IsRun, Enabled, Step;
    if i == 0 {
      IdleInv(ws, es);
    } else {
      RunKeepsInv(ws, es, i - 1);
      RunSteps(ws, es, i - 1);
      StepKeepsInv(ws[i - 1], es[i - 1]);
    }
  }

  lemma IdleInv(ws: seq<World>, es: seq<Event>)
    requires IsRun(ws, es)
    ensures Inv(ws[0])
  {
    assert ws[0] == IDLE_SERVER;
    hide IsRun;
  }

  // ---------------------------------------------------------------------------
  // What it means for whole runs
  // ---------------------------------------------------------------------------

  /** The list never holds a connection twice, and a connection leaves it only after being torn down. */
  lemma TrackingIsSound(ws: seq<World>, es: seq<Event>, i: nat)
    requires IsRun(ws, es) && i < |ws|
    ensures NoDuplicates(ws[i].tracked)
    ensures forall c | c in ws[i].registered && c !in ws[i].tracked :: c in ws[i].down
    ensures i + 1 < |ws| ==> forall c | c in ws[i].tracked && c !in ws[i + 1].tracked :: c in ws[i].down
  {
    RunKeepsInv(ws, es, i);
    if i + 1 < |ws| {
      RunSteps(ws, es, i);
    }
  }

  lemma StepKeepsDown(w: World, e: Event)
    requires Enabled(w, e)
    ensures w.down <= Step(w, e).down
  {
  }

  lemma {:induction false} DownStaysDown(ws: seq<World>, es: seq<Event>, i: nat, j: nat)
    requires IsRun(ws, es) && i <= j < |ws|
    ensures ws[i].down <= ws[j].down
    decreases j
  {
    hide IsRun, Enabled, Step;
    if i < j {
      DownStaysDown(ws, es, i, j - 1);
      RunSteps(ws, es, j - 1);
      StepKeepsDown(ws[j - 1], es[j - 1]);
    }
  }

  /**
   * When the Stop that won the exchange returns, every connection ever
   * registered is disconnected, whichever thread took it down, and stays so.
   */
  lemma StopLeavesNothingUp(ws: seq<World>, es: seq<Event>, i: nat, j: nat)
    requires IsRun(ws, es) && i < |es| && es[i] == StopReturns && i < j < |ws|
    ensures ws[i].registered <= ws[j].down
  {
    RunKeepsInv(ws, es, i);
    RunSteps(ws, es, i);
    DownStaysDown(ws, es, i, j);
    hide IsRun;
    assert ws[i].stopper.toClose[ws[i].stopper.next..] == [];
  }

  /**
   * Every step of the accept thread and of Stop: who is registered when, what
   * Stop takes its list from, and that it ends by unsubscribing.
   */
  lemma ServerStepsAreExact(ws: seq<World>, es: seq<Event>, i: nat)
    requires IsRun(ws, es) && i < |es|
    ensures var w, w' := ws[i], ws[i + 1];
      match es[i]
      case StartSpawns => w' == w.(starting := true, acceptor := Idle, subscribed := true)
      case StartCommits => w' == w.(starting := false, running := true)
      case Accepts(conn, started) =>
        w' == if started then w.(created := w.created + {conn}, acceptor := Fresh(conn)) else w
      case Registers =>
        && w.acceptor.Fresh? && w'.acceptor == Announcing(w.acceptor.conn)
        && w'.tracked == w.tracked + [w.acceptor.conn] && w'.registered == w.registered + {w.acceptor.conn}
      case Announces => w' == w.(acceptor := Idle)
      case AcceptReturns => w' == w.(acceptor := Ended)
      case TearsDown(conn) => w' == w.(down := w.down + {conn}, unpublished := w.unpublished + {conn})
      case Publishes(conn, rejected) =>
        && w'.unpublished == w.unpublished - {conn} && w'.tracked == w.tracked
        && w'.dispatching == if !rejected && w.subscribed then w.dispatching + {conn} else w.dispatching
      case EventHandled(conn) =>
        w'.dispatching == w.dispatching - {conn} && forall c :: c in w'.tracked <==> c in w.tracked && c != conn
      case StopWins => w' == w.(running := false, stopper := Joining)
      case StopJoins => w' == w.(stopper := Snapshotting, acceptor := NoThread)
      case StopSnapshots => w' == w.(stopper := Closing(w.tracked, 0, None))
      case StopCloses =>
        && w.stopper.Closing? && w'.stopper.Closing? && w'.stopper.toClose == w.stopper.toClose
        && w'.stopper.next == w.stopper.next + 1 && w'.down == w.down + {w.stopper.toClose[w.stopper.next]}
        && w'.stopper.mine ==
             if w.stopper.toClose[w.stopper.next] in w.down then None else Some(w.stopper.toClose[w.stopper.next])
      case StopReturns => w' == w.(stopper := NotStopping, subscribed := false)
  {
    RunSteps(ws, es, i);
    hide IsRun, Erased;
  }

  // ---------------------------------------------------------------------------
  // Which entries stay
  // ---------------------------------------------------------------------------

  /** Step `k` publishes the event of `c` without the server among those it reaches. */
  ghost predicate LostAt(ws: seq<World>, es: seq<Event>, k: int, c: ConnId) {
    0 <= k < |es| && k < |ws| && es[k].Publishes? && es[k].conn == c && (es[k].rejected || !ws[k].subscribed)
  }

  /** Step `k` runs OnDisconnected for `c`; was `c` registered by then? */
  ghost predicate HandledAt(ws: seq<World>, es: seq<Event>, k: int, c: ConnId, registered: bool) {
    0 <= k < |es| && k < |ws| && es[k] == EventHandled(c) && (c in ws[k].registered) == registered
  }

  ghost predicate WasLost(ws: seq<World>, es: seq<Event>, i: nat, c: ConnId) {
    exists k :: 0 <= k < i && LostAt(ws, es, k, c)
  }

  ghost predicate WasHandled(ws: seq<World>, es: seq<Event>, i: nat, c: ConnId, registered: bool) {
    exists k :: 0 <= k < i && HandledAt(ws, es, k, c, registered)
  }

  lemma LostUpTo(ws: seq<World>, es: seq<Event>, i: nat, c: ConnId)
    ensures WasLost(ws, es, i + 1, c) <==> WasLost(ws, es, i, c) || LostAt(ws, es, i, c)
  {
    if WasLost(ws, es, i, c) {
      var k :| 0 <= k < i && LostAt(ws, es, k, c);
      assert 0 <= k < i + 1;
    }
  }

  lemma HandledUpTo(ws: seq<World>, es: seq<Event>, i: nat, c: ConnId, registered: bool)
    ensures WasHandled(ws, es, i + 1, c, registered)
       <==> WasHandled(ws, es, i, c, registered) || HandledAt(ws, es, i, c, registered)
  {
    if WasHandled(ws, es, i, c, registered) {
      var k :| 0 <= k < i && HandledAt(ws, es, k, c, registered);
      assert 0 <= k < i + 1;
    }
  }

  /** Does `c` still have a disconnect event ahead of it? */
  predicate Outstanding(w: World, c: ConnId) {
    c !in w.down || c in w.unpublished || c in w.dispatching
  }

  /** What a step does to one connection, told by its event. */
  lemma StepOn(w: World, e: Event, c: ConnId)
    requires Inv(w) && Enabled(w, e)
    ensures var w' := Step(w, e);
      && (c in w.registered ==> c in w'.registered)
      && (c in w'.registered && c !in w.registered ==> c in w'.tracked && !e.EventHandled?)
      && (c in w.registered ==> (c in w'.tracked <==> c in w.tracked && e != EventHandled(c)))
      && (Outstanding(w', c) <==>
            Outstanding(w, c) && e != EventHandled(c)
            && !(e.Publishes? && e.conn == c && (e.rejected || !w.subscribed)))
      && ((e.Publishes? && e.conn == c) || e == EventHandled(c) ==> Outstanding(w, c))
  {
    hide Erased, NoDuplicates;
  }

  /**
   * What has become of `c`: as long as its event is ahead, none of the three
   * ends; after that exactly one of them. And it has left the list exactly if
   * OnDisconnected ran for it when it was registered.
   */
  ghost predicate Fate(ws: seq<World>, es: seq<Event>, i: nat, c: ConnId)
    requires i < |ws|
  {
    var lost, early, late := WasLost(ws, es, i, c), WasHandled(ws, es, i, c, false), WasHandled(ws, es, i, c, true);
    && (Outstanding(ws[i], c) <==> !lost && !early && !late)
    && !(lost && early) && !(lost && late) && !(early && late)
    && (late ==> c in ws[i].registered)
    && (c in ws[i].registered ==> (c !in ws[i].tracked <==> late))
  }

  lemma {:induction false} RunDecidesFate(ws: seq<World>, es: seq<Event>, i: nat, c: ConnId)
    requires IsRun(ws, es) && i < |ws|
    ensures Fate(ws, es, i, c)
  {
    hide IsRun, Inv, Enabled, Step, WasLost, WasHandled;
    if i == 0 {
      NothingYet(ws, es, c);
    } else {
      RunDecidesFate(ws, es, i - 1, c);
      RunKeepsInv(ws, es, i - 1);
      RunSteps(ws, es, i - 1);
      StepOn(ws[i - 1], es[i - 1], c);
      LostUpTo(ws, es, i - 1, c);
      HandledUpTo(ws, es, i - 1, c, true);
      HandledUpTo(ws, es, i - 1, c, false);
    }
  }

  lemma NothingYet(ws: seq<World>, es: seq<Event>, c: ConnId)
    requires IsRun(ws, es)
    ensures Fate(ws, es, 0, c)
  {
  }

  /**
   * A registered connection has left the list exactly if some earlier step ran
   * OnDisconnected for it, out of a snapshot the server was in, when it was
   * already registered.
   */
  lemma LeavesTheListWhenHandled(ws: seq<World>, es: seq<Event>, i: nat, c: ConnId)
    requires IsRun(ws, es) && i < |ws| && c in ws[i].registered
    ensures c !in ws[i].tracked <==> exists k :: 0 <= k < i && HandledAt(ws, es, k, c, true)
  {
    RunDecidesFate(ws, es, i, c);
  }

  /**
   * So the list need not be empty when Stop has returned. Once nothing is
   * outstanding for it, a connection is still listed exactly if its event was
   * published without reaching the server (from inside a dispatch, or while the
   * server was not subscribed), or was handled before it was registered.
   */
  lemma ListedThoughDown(ws: seq<World>, es: seq<Event>, i: nat, c: ConnId)
    requires IsRun(ws, es) && i < |ws| && c in ws[i].registered && !Outstanding(ws[i], c)
    ensures c in ws[i].tracked <==>
      (exists k :: 0 <= k < i && LostAt(ws, es, k, c)) || (exists k :: 0 <= k < i && HandledAt(ws, es, k, c, false))
  {
    RunDecidesFate(ws, es, i, c);
  }

  /** Stop is waiting for the event of `c`, or has nothing to wait for. */
  ghost predicate Awaited(w: World, c: ConnId) {
    !Outstanding(w, c) || (w.stopper.Closing? && w.stopper.mine == Some(c))
  }

  lemma StepKeepsAwaited(w: World, e: Event, c: ConnId)
    requires Inv(w) && Enabled(w, e) && Awaited(w, c) && c in w.down
    ensures Awaited(Step(w, e), c) && (e == StopReturns ==> !Outstanding(w, c))
  {
    StepOn(w, e, c);
    hide Erased, NoDuplicates, ListInv, ClosingInv;
  }

  lemma CloseAwaits(w: World)
    requires Enabled(w, StopCloses) && w.stopper.toClose[w.stopper.next] !in w.down
    ensures var c := w.stopper.toClose[w.stopper.next]; Awaited(Step(w, StopCloses), c) && c in Step(w, StopCloses).down
  {
  }

  lemma {:induction false} KeepsAwaiting(ws: seq<World>, es: seq<Event>, i: nat, j: nat, c: ConnId)
    requires IsRun(ws, es) && i <= j < |ws| && Awaited(ws[i], c) && c in ws[i].down
    ensures Awaited(ws[j], c) && c in ws[j].down
    decreases j
  {
    hide IsRun, Inv, Enabled, Step, Awaited;
    if i < j {
      KeepsAwaiting(ws, es, i, j - 1, c);
      RunSteps(ws, es, j - 1);
      RunKeepsInv(ws, es, j - 1);
      StepKeepsAwaited(ws[j - 1], es[j - 1], c);
      StepKeepsDown(ws[j - 1], es[j - 1]);
    }
  }

  /**
   * Stop waits for its own events: of a connection that it took down itself
   * nothing is outstanding any more when it returns. So such a connection is
   * off the list then, unless its event was rejected.
   */
  lemma StopWaitsForItsOwnEvents(ws: seq<World>, es: seq<Event>, k: nat, i: nat)
    requires IsRun(ws, es) && k < i < |es| && es[k] == StopCloses && es[i] == StopReturns
    requires ws[k].stopper.Closing? && ws[k].stopper.next < |ws[k].stopper.toClose|
    requires ws[k].stopper.toClose[ws[k].stopper.next] !in ws[k].down
    ensures !Outstanding(ws[i], ws[k].stopper.toClose[ws[k].stopper.next])
  {
    hide IsRun, Inv, Enabled, Step, Awaited;
    assert k + 1 < |ws| && i + 1 < |ws| by { RunLength(ws, es); }
    var c := ws[k].stopper.toClose[ws[k].stopper.next];
    RunSteps(ws, es, k);
    CloseAwaits(ws[k]);
    KeepsAwaiting(ws, es, k + 1, i, c);
    RunSteps(ws, es, i);
    RunKeepsInv(ws, es, i);
    StepKeepsAwaited(ws[i], es[i], c);
  }

  lemma RunLength(ws: seq<World>, es: seq<Event>)
    requires IsRun(ws, es)
    ensures |ws| == |es| + 1
  {
  }

  lemma Extend(ws: seq<World>, es: seq<Event>, e: Event) returns (ws': seq<World>, es': seq<Event>)
    requires IsRun(ws, es) && Enabled(ws[|es|], e)
    ensures IsRun(ws', es') && es' == es + [e] && ws'[|es'|] == Step(ws[|es|], e)
    ensures |ws| == |es'| && ws <= ws'
  {
    hide Enabled, Step;
    es' := es + [e];
    ws' := ws + [Step(ws[|es|], e)];
    forall i | 0 <= i < |es'| ensures Enabled(ws'[i], es'[i]) && ws'[i + 1] == Step(ws'[i], es'[i]) {
      if i < |es| {
        assert ws'[i] == ws[i] && es'[i] == es[i] && ws'[i + 1] == ws[i + 1];
      }
    }
  }

  /** The server has accepted connection 1, and not yet registered it. */
  lemma OneAccepted() returns (ws: seq<World>, es: seq<Event>)
    ensures IsRun(ws, es) && forall e | e in es && e.Publishes? :: !e.rejected
    ensures ws[|es|] == World(true, false, Fresh(1), NotStopping, true, [], {1}, {}, {}, {}, {})
  {
    ws, es := [IDLE_SERVER], [];
    hide IsRun;
    assert IsRun(ws, es) by { EmptyRun(); }
    ws, es := Extend(ws, es, StartSpawns);
    ws, es := Extend(ws, es, StartCommits);
    ws, es := Extend(ws, es, Accepts(1, true));
  }

  /** The event of connection 1 is handled before the accept thread registers it. */
  lemma EarlyEvent() returns (ws: seq<World>, es: seq<Event>)
    ensures IsRun(ws, es) && forall e | e in es && e.Publishes? :: !e.rejected
    ensures ws[|es|] == World(true, false, Announcing(1), NotStopping, true, [1], {1}, {1}, {1}, {}, {})
  {
    ws, es := OneAccepted();
    hide IsRun;
    ws, es := Extend(ws, es, TearsDown(1));
    ws, es := Extend(ws, es, Publishes(1, false));
    ws, es := Extend(ws, es, EventHandled(1));
    ws, es := Extend(ws, es, Registers);
  }

  /** From a server with connection 1 listed and down: Stop runs to its end. */
  lemma StopRuns(ws0: seq<World>, es0: seq<Event>, dispatching: set<ConnId>)
    returns (ws: seq<World>, es: seq<Event>)
    requires IsRun(ws0, es0)
    requires ws0[|es0|] == World(true, false, Announcing(1), NotStopping, true, [1], {1}, {1}, {1}, {}, dispatching)
    ensures IsRun(ws, es) && |es| > |es0| && es0 <= es && es[|es| - 1] == StopReturns
    ensures ws[|es|] == World(false, false, NoThread, NotStopping, false, [1], {1}, {1}, {1}, {}, dispatching)
    ensures forall e | e in es[|es0|..] :: !e.Publishes?
  {
    ws, es := ws0, es0;
    hide IsRun;
    ws, es := Extend(ws, es, Announces);
    ws, es := Extend(ws, es, AcceptReturns);
    ws, es := Extend(ws, es, StopWins);
    ws, es := Extend(ws, es, StopJoins);
    ws, es := Extend(ws, es, StopSnapshots);
    ws, es := Extend(ws, es, StopCloses);
    ws, es := Extend(ws, es, StopReturns);
    assert es == es0 + [Announces, AcceptReturns, StopWins, StopJoins, StopSnapshots, StopCloses, StopReturns];
  }

  lemma EmptyRun()
    ensures IsRun([IDLE_SERVER], [])
  {
  }

  /** A run in which the list keeps a connection after Stop has returned although no event was rejected. */
  lemma StopMayLeaveAStaleEntry() returns (ws: seq<World>, es: seq<Event>)
    ensures IsRun(ws, es) && |es| > 0 && es[|es| - 1] == StopReturns
    ensures var w := ws[|es|]; !w.running && !Outstanding(w, 1) && w.tracked == [1]
    ensures forall e | e in es && e.Publishes? :: !e.rejected
  {
    var ws0, es0 := EarlyEvent();
    hide IsRun;
    ws, es := StopRuns(ws0, es0, {});
    assert es == es0 + es[|es0|..];
  }

  /** Connection 1 is registered, torn down, and its event published to the server. */
  lemma OneDispatched() returns (ws: seq<World>, es: seq<Event>)
    ensures IsRun(ws, es)
    ensures ws[|es|] == World(true, false, Announcing(1), NotStopping, true, [1], {1}, {1}, {1}, {}, {1})
  {
    ws, es := OneAccepted();
    hide IsRun;
    ws, es := Extend(ws, es, Registers);
    ws, es := Extend(ws, es, TearsDown(1));
    ws, es := Extend(ws, es, Publishes(1, false));
  }

  /** A run in which OnDisconnected, in a snapshot taken before, erases its connection after Stop has returned. */
  lemma AHandlerMayOutliveStop() returns (ws: seq<World>, es: seq<Event>)
    ensures IsRun(ws, es) && |es| > 1 && es[|es| - 2] == StopReturns && es[|es| - 1] == EventHandled(1)
    ensures ws[|es| - 1].tracked == [1] && ws[|es|].tracked == []
  {
    ws, es := OneDispatched();
    ws, es := StopRuns(ws, es, {1});
    hide IsRun, Enabled, Step;
    HandlingTheLast(ws[|es|]);
    ws, es := Extend(ws, es, EventHandled(1));
  }

  lemma HandlingTheLast(w: World)
    requires w.tracked == [1] && w.dispatching == {1}
    ensures Enabled(w, EventHandled(1)) && Step(w, EventHandled(1)).tracked == []
  {
    assert forall c | c in Erased(w.tracked, 1) :: c in w.tracked && c != 1;
    assert |Erased(w.tracked, 1)| == 0;
  }

  // ---------------------------------------------------------------------------
  // Handlers after Stop
  // ---------------------------------------------------------------------------

  lemma Prefix(ws: seq<World>, es: seq<Event>, n: nat)
    requires IsRun(ws, es) && n <= |es|
    ensures IsRun(ws[..n + 1], es[..n])
  {
    hide Enabled, Step;
  }

  lemma {:induction false} SameBeginning(ws: seq<World>, es: seq<Event>, ws': seq<World>, es': seq<Event>, n: nat)
    requires IsRun(ws, es) && IsRun(ws', es') && n <= |es| && es[..n] <= es'
    ensures ws'[n] == ws[n]
  {
    hide Enabled, Step;
    if n > 0 {
      assert es[..n - 1] <= es' && es'[n - 1] == es[n - 1];
      SameBeginning(ws, es, ws', es', n - 1);
      assert ws[n] == Step(ws[n - 1], es[n - 1]) && ws'[n] == Step(ws'[n - 1], es'[n - 1]);
    }
  }

  /** No Start between step `i` and step `k`. */
  ghost predicate NoStart(es: seq<Event>, i: nat, k: nat) {
    forall m | i < m < k && m < |es| :: es[m] != StartSpawns
  }

  /** A run that agrees with `es` up to step `i` and runs OnDisconnected at a later step `k`, before any Start. */
  ghost predicate HandlesLater(es: seq<Event>, i: nat, ws': seq<World>, es': seq<Event>, k: nat)
    requires i < |es|
  {
    IsRun(ws', es') && es[..i + 1] <= es' && i < k < |es'| && es'[k].EventHandled? && NoStart(es', i, k)
  }

  /** Without a subscription no publication reaches the server, so the handlers ahead only get fewer. */
  lemma UnsubscribedStep(w: World, e: Event)
    requires Enabled(w, e) && !w.subscribed && e != StartSpawns
    ensures !Step(w, e).subscribed && Step(w, e).dispatching <= w.dispatching
  {
  }

  lemma {:induction false} UnsubscribedStays(ws: seq<World>, es: seq<Event>, i: nat, k: nat)
    requires IsRun(ws, es) && i < k < |ws| && !ws[i + 1].subscribed && NoStart(es, i, k)
    ensures !ws[k].subscribed && ws[k].dispatching <= ws[i + 1].dispatching
    decreases k
  {
    hide IsRun, Enabled, Step;
    if i + 1 < k {
      UnsubscribedStays(ws, es, i, k - 1);
      RunSteps(ws, es, k - 1);
      UnsubscribedStep(ws[k - 1], es[k - 1]);
    }
  }

  lemma StopReturnsUnsubscribed(w: World)
    requires Enabled(w, StopReturns)
    ensures !Step(w, StopReturns).subscribed && Step(w, StopReturns).dispatching == w.dispatching
  {
  }

  /**
   * When a handler may outlive Stop, and with it need the server alive: at a
   * Stop that returns in any run, some continuation runs OnDisconnected before
   * the server is started again if and only if a publication that has the
   * server in its snapshot is still under way.
   */
  lemma HandlersOutliveStopExactlyIfDispatching(ws: seq<World>, es: seq<Event>, i: nat)
    requires IsRun(ws, es) && i < |es| && es[i] == StopReturns
    ensures (exists ws', es', k :: HandlesLater(es, i, ws', es', k)) <==> ws[i].dispatching != {}
  {
    RunSteps(ws, es, i);
    StopReturnsUnsubscribed(ws[i]);
    if ws[i].dispatching != {} {
      var c :| c in ws[i].dispatching;
      Prefix(ws, es, i + 1);
      var ws0, es0 := ws[..i + 2], es[..i + 1];
      hide IsRun;
      assert Enabled(ws0[i + 1], EventHandled(c));
      var ws', es' := Extend(ws0, es0, EventHandled(c));
      assert HandlesLater(es, i, ws', es', i + 1);
    } else {
      forall ws', es', k | HandlesLater(es, i, ws', es', k) ensures false {
        NoneLeft(ws, es, i, ws', es', k);
      }
    }
  }

  lemma NoneLeft(ws: seq<World>, es: seq<Event>, i: nat, ws': seq<World>, es': seq<Event>, k: nat)
    requires IsRun(ws, es) && i < |es| && es[i] == StopReturns && HandlesLater(es, i, ws', es', k)
    ensures ws[i].dispatching != {}
  {
    RunSteps(ws, es, i);
    StopReturnsUnsubscribed(ws[i]);
    SameBeginning(ws, es, ws', es', i + 1);
    UnsubscribedStays(ws', es', i, k);
    RunSteps(ws', es', k);
    assert es'[k].conn in ws'[k].dispatching;
  }

  // ---------------------------------------------------------------------------
  // In place
  // ---------------------------------------------------------------------------

  class Server {
    var connections: seq<ConnId>

    constructor ()
      ensures connections == []
    {
      connections := [];
    }

    /**
     * The accept thread's section, in any state `w` the server can be in then:
     * the list stays free of duplicates, and the disconnect event of this
     * connection will restore it exactly.
     */
    method Register(conn: ConnId, ghost w: World)
      requires Inv(w) && w.acceptor == Fresh(conn) && connections == w.tracked
      modifies this
      ensures connections == Step(w, Registers).tracked
      ensures NoDuplicates(connections) && Erased(connections, conn) == old(connections)
    {
      NotListed(connections, conn);
      RegistersKeepsInv(w);
      assert (connections + [conn])[..|connections|] == connections;
      connections := connections + [conn];
    }

    /** Erase-remove: everything but `conn` is kept, in order. */
    method OnDisconnected(conn: ConnId)
      modifies this
      ensures connections == Erased(old(connections), conn)
      ensures forall c :: c in connections <==> c in old(connections) && c != conn
    {
      var kept: seq<ConnId> := [];
      var i := 0;
      while i < |connections|
        invariant i <= |connections| && connections == old(connections)
        invariant kept == Erased(connections[..i], conn)
      {
        assert connections[..i + 1][..i] == connections[..i];
        if connections[i] != conn {
          kept := kept + [connections[i]];
        }
        i := i + 1;
      }
      assert connections[..i] == connections;
      connections := kept;
    }
  }

  lemma {:induction false} NotListed(list: seq<ConnId>, conn: ConnId)
    requires conn !in list
    ensures Erased(list, conn) == list
  {
    if list != [] {
      NotListed(list[..|list| - 1], conn);
      assert list == list[..|list| - 1] + [list[|list| - 1]];
    }
  }
}
