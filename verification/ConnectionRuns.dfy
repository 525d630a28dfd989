/**
 * Every interleaving of one connection's sender thread, its Send and Recv
 * callers and the callers of Teardown.
 *
 * A step is one system call, one atomic load, store or exchange, or one
 * critical section of the send queue. A Recv up to its call of Teardown is one
 * step: it changes nothing the others see, and the race it may enter begins
 * with the exchange, a step of its own. Each ::send is atomic on the stream, and
 * a ::send on a closed descriptor fails. The histories are the chunks Send
 * accepted and the bytes put on the wire.
 */
module ConnectionRuns {
  import opened Basics
  import opened BoundedQueue
  import opened NetworkConnection

  /** The sender thread is a Teardown caller like any other. */
  const SENDER: ThreadId := 0

  datatype Sender =
    | AtTop                              // about to test stop_requested_
    | Popping                            // inside send_queue_.PopFor
    | AtWrite(rest: seq<byte>)           // about to test `remaining > 0`, then stop_requested_
    | Writing(rest: seq<byte>)           // about to call ::send
    | Polling(rest: seq<byte>)           // ::send said EAGAIN
    | Leaving(rest: seq<byte>)           // Teardown called; returns after it
    | Gone

  /** The part of the current chunk the sender has not yet put on the wire. */
  function Rest(s: Sender): seq<byte> {
    match s
    case AtWrite(rest) => rest
    case Writing(rest) => rest
    case Polling(rest) => rest
    case Leaving(rest) => rest
    case _ => []
  }

  /** How far a call of Teardown has come: what it is about to do next. */
  datatype Stage =
    | Exchange(reason: NetworkError)
    | StoreStop(reason: NetworkError)
    | CloseQueue(reason: NetworkError)
    | CloseFd(reason: NetworkError)
    | Publish(reason: NetworkError)

  /** What the calls of Teardown race for, and what they have done. */
  datatype Race = Race(
    serverSide: bool, connected: bool, stopRequested: bool, fdOpen: bool,
    winner: Option<NetworkError>,        // the reason of the call that won the exchange
    fdCloses: nat, queueCloses: nat, published: seq<NetworkError>)

  /** What Send accepted, what reached the wire, and what was given up. */
  datatype History = History(accepted: seq<Chunk>, wire: seq<byte>, lostChunk: seq<byte>, lostQueue: seq<byte>)

  datatype World = World(
    race: Race,
    queue: Core<Chunk>,
    sender: Sender,
    sends: map<ThreadId, Chunk>,         // Send calls that have found the connection up
    teardowns: map<ThreadId, Stage>,
    history: History)

  datatype Event =
    | SendChecks(t: ThreadId, data: Chunk, hasData: bool)
    | SendPushes(t: ThreadId, woken: Option<ThreadId>)
    | SenderTop
    | SenderPops(expired: bool, woken: Option<ThreadId>)
    | SenderStirs
    | SenderTests
    | SenderWrites(io: SendResult)
    | SenderPolls(poll: PollResult)
    | SenderReturns
    | CloseCalled(t: ThreadId)
    | RecvCalled(t: ThreadId, poll: PollResult, got: RecvResult)
    | TeardownSteps(t: ThreadId, rejected: bool)

  ghost predicate Init(w: World) {
    w == World(Race(w.race.serverSide, true, false, true, None, 0, 0, []),
               Create(SEND_QUEUE_CAPACITY), AtTop, map[], map[], History([], [], [], []))
  }

  ghost predicate Enabled(w: World, e: Event) {
    match e
    case SendChecks(t, _, _) => t != SENDER && t !in w.sends
    case SendPushes(t, woken) => t in w.sends && (Appends(w.queue) ==> w.queue.notEmpty.CanNotifyOne(woken))
    case SenderTop => w.sender.AtTop?
    case SenderPops(expired, woken) =>
      w.sender.Popping? && SENDER !in w.queue.notEmpty.asleep
      && (w.queue.items != [] ==> w.queue.notFull.CanNotifyOne(woken))
    case SenderStirs => w.sender.Popping? && SENDER in w.queue.notEmpty.asleep
    case SenderTests => w.sender.AtWrite?
    case SenderWrites(io) =>
      && w.sender.Writing?
      && (io.Wrote? ==> w.race.fdOpen && 0 < io.count <= |w.sender.rest|)
    case SenderPolls(_) => w.sender.Polling?
    case SenderReturns => w.sender.Leaving? && SENDER !in w.teardowns
    case CloseCalled(t) => t != SENDER && t !in w.teardowns
    case RecvCalled(t, _, _) => t != SENDER && t !in w.teardowns
    case TeardownSteps(t, _) => t in w.teardowns
  }

  function AfterSendChecks(w: World, t: ThreadId, data: Chunk, hasData: bool): World {
    if Sendable(data, hasData) && w.race.connected then w.(sends := w.sends[t := data]) else w
  }

  function AfterSendPushes(w: World, t: ThreadId, woken: Option<ThreadId>): World
    requires t in w.sends && (Appends(w.queue) ==> w.queue.notEmpty.CanNotifyOne(woken))
  {
    var r := PushSection(w.queue, w.sends[t], woken);
    w.(queue := r.0, sends := w.sends - {t},
       history := if r.1 == Pushed(Success)
                  then w.history.(accepted := w.history.accepted + [w.sends[t]]) else w.history)
  }

  function AfterSenderPops(w: World, expired: bool, woken: Option<ThreadId>): World
    requires w.queue.items != [] ==> w.queue.notFull.CanNotifyOne(woken)
  {
    var r := PopSection(w.queue, SENDER, expired, woken);
    var sender := match r.1
      case Blocked => Popping
      case Popped(Success, item) => if item.Some? then AtWrite(item.value) else Gone
      case Popped(QueueTimeout, _) => AtTop
      case _ => Gone;
    w.(queue := r.0, sender := sender)
  }

  /** The sender returns with the current chunk unfinished. */
  function GiveUp(w: World): World {
    w.(sender := Gone, history := w.history.(lostChunk := Rest(w.sender)))
  }

  function AfterSenderTests(w: World): World
    requires w.sender.AtWrite?
  {
    if w.sender.rest == [] then w.(sender := AtTop)
    else if w.race.stopRequested then GiveUp(w)
    else w.(sender := Writing(w.sender.rest))
  }

  function SenderAborts(w: World, rest: seq<byte>, reason: NetworkError): World {
    w.(sender := Leaving(rest), teardowns := w.teardowns[SENDER := Exchange(reason)])
  }

  function AfterSenderWrites(w: World, io: SendResult): World
    requires w.sender.Writing? && (io.Wrote? ==> io.count <= |w.sender.rest|)
  {
    var rest := w.sender.rest;
    match io
    case Wrote(n) => w.(sender := AtWrite(rest[n..]), history := w.history.(wire := w.history.wire + rest[..n]))
    case Interrupted => w.(sender := AtWrite(rest))
    case WouldBlock => w.(sender := Polling(rest))
    case PeerGone => SenderAborts(w, rest, PeerClosed)
    case OtherError => SenderAborts(w, rest, SendFailed)
  }

  function AfterSenderPolls(w: World, poll: PollResult): World
    requires w.sender.Polling?
  {
    match PollTurn(poll)
    case Continue => w.(sender := AtWrite(w.sender.rest))
    case Abort(reason) => SenderAborts(w, w.sender.rest, reason)
  }

  function AfterRecvCalled(w: World, t: ThreadId, poll: PollResult, io: RecvResult): World {
    var r := RecvSection(w.race.connected, w.race.fdOpen, poll, io);
    if r.teardown.Some? then w.(teardowns := w.teardowns[t := Exchange(r.teardown.value)]) else w
  }

  /** `rejected`: the object is being destroyed, or the caller is already dispatching an event. */
  function AfterTeardown(w: World, t: ThreadId, rejected: bool): World
    requires t in w.teardowns
  {
    match w.teardowns[t]
    case Exchange(reason) =>
      if !w.race.connected then w.(teardowns := w.teardowns - {t})
      else
        w.(race := w.race.(connected := false, winner := Some(reason)),
           teardowns := w.teardowns[t := StoreStop(reason)])
    case StoreStop(reason) =>
      w.(race := w.race.(stopRequested := true), teardowns := w.teardowns[t := CloseQueue(reason)])
    case CloseQueue(reason) =>
      w.(race := w.race.(queueCloses := w.race.queueCloses + 1),
         queue := ShutdownSection(w.queue, Immediate).0,
         history := w.history.(lostQueue := Flatten(w.queue.items)),
         teardowns := w.teardowns[t := CloseFd(reason)])
    case CloseFd(reason) =>
      w.(race := if w.race.fdOpen then w.race.(fdOpen := false, fdCloses := w.race.fdCloses + 1) else w.race,
         teardowns := w.teardowns[t := Publish(reason)])
    case Publish(reason) =>
      w.(race := if w.race.serverSide && !rejected
                 then w.race.(published := w.race.published + [reason]) else w.race,
         teardowns := w.teardowns - {t})
  }

  ghost function Step(w: World, e: Event): World
    requires Enabled(w, e)
  {
    match e
    case SendChecks(t, data, hasData) => AfterSendChecks(w, t, data, hasData)
    case SendPushes(t, woken) => AfterSendPushes(w, t, woken)
    case SenderTop => w.(sender := if w.race.stopRequested then Gone else Popping)
    case SenderPops(expired, woken) => AfterSenderPops(w, expired, woken)
    case SenderStirs => w.(queue := w.queue.(notEmpty := w.queue.notEmpty.Stir(SENDER)))
    case SenderTests => AfterSenderTests(w)
    case SenderWrites(io) => AfterSenderWrites(w, io)
    case SenderPolls(poll) => AfterSenderPolls(w, poll)
    case SenderReturns => GiveUp(w)
    case CloseCalled(t) => w.(teardowns := w.teardowns[t := Exchange(Disconnected)])
    case RecvCalled(t, poll, io) => AfterRecvCalled(w, t, poll, io)
    case TeardownSteps(t, rejected) => AfterTeardown(w, t, rejected)
  }

  ghost predicate IsRun(ws: seq<World>, es: seq<Event>) {
    && |ws| == |es| + 1
    && Init(ws[0])
    && forall i | 0 <= i < |es| :: Enabled(ws[i], es[i]) && ws[i + 1] == Step(ws[i], es[i])
  }

  lemma RunSteps(ws: seq<World>, es: seq<Event>, i: nat)
    requires IsRun(ws, es) && i + 1 < |ws|
    ensures i < |es| && Enabled(ws[i], es[i]) && ws[i + 1] == Step(ws[i], es[i])
  {
  }

  // ---------------------------------------------------------------------------
  // The teardown race
  // ---------------------------------------------------------------------------

  /** Nothing has been taken down yet. */
  ghost predicate Intact(w: World) {
    && !w.race.stopRequested && w.queue.state == Running && w.race.fdOpen
    && w.race.fdCloses == 0 && w.race.queueCloses == 0 && w.race.published == [] && w.race.winner.None?
  }

  /** What the winner has done so far, told by what it is about to do. */
  ghost predicate Reached(w: World, s: Stage) {
    && w.race.winner == Some(s.reason) && w.race.published == []
    && w.race.stopRequested == !s.StoreStop?
    && (w.queue.state == Shutdown) == (s.CloseFd? || s.Publish?)
    && w.race.queueCloses == (if s.CloseFd? || s.Publish? then 1 else 0)
    && w.race.fdOpen == !s.Publish?
    && w.race.fdCloses == (if s.Publish? then 1 else 0)
  }

  ghost predicate TornDown(w: World) {
    && w.race.winner.Some? && w.race.stopRequested && w.queue.state == Shutdown && !w.race.fdOpen
    && w.race.fdCloses == 1 && w.race.queueCloses == 1
    && (w.race.published == [] || (w.race.serverSide && w.race.published == [w.race.winner.value]))
  }

  ghost predicate OnlyActive(w: World, t: ThreadId) {
    && t in w.teardowns && !w.teardowns[t].Exchange?
    && forall u | u in w.teardowns && u != t :: w.teardowns[u].Exchange?
  }

  ghost predicate NoneActive(w: World) {
    forall u | u in w.teardowns :: w.teardowns[u].Exchange?
  }

  ghost predicate TeardownInv(w: World) {
    if w.race.connected then NoneActive(w) && Intact(w)
    else (NoneActive(w) && TornDown(w)) || (exists t :: OnlyActive(w, t) && Reached(w, w.teardowns[t]))
  }

  /** A step of another kind at most lets one more caller into Teardown. */
  ghost predicate Joins(w: World, w': World) {
    || w'.teardowns == w.teardowns
    || exists t: ThreadId, r: NetworkError :: t !in w.teardowns && w'.teardowns == w.teardowns[t := Exchange(r)]
  }

  lemma OthersKeepTeardown(w: World, w': World)
    requires TeardownInv(w) && w'.race == w.race && w'.queue.state == w.queue.state && Joins(w, w')
    ensures TeardownInv(w')
  {
    if !w.race.connected && !NoneActive(w) {
      var t :| OnlyActive(w, t) && Reached(w, w.teardowns[t]);
      assert OnlyActive(w', t) && Reached(w', w'.teardowns[t]);
    }
  }

  lemma TeardownKeepsTeardown(w: World, t: ThreadId, rejected: bool)
    requires TeardownInv(w) && t in w.teardowns
    ensures TeardownInv(AfterTeardown(w, t, rejected))
  {
    var w' := AfterTeardown(w, t, rejected);
    if w.teardowns[t].Exchange? {
      if w.race.connected {
        assert OnlyActive(w', t) && Reached(w', w'.teardowns[t]);
      } else if !NoneActive(w) {
        var u :| OnlyActive(w, u) && Reached(w, w.teardowns[u]);
        assert OnlyActive(w', u) && Reached(w', w'.teardowns[u]);
      }
    } else {
      var u :| OnlyActive(w, u) && Reached(w, w.teardowns[u]);
      assert u == t;
      if !w.teardowns[t].Publish? {
        assert OnlyActive(w', t) && Reached(w', w'.teardowns[t]);
      }
    }
  }

  // ---------------------------------------------------------------------------
  // The byte stream
  // ---------------------------------------------------------------------------

  ghost predicate Stream(w: World) {
    w.history.wire + Rest(w.sender) + w.history.lostChunk + Flatten(w.queue.items) + w.history.lostQueue
      == Flatten(w.history.accepted)
  }

  ghost predicate StreamInv(w: World) {
    && Stream(w)
    && (w.history.lostChunk != [] ==> w.sender.Gone? && !w.race.connected)
    && (w.history.lostQueue != [] ==> w.queue.state == Shutdown)
    && (w.queue.state == Shutdown ==> w.queue.items == []) && w.queue.state != Draining
    && (SENDER in w.teardowns ==> w.sender.Leaving?)
    && (w.sender.Leaving? && w.race.connected ==> SENDER in w.teardowns)
  }

  lemma PushKeepsStream(w: World, t: ThreadId, woken: Option<ThreadId>)
    requires StreamInv(w) && Enabled(w, SendPushes(t, woken))
    ensures StreamInv(AfterSendPushes(w, t, woken))
  {
    hide Flatten;
    if Appends(w.queue) {
      FlattenAppend(w.history.accepted, w.sends[t]);
      FlattenAppend(w.queue.items, w.sends[t]);
      assert w.history.lostQueue == [];
      assert w.history.wire + Rest(w.sender) + w.history.lostChunk + (Flatten(w.queue.items) + w.sends[t])
          == (w.history.wire + Rest(w.sender) + w.history.lostChunk + Flatten(w.queue.items)) + w.sends[t];
    }
  }

  lemma FlattenHead(chunks: seq<Chunk>)
    requires chunks != []
    ensures Flatten(chunks) == chunks[0] + Flatten(chunks[1..])
  {
  }

  lemma PopKeepsStream(w: World, expired: bool, woken: Option<ThreadId>)
    requires StreamInv(w) && Enabled(w, SenderPops(expired, woken))
    ensures StreamInv(AfterSenderPops(w, expired, woken))
  {
    hide Flatten, CondVar.CanNotifyOne;
    if w.queue.items != [] {
      assert w.history.lostChunk == [];
      FlattenHead(w.queue.items);
      assert w.history.wire + [] + [] + Flatten(w.queue.items)
          == w.history.wire + w.queue.items[0] + [] + Flatten(w.queue.items[1..]);
    }
  }

  lemma WriteKeepsStream(w: World, io: SendResult)
    requires StreamInv(w) && Enabled(w, SenderWrites(io))
    ensures StreamInv(AfterSenderWrites(w, io))
  {
    hide Flatten;
    if io.Wrote? {
      var rest := w.sender.rest;
      assert w.history.wire + rest == (w.history.wire + rest[..io.count]) + rest[io.count..];
    }
  }

  lemma TeardownKeepsStream(w: World, t: ThreadId, rejected: bool)
    requires StreamInv(w) && TeardownInv(w) && t in w.teardowns
    ensures StreamInv(AfterTeardown(w, t, rejected))
  {
    hide Flatten;
    if w.teardowns[t].CloseQueue? {
      var u :| OnlyActive(w, u) && Reached(w, w.teardowns[u]);
      assert w.history.lostQueue == [];
      assert Flatten([]) == [] by { NothingToFlatten(); }
      assert w.history.wire + Rest(w.sender) + w.history.lostChunk + Flatten(w.queue.items) + []
          == w.history.wire + Rest(w.sender) + w.history.lostChunk + [] + Flatten(w.queue.items);
    }
  }

  lemma NothingToFlatten()
    ensures Flatten([]) == []
  {
  }

  lemma ReturnKeepsStream(w: World)
    requires StreamInv(w) && TeardownInv(w)
    ensures Enabled(w, SenderReturns) ==> StreamInv(Step(w, SenderReturns))
    ensures Enabled(w, SenderTests) ==> StreamInv(AfterSenderTests(w))
  {
    hide Flatten;
    assert w.history.wire + Rest(w.sender) + [] == w.history.wire + [] + Rest(w.sender);
  }

  ghost predicate Inv(w: World) {
    TeardownInv(w) && StreamInv(w)
  }

  /** What the sections of the send queue do to its items and state, while it is not draining. */
  lemma QueueSections(w: World, e: Event)
    requires Enabled(w, e) && w.queue.state != Draining
    ensures e.SendPushes? ==> AfterSendPushes(w, e.t, e.woken).queue.state == w.queue.state
    ensures e.SenderPops? ==> AfterSenderPops(w, e.expired, e.woken).queue.state == w.queue.state
  {
    hide Flatten;
  }

  lemma Joining(w: World, w': World, t: ThreadId, r: NetworkError)
    requires t !in w.teardowns && w'.teardowns == w.teardowns[t := Exchange(r)]
    ensures Joins(w, w')
  {
  }

  /** No other step touches the race, and at most one caller enters Teardown. */
  lemma OthersJoin(w: World, e: Event)
    requires Inv(w) && Enabled(w, e) && !e.TeardownSteps?
    ensures var w' := Step(w, e); w'.race == w.race && w'.queue.state == w.queue.state && Joins(w, w')
  {
    hide Flatten, TeardownInv, Stream, PushSection, PopSection, Joins;
    var w' := Step(w, e);
    QueueSections(w, e);
    match e
    case SenderWrites(io) =>
      if io.PeerGone? || io.OtherError? {
        Joining(w, w', SENDER, w'.teardowns[SENDER].reason);
      } else {
        Staying(w, w');
      }
    case SenderPolls(poll) =>
      if PollTurn(poll).Abort? {
        Joining(w, w', SENDER, w'.teardowns[SENDER].reason);
      } else {
        Staying(w, w');
      }
    case CloseCalled(t) => Joining(w, w', t, Disconnected);
    case RecvCalled(t, poll, got) =>
      if RecvSection(w.race.connected, w.race.fdOpen, poll, got).teardown.Some? {
        Joining(w, w', t, w'.teardowns[t].reason);
      } else {
        Staying(w, w');
      }
    case _ => Staying(w, w');
  }

  lemma StepKeepsTeardown(w: World, e: Event)
    requires Inv(w) && Enabled(w, e)
    ensures TeardownInv(Step(w, e))
  {
    hide Inv, TeardownInv, AfterTeardown, Joins;
    assert TeardownInv(w) by { InvParts(w); }
    if e.TeardownSteps? {
      TeardownKeepsTeardown(w, e.t, e.rejected);
    } else {
      OthersJoin(w, e);
      OthersKeepTeardown(w, Step(w, e));
    }
  }

  lemma InvParts(w: World)
    requires Inv(w)
    ensures TeardownInv(w) && StreamInv(w)
  {
  }

  lemma Staying(w: World, w': World)
    requires w'.teardowns == w.teardowns
    ensures Joins(w, w')
  {
  }

  lemma StepKeepsStream(w: World, e: Event)
    requires Inv(w) && Enabled(w, e)
    ensures StreamInv(Step(w, e))
  {
    hide TeardownInv, Flatten;
    hide AfterSendPushes, AfterSenderPops, AfterSenderTests, AfterSenderWrites, AfterTeardown, GiveUp;
    match e
    case SendPushes(t, woken) => PushKeepsStream(w, t, woken);
    case SenderPops(expired, woken) => PopKeepsStream(w, expired, woken);
    case SenderWrites(io) => WriteKeepsStream(w, io);
    case TeardownSteps(t, rejected) => TeardownKeepsStream(w, t, rejected);
    case SenderReturns => ReturnKeepsStream(w);
    case SenderTests => ReturnKeepsStream(w);
    case _ =>
  }

  lemma {:induction false} RunKeepsInv(ws: seq<World>, es: seq<Event>, i: nat)
    requires IsRun(ws, es) && i < |ws|
    ensures Inv(ws[i])
  {
    hide TeardownInv, StreamInv, IsRun, Enabled, Step;
    if i == 0 {
      StartInv(ws, es);
    } else {
      RunKeepsInv(ws, es, i - 1);
      RunSteps(ws, es, i - 1);
      StepKeepsTeardown(ws[i - 1], es[i - 1]);
      StepKeepsStream(ws[i - 1], es[i - 1]);
    }
  }

  lemma StartInv(ws: seq<World>, es: seq<Event>)
    requires IsRun(ws, es)
    ensures Inv(ws[0])
  {
    assert Init(ws[0]);
    hide IsRun;
  }

  // ---------------------------------------------------------------------------
  // What it means for whole runs
  // ---------------------------------------------------------------------------

  /**
   * The connection refines a byte stream. Until some call of Teardown wins,
   * what is on the wire, what is left of the current chunk and what is queued
   * are together exactly the chunks Send accepted, in order; and in every state
   * of every run the wire holds a prefix of them, whatever the pattern of
   * partial writes, interrupts, polls and teardown.
   */
  lemma WireIsAPrefixOfWhatWasAccepted(ws: seq<World>, es: seq<Event>, i: nat)
    requires IsRun(ws, es) && i < |ws|
    ensures ws[i].history.wire <= Flatten(ws[i].history.accepted)
    ensures ws[i].race.connected ==>
      ws[i].history.wire + Rest(ws[i].sender) + Flatten(ws[i].queue.items) == Flatten(ws[i].history.accepted)
  {
    RunKeepsInv(ws, es, i);
    hide IsRun, Flatten;
    var w := ws[i];
    assert Stream(w);
    if w.race.connected {
      assert TeardownInv(w) && Intact(w);
      assert w.history.lostChunk == [] && w.history.lostQueue == [];
    }
  }

  /**
   * Teardown happens once. However many calls race, the descriptor is closed at
   * most once, the queue is shut down at most once, at most one disconnect
   * event is published and it carries the reason of the call that won, and a
   * client-side connection publishes none; once no call is under way on a
   * connection that is down, both have happened exactly once.
   */
  lemma TeardownHappensOnce(ws: seq<World>, es: seq<Event>, i: nat)
    requires IsRun(ws, es) && i < |ws|
    ensures ws[i].race.fdCloses <= 1 && ws[i].race.queueCloses <= 1
    ensures ws[i].race.published == []
      || (ws[i].race.serverSide && ws[i].race.winner.Some? && ws[i].race.published == [ws[i].race.winner.value])
    ensures ws[i].race.connected <==> ws[i].race.winner.None?
    ensures !ws[i].race.connected && ws[i].teardowns == map[] ==>
      ws[i].race.fdCloses == 1 && ws[i].race.queueCloses == 1 && !ws[i].race.fdOpen && ws[i].queue.state == Shutdown
  {
    RunKeepsInv(ws, es, i);
    hide IsRun, StreamInv;
    var w := ws[i];
    if !w.race.connected && !(NoneActive(w) && TornDown(w)) {
      var t :| OnlyActive(w, t) && Reached(w, w.teardowns[t]);
    }
  }

  lemma StepAfterShutdown(w: World, e: Event)
    requires Inv(w) && Enabled(w, e) && w.queue.state == Shutdown
    ensures Step(w, e).queue.state == Shutdown && Step(w, e).history.accepted == w.history.accepted
    ensures !w.race.connected ==> !Step(w, e).race.connected && Step(w, e).race.winner == w.race.winner
  {
    hide Inv, AfterTeardown, Joins;
    AcceptsNothing(w, e);
    if e.TeardownSteps? {
      TeardownAfterShutdown(w, e.t, e.rejected);
    } else {
      OthersJoin(w, e);
    }
  }

  lemma AcceptsNothing(w: World, e: Event)
    requires Enabled(w, e) && w.queue.state == Shutdown
    ensures Step(w, e).history.accepted == w.history.accepted
  {
    hide Flatten, RecvSection, PopSection, ShutdownSection, CondVar.CanNotifyOne;
  }

  lemma TeardownAfterShutdown(w: World, t: ThreadId, rejected: bool)
    requires t in w.teardowns && w.queue.state == Shutdown
    ensures var w' := AfterTeardown(w, t, rejected);
      && w'.queue.state == Shutdown
      && (!w.race.connected ==> !w'.race.connected && w'.race.winner == w.race.winner)
  {
    hide Flatten;
  }

  /** Once the queue has been shut down no Send returns SUCCESS any more, not even one already under way. */
  lemma {:induction false} NothingAcceptedAfterShutdown(ws: seq<World>, es: seq<Event>, i: nat, j: nat)
    requires IsRun(ws, es) && i <= j < |ws| && ws[i].queue.state == Shutdown
    ensures ws[j].history.accepted == ws[i].history.accepted && ws[j].queue.state == Shutdown
    decreases j
  {
    hide IsRun, Inv, Enabled, Step;
    if i < j {
      NothingAcceptedAfterShutdown(ws, es, i, j - 1);
      RunKeepsInv(ws, es, j - 1);
      RunSteps(ws, es, j - 1);
      StepAfterShutdown(ws[j - 1], es[j - 1]);
    }
  }
}
