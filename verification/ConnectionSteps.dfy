/**
 * What every step of every run of a connection does, told from the state before
 * it, and when what Send has accepted can still reach the wire.
 */
module ConnectionSteps {
  import opened Basics
  import opened BoundedQueue
  import opened NetworkConnection
  import opened ConnectionRuns
  import opened ConnectionEnds

  // ---------------------------------------------------------------------------
  // Callers
  // ---------------------------------------------------------------------------

  /**
   * Send goes on to the queue exactly if the chunk is valid and the connection
   * up, and there is accepted exactly if the queue runs and has room.
   */
  lemma SendsAreAnsweredExactly(ws: seq<World>, es: seq<Event>, i: nat)
    requires IsRun(ws, es) && i < |es|
    ensures es[i].SendChecks? ==>
      var w, e := ws[i], es[i];
      if 0 < |e.data| <= 262144 && e.hasData && w.race.connected
      then ws[i + 1] == w.(sends := w.sends[e.t := e.data])
      else ws[i + 1] == w
    ensures es[i].SendPushes? ==>
      var w, w', t := ws[i], ws[i + 1], es[i].t;
      && t in w.sends && w'.sends == w.sends - {t} && w'.sender == w.sender && w'.race == w.race
      && w'.history == (if w.queue.state == Running && |w.queue.items| < w.queue.capacity
                        then w.history.(accepted := w.history.accepted + [w.sends[t]]) else w.history)
      && exists error :: PushMeans(w.queue, w.sends[t], w'.queue, error)
  {
    RunSteps(ws, es, i);
    if es[i].SendPushes? {
      PushIsExact(ws[i].queue, ws[i].sends[es[i].t], es[i].woken);
      SendPush(ws[i], es[i].t, es[i].woken);
    }
  }

  lemma SendPush(w: World, t: ThreadId, woken: Option<ThreadId>)
    requires t in w.sends && (Appends(w.queue) ==> w.queue.notEmpty.CanNotifyOne(woken))
    ensures var w' := AfterSendPushes(w, t, woken);
      && w'.sends == w.sends - {t} && w'.sender == w.sender && w'.race == w.race
      && w'.history == (if w.queue.state == Running && |w.queue.items| < w.queue.capacity
                        then w.history.(accepted := w.history.accepted + [w.sends[t]]) else w.history)
      && PushMeans(w.queue, w.sends[t], w'.queue, PushSection(w.queue, w.sends[t], woken).1.error)
  {
    PushIsExact(w.queue, w.sends[t], woken);
  }

  /** Close enters the race with SHUTDOWN as its reason; Recv exactly on its two fatal answers, with that reason. */
  lemma CallersEnterTeardownExactly(ws: seq<World>, es: seq<Event>, i: nat)
    requires IsRun(ws, es) && i < |es|
    ensures es[i].CloseCalled? ==>
      ws[i + 1] == ws[i].(teardowns := ws[i].teardowns[es[i].t := Exchange(Disconnected)])
    ensures es[i].RecvCalled? ==>
      var w, e := ws[i], es[i];
      var usable := w.race.connected && w.race.fdOpen;
      if usable && (e.poll == HangUp || (e.poll == Ready && (e.got == EndOfStream || e.got == Reset)))
      then ws[i + 1] == w.(teardowns := w.teardowns[e.t := Exchange(PeerClosed)])
      else if usable && (e.poll == PollFailed || (e.poll == Ready && e.got == RecvError))
      then ws[i + 1] == w.(teardowns := w.teardowns[e.t := Exchange(ReceiveFailed)])
      else ws[i + 1] == w
  {
    RunSteps(ws, es, i);
    hide RecvSection;
    if es[i].RecvCalled? {
      var r := RecvSection(ws[i].race.connected, ws[i].race.fdOpen, es[i].poll, es[i].got);
    }
  }

  /**
   * The calls inside the race: the first exchange wins, and only the winner goes
   * on, by storing the stop, shutting the queue down, closing the descriptor and
   * publishing, in this order.
   */
  lemma TeardownStepsAreExact(ws: seq<World>, es: seq<Event>, i: nat)
    requires IsRun(ws, es) && i < |es| && es[i].TeardownSteps?
    ensures es[i].t in ws[i].teardowns
    ensures var w, w', t, race := ws[i], ws[i + 1], es[i].t, ws[i].race;
      match w.teardowns[t]
      case Exchange(reason) =>
        if race.connected
        then
          && w'.race == race.(connected := false, winner := Some(reason))
          && w'.teardowns == w.teardowns[t := StoreStop(reason)]
        else w'.race == race && w'.teardowns == w.teardowns - {t}
      case StoreStop(reason) =>
        w'.race == race.(stopRequested := true) && w'.teardowns == w.teardowns[t := CloseQueue(reason)]
      case CloseQueue(reason) =>
        && w'.race == race.(queueCloses := race.queueCloses + 1)
        && w'.teardowns == w.teardowns[t := CloseFd(reason)]
        && w'.queue.items == [] && w'.queue.state == Shutdown
      case CloseFd(reason) =>
        && !w'.race.fdOpen && w'.race.stopRequested == race.stopRequested
        && w'.teardowns == w.teardowns[t := Publish(reason)]
      case Publish(reason) =>
        w'.teardowns == w.teardowns - {t} && w'.race.winner == race.winner
    ensures ws[i + 1].sender == ws[i].sender && ws[i + 1].history.wire == ws[i].history.wire
    ensures ws[i + 1].history.accepted == ws[i].history.accepted
    ensures !ws[i].teardowns[es[i].t].CloseQueue? ==> ws[i + 1].queue == ws[i].queue
  {
    RunSteps(ws, es, i);
    RunKeepsInv(ws, es, i);
    hide IsRun, Flatten, Stream, TeardownInv;
  }

  // ---------------------------------------------------------------------------
  // The sender
  // ---------------------------------------------------------------------------

  /**
   * The sender gives the connection up exactly on four answers, with the reason
   * each stands for: a reset or broken pipe and a hang-up close the peer, any
   * other error of send or poll is a failed send. A slow peer is not an error.
   */
  lemma SenderAbortsExactlyOn(ws: seq<World>, es: seq<Event>, i: nat)
    requires IsRun(ws, es) && i < |es|
    ensures var w, w', e := ws[i], ws[i + 1], es[i];
      var gone := e == SenderWrites(PeerGone) || e == SenderPolls(HangUp);
      var failed := e == SenderWrites(OtherError) || e == SenderPolls(PollFailed);
      && (SENDER !in w.teardowns && SENDER in w'.teardowns <==> gone || failed)
      && (gone ==> w'.teardowns == w.teardowns[SENDER := Exchange(PeerClosed)])
      && (failed ==> w'.teardowns == w.teardowns[SENDER := Exchange(SendFailed)])
      && (gone || failed ==> w'.sender == Leaving(Rest(w.sender)) && w'.history == w.history)
  {
    RunSteps(ws, es, i);
    RunKeepsInv(ws, es, i);
    hide IsRun, TeardownInv;
    OnlyTheSenderAborts(ws[i], es[i]);
  }

  lemma OnlyTheSenderAborts(w: World, e: Event)
    requires StreamInv(w) && Enabled(w, e)
    ensures var w' := Step(w, e);
      var gone := e == SenderWrites(PeerGone) || e == SenderPolls(HangUp);
      var failed := e == SenderWrites(OtherError) || e == SenderPolls(PollFailed);
      && (SENDER !in w.teardowns && SENDER in w'.teardowns <==> gone || failed)
      && (gone ==> w'.teardowns == w.teardowns[SENDER := Exchange(PeerClosed)])
      && (failed ==> w'.teardowns == w.teardowns[SENDER := Exchange(SendFailed)])
      && (gone || failed ==> w'.sender == Leaving(Rest(w.sender)) && w'.history == w.history)
  {
    hide Flatten, Stream, PushSection, PopSection, RecvSection, ShutdownSection, CondVar.CanNotifyOne;
  }

  /** The sender's other steps: when it stops, what it takes from the queue, and what it writes. */
  lemma SenderStepsAreExact(ws: seq<World>, es: seq<Event>, i: nat)
    requires IsRun(ws, es) && i < |es|
    ensures es[i].SenderTop? ==> ws[i + 1] == ws[i].(sender := if ws[i].race.stopRequested then Gone else Popping)
    ensures es[i].SenderPops? ==>
      var w, w' := ws[i], ws[i + 1];
      && w'.race == w.race && w'.history == w.history && w'.teardowns == w.teardowns && w'.sends == w.sends
      && (w.queue.items != [] ==> w'.sender == AtWrite(w.queue.items[0]) && w'.queue.items == w.queue.items[1..])
      && (w.queue.items == [] ==>
            && w'.queue.items == []
            && (w'.sender == Popping <==> w.queue.state == Running && !es[i].expired)
            && (w'.sender == AtTop <==> w.queue.state == Running && es[i].expired)
            && (w'.sender == Gone <==> w.queue.state != Running))
    ensures es[i].SenderTests? ==>
      var w, w', rest := ws[i], ws[i + 1], Rest(ws[i].sender);
      && (rest == [] ==> w' == w.(sender := AtTop))
      && (rest != [] && !w.race.stopRequested ==> w' == w.(sender := Writing(rest)))
      && (rest != [] && w.race.stopRequested ==>
            w' == w.(sender := Gone, history := w.history.(lostChunk := rest)))
    ensures es[i].SenderWrites? && es[i].io.Wrote? ==>
      var w, w', rest, n := ws[i], ws[i + 1], Rest(ws[i].sender), es[i].io.count;
      n <= |rest| && w' == w.(sender := AtWrite(rest[n..]), history := w.history.(wire := w.history.wire + rest[..n]))
    ensures es[i] == SenderWrites(Interrupted) ==> ws[i + 1] == ws[i].(sender := AtWrite(Rest(ws[i].sender)))
    ensures es[i] == SenderWrites(WouldBlock) ==> ws[i + 1] == ws[i].(sender := Polling(Rest(ws[i].sender)))
    ensures es[i].SenderPolls? && es[i].poll in {Ready, PollTimedOut, PollInterrupted} ==>
      ws[i + 1] == ws[i].(sender := AtWrite(Rest(ws[i].sender)))
    ensures es[i].SenderStirs? ==>
      && ws[i + 1] == ws[i].(queue := ws[i + 1].queue) && ws[i + 1].queue.items == ws[i].queue.items
      && SENDER !in ws[i + 1].queue.notEmpty.asleep && SENDER in ws[i + 1].queue.notEmpty.stirred
    ensures es[i].SenderReturns? ==>
      ws[i + 1] == ws[i].(sender := Gone, history := ws[i].history.(lostChunk := Rest(ws[i].sender)))
  {
    RunSteps(ws, es, i);
    hide IsRun, Flatten, PopSection;
    if es[i].SenderPops? {
      PopIsExact(ws[i].queue, SENDER, es[i].expired, es[i].woken);
    }
  }

  // ---------------------------------------------------------------------------
  // Delivery
  // ---------------------------------------------------------------------------

  /** While the connection is up the sender is at work, with something left whenever it is past its test. */
  ghost predicate SenderInv(w: World) {
    && (w.race.connected ==> !w.sender.Gone?)
    && (w.sender.Writing? || w.sender.Polling? || w.sender.Leaving? ==> Rest(w.sender) != [])
  }

  lemma PopKeepsSender(w: World, expired: bool, woken: Option<ThreadId>)
    requires Inv(w) && SenderInv(w) && Enabled(w, SenderPops(expired, woken))
    ensures SenderInv(AfterSenderPops(w, expired, woken))
  {
    hide Flatten, Stream, PopSection, CondVar.CanNotifyOne;
    PopIsExact(w.queue, SENDER, expired, woken);
  }

  lemma StepKeepsSender(w: World, e: Event)
    requires Inv(w) && SenderInv(w) && Enabled(w, e)
    ensures SenderInv(Step(w, e))
  {
    hide Flatten, Stream, PushSection, RecvSection, ShutdownSection, CondVar.CanNotifyOne, AfterSenderPops;
    if e.SenderPops? {
      PopKeepsSender(w, e.expired, e.woken);
    }
  }

  lemma {:induction false} RunKeepsSender(ws: seq<World>, es: seq<Event>, i: nat)
    requires IsRun(ws, es) && i < |ws|
    ensures SenderInv(ws[i])
  {
    hide Inv, Enabled, Step;
    if i > 0 {
      RunKeepsSender(ws, es, i - 1);
      RunKeepsInv(ws, es, i - 1);
      RunSteps(ws, es, i - 1);
      StepKeepsSender(ws[i - 1], es[i - 1]);
    }
  }

  /** A connection that is up and whose sender has met no error. */
  ghost predicate Working(w: World) {
    Inv(w) && SenderInv(w) && w.race.connected && !w.sender.Leaving?
  }

  /** The same history of accepted chunks, and a sender that goes on working. */
  ghost predicate Onward(w: World, w': World) {
    Working(w') && w'.history.accepted == w.history.accepted
  }

  lemma Take(ws: seq<World>, es: seq<Event>, e: Event) returns (ws': seq<World>, es': seq<Event>)
    requires IsRun(ws, es) && Inv(ws[|es|]) && SenderInv(ws[|es|]) && Enabled(ws[|es|], e)
    ensures IsRun(ws', es') && |ws'| == |es'| + 1 && es' == es + [e] && ws'[0] == ws[0]
    ensures ws'[|es'|] == Step(ws[|es|], e) && Inv(ws'[|es'|]) && SenderInv(ws'[|es'|])
  {
    hide IsRun, Enabled, Step, Inv, SenderInv;
    ws', es' := Extend(ws, es, e);
    RunKeepsInv(ws', es', |es'|);
    RunKeepsSender(ws', es', |es'|);
  }

  /** The sender gets to the point of writing, if it has anything left to write. */
  lemma ReachWriting(ws: seq<World>, es: seq<Event>) returns (ws': seq<World>, es': seq<Event>)
    requires IsRun(ws, es) && |ws| == |es| + 1 && Working(ws[|es|])
    ensures IsRun(ws', es') && |ws'| == |es'| + 1 && es <= es' && ws'[0] == ws[0] && Onward(ws[|es|], ws'[|es'|])
    ensures !ws'[|es'|].sender.Polling? && (ws'[|es'|].sender.AtWrite? ==> Rest(ws'[|es'|].sender) == [])
    ensures ws'[|es'|].queue == ws[|es|].queue
  {
    ws', es' := ws, es;
    hide IsRun, StreamInv, Joins;
    if ws[|es|].sender.Polling? {
      ws', es' := Take(ws', es', SenderPolls(Ready));
    }
    if ws'[|es'|].sender.AtWrite? && Rest(ws'[|es'|].sender) != [] {
      ws', es' := Take(ws', es', SenderTests);
    }
  }

  /** The sender finishes the chunk it is at. */
  lemma FinishChunk(ws: seq<World>, es: seq<Event>) returns (ws': seq<World>, es': seq<Event>)
    requires IsRun(ws, es) && |ws| == |es| + 1 && Working(ws[|es|])
    ensures IsRun(ws', es') && |ws'| == |es'| + 1 && es <= es' && ws'[0] == ws[0] && Onward(ws[|es|], ws'[|es'|])
    ensures ws'[|es'|].sender.AtTop? || ws'[|es'|].sender.Popping?
    ensures ws'[|es'|].queue == ws[|es|].queue
  {
    hide IsRun, Inv;
    ws', es' := ReachWriting(ws, es);
    if ws'[|es'|].sender.Writing? {
      assert ws'[|es'|].race.fdOpen by { UpIsOpen(ws'[|es'|]); }
      ws', es' := Take(ws', es', SenderWrites(Wrote(|ws'[|es'|].sender.rest|)));
    }
    if ws'[|es'|].sender.AtWrite? {
      ws', es' := Take(ws', es', SenderTests);
    }
  }

  lemma UpIsOpen(w: World)
    requires Inv(w) && w.race.connected
    ensures w.race.fdOpen && !w.race.stopRequested
  {
  }

  /** And takes the next one from the queue. */
  lemma TakeChunk(ws: seq<World>, es: seq<Event>) returns (ws': seq<World>, es': seq<Event>)
    requires IsRun(ws, es) && |ws| == |es| + 1 && Working(ws[|es|]) && ws[|es|].queue.items != []
    requires ws[|es|].sender.AtTop? || ws[|es|].sender.Popping?
    ensures IsRun(ws', es') && |ws'| == |es'| + 1 && es <= es' && ws'[0] == ws[0] && Onward(ws[|es|], ws'[|es'|])
    ensures ws'[|es'|].queue.items == ws[|es|].queue.items[1..]
  {
    ws', es' := ws, es;
    hide IsRun, Flatten, Stream, PopSection;
    if ws'[|es'|].sender.AtTop? {
      ws', es' := Take(ws', es', SenderTop);
    }
    if SENDER in ws'[|es'|].queue.notEmpty.asleep {
      ws', es' := Take(ws', es', SenderStirs);
    }
    var q := ws'[|es'|].queue;
    var woken := SomeoneToNotify(q.notFull);
    PopIsExact(q, SENDER, false, woken);
    ws', es' := Take(ws', es', SenderPops(false, woken));
  }

  lemma SomeoneToNotify(cv: CondVar) returns (pick: Option<ThreadId>)
    ensures cv.CanNotifyOne(pick)
  {
    pick := None;
    if cv.asleep != {} {
      var t :| t in cv.asleep;
      pick := Some(t);
    }
  }

  lemma {:induction false} DeliverAll(ws: seq<World>, es: seq<Event>) returns (ws': seq<World>, es': seq<Event>)
    requires IsRun(ws, es) && |ws| == |es| + 1 && Working(ws[|es|])
    ensures IsRun(ws', es') && |ws'| == |es'| + 1 && es <= es' && ws'[0] == ws[0] && Onward(ws[|es|], ws'[|es'|])
    ensures ws'[|es'|].queue.items == [] && Rest(ws'[|es'|].sender) == []
    decreases |ws[|es|].queue.items|
  {
    hide IsRun, Working;
    ws', es' := FinishChunk(ws, es);
    if ws'[|es'|].queue.items != [] {
      ws', es' := TakeChunk(ws', es');
      ws', es' := DeliverAll(ws', es');
    }
  }

  /** A run that goes on from state `k`, accepting nothing more, and has put all that was accepted on the wire. */
  ghost predicate Delivers(ws: seq<World>, es: seq<Event>, k: nat, ws': seq<World>, es': seq<Event>)
    requires k < |ws| && k <= |es|
  {
    && IsRun(ws', es') && ws'[0] == ws[0] && es[..k] <= es'
    && ws'[|es'|].history.accepted == ws[k].history.accepted
    && ws'[|es'|].history.wire == Flatten(ws[k].history.accepted)
  }

  /**
   * As long as the connection is up, all that Send has accepted can still reach
   * the wire if and only if the sender has not met an error.
   */
  lemma DeliverableUnlessTheSenderFailed(ws: seq<World>, es: seq<Event>, k: nat)
    requires IsRun(ws, es) && k < |ws| && ws[k].race.connected
    ensures (exists ws', es' :: Delivers(ws, es, k, ws', es')) <==> !ws[k].sender.Leaving?
  {
    RunKeepsSender(ws, es, k);
    RunKeepsInv(ws, es, k);
    if ws[k].sender.Leaving? {
      forall ws', es' | Delivers(ws, es, k, ws', es') ensures false {
        LeavingDeliversNothing(ws, es, k, ws', es');
      }
    } else {
      var ws', es' := Delivery(ws, es, k);
    }
  }

  lemma Delivery(ws: seq<World>, es: seq<Event>, k: nat) returns (ws': seq<World>, es': seq<Event>)
    requires IsRun(ws, es) && k < |ws| && Working(ws[k])
    ensures Delivers(ws, es, k, ws', es')
  {
    Prefix(ws, es, k);
    hide Flatten, Working;
    ws', es' := DeliverAll(ws[..k + 1], es[..k]);
    assert ws'[|es'|].race.connected by { WorkingIsUp(ws'[|es'|]); }
    WireIsAPrefixOfWhatWasAccepted(ws', es', |es'|);
    assert Flatten([]) == [] by { NothingToFlatten(); }
  }

  lemma WorkingIsUp(w: World)
    requires Working(w)
    ensures w.race.connected
  {
  }

  /** A sender on its way out writes nothing more. */
  lemma StepAfterError(w: World, e: Event)
    requires Enabled(w, e) && (w.sender.Leaving? || w.sender.Gone?)
    ensures var w' := Step(w, e); (w'.sender.Leaving? || w'.sender.Gone?) && w'.history.wire == w.history.wire
  {
    hide Flatten, PushSection, PopSection, RecvSection, ShutdownSection;
  }

  lemma {:induction false} SilentAfterError(ws: seq<World>, es: seq<Event>, i: nat, j: nat)
    requires IsRun(ws, es) && i <= j < |ws| && (ws[i].sender.Leaving? || ws[i].sender.Gone?)
    ensures (ws[j].sender.Leaving? || ws[j].sender.Gone?) && ws[j].history.wire == ws[i].history.wire
    decreases j
  {
    hide IsRun, Enabled, Step;
    if i < j {
      SilentAfterError(ws, es, i, j - 1);
      RunSteps(ws, es, j - 1);
      StepAfterError(ws[j - 1], es[j - 1]);
    }
  }

  lemma LeavingDeliversNothing(ws: seq<World>, es: seq<Event>, k: nat, ws': seq<World>, es': seq<Event>)
    requires IsRun(ws, es) && k < |ws| && ws[k].race.connected && Delivers(ws, es, k, ws', es')
    ensures !ws[k].sender.Leaving?
  {
    hide Flatten;
    RunKeepsSender(ws, es, k);
    SameBeginning(ws, es, ws', es', k);
    WireIsAPrefixOfWhatWasAccepted(ws, es, k);
    if ws[k].sender.Leaving? {
      SilentAfterError(ws', es', k, |es'|);
    }
  }
}
