/**
 * How a connection ends: whether its disconnect event is published, and which
 * accepted bytes a Close may lose.
 */
module ConnectionEnds {
  import opened Basics
  import opened BoundedQueue
  import opened NetworkConnection
  import opened ConnectionRuns

  // ---------------------------------------------------------------------------
  // The event
  // ---------------------------------------------------------------------------

  /** The last step of the Teardown that won: it publishes, unless it is rejected. */
  ghost predicate Ends(w: World, e: Event) {
    e.TeardownSteps? && e.t in w.teardowns && w.teardowns[e.t].Publish?
  }

  ghost predicate IsDown(w: World) {
    !w.race.connected && NoneActive(w)
  }

  /** What a step does to the event: the ending step decides it, and every other leaves it alone. */
  ghost predicate EventEffect(w: World, e: Event, w': World) {
    && (IsDown(w') <==> IsDown(w) || Ends(w, e))
    && !(IsDown(w) && Ends(w, e))
    && w'.race.serverSide == w.race.serverSide
    && (Ends(w, e) ==>
          && w'.race.winner.Some? && w.race.published == []
          && w'.race.published == if w.race.serverSide && !e.rejected then [w'.race.winner.value] else [])
    && (!Ends(w, e) ==> w'.race.published == w.race.published)
    && (!w.race.connected ==> w'.race.winner == w.race.winner)
  }

  lemma OthersLeaveTheEvent(w: World, w': World, e: Event)
    requires TeardownInv(w) && !Ends(w, e) && w'.race == w.race && Joins(w, w')
    ensures EventEffect(w, e, w')
  {
    if !NoneActive(w) {
      var u :| u in w.teardowns && !w.teardowns[u].Exchange?;
      assert u in w'.teardowns && w'.teardowns[u] == w.teardowns[u];
    }
  }

  lemma TeardownDecidesTheEvent(w: World, t: ThreadId, rejected: bool)
    requires TeardownInv(w) && t in w.teardowns
    ensures EventEffect(w, TeardownSteps(t, rejected), AfterTeardown(w, t, rejected))
  {
    hide Flatten, ShutdownSection;
    var w' := AfterTeardown(w, t, rejected);
    if !w.teardowns[t].Exchange? {
      var u :| OnlyActive(w, u) && Reached(w, w.teardowns[u]);
      assert u == t;
      assert w.teardowns[t].Publish? || !w'.teardowns[t].Exchange?;
    } else if !NoneActive(w) {
      var u :| OnlyActive(w, u) && Reached(w, w.teardowns[u]);
      assert u != t && u in w'.teardowns && !w'.teardowns[u].Exchange?;
    } else if w.race.connected {
      assert t in w'.teardowns && !w'.teardowns[t].Exchange?;
    }
  }

  lemma StepOnEvent(w: World, e: Event)
    requires Inv(w) && Enabled(w, e)
    ensures EventEffect(w, e, Step(w, e))
  {
    hide Inv, TeardownInv, AfterTeardown, EventEffect, Joins;
    InvParts(w);
    if e.TeardownSteps? {
      TeardownDecidesTheEvent(w, e.t, e.rejected);
    } else {
      OthersJoin(w, e);
      OthersLeaveTheEvent(w, Step(w, e), e);
    }
  }

  /** In a state that is down, the ending step and what it decided. */
  ghost predicate Decided(ws: seq<World>, es: seq<Event>, i: nat, k: nat)
    requires i < |ws|
  {
    && k < i && k < |es| && Ends(ws[k], es[k]) && ws[i].race.winner.Some?
    && ws[i].race.published ==
         if ws[i].race.serverSide && !es[k].rejected then [ws[i].race.winner.value] else []
  }

  /**
   * When the disconnect event is published. On a connection that is down with
   * no winning call under way, exactly one earlier step ended the teardown; the
   * event of the winner has been published if the connection is server-side and
   * that step was not rejected, and otherwise nothing has and nothing will be.
   */
  lemma {:induction false} EventIsPublishedUnlessRejected(ws: seq<World>, es: seq<Event>, i: nat) returns (k: nat)
    requires IsRun(ws, es) && i < |ws| && IsDown(ws[i])
    ensures Decided(ws, es, i, k)
    ensures forall n | 0 <= n < |es| && n < |ws| && n != k :: !Ends(ws[n], es[n])
  {
    k := EndOf(ws, es, i);
    forall n | 0 <= n < |es| && n < |ws| && n != k ensures !Ends(ws[n], es[n]) {
      if n < k {
        OnlyOneEnd(ws, es, n, k);
      } else {
        OnlyOneEnd(ws, es, k, n);
      }
    }
  }

  lemma {:induction false} EndOf(ws: seq<World>, es: seq<Event>, i: nat) returns (k: nat)
    requires IsRun(ws, es) && i < |ws| && IsDown(ws[i])
    ensures Decided(ws, es, i, k)
  {
    hide Inv, Enabled, Step, Ends;
    assert i > 0;
    RunSteps(ws, es, i - 1);
    RunKeepsInv(ws, es, i - 1);
    StepOnEvent(ws[i - 1], es[i - 1]);
    if IsDown(ws[i - 1]) {
      k := EndOf(ws, es, i - 1);
    } else {
      k := i - 1;
    }
  }

  lemma {:induction false} StaysDown(ws: seq<World>, es: seq<Event>, i: nat, j: nat)
    requires IsRun(ws, es) && i <= j < |ws| && IsDown(ws[i])
    ensures IsDown(ws[j])
    decreases j
  {
    hide IsRun, Inv, Enabled, Step, IsDown, Ends;
    if i < j {
      StaysDown(ws, es, i, j - 1);
      RunSteps(ws, es, j - 1);
      RunKeepsInv(ws, es, j - 1);
      StepOnEvent(ws[j - 1], es[j - 1]);
    }
  }

  lemma OnlyOneEnd(ws: seq<World>, es: seq<Event>, i: nat, j: nat)
    requires IsRun(ws, es) && i < j < |es| && j < |ws|
    ensures !(Ends(ws[i], es[i]) && Ends(ws[j], es[j]))
  {
    hide Inv, Enabled, Step, IsDown, Ends;
    RunSteps(ws, es, i);
    RunKeepsInv(ws, es, i);
    StepOnEvent(ws[i], es[i]);
    if Ends(ws[i], es[i]) {
      StaysDown(ws, es, i + 1, j);
      RunSteps(ws, es, j);
      RunKeepsInv(ws, es, j);
      StepOnEvent(ws[j], es[j]);
    }
  }

  // ---------------------------------------------------------------------------
  // What a Close may lose
  // ---------------------------------------------------------------------------

  lemma Extend(ws: seq<World>, es: seq<Event>, e: Event) returns (ws': seq<World>, es': seq<Event>)
    requires IsRun(ws, es) && Enabled(ws[|es|], e)
    ensures IsRun(ws', es') && |ws'| == |es'| + 1 && es' == es + [e] && ws'[|es'|] == Step(ws[|es|], e)
    ensures ws'[0] == ws[0]
  {
    hide Enabled, Step;
    es' := es + [e];
    ws' := ws + [Step(ws[|es|], e)];
    forall i | 0 <= i < |es'| ensures Enabled(ws'[i], es'[i]) && ws'[i + 1] == Step(ws'[i], es'[i]) {
      if i < |es| {
        assert ws'[i] == ws[i] && es'[i] == es[i] && ws'[i + 1] == ws[i + 1];
      }
    }
  }

  lemma Prefix(ws: seq<World>, es: seq<Event>, n: nat)
    requires IsRun(ws, es) && n <= |es|
    ensures |ws| == |es| + 1 && IsRun(ws[..n + 1], es[..n])
  {
    hide Enabled, Step;
  }

  lemma {:induction false} SameBeginning(ws: seq<World>, es: seq<Event>, ws': seq<World>, es': seq<Event>, n: nat)
    requires IsRun(ws, es) && IsRun(ws', es') && ws'[0] == ws[0] && n <= |es| && es[..n] <= es'
    ensures ws'[n] == ws[n]
  {
    hide Enabled, Step;
    if n > 0 {
      assert es[..n - 1] <= es' && es'[n - 1] == es[n - 1];
      SameBeginning(ws, es, ws', es', n - 1);
      assert ws[n] == Step(ws[n - 1], es[n - 1]) && ws'[n] == Step(ws'[n - 1], es'[n - 1]);
    }
  }

  /** The wire only grows, and once the descriptor is closed it does not. */
  lemma StepOnWire(w: World, e: Event)
    requires Enabled(w, e)
    ensures w.history.wire <= Step(w, e).history.wire
    ensures !w.race.fdOpen ==> !Step(w, e).race.fdOpen && Step(w, e).history.wire == w.history.wire
  {
    hide Flatten, PushSection, PopSection, RecvSection, ShutdownSection;
  }

  lemma {:induction false} WireOnlyGrows(ws: seq<World>, es: seq<Event>, i: nat, j: nat)
    requires IsRun(ws, es) && i <= j < |ws|
    ensures ws[i].history.wire <= ws[j].history.wire
    ensures !ws[i].race.fdOpen ==> !ws[j].race.fdOpen && ws[j].history.wire == ws[i].history.wire
    decreases j
  {
    hide IsRun, Enabled, Step;
    if i < j {
      WireOnlyGrows(ws, es, i, j - 1);
      RunSteps(ws, es, j - 1);
      StepOnWire(ws[j - 1], es[j - 1]);
    }
  }

  /** However the run goes on, nothing more reaches the wire. */
  ghost predicate Frozen(ws: seq<World>, es: seq<Event>)
    requires |ws| == |es| + 1
  {
    forall ws': seq<World>, es': seq<Event> | IsRun(ws', es') && ws'[0] == ws[0] && es <= es' ::
      ws'[|es'|].history.wire == ws[|es|].history.wire
  }

  /**
   * A run that goes on from state `k` without accepting anything more, and ends
   * with the wire frozen short of what Send has accepted.
   */
  ghost predicate Loses(ws: seq<World>, es: seq<Event>, k: nat, ws': seq<World>, es': seq<Event>)
    requires k < |ws| && k <= |es|
  {
    && IsRun(ws', es') && ws'[0] == ws[0] && es[..k] <= es'
    && ws'[|es'|].history.accepted == ws[k].history.accepted
    && Frozen(ws', es') && ws'[|es'|].history.wire != Flatten(ws'[|es'|].history.accepted)
  }

  lemma ClosedIsFrozen(ws: seq<World>, es: seq<Event>)
    requires IsRun(ws, es) && !ws[|es|].race.fdOpen
    ensures Frozen(ws, es)
  {
    forall ws': seq<World>, es': seq<Event> | IsRun(ws', es') && ws'[0] == ws[0] && es <= es'
      ensures ws'[|es'|].history.wire == ws[|es|].history.wire
    {
      assert es[..|es|] == es;
      SameBeginning(ws, es, ws', es', |es|);
      WireOnlyGrows(ws', es', |es|, |es'|);
    }
  }

  /** Close, called and carried out at once, as far as the closing of the descriptor. */
  lemma CloseNow(ws: seq<World>, es: seq<Event>) returns (ws': seq<World>, es': seq<Event>)
    requires IsRun(ws, es) && ws[|es|].race.connected && ws[|es|].race.fdOpen
    ensures IsRun(ws', es') && |ws'| == |es'| + 1 && ws'[0] == ws[0] && es <= es' && !ws'[|es'|].race.fdOpen
    ensures ws'[|es'|].history.wire == ws[|es|].history.wire
    ensures ws'[|es'|].history.accepted == ws[|es|].history.accepted
  {
    hide IsRun, Flatten, ShutdownSection;
    assert |ws| == |es| + 1 by { Prefix(ws, es, |es|); }
    var u := SomeoneElse(ws[|es|].teardowns.Keys);
    var t := u + 1;
    ws', es' := Extend(ws, es, CloseCalled(t));
    ws', es' := Extend(ws', es', TeardownSteps(t, false));
    ws', es' := Extend(ws', es', TeardownSteps(t, false));
    ws', es' := Extend(ws', es', TeardownSteps(t, false));
    ws', es' := Extend(ws', es', TeardownSteps(t, false));
  }

  /**
   * Teardown does not drain. From a connected state of any run, some
   * continuation in which nothing more is accepted leaves the wire, for good,
   * without all that Send has accepted if and only if the wire does not hold
   * all of it already.
   */
  lemma CloseLosesWhatIsNotOnTheWire(ws: seq<World>, es: seq<Event>, k: nat)
    requires IsRun(ws, es) && k < |ws| && ws[k].race.connected
    ensures (exists ws', es' :: Loses(ws, es, k, ws', es')) <==>
      ws[k].history.wire != Flatten(ws[k].history.accepted)
  {
    if ws[k].history.wire != Flatten(ws[k].history.accepted) {
      var ws', es' := LossyClose(ws, es, k);
    } else {
      forall ws', es' | Loses(ws, es, k, ws', es') ensures false {
        NothingToLose(ws, es, k, ws', es');
      }
    }
  }

  lemma LossyClose(ws: seq<World>, es: seq<Event>, k: nat) returns (ws': seq<World>, es': seq<Event>)
    requires IsRun(ws, es) && k < |ws| && ws[k].race.connected
    requires ws[k].history.wire != Flatten(ws[k].history.accepted)
    ensures Loses(ws, es, k, ws', es')
  {
    Prefix(ws, es, k);
    RunKeepsInv(ws, es, k);
    hide Flatten, Stream, StreamInv;
    ws', es' := CloseNow(ws[..k + 1], es[..k]);
    ClosedIsFrozen(ws', es');
  }

  lemma NothingToLose(ws: seq<World>, es: seq<Event>, k: nat, ws': seq<World>, es': seq<Event>)
    requires IsRun(ws, es) && k < |ws| && Loses(ws, es, k, ws', es')
    ensures ws[k].history.wire != Flatten(ws[k].history.accepted)
  {
    hide Flatten, Frozen;
    SameBeginning(ws, es, ws', es', k);
    WireOnlyGrows(ws', es', k, |es'|);
    WireIsAPrefixOfWhatWasAccepted(ws', es', |es'|);
  }
}
