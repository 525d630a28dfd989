/**
 * Every interleaving of threads that publish events and of whoever creates,
 * moves, cancels and destroys subscriptions meanwhile, callbacks included.
 *
 * A step is one action on the registry and its handles, the snapshot of one
 * Publish, or the start or return of one callback. A callback that throws
 * returns like any other.
 */
module EventRuns {
  import opened Basics
  import opened EventRegistry

  type ThreadId = nat

  type PubId = nat

  /** A Publish in progress: its snapshot and how many callbacks it has started. */
  datatype Dispatch = Dispatch(pub: PubId, started: nat, inCall: bool)

  /** What is known of a Publish call: nested calls are rejected. */
  datatype Publication = Publication(tag: TypeTag, nested: bool, snapshot: seq<SubId>, returned: bool)

  datatype World = World(
    bus: Bus,
    dispatching: set<ThreadId>,          // the threads whose thread-local flag is set
    active: map<ThreadId, Dispatch>,
    pubs: map<PubId, Publication>,
    calls: seq<(PubId, SubId)>)

  datatype Event =
    | Handles(action: Action)
    | PublishCalled(t: ThreadId, pub: PubId, tag: TypeTag)
    | CallStarts(t: ThreadId)
    | CallReturns(t: ThreadId)
    | PublishReturns(t: ThreadId)

  const IDLE_BUS := World(NEW_BUS, {}, map[], map[], [])

  ghost predicate Enabled(w: World, e: Event) {
    match e
    case Handles(action) => CanAct(w.bus, action)
    case PublishCalled(t, pub, tag) => w.bus.alive && pub !in w.pubs && (t in w.active ==> w.active[t].inCall)
    case CallStarts(t) =>
      && t in w.active && !w.active[t].inCall && w.active[t].pub in w.pubs
      && w.active[t].started < |w.pubs[w.active[t].pub].snapshot|
    case CallReturns(t) => t in w.active && w.active[t].inCall
    case PublishReturns(t) =>
      && t in w.active && !w.active[t].inCall && w.active[t].pub in w.pubs
      && w.active[t].started == |w.pubs[w.active[t].pub].snapshot|
  }

  /** The flag test, and, if it passes, the snapshot; with no list for the type, Publish returns at once. */
  function AfterPublishCalled(w: World, t: ThreadId, pub: PubId, tag: TypeTag): World {
    if t in w.dispatching then w.(pubs := w.pubs[pub := Publication(tag, true, [], true)])
    else if tag !in w.bus.registry.subs then w.(pubs := w.pubs[pub := Publication(tag, false, [], true)])
    else
      w.(pubs := w.pubs[pub := Publication(tag, false, w.bus.registry.subs[tag], false)],
         active := w.active[t := Dispatch(pub, 0, false)],
         dispatching := w.dispatching + {t})
  }

  ghost function Step(w: World, e: Event): World
    requires Enabled(w, e)
  {
    match e
    case Handles(action) => w.(bus := Act(w.bus, action))
    case PublishCalled(t, pub, tag) => AfterPublishCalled(w, t, pub, tag)
    case CallStarts(t) =>
      var d := w.active[t];
      w.(active := w.active[t := Dispatch(d.pub, d.started + 1, true)],
         calls := w.calls + [(d.pub, w.pubs[d.pub].snapshot[d.started])])
    case CallReturns(t) => w.(active := w.active[t := w.active[t].(inCall := false)])
    case PublishReturns(t) =>
      var d := w.active[t];
      w.(active := w.active - {t}, dispatching := w.dispatching - {t},
         pubs := w.pubs[d.pub := w.pubs[d.pub].(returned := true)])
  }

  ghost predicate IsRun(ws: seq<World>, es: seq<Event>) {
    && |ws| == |es| + 1
    && ws[0] == IDLE_BUS
    && forall i | 0 <= i < |es| :: Enabled(ws[i], es[i]) && ws[i + 1] == Step(ws[i], es[i])
  }

  lemma RunSteps(ws: seq<World>, es: seq<Event>, i: nat)
    requires IsRun(ws, es) && i + 1 < |ws|
    ensures i < |es| && Enabled(ws[i], es[i]) && ws[i + 1] == Step(ws[i], es[i])
  {
  }

  // ---------------------------------------------------------------------------
  // The invariant
  // ---------------------------------------------------------------------------

  /** The subscribers called so far on behalf of one Publish, in order. */
  ghost function CalledFor(calls: seq<(PubId, SubId)>, pub: PubId): seq<SubId> {
    if calls == [] then []
    else
      var last := calls[|calls| - 1];
      CalledFor(calls[..|calls| - 1], pub) + (if last.0 == pub then [last.1] else [])
  }

  lemma CalledForAppend(calls: seq<(PubId, SubId)>, c: (PubId, SubId), pub: PubId)
    ensures CalledFor(calls + [c], pub) == CalledFor(calls, pub) + (if c.0 == pub then [c.1] else [])
  {
    assert (calls + [c])[..|calls|] == calls;
  }

  lemma {:induction false} NeverCalled(calls: seq<(PubId, SubId)>, pub: PubId)
    requires forall c | c in calls :: c.0 != pub
    ensures CalledFor(calls, pub) == []
  {
    if calls != [] {
      assert calls[|calls| - 1] in calls;
      assert forall c | c in calls[..|calls| - 1] :: c in calls;
      NeverCalled(calls[..|calls| - 1], pub);
    }
  }

  ghost predicate ActiveInv(w: World) {
    && (forall t :: t in w.dispatching <==> t in w.active)
    && (forall t | t in w.active ::
          w.active[t].pub in w.pubs && !w.pubs[w.active[t].pub].returned && !w.pubs[w.active[t].pub].nested
          && w.active[t].started <= |w.pubs[w.active[t].pub].snapshot|)
    && (forall t, u | t in w.active && u in w.active && t != u :: w.active[t].pub != w.active[u].pub)
    && (forall c | c in w.calls :: c.0 in w.pubs)
  }

  /** What a Publish has delivered: all of its snapshot once it has returned, nothing if it was nested. */
  ghost predicate DeliveredInv(w: World) {
    && (forall p | p in w.pubs && w.pubs[p].returned :: CalledFor(w.calls, p) == w.pubs[p].snapshot)
    && (forall p | p in w.pubs && w.pubs[p].nested :: w.pubs[p].returned && w.pubs[p].snapshot == [])
    && (forall t | t in w.active && w.active[t].pub in w.pubs ::
          && w.active[t].started <= |w.pubs[w.active[t].pub].snapshot|
          && CalledFor(w.calls, w.active[t].pub) == w.pubs[w.active[t].pub].snapshot[..w.active[t].started])
  }

  ghost predicate Inv(w: World) {
    BusInv(w.bus) && ActiveInv(w) && DeliveredInv(w)
  }

  lemma PublishCalledKeepsDelivered(w: World, t: ThreadId, pub: PubId, tag: TypeTag)
    requires ActiveInv(w) && DeliveredInv(w) && Enabled(w, PublishCalled(t, pub, tag))
    ensures DeliveredInv(AfterPublishCalled(w, t, pub, tag))
  {
    hide CalledFor, Act, CanAct;
    NeverCalled(w.calls, pub);
  }

  lemma CallStartsKeepsDelivered(w: World, t: ThreadId)
    requires ActiveInv(w) && DeliveredInv(w) && Enabled(w, CallStarts(t))
    ensures DeliveredInv(Step(w, CallStarts(t)))
  {
    hide CalledFor;
    var d := w.active[t];
    var snapshot := w.pubs[d.pub].snapshot;
    var c := (d.pub, snapshot[d.started]);
    forall p ensures CalledFor(w.calls + [c], p) == CalledFor(w.calls, p) + (if p == d.pub then [c.1] else []) {
      CalledForAppend(w.calls, c, p);
    }
    assert snapshot[..d.started + 1] == snapshot[..d.started] + [snapshot[d.started]];
  }

  lemma PublishReturnsKeepsDelivered(w: World, t: ThreadId)
    requires ActiveInv(w) && DeliveredInv(w) && Enabled(w, PublishReturns(t))
    ensures DeliveredInv(Step(w, PublishReturns(t)))
  {
    hide CalledFor;
    var snapshot := w.pubs[w.active[t].pub].snapshot;
    assert snapshot[..|snapshot|] == snapshot;
  }

  lemma StepKeepsInv(w: World, e: Event)
    requires Inv(w) && Enabled(w, e)
    ensures Inv(Step(w, e))
  {
    hide BusInv, ActiveInv, DeliveredInv, Act, CanAct, AfterPublishCalled;
    StepKeepsActive(w, e);
    match e
    case Handles(action) =>
      ActKeepsBus(w.bus, action);
      UnrelatedKeepsDelivered(w, e);
    case PublishCalled(t, pub, tag) =>
      PublishCalledKeepsDelivered(w, t, pub, tag);
      SameBus(w, t, pub, tag);
    case CallStarts(t) => CallStartsKeepsDelivered(w, t);
    case CallReturns(t) => UnrelatedKeepsDelivered(w, e);
    case PublishReturns(t) => PublishReturnsKeepsDelivered(w, t);
  }

  lemma SameBus(w: World, t: ThreadId, pub: PubId, tag: TypeTag)
    ensures AfterPublishCalled(w, t, pub, tag).bus == w.bus
  {
  }

  lemma UnrelatedKeepsDelivered(w: World, e: Event)
    requires ActiveInv(w) && DeliveredInv(w) && Enabled(w, e) && (e.Handles? || e.CallReturns?)
    ensures DeliveredInv(Step(w, e))
  {
    hide CalledFor, Act, CanAct;
  }

  lemma StepKeepsActive(w: World, e: Event)
    requires ActiveInv(w) && Enabled(w, e)
    ensures ActiveInv(Step(w, e))
  {
    hide Act, CanAct, AfterPublishCalled;
    if e.PublishCalled? {
      PublishCalledKeepsActive(w, e.t, e.pub, e.tag);
    }
  }

  lemma PublishCalledKeepsActive(w: World, t: ThreadId, pub: PubId, tag: TypeTag)
    requires ActiveInv(w) && Enabled(w, PublishCalled(t, pub, tag))
    ensures ActiveInv(AfterPublishCalled(w, t, pub, tag))
  {
    hide Act, CanAct;
  }

  lemma StartInv()
    ensures Inv(IDLE_BUS)
  {
    assert Sum(map[]) == 0;
    assert ValidHandles(NEW_BUS) == {};
  }

  lemma {:induction false} RunKeepsInv(ws: seq<World>, es: seq<Event>, i: nat)
    requires IsRun(ws, es) && i < |ws|
    ensures Inv(ws[i])
  {
    hide Inv, Enabled, Step, ActiveInv;
    if i > 0 {
      RunKeepsInv(ws, es, i - 1);
      RunSteps(ws, es, i - 1);
      StepKeepsInv(ws[i - 1], es[i - 1]);
    } else {
      StartInv();
    }
  }

  // ---------------------------------------------------------------------------
  // What it means for whole runs
  // ---------------------------------------------------------------------------

  /**
   * Registry and handles agree. While the bus lives, the cached total is the sum
   * of the lengths of all lists and the number of valid handles, and at most
   * 128; each list is strictly increasing by id; every registered id belongs to
   * exactly one valid handle, and every valid handle to a registered id.
   */
  lemma RegistryAgreesWithHandles(ws: seq<World>, es: seq<Event>, i: nat)
    requires IsRun(ws, es) && i < |ws| && ws[i].bus.alive
    ensures var b := ws[i].bus;
      && b.registry.total == Sum(b.registry.subs) == |ValidHandles(b)| <= 128
      && (forall tag | tag in b.registry.subs :: Increasing(b.registry.subs[tag]))
    ensures var b := ws[i].bus;
      && (forall h | IsValid(b, h) :: Registered(b.registry, b.handles[h].id))
      && (forall id | Registered(b.registry, id) :: exists h :: IsValid(b, h) && b.handles[h].id == id)
      && (forall h, g | IsValid(b, h) && IsValid(b, g) && b.handles[h].id == b.handles[g].id :: h == g)
  {
    RunKeepsInv(ws, es, i);
    hide IsRun, Sum, ActiveInv, DeliveredInv;
    var b := ws[i].bus;
    forall id | Registered(b.registry, id) ensures exists h :: IsValid(b, h) && b.handles[h].id == id {
      assert Owned(b, id);
    }
  }

  lemma StepKeepsPublication(w: World, e: Event, p: PubId)
    requires Enabled(w, e) && p in w.pubs
    ensures p in Step(w, e).pubs && Step(w, e).pubs[p].snapshot == w.pubs[p].snapshot
    ensures Step(w, e).pubs[p].nested == w.pubs[p].nested && Step(w, e).pubs[p].tag == w.pubs[p].tag
  {
    hide Act, CanAct;
  }

  lemma {:induction false} PublicationIsFixed(ws: seq<World>, es: seq<Event>, i: nat, j: nat, p: PubId)
    requires IsRun(ws, es) && i <= j < |ws| && p in ws[i].pubs
    ensures p in ws[j].pubs && ws[j].pubs[p].snapshot == ws[i].pubs[p].snapshot
    ensures ws[j].pubs[p].nested == ws[i].pubs[p].nested
    decreases j
  {
    hide IsRun, Enabled, Step;
    if i < j {
      PublicationIsFixed(ws, es, i, j - 1, p);
      RunSteps(ws, es, j - 1);
      StepKeepsPublication(ws[j - 1], es[j - 1], p);
    }
  }

  /**
   * Dispatch is a snapshot. A Publish that finds its thread's flag clear calls,
   * once each and in subscription order, exactly the subscribers its type had
   * when it was called, whatever callbacks and other threads do meanwhile; one
   * that finds the flag set calls nobody.
   */
  lemma DispatchIsASnapshot(ws: seq<World>, es: seq<Event>, i: nat, j: nat)
    requires IsRun(ws, es) && i < |es| && es[i].PublishCalled? && i < j < |ws|
    ensures es[i].pub in ws[j].pubs
    ensures ws[j].pubs[es[i].pub].returned ==>
      CalledFor(ws[j].calls, es[i].pub)
        == if es[i].t in ws[i].dispatching then [] else Subscribers(ws[i].bus.registry, es[i].tag)
  {
    RunSteps(ws, es, i);
    RunKeepsInv(ws, es, j);
    var p := es[i].pub;
    assert p in ws[i + 1].pubs && ws[i + 1].pubs[p].snapshot
      == if es[i].t in ws[i].dispatching then [] else Subscribers(ws[i].bus.registry, es[i].tag);
    PublicationIsFixed(ws, es, i + 1, j, p);
  }

  /** A thread's flag is set exactly while it is dispatching, so it is clear again once Publish returns. */
  lemma FlagMeansDispatching(ws: seq<World>, es: seq<Event>, i: nat, t: ThreadId)
    requires IsRun(ws, es) && i < |ws|
    ensures t in ws[i].dispatching <==> t in ws[i].active
    ensures i > 0 && es[i - 1] == PublishReturns(t) ==> t !in ws[i].dispatching
  {
    RunKeepsInv(ws, es, i);
    if i > 0 {
      RunSteps(ws, es, i - 1);
    }
  }

  /**
   * A Publish, when it is called: rejected exactly if its thread is dispatching,
   * over at once exactly if it is rejected or its type has never had a
   * subscriber, and otherwise dispatching what its type has then.
   */
  lemma PublishesAreAnsweredExactly(ws: seq<World>, es: seq<Event>, i: nat)
    requires IsRun(ws, es) && i < |es| && es[i].PublishCalled?
    ensures es[i].pub in ws[i + 1].pubs
    ensures var w, w', t := ws[i], ws[i + 1], es[i].t;
      var p, subs := w'.pubs[es[i].pub], w.bus.registry.subs;
      && p.tag == es[i].tag && w'.bus == w.bus && w'.calls == w.calls
      && (p.nested <==> t in w.dispatching)
      && (p.returned <==> t in w.dispatching || es[i].tag !in subs)
      && (p.returned ==> p.snapshot == [] && w'.active == w.active && w'.dispatching == w.dispatching)
      && (!p.returned ==>
            && p.snapshot == subs[es[i].tag] && w'.dispatching == w.dispatching + {t}
            && w'.active == w.active[t := Dispatch(es[i].pub, 0, false)])
  {
    RunSteps(ws, es, i);
  }

  /** And its calls: the next of its snapshot each time, one at a time, until all have been made. */
  lemma CallsAreMadeExactly(ws: seq<World>, es: seq<Event>, i: nat)
    requires IsRun(ws, es) && i < |es|
    ensures es[i].CallStarts? ==>
      var w, w', t := ws[i], ws[i + 1], es[i].t;
      && t in w.active && w.active[t].pub in w.pubs && w.active[t].started < |w.pubs[w.active[t].pub].snapshot|
      && var d := w.active[t];
         w' == w.(active := w.active[t := Dispatch(d.pub, d.started + 1, true)],
                  calls := w.calls + [(d.pub, w.pubs[d.pub].snapshot[d.started])])
    ensures es[i].CallReturns? ==>
      var w, t := ws[i], es[i].t;
      t in w.active && ws[i + 1] == w.(active := w.active[t := Dispatch(w.active[t].pub, w.active[t].started, false)])
    ensures es[i].PublishReturns? ==>
      var w, w', t := ws[i], ws[i + 1], es[i].t;
      && t in w.active && w.active[t].pub in w.pubs && w'.bus == w.bus && w'.calls == w.calls
      && w.active[t].started == |w.pubs[w.active[t].pub].snapshot|
      && w'.active == w.active - {t} && w'.dispatching == w.dispatching - {t}
      && w'.pubs == w.pubs[w.active[t].pub := w.pubs[w.active[t].pub].(returned := true)]
  {
    RunSteps(ws, es, i);
    hide IsRun, Act, CanAct;
  }

  /** The steps on handles in every run are the actions they name, and nothing else. */
  lemma HandlesAreExact(ws: seq<World>, es: seq<Event>, i: nat)
    requires IsRun(ws, es) && i < |es| && es[i].Handles?
    ensures ActMeans(ws[i].bus, es[i].action, ws[i + 1].bus) && ws[i + 1] == ws[i].(bus := ws[i + 1].bus)
  {
    RunSteps(ws, es, i);
    RunKeepsInv(ws, es, i);
    hide IsRun, Act, CanAct, ActMeans, ActiveInv, DeliveredInv;
    ActIsExact(ws[i].bus, es[i].action);
  }

  lemma Extend(ws: seq<World>, es: seq<Event>, e: Event) returns (ws': seq<World>, es': seq<Event>)
    requires IsRun(ws, es) && Enabled(ws[|es|], e)
    ensures IsRun(ws', es') && |ws'| == |es'| + 1 && es' == es + [e] && ws'[|es'|] == Step(ws[|es|], e)
  {
    hide Enabled, Step;
    es' := es + [e];
    ws' := ws + [Step(ws[|es|], e)];
    forall i | 0 <= i < |es'| ensures Enabled(ws'[i], es'[i]) && ws'[i + 1] == Step(ws'[i], es'[i]) {
      if i < |es| {
        assert ws'[i] == ws[i] && es'[i] == es[i] && ws'[i + 1] == ws[i + 1];
      }
    }
  }

  /**
   * A dispatch can always be brought to its end: from any state of any run, by
   * the steps of its own thread alone, with all of its snapshot called.
   */
  lemma {:induction false} EveryDispatchCanFinish(ws: seq<World>, es: seq<Event>, t: ThreadId)
    returns (ws': seq<World>, es': seq<Event>)
    requires IsRun(ws, es) && |ws| == |es| + 1 && t in ws[|es|].active && ws[|es|].active[t].pub in ws[|es|].pubs
    ensures IsRun(ws', es') && |ws'| == |es'| + 1 && es <= es' && t !in ws'[|es'|].active
    ensures var p := ws[|es|].active[t].pub;
      && p in ws'[|es'|].pubs && ws'[|es'|].pubs[p].returned
      && CalledFor(ws'[|es'|].calls, p) == ws[|es|].pubs[p].snapshot
    decreases |ws[|es|].pubs[ws[|es|].active[t].pub].snapshot| - ws[|es|].active[t].started,
      if ws[|es|].active[t].inCall then 1 else 0
  {
    var w := ws[|es|];
    var p := w.active[t].pub;
    RunKeepsInv(ws, es, |es|);
    hide IsRun, CalledFor, BusInv, Act, CanAct;
    if w.active[t].inCall {
      ws', es' := Extend(ws, es, CallReturns(t));
      ws', es' := EveryDispatchCanFinish(ws', es', t);
    } else if w.active[t].started < |w.pubs[p].snapshot| {
      ws', es' := Extend(ws, es, CallStarts(t));
      ws', es' := EveryDispatchCanFinish(ws', es', t);
    } else {
      ws', es' := Extend(ws, es, PublishReturns(t));
      RunKeepsInv(ws', es', |es'|);
    }
  }

  // ---------------------------------------------------------------------------
  // In place
  // ---------------------------------------------------------------------------

  datatype EventError = Success | ReentrantPublish

  /** What a callback does while it runs. */
  datatype Deed = Subscribes(tag: TypeTag) | Cancels(id: SubId) | Publishes(tag: TypeTag) | Throws

  class EventBus {
    var subs: map<TypeTag, seq<SubId>>
    var nextId: SubId
    var total: nat
    var dispatching: bool   // the publishing thread's flag

    ghost function View(): Registry
      reads this
    {
      Registry(subs, nextId, total)
    }

    constructor ()
      ensures View() == EMPTY && !dispatching
    {
      subs, nextId, total, dispatching := map[], 1, 0, false;
    }

    method SubscribeTo(tag: TypeTag, hasCallback: bool) returns (id: Option<SubId>)
      requires RegistryInv(View())
      modifies this
      ensures (View(), id) == Subscribe(old(View()), tag, hasCallback)
      ensures SubscribeMeans(old(View()), tag, hasCallback, View(), id)
      ensures RegistryInv(View()) && dispatching == old(dispatching)
    {
      SubscribeKeepsRegistry(View(), tag, hasCallback);
      SubscribeIsExact(View(), tag, hasCallback);
      if !hasCallback {
        return None;
      }
      if total >= MAX_SUBSCRIBERS {
        return None;
      }
      id := Some(nextId);
      subs := subs[tag := (if tag in subs then subs[tag] else []) + [nextId]];
      nextId := nextId + 1;
      total := total + 1;
    }

    /** RemoveSubscriberFromState: search list after list, erase the entry, stop. */
    method RemoveSubscriber(id: SubId)
      requires RegistryInv(View())
      modifies this
      ensures View() == Unsubscribe(old(View()), id) && UnsubscribeMeans(old(View()), id, View())
      ensures RegistryInv(View()) && dispatching == old(dispatching)
    {
      hide RegistryInv, Unsubscribe, Registered, UnsubscribeMeans;
      UnsubscribeIsExact(View(), id);
      var tags := subs.Keys;
      while tags != {}
        invariant unchanged(this)
        invariant tags <= subs.Keys
        invariant forall t | t in subs && t !in tags :: id !in subs[t]
        decreases tags
      {
        var tag :| tag in tags;
        var i := FindIn(subs[tag], id);
        if i < |subs[tag]| {
          EraseAt(tag, i);
          return;
        }
        tags := tags - {tag};
      }
      InNoList(View(), id);
      UnsubscribeKeepsRegistry(View(), id);
    }

    /** The entry found is erased, and the total follows. */
    method EraseAt(tag: TypeTag, i: nat)
      requires RegistryInv(View()) && tag in subs && i < |subs[tag]|
      modifies this
      ensures View() == Unsubscribe(old(View()), old(subs[tag][i]))
      ensures RegistryInv(View()) && dispatching == old(dispatching)
    {
      hide RegistryInv, Unsubscribe, Registered;
      EraseStep(View(), tag, i);
      UnsubscribeKeepsRegistry(View(), subs[tag][i]);
      subs := subs[tag := subs[tag][..i] + subs[tag][i + 1..]];
      total := total - 1;
    }

    /**
     * Publish, with what each callback does given as data. The subscribers
     * called are those registered for the type on entry, whatever the callbacks
     * do; a nested Publish is rejected; the flag is clear on return.
     */
    method Publish(tag: TypeTag, deeds: seq<seq<Deed>>) returns (error: EventError, called: seq<SubId>)
      requires RegistryInv(View())
      modifies this
      ensures RegistryInv(View())
      ensures old(dispatching) ==> error == ReentrantPublish && called == [] && dispatching && View() == old(View())
      ensures !old(dispatching) ==>
        error == Success && called == Subscribers(old(View()), tag) && !dispatching
      decreases if dispatching then 0 else 2
    {
      called := [];
      if dispatching {
        return ReentrantPublish, called;
      }
      if tag !in subs {
        return Success, called;
      }
      var snapshot := subs[tag];
      dispatching := true;
      var i := 0;
      while i < |snapshot|
        invariant i <= |snapshot| && dispatching && called == snapshot[..i] && RegistryInv(View())
      {
        called := called + [snapshot[i]];
        if i < |deeds| {
          RunCallback(deeds[i]);
        }
        i := i + 1;
      }
      dispatching := false;
      error := Success;
    }

    /** One callback under its handler: what follows a throw is not done, and the throw goes no further. */
    method RunCallback(deeds: seq<Deed>)
      requires RegistryInv(View()) && dispatching
      modifies this
      ensures RegistryInv(View()) && dispatching
      decreases 1
    {
      hide RegistryInv;
      var k := 0;
      while k < |deeds|
        invariant k <= |deeds| && RegistryInv(View()) && dispatching
      {
        match deeds[k] {
          case Subscribes(tag) => var _ := SubscribeTo(tag, true);
          case Cancels(id) => RemoveSubscriber(id);
          case Publishes(tag) => var _, _ := Publish(tag, []);
          case Throws => return;
        }
        k := k + 1;
      }
    }
  }

  method FindIn(list: seq<SubId>, id: SubId) returns (i: nat)
    ensures i <= |list| && (i < |list| ==> list[i] == id) && (i == |list| ==> id !in list)
  {
    i := 0;
    while i < |list|
      invariant i <= |list| && id !in list[..i]
    {
      if list[i] == id {
        return;
      }
      i := i + 1;
    }
  }

  lemma InNoList(r: Registry, id: SubId)
    requires forall t | t in r.subs :: id !in r.subs[t]
    ensures !Registered(r, id)
  {
  }

  lemma EraseStep(r: Registry, tag: TypeTag, i: nat)
    requires RegistryInv(r) && tag in r.subs && i < |r.subs[tag]|
    ensures r.total > 0
    ensures Unsubscribe(r, r.subs[tag][i])
         == Registry(r.subs[tag := r.subs[tag][..i] + r.subs[tag][i + 1..]], r.nextId, r.total - 1)
  {
    hide Sum, Erased, Unsubscribe;
    UnsubscribeOne(r, r.subs[tag][i], tag);
    EraseOne(r.subs[tag], i);
  }
}
