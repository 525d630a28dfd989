/**
 * The event bus (framework/event/event_bus.h): a registry of subscribers per
 * event type with a cached total, RAII handles, and snapshot dispatch.
 */
module EventRegistry {
  import opened Basics

  type TypeTag = nat

  type SubId = nat

  type HandleId = nat

  const MAX_SUBSCRIBERS := 128

  /** What the mutex protects. A subscriber is known by its id. */
  datatype Registry = Registry(subs: map<TypeTag, seq<SubId>>, nextId: SubId, total: nat)

  const EMPTY := Registry(map[], 1, 0)

  // ---------------------------------------------------------------------------
  // The registry
  // ---------------------------------------------------------------------------

  function Subscribers(r: Registry, tag: TypeTag): seq<SubId> {
    if tag in r.subs then r.subs[tag] else []
  }

  predicate Registered(r: Registry, id: SubId) {
    exists tag | tag in r.subs :: id in r.subs[tag]
  }

  function Subscribe(r: Registry, tag: TypeTag, hasCallback: bool): (result: (Registry, Option<SubId>)) {
    if !hasCallback || r.total >= MAX_SUBSCRIBERS then (r, None)
    else
      (Registry(r.subs[tag := Subscribers(r, tag) + [r.nextId]], r.nextId + 1, r.total + 1), Some(r.nextId))
  }

  function Unsubscribe(r: Registry, id: SubId): Registry {
    if Registered(r, id) && r.total > 0
    then Registry(map tag | tag in r.subs :: Erased(r.subs[tag], id), r.nextId, r.total - 1)
    else r
  }

  /** The sum of the lengths of all lists. */
  ghost function Sum(subs: map<TypeTag, seq<SubId>>): nat
    decreases |subs|
  {
    if subs == map[] then 0
    else
      var tag :| tag in subs;
      |subs[tag]| + Sum(subs - {tag})
  }

  /** Any list may be counted first. */
  lemma {:induction false} SumTakes(subs: map<TypeTag, seq<SubId>>, tag: TypeTag)
    requires tag in subs
    ensures Sum(subs) == |subs[tag]| + Sum(subs - {tag})
    decreases |subs|
  {
    var t :| t in subs && Sum(subs) == |subs[t]| + Sum(subs - {t});
    if t != tag {
      SumTakes(subs - {t}, tag);
      SumTakes(subs - {tag}, t);
      assert subs - {t} - {tag} == subs - {tag} - {t};
    }
  }

  lemma SumUpdate(subs: map<TypeTag, seq<SubId>>, tag: TypeTag, list: seq<SubId>)
    ensures Sum(subs[tag := list]) == |list| + Sum(subs - {tag})
  {
    SumTakes(subs[tag := list], tag);
    assert subs[tag := list] - {tag} == subs - {tag};
  }

  ghost predicate Increasing(list: seq<SubId>) {
    forall i, j | 0 <= i < j < |list| :: list[i] < list[j]
  }

  ghost predicate RegistryInv(r: Registry) {
    && r.nextId > 0 && r.total == Sum(r.subs) <= MAX_SUBSCRIBERS
    && (forall tag | tag in r.subs :: Increasing(r.subs[tag]))
    && (forall tag, id | tag in r.subs && id in r.subs[tag] :: 0 < id < r.nextId)
    && (forall t1, t2, id | t1 in r.subs && t2 in r.subs && id in r.subs[t1] && id in r.subs[t2] :: t1 == t2)
  }

  lemma IncreasingAppend(list: seq<SubId>, id: SubId)
    requires Increasing(list) && forall x | x in list :: x < id
    ensures Increasing(list + [id])
  {
    forall i, j | 0 <= i < j < |list| + 1 ensures (list + [id])[i] < (list + [id])[j] {
      assert list[i] in list;
    }
  }

  lemma SubscribeSum(r: Registry, tag: TypeTag)
    ensures Sum(r.subs[tag := Subscribers(r, tag) + [r.nextId]]) == Sum(r.subs) + 1
  {
    hide Sum;
    SumUpdate(r.subs, tag, Subscribers(r, tag) + [r.nextId]);
    if tag in r.subs {
      SumTakes(r.subs, tag);
    } else {
      assert r.subs - {tag} == r.subs;
    }
  }

  lemma SubscribeKeepsRegistry(r: Registry, tag: TypeTag, hasCallback: bool)
    requires RegistryInv(r)
    ensures RegistryInv(Subscribe(r, tag, hasCallback).0)
  {
    hide Sum, Increasing;
    if Subscribe(r, tag, hasCallback).1.Some? {
      SubscribeSum(r, tag);
      assert Increasing([]) by { NothingIncreases(); }
      IncreasingAppend(Subscribers(r, tag), r.nextId);
    }
  }

  lemma NothingIncreases()
    ensures Increasing([])
  {
  }

  /**
   * What subscribing means: it succeeds exactly if there is a callback and room
   * for one more in all; the new id goes to the end of its type's list, which is
   * made if need be, and no other list changes.
   */
  ghost predicate SubscribeMeans(r: Registry, tag: TypeTag, hasCallback: bool, r': Registry, id: Option<SubId>) {
    && (id.Some? <==> hasCallback && r.total < 128)
    && (id.None? ==> r' == r)
    && (id.Some? ==>
          && id.value == r.nextId && r'.nextId == r.nextId + 1 && r'.total == r.total + 1
          && r'.subs.Keys == r.subs.Keys + {tag}
          && r'.subs[tag] == (if tag in r.subs then r.subs[tag] + [r.nextId] else [r.nextId])
          && forall t | t in r.subs && t != tag :: r'.subs[t] == r.subs[t])
  }

  lemma SubscribeIsExact(r: Registry, tag: TypeTag, hasCallback: bool)
    ensures var s := Subscribe(r, tag, hasCallback); SubscribeMeans(r, tag, hasCallback, s.0, s.1)
  {
  }

  /** What removing means: every list loses the id, if it has it, and nothing else; the total follows. */
  ghost predicate UnsubscribeMeans(r: Registry, id: SubId, r': Registry) {
    && r'.nextId == r.nextId && r'.subs.Keys == r.subs.Keys
    && (forall t | t in r.subs && id !in r.subs[t] :: r'.subs[t] == r.subs[t])
    && (forall t, i | t in r.subs && 0 <= i < |r.subs[t]| && r.subs[t][i] == id ::
          r'.subs[t] == r.subs[t][..i] + r.subs[t][i + 1..] && r'.total == r.total - 1)
    && ((forall t | t in r.subs :: id !in r.subs[t]) ==> r' == r)
  }

  lemma UnsubscribeIsExact(r: Registry, id: SubId)
    requires RegistryInv(r)
    ensures UnsubscribeMeans(r, id, Unsubscribe(r, id))
  {
    hide Sum, Erased, Unsubscribe;
    UnsubscribeKeepsRegistry(r, id);
    if Registered(r, id) {
      var tag :| tag in r.subs && id in r.subs[tag];
      UnsubscribeOne(r, id, tag);
      hide RegistryInv, Increasing;
      assert forall t | t in r.subs && id in r.subs[t] :: t == tag by { OneList(r, id, tag); }
      forall i | 0 <= i < |r.subs[tag]| && r.subs[tag][i] == id
        ensures Erased(r.subs[tag], id) == r.subs[tag][..i] + r.subs[tag][i + 1..]
      {
        assert Increasing(r.subs[tag]) by { OneList(r, id, tag); }
        EraseOne(r.subs[tag], i);
      }
    }
  }

  lemma OneList(r: Registry, id: SubId, tag: TypeTag)
    requires RegistryInv(r) && tag in r.subs && id in r.subs[tag]
    ensures Increasing(r.subs[tag]) && forall t | t in r.subs && id in r.subs[t] :: t == tag
  {
  }

  lemma {:induction false} EraseOne(list: seq<SubId>, i: nat)
    requires Increasing(list) && i < |list|
    ensures list[..i] + list[i + 1..] == Erased(list, list[i])
  {
    var n := |list| - 1;
    if i == n {
      WithoutOne(list[..n], list[i]);
      assert list[..i] + list[i + 1..] == list[..n];
    } else {
      EraseOne(list[..n], i);
      assert list[..i] + list[i + 1..] == (list[..n][..i] + list[..n][i + 1..]) + [list[n]];
    }
  }

  lemma SubscribeRegisters(r: Registry, tag: TypeTag, hasCallback: bool)
    requires RegistryInv(r)
    ensures var s := Subscribe(r, tag, hasCallback);
      s.1.Some? ==>
        && s.1.value == r.nextId && !Registered(r, r.nextId) && Registered(s.0, r.nextId)
        && forall id | id != r.nextId :: Registered(s.0, id) <==> Registered(r, id)
  {
    hide Sum, Increasing;
    var s := Subscribe(r, tag, hasCallback);
    if s.1.Some? {
      assert tag in s.0.subs && r.nextId in s.0.subs[tag];
      forall id | id != r.nextId ensures Registered(s.0, id) <==> Registered(r, id) {
        if Registered(r, id) {
          var t :| t in r.subs && id in r.subs[t];
          assert t in s.0.subs && id in s.0.subs[t];
        }
      }
    }
  }

  lemma LastIsLargest(list: seq<SubId>)
    requires Increasing(list) && list != []
    ensures var init, last := list[..|list| - 1], list[|list| - 1];
      Increasing(init) && forall x | x in init :: x < last
  {
    var init := list[..|list| - 1];
    forall x | x in init ensures x < list[|list| - 1] {
      var i :| 0 <= i < |init| && init[i] == x;
      assert list[i] == x;
    }
  }

  lemma {:induction false} WithoutOne(list: seq<SubId>, id: SubId)
    requires Increasing(list)
    ensures Increasing(Erased(list, id))
    ensures |Erased(list, id)| == |list| - (if id in list then 1 else 0)
    ensures id !in list ==> Erased(list, id) == list
  {
    if list != [] {
      hide Increasing;
      var init, last := list[..|list| - 1], list[|list| - 1];
      LastIsLargest(list);
      WithoutOne(init, id);
      assert list == init + [last];
      if last == id {
        assert Erased(list, id) == Erased(init, id) + [] == Erased(init, id);
      } else {
        IncreasingAppend(Erased(init, id), last);
        assert Erased(list, id) == Erased(init, id) + [last];
      }
    }
  }

  /** Removing a registered id takes it out of its one list, and shortens nothing else. */
  lemma UnsubscribeOne(r: Registry, id: SubId, tag: TypeTag)
    requires RegistryInv(r) && tag in r.subs && id in r.subs[tag]
    ensures r.total > 0 && Unsubscribe(r, id).total == r.total - 1 && Unsubscribe(r, id).nextId == r.nextId
    ensures Unsubscribe(r, id).subs == r.subs[tag := Erased(r.subs[tag], id)]
    ensures Sum(Unsubscribe(r, id).subs) == r.total - 1
  {
    hide Erased, Sum;
    SumTakes(r.subs, tag);
    WithoutOne(r.subs[tag], id);
    assert Registered(r, id);
    var subs' := Unsubscribe(r, id).subs;
    forall t | t in r.subs && t != tag ensures subs'[t] == r.subs[t] {
      WithoutOne(r.subs[t], id);
    }
    assert subs' == r.subs[tag := Erased(r.subs[tag], id)];
    SumUpdate(r.subs, tag, Erased(r.subs[tag], id));
  }

  /** Dropping ids from one list keeps everything but the total, which must follow. */
  lemma ShorterListKeepsRegistry(r: Registry, tag: TypeTag, list: seq<SubId>)
    requires RegistryInv(r) && tag in r.subs && Increasing(list) && forall x | x in list :: x in r.subs[tag]
    requires Sum(r.subs[tag := list]) < r.total
    ensures RegistryInv(Registry(r.subs[tag := list], r.nextId, Sum(r.subs[tag := list])))
  {
    hide Sum, Increasing;
  }

  lemma UnsubscribeKeepsRegistry(r: Registry, id: SubId)
    requires RegistryInv(r)
    ensures var r' := Unsubscribe(r, id);
      && RegistryInv(r') && r'.nextId == r.nextId
      && (Registered(r, id) ==> r'.total == r.total - 1)
      && (!Registered(r, id) ==> r' == r)
  {
    if Registered(r, id) {
      hide Erased, Sum, Increasing, Unsubscribe;
      var tag :| tag in r.subs && id in r.subs[tag];
      WithoutOne(r.subs[tag], id);
      UnsubscribeOne(r, id, tag);
      assert r.total == Sum(r.subs) && Unsubscribe(r, id).total == Sum(r.subs[tag := Erased(r.subs[tag], id)]);
      ShorterListKeepsRegistry(r, tag, Erased(r.subs[tag], id));
    }
  }

  lemma UnsubscribeRemovesOnlyThat(r: Registry, id: SubId, x: SubId)
    requires RegistryInv(r)
    ensures Registered(Unsubscribe(r, id), x) <==> Registered(r, x) && x != id
  {
    if Registered(r, id) {
      hide Erased, Sum, Increasing;
      var tag :| tag in r.subs && id in r.subs[tag];
      UnsubscribeOne(r, id, tag);
      var r' := Unsubscribe(r, id);
      if Registered(r, x) && x != id {
        var t :| t in r.subs && x in r.subs[t];
        assert t in r'.subs && x in r'.subs[t];
      }
    }
  }

  // ---------------------------------------------------------------------------
  // Handles
  // ---------------------------------------------------------------------------

  /** A Subscription: does its weak pointer still name the bus, and which id does it own? */
  datatype Handle = Handle(attached: bool, id: SubId)

  const DETACHED := Handle(false, 0)

  datatype Bus = Bus(alive: bool, registry: Registry, handles: map<HandleId, Handle>)

  const NEW_BUS := Bus(true, EMPTY, map[])

  predicate IsValid(b: Bus, h: HandleId) {
    h in b.handles && b.alive && b.handles[h].attached && b.handles[h].id != 0
  }

  function ValidHandles(b: Bus): set<HandleId> {
    set h | h in b.handles && IsValid(b, h)
  }

  datatype Action =
    | MakeDefault(h: HandleId)
    | MakeSubscribed(h: HandleId, tag: TypeTag, hasCallback: bool)
    | MoveConstruct(h: HandleId, from: HandleId)
    | MoveAssign(h: HandleId, from: HandleId)
    | CancelHandle(h: HandleId)
    | DestroyHandle(h: HandleId)
    | DestroyBus

  ghost predicate CanAct(b: Bus, a: Action) {
    match a
    case MakeDefault(h) => h !in b.handles
    case MakeSubscribed(h, _, _) => h !in b.handles && b.alive
    case MoveConstruct(h, from) => h !in b.handles && from in b.handles
    case MoveAssign(h, from) => h in b.handles && from in b.handles
    case CancelHandle(h) => h in b.handles
    case DestroyHandle(h) => h in b.handles
    case DestroyBus => b.alive
  }

  function Cancelled(b: Bus, h: HandleId): Bus
    requires h in b.handles
  {
    var x := b.handles[h];
    b.(registry := if x.attached && b.alive then Unsubscribe(b.registry, x.id) else b.registry,
       handles := b.handles[h := DETACHED])
  }

  function Moved(b: Bus, h: HandleId, from: HandleId): Bus
    requires from in b.handles
  {
    b.(handles := b.handles[h := b.handles[from]][from := DETACHED])
  }

  function Act(b: Bus, a: Action): Bus
    requires CanAct(b, a)
  {
    match a
    case MakeDefault(h) => b.(handles := b.handles[h := DETACHED])
    case MakeSubscribed(h, tag, hasCallback) =>
      var s := Subscribe(b.registry, tag, hasCallback);
      b.(registry := s.0,
         handles := b.handles[h := if s.1.Some? then Handle(true, s.1.value) else DETACHED])
    case MoveConstruct(h, from) => Moved(b, h, from)
    case MoveAssign(h, from) => if h == from then b else Moved(Cancelled(b, h), h, from)
    case CancelHandle(h) => Cancelled(b, h)
    case DestroyHandle(h) => var b' := Cancelled(b, h); b'.(handles := b'.handles - {h})
    case DestroyBus => b.(alive := false)
  }

  /** What the registry is once handle `h` has let go: without its id if it was attached to a living bus. */
  ghost predicate LetsGo(b: Bus, h: HandleId, r': Registry)
    requires h in b.handles
  {
    if b.alive && b.handles[h].attached then UnsubscribeMeans(b.registry, b.handles[h].id, r') else r' == b.registry
  }

  /**
   * What each action on handles means. A move hands the subscription over and
   * leaves the source with none; assigning to, cancelling or destroying a handle
   * ends the subscription it had; nobody else's handle changes.
   */
  ghost predicate ActMeans(b: Bus, a: Action, b': Bus) {
    match a
    case MakeDefault(h) => b' == b.(handles := b.handles[h := Handle(false, 0)])
    case MakeSubscribed(h, tag, hasCallback) =>
      exists id :: SubscribeMeans(b.registry, tag, hasCallback, b'.registry, id) && b'.alive == b.alive
        && b'.handles == b.handles[h := if id.Some? then Handle(true, id.value) else Handle(false, 0)]
    case MoveConstruct(h, from) =>
      && from in b.handles && b'.alive == b.alive && b'.registry == b.registry
      && b'.handles == b.handles[h := b.handles[from]][from := Handle(false, 0)]
    case MoveAssign(h, from) =>
      if h == from then b' == b
      else
        && h in b.handles && from in b.handles && b'.alive == b.alive && LetsGo(b, h, b'.registry)
        && b'.handles == b.handles[h := b.handles[from]][from := Handle(false, 0)]
    case CancelHandle(h) =>
      && h in b.handles && b'.alive == b.alive && LetsGo(b, h, b'.registry)
      && b'.handles == b.handles[h := Handle(false, 0)]
    case DestroyHandle(h) =>
      && h in b.handles && b'.alive == b.alive && LetsGo(b, h, b'.registry)
      && b'.handles == b.handles - {h}
    case DestroyBus => b' == b.(alive := false)
  }

  lemma ActIsExact(b: Bus, a: Action)
    requires RegistryInv(b.registry) && CanAct(b, a)
    ensures ActMeans(b, a, Act(b, a))
  {
    hide RegistryInv, UnsubscribeMeans, SubscribeMeans, Unsubscribe, Subscribe;
    match a
    case MakeSubscribed(h, tag, hasCallback) => SubscribeIsExact(b.registry, tag, hasCallback);
    case MoveAssign(h, from) => UnsubscribeIsExact(b.registry, b.handles[h].id);
    case CancelHandle(h) => UnsubscribeIsExact(b.registry, b.handles[h].id);
    case DestroyHandle(h) => UnsubscribeIsExact(b.registry, b.handles[h].id);
    case _ =>
  }

  ghost predicate Owned(b: Bus, id: SubId) {
    exists h :: IsValid(b, h) && b.handles[h].id == id
  }

  ghost predicate AttachedHaveIds(b: Bus) {
    forall h | h in b.handles && b.handles[h].attached :: b.handles[h].id != 0
  }

  ghost predicate ValidAreRegistered(b: Bus) {
    forall h | IsValid(b, h) :: Registered(b.registry, b.handles[h].id)
  }

  ghost predicate NoTwoOwners(b: Bus) {
    forall h, g | IsValid(b, h) && IsValid(b, g) && h != g :: b.handles[h].id != b.handles[g].id
  }

  ghost predicate RegisteredAreOwned(b: Bus) {
    forall id | Registered(b.registry, id) :: Owned(b, id)
  }

  ghost predicate TotalCounts(b: Bus) {
    |ValidHandles(b)| == b.registry.total
  }

  /** Registered ids and valid handles correspond one to one, and the total counts both. */
  ghost predicate BusInv(b: Bus) {
    && RegistryInv(b.registry) && AttachedHaveIds(b)
    && (b.alive ==> ValidAreRegistered(b) && NoTwoOwners(b) && RegisteredAreOwned(b) && TotalCounts(b))
  }

  /** Who is valid after a move: the target in place of the source. */
  lemma ValidAfterMove(b: Bus, h: HandleId, from: HandleId, g: HandleId)
    requires from in b.handles && h != from
    ensures var b' := Moved(b, h, from);
      && (IsValid(b', g) <==> if g == h then IsValid(b, from) else g != from && IsValid(b, g))
      && (IsValid(b', g) ==> b'.handles[g].id == b.handles[if g == h then from else g].id)
  {
  }

  lemma MoveKeepsBus(b: Bus, h: HandleId, from: HandleId)
    requires BusInv(b) && from in b.handles && h != from && (h in b.handles ==> b.handles[h] == DETACHED)
    ensures BusInv(Moved(b, h, from))
  {
    var b' := Moved(b, h, from);
    assert !IsValid(b, h);
    hide RegistryInv, Registered;
    assert AttachedHaveIds(b');
    assert b'.registry == b.registry && b'.alive == b.alive;
    hide IsValid, Moved;
    if b.alive {
      assert ValidAreRegistered(b') by {
        forall g | IsValid(b', g) ensures Registered(b.registry, b'.handles[g].id) {
          ValidAfterMove(b, h, from, g);
        }
      }
      MoveKeepsOwners(b, h, from);
      assert RegisteredAreOwned(b') by {
        forall x | Registered(b.registry, x) ensures Owned(b', x) {
          var g :| IsValid(b, g) && b.handles[g].id == x;
          ValidAfterMove(b, h, from, if g == from then h else g);
        }
      }
      MoveKeepsCount(b, h, from);
    }
  }

  lemma MoveKeepsOwners(b: Bus, h: HandleId, from: HandleId)
    requires NoTwoOwners(b) && from in b.handles && h != from && !IsValid(b, h)
    ensures NoTwoOwners(Moved(b, h, from))
  {
    var b' := Moved(b, h, from);
    hide IsValid, Moved;
    forall g, k | IsValid(b', g) && IsValid(b', k) && g != k ensures b'.handles[g].id != b'.handles[k].id {
      ValidAfterMove(b, h, from, g);
      ValidAfterMove(b, h, from, k);
    }
  }

  lemma MoveKeepsCount(b: Bus, h: HandleId, from: HandleId)
    requires from in b.handles && h != from && !IsValid(b, h)
    ensures |ValidHandles(Moved(b, h, from))| == |ValidHandles(b)|
  {
    var b' := Moved(b, h, from);
    if IsValid(b, from) {
      assert ValidHandles(b') == ValidHandles(b) - {from} + {h};
    } else {
      assert ValidHandles(b') == ValidHandles(b);
    }
  }

  /** Who is valid after a handle has been cancelled: everyone else who was. */
  lemma ValidAfterCancel(b: Bus, h: HandleId, g: HandleId)
    requires h in b.handles
    ensures IsValid(Cancelled(b, h), g) <==> g != h && IsValid(b, g)
    ensures g != h && g in b.handles ==> Cancelled(b, h).handles[g] == b.handles[g]
  {
  }

  lemma CancelKeepsBus(b: Bus, h: HandleId)
    requires BusInv(b) && h in b.handles
    ensures BusInv(Cancelled(b, h))
  {
    var b', id := Cancelled(b, h), b.handles[h].id;
    hide RegistryInv, Registered, Unsubscribe;
    UnsubscribeKeepsRegistry(b.registry, id);
    assert AttachedHaveIds(b');
    if b.alive {
      CancelKeepsCount(b, h);
      assert ValidAreRegistered(b') by {
        forall g | IsValid(b', g) ensures Registered(b'.registry, b'.handles[g].id) {
          UnsubscribeRemovesOnlyThat(b.registry, id, b.handles[g].id);
        }
      }
      assert RegisteredAreOwned(b') by {
        forall x | Registered(b'.registry, x) ensures Owned(b', x) {
          UnsubscribeRemovesOnlyThat(b.registry, id, x);
          var g :| IsValid(b, g) && b.handles[g].id == x;
          ValidAfterCancel(b, h, g);
        }
      }
      assert NoTwoOwners(b');
    }
  }

  lemma CancelKeepsCount(b: Bus, h: HandleId)
    requires RegistryInv(b.registry) && ValidAreRegistered(b) && TotalCounts(b) && b.alive && AttachedHaveIds(b)
    requires h in b.handles
    ensures TotalCounts(Cancelled(b, h))
  {
    hide RegistryInv, Registered, Unsubscribe;
    UnsubscribeKeepsRegistry(b.registry, b.handles[h].id);
    var b' := Cancelled(b, h);
    if IsValid(b, h) {
      assert ValidHandles(b') == ValidHandles(b) - {h};
    } else {
      assert ValidHandles(b') == ValidHandles(b);
    }
  }

  /** Who is valid after a handle has been made: everyone who was, and the new one if it was subscribed. */
  lemma ValidAfterSubscribe(b: Bus, h: HandleId, tag: TypeTag, hasCallback: bool, g: HandleId)
    requires BusInv(b) && CanAct(b, MakeSubscribed(h, tag, hasCallback))
    ensures var b', s := Act(b, MakeSubscribed(h, tag, hasCallback)), Subscribe(b.registry, tag, hasCallback);
      && (IsValid(b', g) <==> if g == h then s.1.Some? else IsValid(b, g))
      && (IsValid(b', g) ==> b'.handles[g].id == if g == h then s.1.value else b.handles[g].id)
  {
  }

  lemma SubscribeKeepsBus(b: Bus, h: HandleId, tag: TypeTag, hasCallback: bool)
    requires BusInv(b) && CanAct(b, MakeSubscribed(h, tag, hasCallback))
    ensures BusInv(Act(b, MakeSubscribed(h, tag, hasCallback)))
  {
    var a := MakeSubscribed(h, tag, hasCallback);
    var b', s := Act(b, a), Subscribe(b.registry, tag, hasCallback);
    SubscribeKeepsRegistry(b.registry, tag, hasCallback);
    SubscribeRegisters(b.registry, tag, hasCallback);
    assert b'.registry == s.0 && b'.alive && (s.1.None? ==> s.0 == b.registry);
    SubscribeKeepsCount(b, h, tag, hasCallback);
    hide RegistryInv, Registered, Subscribe;
    assert AttachedHaveIds(b') by { AttachedAfterSubscribe(b, h, tag, hasCallback); }
    hide IsValid, Act;
    assert ValidAreRegistered(b') by {
      forall g | IsValid(b', g) ensures Registered(b'.registry, b'.handles[g].id) {
        ValidAfterSubscribe(b, h, tag, hasCallback, g);
      }
    }
    assert NoTwoOwners(b') by {
      forall g, k | IsValid(b', g) && IsValid(b', k) && g != k ensures b'.handles[g].id != b'.handles[k].id {
        ValidAfterSubscribe(b, h, tag, hasCallback, g);
        ValidAfterSubscribe(b, h, tag, hasCallback, k);
      }
    }
    assert RegisteredAreOwned(b') by {
      forall x | Registered(b'.registry, x) ensures Owned(b', x) {
        if Registered(b.registry, x) {
          var g :| IsValid(b, g) && b.handles[g].id == x;
          NotYetMade(b, h);
          ValidAfterSubscribe(b, h, tag, hasCallback, g);
        } else {
          ValidAfterSubscribe(b, h, tag, hasCallback, h);
        }
      }
    }
  }

  lemma NotYetMade(b: Bus, h: HandleId)
    requires h !in b.handles
    ensures !IsValid(b, h)
  {
  }

  lemma AttachedAfterSubscribe(b: Bus, h: HandleId, tag: TypeTag, hasCallback: bool)
    requires BusInv(b) && CanAct(b, MakeSubscribed(h, tag, hasCallback))
    ensures AttachedHaveIds(Act(b, MakeSubscribed(h, tag, hasCallback)))
  {
  }

  lemma SubscribeKeepsCount(b: Bus, h: HandleId, tag: TypeTag, hasCallback: bool)
    requires BusInv(b) && CanAct(b, MakeSubscribed(h, tag, hasCallback))
    ensures TotalCounts(Act(b, MakeSubscribed(h, tag, hasCallback)))
  {
    hide RegistryInv, ValidAreRegistered, NoTwoOwners, RegisteredAreOwned, AttachedHaveIds;
    var b', s := Act(b, MakeSubscribed(h, tag, hasCallback)), Subscribe(b.registry, tag, hasCallback);
    forall g ensures g in ValidHandles(b') <==> if g == h then s.1.Some? else g in ValidHandles(b) {
      ValidAfterSubscribe(b, h, tag, hasCallback, g);
    }
    assert h !in ValidHandles(b);
    hide ValidHandles, IsValid;
    CountAfterAdding(ValidHandles(b), ValidHandles(b'), h, s.1.Some?);
  }

  lemma CountAfterAdding(before: set<HandleId>, after: set<HandleId>, h: HandleId, added: bool)
    requires h !in before && forall g :: g in after <==> if g == h then added else g in before
    ensures |after| == |before| + (if added then 1 else 0)
  {
    assert after == before + (if added then {h} else {});
  }

  /** Adding or dropping a handle that owns nothing. */
  lemma DetachedKeepsBus(b: Bus, b': Bus, h: HandleId)
    requires BusInv(b) && b'.alive == b.alive && b'.registry == b.registry
    requires h in b.handles ==> b.handles[h] == DETACHED
    requires b'.handles == b.handles[h := DETACHED] || b'.handles == b.handles - {h}
    ensures BusInv(b')
  {
    hide RegistryInv, Registered;
    if b.alive {
      forall x | Registered(b'.registry, x) ensures Owned(b', x) {
        var g :| IsValid(b, g) && b.handles[g].id == x;
        assert IsValid(b', g) && b'.handles[g].id == x;
      }
      assert ValidHandles(b') == ValidHandles(b);
    }
  }

  /** Subscribing, moving, cancelling and destroying handles all keep registry and handles in agreement. */
  lemma ActKeepsBus(b: Bus, a: Action)
    requires BusInv(b) && CanAct(b, a)
    ensures BusInv(Act(b, a))
  {
    match a
    case MakeDefault(h) => DetachedKeepsBus(b, Act(b, a), h);
    case MakeSubscribed(h, tag, hasCallback) => SubscribeKeepsBus(b, h, tag, hasCallback);
    case MoveConstruct(h, from) => MoveKeepsBus(b, h, from);
    case MoveAssign(h, from) =>
      if h != from {
        CancelKeepsBus(b, h);
        MoveKeepsBus(Cancelled(b, h), h, from);
      }
    case CancelHandle(h) => CancelKeepsBus(b, h);
    case DestroyHandle(h) =>
      CancelKeepsBus(b, h);
      DetachedKeepsBus(Cancelled(b, h), Act(b, a), h);
    case DestroyBus =>
  }
}
