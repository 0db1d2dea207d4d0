/**
 * The modules manager together with the objects it drives: the module
 * objects constructed so far, the message bus their listeners subscribe to,
 * the registry of available modules by name, and the persistence store.
 * Bus handlers are module objects, identified by their position in the heap.
 */
module ModulesManager {
  import opened Wrappers
  import opened Messages
  import opened Settings
  import opened Messenger
  import opened OrderedMaps
  import opened Modules
  import opened DaoModule
  import ModuleBase
  import WS = WebServerModule
  import TA = TwitchAuthModule
  import TT = TwitchTchatModule
  import GGModule

  /** The environment variables the modules read. */
  datatype Env = Env(twitchClientId: Option<string>, ggReward: Option<string>)

  /** A lifecycle call the manager makes on a module object or the store. */
  datatype Call = Loaded(id: nat) | Started(id: nat) | SettingsApplied(id: nat) | Saved(name: string) | Restarted(id: nat)

  datatype System = System(
    heap: seq<AnyModule>,               // every module object, in construction order
    bus: Bus<nat>,                      // handlers are heap positions
    registry: OrderedMap<string, nat>,  // the available modules: name to heap position, in insertion order
    store: Store,
    published: seq<Message>,            // every message published, in order
    calls: seq<Call>)                   // the lifecycle calls made, in order

  predicate WellFormed(sys: System)
  {
    && UniqueKeys(sys.registry)
    && (forall i :: 0 <= i < |sys.registry| ==>
          sys.registry[i].1 < |sys.heap| && Name(sys.heap[sys.registry[i].1]) == sys.registry[i].0)
    && (forall t, i :: 0 <= i < |Listeners(sys.bus, t)| ==> Listeners(sys.bus, t)[i] < |sys.heap|)
    && (forall id :: 0 <= id < |sys.heap| ==> Valid(sys.heap[id]))
  }

  /**
   * What delivering messages may change: only the concrete state of module
   * objects, and the log of published messages, which only grows.
   */
  predicate Evolves(sys: System, sys': System)
  {
    && sys'.bus == sys.bus && sys'.registry == sys.registry && sys'.store == sys.store
    && sys'.calls == sys.calls
    && |sys'.heap| == |sys.heap|
    && (forall id :: 0 <= id < |sys.heap| ==>
          sys'.heap[id].base == sys.heap[id].base && SameKind(sys.heap[id], sys'.heap[id]))
    && sys.published <= sys'.published
  }

  lemma EvolvesTransitive(a: System, b: System, c: System)
    requires Evolves(a, b) && Evolves(b, c)
    ensures Evolves(a, c)
  {
    forall id | 0 <= id < |a.heap|
      ensures c.heap[id].base == a.heap[id].base && SameKind(a.heap[id], c.heap[id])
    {
      assert SameKind(a.heap[id], b.heap[id]) && SameKind(b.heap[id], c.heap[id]);
    }
  }

  lemma EvolvesKeepsWellFormed(sys: System, sys': System)
    requires WellFormed(sys) && Evolves(sys, sys')
    ensures WellFormed(sys')
  {
    assert forall id :: 0 <= id < |sys.heap| ==> Name(sys'.heap[id]) == Name(sys.heap[id]);
  }

  /** Runs the listener of module object `id` on `msg`. */
  function Invoke(sys: System, id: nat, msg: Message): (result: (System, seq<Message>))
    ensures Evolves(sys, result.0) && result.0.published == sys.published
    ensures forall i :: 0 <= i < |result.1| ==> Rank(TopicOf(result.1[i])) < Rank(TopicOf(msg))
  {
    if id < |sys.heap| then
      var handled := Handle(sys.heap[id], msg);
      (sys.(heap := sys.heap[id := handled.0]), handled.1)
    else (sys, [])
  }

  /**
   * `emit`: the message is logged, then delivered to each handler of its
   * topic in subscription order. A handler's own publications are
   * delivered before the next handler runs.
   */
  function Publish(sys: System, msg: Message): (sys': System)
    ensures Evolves(sys, sys')
    ensures |sys'.published| > |sys.published| && sys'.published[|sys.published|] == msg
    ensures Rank(TopicOf(msg)) == 0 ==> sys'.published == sys.published + [msg]
    decreases Rank(TopicOf(msg)), 1, 0
  {
    DeliverAll(sys.(published := sys.published + [msg]), Emit(sys.bus, msg), Rank(TopicOf(msg)))
  }

  function DeliverAll(sys: System, log: seq<Delivery<nat>>, rank: nat): (sys': System)
    requires forall i :: 0 <= i < |log| ==> Rank(TopicOf(log[i].message)) <= rank
    ensures Evolves(sys, sys')
    ensures (forall i :: 0 <= i < |log| ==> Rank(TopicOf(log[i].message)) == 0) ==> sys'.published == sys.published
    decreases rank, 0, |log|
  {
    if |log| == 0 then sys
    else
      var invoked := Invoke(sys, log[0].handler, log[0].message);
      var sys1 := if |invoked.1| == 0 then invoked.0 else PublishAll(invoked.0, invoked.1, rank - 1);
      EvolvesTransitive(sys, invoked.0, sys1);
      var sys2 := DeliverAll(sys1, log[1..], rank);
      EvolvesTransitive(sys, sys1, sys2);
      sys2
  }

  /** Publishes the messages one after the other. */
  function PublishAll(sys: System, msgs: seq<Message>, rank: nat): (sys': System)
    requires forall i :: 0 <= i < |msgs| ==> Rank(TopicOf(msgs[i])) <= rank
    ensures Evolves(sys, sys')
    ensures (forall i :: 0 <= i < |msgs| ==> Rank(TopicOf(msgs[i])) == 0) ==> sys'.published == sys.published + msgs
    decreases rank, 2, |msgs|
  {
    if |msgs| == 0 then sys
    else
      var sys1 := Publish(sys, msgs[0]);
      var sys2 := PublishAll(sys1, msgs[1..], rank);
      EvolvesTransitive(sys, sys1, sys2);
      assert (forall i :: 0 <= i < |msgs| ==> Rank(TopicOf(msgs[i])) == 0) ==> sys2.published == sys.published + msgs by {
        if forall i :: 0 <= i < |msgs| ==> Rank(TopicOf(msgs[i])) == 0 {
          assert Rank(TopicOf(msgs[0])) == 0;
          assert forall i :: 0 <= i < |msgs[1..]| ==> Rank(TopicOf(msgs[1..][i])) == 0 by {
            forall i | 0 <= i < |msgs[1..]|
              ensures Rank(TopicOf(msgs[1..][i])) == 0
            {
              assert msgs[1..][i] == msgs[i + 1];
            }
          }
          assert sys1.published == sys.published + [msgs[0]];
          assert sys2.published == sys1.published + msgs[1..];
          ConcatAssoc(sys.published, [msgs[0]], msgs[1..]);
          assert msgs == [msgs[0]] + msgs[1..];
        }
      }
      sys2
  }

  /** The highest rank a topic has. */
  const MaxRank: nat := 1

  lemma RankBounded(t: Topic)
    ensures Rank(t) <= MaxRank
  {
  }

  /** Publishes messages from outside any listener. */
  function PublishFromTop(sys: System, msgs: seq<Message>): (sys': System)
    ensures Evolves(sys, sys')
  {
    PublishAll(sys, msgs, MaxRank)
  }

  /** The heap after running the listeners `ids` on `msg` one after the other. */
  function HandleAll(heap: seq<AnyModule>, ids: seq<nat>, msg: Message): (heap': seq<AnyModule>)
    ensures |heap'| == |heap|
    decreases |ids|
  {
    if |ids| == 0 then heap
    else
      var heap1 := if ids[0] < |heap| then heap[ids[0] := Handle(heap[ids[0]], msg).0] else heap;
      HandleAll(heap1, ids[1..], msg)
  }

  lemma {:induction false} DeliverWithoutNesting(sys: System, hs: seq<nat>, msg: Message)
    requires Rank(TopicOf(msg)) == 0
    ensures DeliverAll(sys, DeliverEach(hs, msg), 0) == sys.(heap := HandleAll(sys.heap, hs, msg))
    decreases |hs|
  {
    if |hs| > 0 {
      var log := DeliverEach(hs, msg);
      assert log[1..] == DeliverEach(hs[1..], msg);
      var invoked := Invoke(sys, hs[0], msg);
      assert |invoked.1| == 0;
      DeliverWithoutNesting(invoked.0, hs[1..], msg);
    }
  }

  /**
   * A message whose listeners publish nothing further is logged and then
   * handled by each of its listeners in subscription order.
   */
  lemma PublishWithoutNesting(sys: System, msg: Message)
    requires Rank(TopicOf(msg)) == 0
    ensures Publish(sys, msg) ==
      sys.(heap := HandleAll(sys.heap, Listeners(sys.bus, TopicOf(msg)), msg), published := sys.published + [msg])
  {
    DeliverWithoutNesting(sys.(published := sys.published + [msg]), Listeners(sys.bus, TopicOf(msg)), msg);
  }

  /** An object whose listener leaves it as it is stays as it is. */
  lemma {:induction false} HandleAllKeeps(heap: seq<AnyModule>, ids: seq<nat>, msg: Message, id: nat)
    requires id < |heap| && Handle(heap[id], msg).0 == heap[id]
    ensures HandleAll(heap, ids, msg)[id] == heap[id]
    decreases |ids|
  {
    if |ids| > 0 {
      var heap1 := if ids[0] < |heap| then heap[ids[0] := Handle(heap[ids[0]], msg).0] else heap;
      HandleAllKeeps(heap1, ids[1..], msg, id);
    }
  }

  lemma HandleOne(heap: seq<AnyModule>, id: nat, msg: Message)
    requires id < |heap|
    ensures HandleAll(heap, [id], msg) == heap[id := Handle(heap[id], msg).0]
  {
  }

  /** `new X()`: the object is created and its constructor subscribes it to its topics, in order. */
  function Construct(sys: System, m: AnyModule): (sys': System)
    ensures sys'.heap == sys.heap + [m]
    ensures forall t :: Listeners(sys'.bus, t) == Listeners(sys.bus, t) + (if t in Subscriptions(m) then [|sys.heap|] else [])
    ensures sys'.registry == sys.registry && sys'.store == sys.store
    ensures sys'.published == sys.published && sys'.calls == sys.calls
  {
    var id := |sys.heap|;
    var subs := Subscriptions(m);
    var bus' := SubscribeAll(sys.bus, Pairs(subs, id));
    assert forall i, j :: 0 <= i < j < |subs| ==> subs[i] != subs[j];
    forall t
      ensures Listeners(bus', t) == Listeners(sys.bus, t) + (if t in subs then [id] else [])
    {
      ListenersAfterSubscribeAll(sys.bus, Pairs(subs, id), t);
      SubscribersOfPairs(subs, id, t);
    }
    sys.(heap := sys.heap + [m], bus := bus')
  }

  function Pairs(topics: seq<Topic>, id: nat): (ps: seq<(Topic, nat)>)
    ensures |ps| == |topics|
    ensures forall i :: 0 <= i < |ps| ==> ps[i] == (topics[i], id)
  {
    if |topics| == 0 then [] else [(topics[0], id)] + Pairs(topics[1..], id)
  }

  lemma {:induction false} SubscribersOfPairs(topics: seq<Topic>, id: nat, t: Topic)
    requires forall i, j :: 0 <= i < j < |topics| ==> topics[i] != topics[j]
    ensures SubscribersOf(Pairs(topics, id), t) == if t in topics then [id] else []
    decreases |topics|
  {
    if |topics| > 0 {
      SubscribersOfPairs(topics[1..], id, t);
      assert Pairs(topics, id)[1..] == Pairs(topics[1..], id);
      assert t in topics <==> t == topics[0] || t in topics[1..];
    }
  }

  /** A listener that leaves every object of the heap as it is leaves the heap as it is. */
  lemma {:induction false} HandleAllIdle(heap: seq<AnyModule>, ids: seq<nat>, msg: Message)
    requires forall j :: 0 <= j < |heap| ==> Handle(heap[j], msg).0 == heap[j]
    ensures HandleAll(heap, ids, msg) == heap
    decreases |ids|
  {
    if |ids| > 0 {
      assert ids[0] < |heap| ==> heap[ids[0] := Handle(heap[ids[0]], msg).0] == heap;
      HandleAllIdle(heap, ids[1..], msg);
    }
  }

  /**
   * `addModule(module)`: the object's stored record, if any, is loaded into
   * it, then the object is registered under its name, replacing any object
   * registered under that name before.
   */
  function AddModule(sys: System, id: nat): (sys': System)
    requires id < |sys.heap|
    ensures sys'.heap == sys.heap[id := Load(sys.store, sys.heap[id])]
    ensures OrderedMaps.Get(sys'.registry, Name(sys.heap[id])) == Some(id)
    ensures forall k :: k != Name(sys.heap[id]) ==> OrderedMaps.Get(sys'.registry, k) == OrderedMaps.Get(sys.registry, k)
    ensures sys'.bus == sys.bus && sys'.store == sys.store && sys'.published == sys.published
    ensures sys'.calls == sys.calls + [Loaded(id)]
    ensures Name(sys.heap[id]) !in Keys(sys.registry) ==> sys'.registry == sys.registry + [(Name(sys.heap[id]), id)]
  {
    var m := Load(sys.store, sys.heap[id]);
    sys.(heap := sys.heap[id := m], registry := Set(sys.registry, Name(m), id), calls := sys.calls + [Loaded(id)])
  }

  lemma AddModuleKeepsWellFormed(sys: System, id: nat)
    requires id < |sys.heap| && WellFormed(sys)
    ensures WellFormed(AddModule(sys, id))
  {
    var m := Load(sys.store, sys.heap[id]);
    var sys' := AddModule(sys, id);
    forall i | 0 <= i < |sys'.registry|
      ensures sys'.registry[i].1 < |sys'.heap| && Name(sys'.heap[sys'.registry[i].1]) == sys'.registry[i].0
    {
      if sys'.registry[i] != (Name(m), id) {
        var j :| 0 <= j < |sys.registry| && sys.registry[j] == sys'.registry[i];
      }
    }
  }

  /** `addModule(new X())`. */
  function Register(sys: System, m: AnyModule): (sys': System)
    ensures sys'.heap == sys.heap + [Load(sys.store, m)]
    ensures Name(m) !in Keys(sys.registry) ==> sys'.registry == sys.registry + [(Name(m), |sys.heap|)]
    ensures sys'.store == sys.store && sys'.published == sys.published
    ensures sys'.calls == sys.calls + [Loaded(|sys.heap|)]
  {
    var sys1 := Construct(sys, m);
    assert sys1.heap[|sys.heap|] == m;
    assert sys1.heap[|sys.heap| := Load(sys.store, m)] == sys.heap + [Load(sys.store, m)];
    AddModule(sys1, |sys.heap|)
  }

  /** The new object is available under its name, replacing any earlier one; other names are unaffected. */
  lemma RegisterLookup(sys: System, m: AnyModule)
    ensures OrderedMaps.Get(Register(sys, m).registry, Name(m)) == Some(|sys.heap|)
    ensures forall k :: k != Name(m) ==> OrderedMaps.Get(Register(sys, m).registry, k) == OrderedMaps.Get(sys.registry, k)
  {
    assert Construct(sys, m).heap[|sys.heap|] == m;
  }

  /** The new object listens to its own topics, after the listeners already there. */
  lemma RegisterSubscribes(sys: System, m: AnyModule, t: Topic)
    ensures Listeners(Register(sys, m).bus, t) == Listeners(sys.bus, t) + (if t in Subscriptions(m) then [|sys.heap|] else [])
  {
  }

  lemma RegisterKeepsWellFormed(sys: System, m: AnyModule)
    requires WellFormed(sys) && Valid(m)
    ensures WellFormed(Register(sys, m))
  {
    ConstructKeepsWellFormed(sys, m);
    AddModuleKeepsWellFormed(Construct(sys, m), |sys.heap|);
  }

  lemma ConstructKeepsWellFormed(sys: System, m: AnyModule)
    requires WellFormed(sys) && Valid(m)
    ensures WellFormed(Construct(sys, m))
  {
    var sys' := Construct(sys, m);
    forall t, i | 0 <= i < |Listeners(sys'.bus, t)|
      ensures Listeners(sys'.bus, t)[i] < |sys'.heap|
    {
      if i >= |Listeners(sys.bus, t)| {
        assert Listeners(sys'.bus, t)[i] == |sys.heap|;
      }
    }
    assert forall i :: 0 <= i < |sys.registry| ==> sys'.heap[sys.registry[i].1] == sys.heap[sys.registry[i].1];
  }

  lemma PrefixTransitive<T>(a: seq<T>, b: seq<T>, c: seq<T>)
    requires a <= b && b <= c
    ensures a <= c
  {
    assert b[..|a|] == a && c[..|b|] == b;
    assert c[..|a|] == c[..|b|][..|a|];
  }

  /** One `Started` call per position, in order. */
  function StartedCalls(ids: seq<nat>): (calls: seq<Call>)
    ensures |calls| == |ids|
    ensures forall i :: 0 <= i < |ids| ==> calls[i] == Started(ids[i])
  {
    if |ids| == 0 then [] else [Started(ids[0])] + StartedCalls(ids[1..])
  }

  /** `module.start()` on the object at `id`, whose publications are then delivered. */
  function StartOne(sys: System, id: nat): (sys': System)
    ensures sys'.calls == sys.calls + [Started(id)]
    ensures Evolves(sys.(calls := sys'.calls), sys')
  {
    var sys1 := sys.(calls := sys.calls + [Started(id)]);
    if id < |sys.heap| then PublishFromTop(sys1, Start(sys.heap[id])) else sys1
  }

  lemma StartOneKeepsWellFormed(sys: System, id: nat)
    requires WellFormed(sys)
    ensures WellFormed(StartOne(sys, id))
  {
    var sys' := StartOne(sys, id);
    EvolvesKeepsWellFormed(sys.(calls := sys'.calls), sys');
  }

  /**
   * Starts the objects at `ids` one after the other; each start's
   * publications are delivered before the next start.
   */
  function StartEach(sys: System, ids: seq<nat>): (sys': System)
    ensures sys'.calls == sys.calls + StartedCalls(ids)
    ensures sys'.bus == sys.bus && sys'.registry == sys.registry && sys'.store == sys.store
    ensures |sys'.heap| == |sys.heap| && sys.published <= sys'.published
    decreases |ids|
  {
    if |ids| == 0 then sys
    else
      var sys1 := StartOne(sys, ids[0]);
      assert Evolves(sys.(calls := sys1.calls), sys1);
      assert sys1.bus == sys.bus && sys1.registry == sys.registry && sys1.store == sys.store;
      assert |sys1.heap| == |sys.heap| && sys.published <= sys1.published;
      var sys2 := StartEach(sys1, ids[1..]);
      PrefixTransitive(sys.published, sys1.published, sys2.published);
      assert StartedCalls(ids) == [Started(ids[0])] + StartedCalls(ids[1..]);
      ConcatAssoc(sys.calls, [Started(ids[0])], StartedCalls(ids[1..]));
      sys2
  }

  lemma {:induction false} StartEachKeepsWellFormed(sys: System, ids: seq<nat>)
    requires WellFormed(sys)
    ensures WellFormed(StartEach(sys, ids))
    decreases |ids|
  {
    if |ids| > 0 {
      StartOneKeepsWellFormed(sys, ids[0]);
      StartEachKeepsWellFormed(StartOne(sys, ids[0]), ids[1..]);
    }
  }

  /** `startModules()`: every registered module is started once, in registration order. */
  function StartModules(sys: System): (sys': System)
    ensures sys'.calls == sys.calls + StartedCalls(Values(sys.registry))
    ensures sys'.bus == sys.bus && sys'.registry == sys.registry && sys'.store == sys.store
    ensures |sys'.heap| == |sys.heap| && sys.published <= sys'.published
  {
    StartEach(sys, Values(sys.registry))
  }

  /** The two routes the manager asks the web server for. */
  const ModulesUrl: string := "/modules"
  const ModuleUrl: string := "/modules/:moduleName"
  const ListRoute: Route := Route(ModulesUrl, Get, ListModules)
  const UpdateRoute: Route := Route(ModuleUrl, Post, UpdateModule)

  /** `createWebServerRoutes()`: GET /modules, then POST /modules/:moduleName. */
  function CreateWebServerRoutes(sys: System): (sys': System)
    ensures Evolves(sys, sys')
    ensures sys'.published == sys.published + [AddRoute(ListRoute), AddRoute(UpdateRoute)]
  {
    PublishFromTop(sys, [AddRoute(ListRoute), AddRoute(UpdateRoute)])
  }

  /** `settings.map(s => s.toData())`. */
  function ExportAll(ss: seq<Setting>): (ds: seq<SettingData>)
    ensures |ds| == |ss|
    ensures forall i :: 0 <= i < |ss| ==> ds[i] == Settings.ToData(ss[i])
  {
    if |ss| == 0 then [] else [Settings.ToData(ss[0])] + ExportAll(ss[1..])
  }

  /** `body.map(d => ModuleSetting.fromData(d))`. */
  function ImportAll(ds: seq<SettingData>): (ss: seq<Setting>)
    ensures |ss| == |ds|
    ensures forall i :: 0 <= i < |ds| ==> Settings.ToData(ss[i]) == ds[i]
  {
    if |ds| == 0 then [] else [Settings.FromData(ds[0])] + ImportAll(ds[1..])
  }

  lemma ImportExport(ss: seq<Setting>)
    ensures ImportAll(ExportAll(ss)) == ss
  {
    var ss' := ImportAll(ExportAll(ss));
    forall i | 0 <= i < |ss|
      ensures ss'[i] == ss[i]
    {
      assert Settings.ToData(ss'[i]) == Settings.ToData(ss[i]);
    }
  }

  /** What GET /modules lists for a registry entry: the exported settings, if there are any. */
  function Listing(heap: seq<AnyModule>, entry: Option<nat>): Option<seq<SettingData>>
  {
    match entry
    case None => None
    case Some(id) =>
      if id < |heap| && |GetSettings(heap[id])| > 0 then Some(ExportAll(GetSettings(heap[id]))) else None
  }

  /**
   * The `forEach` over the registry in `getModulesSettings`: a module is
   * listed under its registry name exactly when it has settings.
   */
  function SettingsListing(heap: seq<AnyModule>, entries: OrderedMap<string, nat>): (r: OrderedMap<string, seq<SettingData>>)
    ensures UniqueKeys(entries) ==> forall k :: OrderedMaps.Get(r, k) == Listing(heap, OrderedMaps.Get(entries, k))
    decreases |entries|
  {
    if |entries| == 0 then []
    else
      var n := |entries|;
      var acc := SettingsListing(heap, entries[..n - 1]);
      var r := ListOne(heap, acc, entries[n - 1]);
      assert UniqueKeys(entries) ==> forall k :: OrderedMaps.Get(r, k) == Listing(heap, OrderedMaps.Get(entries, k)) by {
        if UniqueKeys(entries) {
          ListingStep(heap, entries, acc);
        }
      }
      r
  }

  /** One step of the `forEach`: the entry is listed when its module has settings. */
  function ListOne(heap: seq<AnyModule>, acc: OrderedMap<string, seq<SettingData>>, entry: (string, nat)): OrderedMap<string, seq<SettingData>>
  {
    match Listing(heap, Some(entry.1))
    case Some(listed) => Set(acc, entry.0, listed)
    case None => acc
  }

  lemma ListingStep(heap: seq<AnyModule>, entries: OrderedMap<string, nat>, acc: OrderedMap<string, seq<SettingData>>)
    requires |entries| > 0 && UniqueKeys(entries)
    requires forall k :: OrderedMaps.Get(acc, k) == Listing(heap, OrderedMaps.Get(entries[..|entries| - 1], k))
    ensures forall k :: OrderedMaps.Get(ListOne(heap, acc, entries[|entries| - 1]), k) == Listing(heap, OrderedMaps.Get(entries, k))
  {
    forall k
      ensures OrderedMaps.Get(ListOne(heap, acc, entries[|entries| - 1]), k) == Listing(heap, OrderedMaps.Get(entries, k))
    {
      ListingStepAt(heap, entries, acc, k);
    }
  }

  /** `ListingStep` for one name. */
  lemma ListingStepAt(heap: seq<AnyModule>, entries: OrderedMap<string, nat>, acc: OrderedMap<string, seq<SettingData>>, k: string)
    requires |entries| > 0 && UniqueKeys(entries)
    requires OrderedMaps.Get(acc, k) == Listing(heap, OrderedMaps.Get(entries[..|entries| - 1], k))
    ensures OrderedMaps.Get(ListOne(heap, acc, entries[|entries| - 1]), k) == Listing(heap, OrderedMaps.Get(entries, k))
  {
    var last := entries[|entries| - 1];
    GetLast(entries, k);
    if k == last.0 {
      assert k !in Keys(entries[..|entries| - 1]);
    }
  }

  /** `getModulesSettings()`: the body GET /modules answers with. */
  function ModulesSettings(sys: System): (r: OrderedMap<string, seq<SettingData>>)
    ensures WellFormed(sys) ==> forall name :: OrderedMaps.Get(r, name) == Listing(sys.heap, OrderedMaps.Get(sys.registry, name))
  {
    SettingsListing(sys.heap, sys.registry)
  }

  /** Publishing one message that nothing re-publishes from is publishing it from the top. */
  lemma PublishFromTopOne(sys: System, msg: Message)
    ensures PublishFromTop(sys, [msg]) == Publish(sys, msg)
  {
    RankBounded(TopicOf(msg));
    assert [msg][1..] == [];
    assert PublishAll(Publish(sys, msg), [], MaxRank) == Publish(sys, msg);
  }

  /** Nothing listens to the restart message inside the model, so publishing it only logs it. */
  lemma RestartOnlyLogged(sys: System, m: AnyModule)
    ensures PublishFromTop(sys, Modules.Restart(m)) == sys.(published := sys.published + Modules.Restart(m))
  {
    if m.state.WebServerState? {
      PublishFromTopOne(sys, RestartSignal);
      PublishWithoutNesting(sys, RestartSignal);
      HandleAllIdle(sys.heap, Listeners(sys.bus, TopicOf(RestartSignal)), RestartSignal);
    }
  }

  /**
   * The POST /modules/:moduleName callback. An unknown name changes
   * nothing. A registered module gets the posted settings (none without a
   * body), is saved, then restarted.
   */
  function UpdateModuleSettings(sys: System, name: string, body: Option<seq<SettingData>>): (sys': System)
    ensures OrderedMaps.Get(sys.registry, name).None? ==> sys' == sys
    ensures WellFormed(sys) && OrderedMaps.Get(sys.registry, name).Some? ==>
      var id := OrderedMaps.Get(sys.registry, name).value;
      && id < |sys.heap|
      && var m := SetSettings(sys.heap[id], ImportAll(body.GetOr([])));
      && sys'.heap == sys.heap[id := m]
      && sys'.store == Save(sys.store, m)
      && sys'.calls == sys.calls + [SettingsApplied(id), Saved(name), Restarted(id)]
      && sys'.published == sys.published + Modules.Restart(m)
      && sys'.bus == sys.bus && sys'.registry == sys.registry
  {
    match OrderedMaps.Get(sys.registry, name)
    case None => sys
    case Some(id) =>
      if id < |sys.heap| then
        assert WellFormed(sys) ==> Name(sys.heap[id]) == name;
        ApplySettings(sys, id, body)
      else sys
  }

  /** Setting, saving and restarting the module object at `id`. */
  function ApplySettings(sys: System, id: nat, body: Option<seq<SettingData>>): (sys': System)
    requires id < |sys.heap|
    ensures var m := SetSettings(sys.heap[id], ImportAll(body.GetOr([])));
      && sys'.heap == sys.heap[id := m]
      && sys'.store == Save(sys.store, m)
      && sys'.calls == sys.calls + [SettingsApplied(id), Saved(Name(sys.heap[id])), Restarted(id)]
      && sys'.published == sys.published + Modules.Restart(m)
      && sys'.bus == sys.bus && sys'.registry == sys.registry
  {
    var m := SetSettings(sys.heap[id], ImportAll(body.GetOr([])));
    var sys1 := sys.(heap := sys.heap[id := m], store := Save(sys.store, m),
                     calls := sys.calls + [SettingsApplied(id), Saved(Name(m)), Restarted(id)]);
    RestartOnlyLogged(sys1, m);
    PublishFromTop(sys1, Modules.Restart(m))
  }

  lemma UpdateKeepsWellFormed(sys: System, name: string, body: Option<seq<SettingData>>)
    requires WellFormed(sys)
    ensures WellFormed(UpdateModuleSettings(sys, name, body))
  {
    var sys' := UpdateModuleSettings(sys, name, body);
    assert forall j :: 0 <= j < |sys.heap| ==> Name(sys'.heap[j]) == Name(sys.heap[j]) && Valid(sys'.heap[j]);
  }

  /**
   * Posting back what GET /modules lists for a module leaves every module
   * object as it was; the module is still saved and restarted.
   */
  lemma RepostListedSettings(sys: System, name: string)
    requires WellFormed(sys)
    requires OrderedMaps.Get(ModulesSettings(sys), name).Some?
    ensures UpdateModuleSettings(sys, name, OrderedMaps.Get(ModulesSettings(sys), name)).heap == sys.heap
  {
    var listed := OrderedMaps.Get(ModulesSettings(sys), name);
    assert listed == Listing(sys.heap, OrderedMaps.Get(sys.registry, name));
    var id := OrderedMaps.Get(sys.registry, name).value;
    ReapplyListed(sys.heap, id, listed.value);
  }

  lemma ReapplyListed(heap: seq<AnyModule>, id: nat, listed: seq<SettingData>)
    requires id < |heap| && Valid(heap[id])
    requires listed == ExportAll(GetSettings(heap[id]))
    ensures heap[id := SetSettings(heap[id], ImportAll(Some(listed).GetOr([])))] == heap
  {
    ImportExport(GetSettings(heap[id]));
    SetGetSettings(heap[id]);
  }

  /**
   * The GET /twitch/auth callback of the authentication object at `id`,
   * once the token endpoint has answered. On success the token replaces
   * the old one, the required scopes become the available ones, the token
   * is published and the module saved; on failure nothing happens.
   */
  function AuthRedirect(sys: System, id: nat, response: TA.TokenResponse): (sys': System)
    ensures !(id < |sys.heap| && sys.heap[id].state.TwitchAuthState?) ==> sys' == sys
    ensures response.Refused? ==> sys' == sys
    ensures id < |sys.heap| && sys.heap[id].state.TwitchAuthState? && response.Granted? ==>
      && id < |sys'.heap|
      && sys'.heap[id].base == sys.heap[id].base
      && sys'.heap[id].state.TwitchAuthState?
      && sys'.heap[id].state.auth.token == response.accessToken
      && sys'.heap[id].state.auth.availableScopes == sys.heap[id].state.auth.requiredScopes
      && sys'.published == sys.published + [Token(response.accessToken)]
      && sys'.store == Save(sys.store, sys'.heap[id])
      && sys'.store[Name(sys.heap[id])].token == Some(response.accessToken)
      && sys'.calls == sys.calls + [Saved(Name(sys.heap[id]))]
  {
    if id < |sys.heap| && sys.heap[id].state.TwitchAuthState? && response.Granted? then
      GrantToken(sys, id, response.accessToken)
    else sys
  }

  /** A granted token: the authentication object takes it, publishes it, and is saved. */
  function GrantToken(sys: System, id: nat, token: string): (sys': System)
    requires id < |sys.heap| && sys.heap[id].state.TwitchAuthState?
    ensures id < |sys'.heap|
    ensures sys'.heap[id].base == sys.heap[id].base
    ensures sys'.heap[id].state.TwitchAuthState?
    ensures sys'.heap[id].state.auth.token == token
    ensures sys'.heap[id].state.auth.availableScopes == sys.heap[id].state.auth.requiredScopes
    ensures sys'.published == sys.published + [Token(token)]
    ensures sys'.store == Save(sys.store, sys'.heap[id])
    ensures sys'.store[Name(sys.heap[id])].token == Some(token)
    ensures sys'.calls == sys.calls + [Saved(Name(sys.heap[id]))]
  {
    var m := sys.heap[id];
    var handled := TA.OnTokenResponse(ModuleBase.Module(m.base, m.state.auth), TA.Granted(token));
    var m' := TwitchAuth(handled.0);
    var sys1 := sys.(heap := sys.heap[id := m']);
    var msg := Token(token);
    var sys2 := PublishFromTop(sys1, [msg]);
    PublishFromTopOne(sys1, msg);
    PublishWithoutNesting(sys1, msg);
    HandleAllKeeps(sys1.heap, Listeners(sys1.bus, TwToken), msg, id);
    assert sys2.heap[id] == m';
    sys2.(store := Save(sys2.store, m'), calls := sys2.calls + [Saved(Name(m'))])
  }

  lemma AuthRedirectKeepsWellFormed(sys: System, id: nat, response: TA.TokenResponse)
    requires WellFormed(sys)
    ensures WellFormed(AuthRedirect(sys, id, response))
  {
    var sys' := AuthRedirect(sys, id, response);
    assert forall j :: 0 <= j < |sys.heap| ==> Name(sys'.heap[j]) == Name(sys.heap[j]) && Valid(sys'.heap[j]);
  }

  /**
   * The synchronous part of the manager's constructor: the web server object
   * is constructed and starts loading its record, and before that load
   * completes the manager asks for its two routes.
   */
  function Constructed(store: Store): (sys: System)
    ensures |sys.heap| == 1 && Name(sys.heap[0]) == WS.Name
    ensures sys.registry == [] && sys.store == store && sys.calls == []
    ensures sys.published == [AddRoute(ListRoute), AddRoute(UpdateRoute)]
  {
    var s0 := System([], NewBus(), [], store, [], []);
    CreateWebServerRoutes(Construct(s0, WebServer(WS.New())))
  }

  /** `registerModules()`, first step: the web server's load completes and it is registered. */
  function WithWebServer(store: Store): (sys: System)
    ensures |sys.heap| == 1 && sys.store == store
    ensures OrderedMaps.Get(sys.registry, WS.Name) == Some(0)
    ensures sys.calls == [Loaded(0)]
  {
    AddModule(Constructed(store), 0)
  }

  /** The modules `registerModules()` constructs after the web server, in order. */
  function OtherModules(env: Env): seq<AnyModule>
  {
    [TwitchAuth(TA.New(env.twitchClientId.GetOr(""))), TwitchTchat(TT.New()), GG(GGModule.New(env.ggReward))]
  }

  /** Each module is constructed, loaded and registered in turn. */
  function RegisterAll(sys: System, ms: seq<AnyModule>): (sys': System)
    decreases |ms|
  {
    if |ms| == 0 then sys else RegisterAll(Register(sys, ms[0]), ms[1..])
  }

  /** `registerModules()`. */
  function Registered(env: Env, store: Store): (sys: System)
    ensures |sys.heap| == 4 && sys.store == store
  {
    RegisterAllHeap(WithWebServer(store), OtherModules(env));
    RegisterAll(WithWebServer(store), OtherModules(env))
  }

  /** The registry entries `RegisterAll` adds: each module's name with its heap position. */
  function Entries(ms: seq<AnyModule>, first: nat): (r: OrderedMap<string, nat>)
    ensures |r| == |ms|
    ensures forall i :: 0 <= i < |ms| ==> r[i] == (Name(ms[i]), first + i)
    decreases |ms|
  {
    if |ms| == 0 then [] else [(Name(ms[0]), first)] + Entries(ms[1..], first + 1)
  }

  function LoadAll(store: Store, ms: seq<AnyModule>): (r: seq<AnyModule>)
    ensures |r| == |ms|
    ensures forall i :: 0 <= i < |ms| ==> r[i] == Load(store, ms[i])
    decreases |ms|
  {
    if |ms| == 0 then [] else [Load(store, ms[0])] + LoadAll(store, ms[1..])
  }

  function LoadedCalls(first: nat, n: nat): (r: seq<Call>)
    ensures |r| == n
    ensures forall i :: 0 <= i < n ==> r[i] == Loaded(first + i)
    decreases n
  {
    if n == 0 then [] else [Loaded(first)] + LoadedCalls(first + 1, n - 1)
  }

  /** The positions among `ms`, counted from `first`, of the modules subscribing to `t`. */
  function SubscribedIds(ms: seq<AnyModule>, first: nat, t: Topic): seq<nat>
    decreases |ms|
  {
    if |ms| == 0 then []
    else (if t in Subscriptions(ms[0]) then [first] else []) + SubscribedIds(ms[1..], first + 1, t)
  }

  lemma ConcatAssoc<T>(a: seq<T>, b: seq<T>, c: seq<T>)
    ensures (a + b) + c == a + (b + c)
  {
  }

  /** One registration step, stated for the induction over `RegisterAll`. */
  lemma RegisterFirst(sys: System, ms: seq<AnyModule>)
    requires forall i, j :: 0 <= i < j < |ms| ==> Name(ms[i]) != Name(ms[j])
    requires forall i :: 0 <= i < |ms| ==> Name(ms[i]) !in Keys(sys.registry)
    requires |ms| > 0
    ensures Register(sys, ms[0]).registry == sys.registry + [(Name(ms[0]), |sys.heap|)]
    ensures forall i :: 0 <= i < |ms[1..]| ==> Name(ms[1..][i]) !in Keys(Register(sys, ms[0]).registry)
  {
    assert Keys(Register(sys, ms[0]).registry) == Keys(sys.registry) + [Name(ms[0])];
  }

  lemma RegisterAllUnfold(sys: System, ms: seq<AnyModule>)
    requires |ms| > 0
    ensures RegisterAll(sys, ms) == RegisterAll(Register(sys, ms[0]), ms[1..])
    ensures |Register(sys, ms[0]).heap| == |sys.heap| + 1
  {
  }

  lemma DistinctNamesTail(ms: seq<AnyModule>)
    requires |ms| > 0 && forall i, j :: 0 <= i < j < |ms| ==> Name(ms[i]) != Name(ms[j])
    ensures forall i, j :: 0 <= i < j < |ms[1..]| ==> Name(ms[1..][i]) != Name(ms[1..][j])
  {
    forall i, j | 0 <= i < j < |ms[1..]|
      ensures Name(ms[1..][i]) != Name(ms[1..][j])
    {
      assert ms[1..][i] == ms[i + 1] && ms[1..][j] == ms[j + 1];
    }
  }

  lemma EntriesStep(r: OrderedMap<string, nat>, r1: OrderedMap<string, nat>, r2: OrderedMap<string, nat>, ms: seq<AnyModule>, n: nat)
    requires |ms| > 0
    requires r1 == r + [(Name(ms[0]), n)] && r2 == r1 + Entries(ms[1..], n + 1)
    ensures r2 == r + Entries(ms, n)
  {
    assert Entries(ms, n) == [(Name(ms[0]), n)] + Entries(ms[1..], n + 1);
    ConcatAssoc(r, [(Name(ms[0]), n)], Entries(ms[1..], n + 1));
  }

  lemma LoadAllStep(h: seq<AnyModule>, h1: seq<AnyModule>, h2: seq<AnyModule>, store: Store, ms: seq<AnyModule>)
    requires |ms| > 0
    requires h1 == h + [Load(store, ms[0])] && h2 == h1 + LoadAll(store, ms[1..])
    ensures h2 == h + LoadAll(store, ms)
  {
    assert LoadAll(store, ms) == [Load(store, ms[0])] + LoadAll(store, ms[1..]);
    ConcatAssoc(h, [Load(store, ms[0])], LoadAll(store, ms[1..]));
  }

  lemma LoadedCallsStep(c: seq<Call>, c1: seq<Call>, c2: seq<Call>, first: nat, next: nat, n: nat)
    requires n > 0 && next == first + 1
    requires c1 == c + [Loaded(first)] && c2 == c1 + LoadedCalls(next, n - 1)
    ensures c2 == c + LoadedCalls(first, n)
  {
    assert LoadedCalls(first, n) == [Loaded(first)] + LoadedCalls(first + 1, n - 1);
    ConcatAssoc(c, [Loaded(first)], LoadedCalls(first + 1, n - 1));
  }

  /** Registering modules appends them to the heap, loaded, in order, and publishes nothing. */
  lemma {:induction false} RegisterAllHeap(sys: System, ms: seq<AnyModule>)
    ensures RegisterAll(sys, ms).heap == sys.heap + LoadAll(sys.store, ms)
    ensures RegisterAll(sys, ms).store == sys.store
    ensures RegisterAll(sys, ms).published == sys.published
    decreases |ms|
  {
    if |ms| > 0 {
      var sys1 := Register(sys, ms[0]);
      var rest := RegisterAll(sys1, ms[1..]);
      assert RegisterAll(sys, ms).heap == rest.heap && RegisterAll(sys, ms).store == rest.store;
      assert RegisterAll(sys, ms).published == rest.published;
      RegisterAllHeap(sys1, ms[1..]);
      LoadAllStep(sys.heap, sys1.heap, rest.heap, sys.store, ms);
    }
  }

  /** Registering modules logs one load each, in order. */
  lemma {:induction false} RegisterAllCalls(sys: System, ms: seq<AnyModule>)
    ensures RegisterAll(sys, ms).calls == sys.calls + LoadedCalls(|sys.heap|, |ms|)
    decreases |ms|
  {
    if |ms| > 0 {
      var sys1 := Register(sys, ms[0]);
      var rest := RegisterAll(sys1, ms[1..]);
      assert RegisterAll(sys, ms) == rest;
      assert |sys1.heap| == |sys.heap| + 1 && |ms[1..]| == |ms| - 1;
      RegisterAllCalls(sys1, ms[1..]);
      LoadedCallsStep(sys.calls, sys1.calls, rest.calls, |sys.heap|, |sys1.heap|, |ms|);
    }
  }

  /** Registering modules with distinct new names appends their entries to the registry in order. */
  lemma {:induction false} RegisterAllRegistry(sys: System, ms: seq<AnyModule>)
    requires forall i, j :: 0 <= i < j < |ms| ==> Name(ms[i]) != Name(ms[j])
    requires forall i :: 0 <= i < |ms| ==> Name(ms[i]) !in Keys(sys.registry)
    ensures RegisterAll(sys, ms).registry == sys.registry + Entries(ms, |sys.heap|)
    decreases |ms|
  {
    if |ms| > 0 {
      var sys1 := Register(sys, ms[0]);
      var rest := RegisterAll(sys1, ms[1..]);
      RegisterAllUnfold(sys, ms);
      DistinctNamesTail(ms);
      RegisterFirst(sys, ms);
      RegisterAllRegistry(sys1, ms[1..]);
      EntriesStep(sys.registry, sys1.registry, rest.registry, ms, |sys.heap|);
    }
  }

  /** Each registered module is subscribed to its topics, after the listeners already there. */
  lemma {:induction false} RegisterAllBus(sys: System, ms: seq<AnyModule>, t: Topic)
    ensures Listeners(RegisterAll(sys, ms).bus, t) == Listeners(sys.bus, t) + SubscribedIds(ms, |sys.heap|, t)
    decreases |ms|
  {
    if |ms| > 0 {
      var sys1 := Register(sys, ms[0]);
      var added := if t in Subscriptions(ms[0]) then [|sys.heap|] else [];
      RegisterSubscribes(sys, ms[0], t);
      RegisterAllBus(sys1, ms[1..], t);
      ListenersAppend(Listeners(sys.bus, t), Listeners(sys1.bus, t), Listeners(RegisterAll(sys1, ms[1..]).bus, t),
        added, SubscribedIds(ms[1..], |sys.heap| + 1, t), SubscribedIds(ms, |sys.heap|, t));
    }
  }

  /** Listeners appended in two steps are the first ones followed by all the added ones. */
  lemma ListenersAppend(before: seq<nat>, middle: seq<nat>, after: seq<nat>, added: seq<nat>, rest: seq<nat>, all: seq<nat>)
    requires middle == before + added && after == middle + rest && all == added + rest
    ensures after == before + all
  {
    ConcatAssoc(before, added, rest);
  }

  /** `new ModulesManager()` run to completion: registration, then `startModules()`. */
  function Boot(env: Env, store: Store): (sys: System)
    ensures |sys.heap| == 4 && sys.store == store
    ensures Registered(env, store).published <= sys.published
  {
    StartModules(Registered(env, store))
  }

  /** Every stage of booting keeps the system well formed. */
  lemma BootWellFormed(env: Env, store: Store)
    ensures WellFormed(Boot(env, store))
  {
    var sys := Registered(env, store);
    RegisteredWellFormed(env, store);
    StartEachKeepsWellFormed(sys, Values(sys.registry));
  }

  lemma RegisteredWellFormed(env: Env, store: Store)
    ensures WellFormed(Registered(env, store))
  {
    var ms := OtherModules(env);
    WithWebServerWellFormed(store);
    OtherModulesValid(env);
    RegisterAllKeepsWellFormed(WithWebServer(store), ms);
  }

  lemma WithWebServerWellFormed(store: Store)
    ensures WellFormed(WithWebServer(store))
  {
    var s0 := System([], NewBus(), [], store, [], []);
    assert WellFormed(s0);
    var s1 := Construct(s0, WebServer(WS.New()));
    ConstructKeepsWellFormed(s0, WebServer(WS.New()));
    EvolvesKeepsWellFormed(s1, Constructed(store));
    AddModuleKeepsWellFormed(Constructed(store), 0);
  }

  /** The web server object once it holds the manager's two routes. */
  function ServingManagerRoutes(): WS.WebServerModule
  {
    var w := WS.New();
    w.(state := w.state.(routes := [ListRoute, UpdateRoute]))
  }

  /** A route published while the web server is the only object, and the only listener, is added to its routes. */
  lemma RouteAdded(sys: System, w: WS.WebServerModule, r: Route)
    requires sys.heap == [WebServer(w)] && Listeners(sys.bus, WsAddRoute) == [0]
    ensures Publish(sys, AddRoute(r)).heap == [WebServer(WS.OnAddRoute(w, r))]
    ensures Publish(sys, AddRoute(r)).bus == sys.bus
  {
    PublishWithoutNesting(sys, AddRoute(r));
    HandleOne(sys.heap, 0, AddRoute(r));
  }

  /** The web server holds the manager's two routes before it is registered. */
  lemma ConstructedHeap(store: Store)
    ensures Constructed(store).heap == [WebServer(ServingManagerRoutes())]
  {
    var s0 := System([], NewBus(), [], store, [], []);
    var s1 := Construct(s0, WebServer(WS.New()));
    WebServerConstructed(s0, s1);
    TwoRoutesAdded(s1, WS.New());
    ManagerRoutesServed();
  }

  /** On an empty system, constructing the web server makes it the only object and the only `ws_add_route` listener. */
  lemma WebServerConstructed(s0: System, s1: System)
    requires s0.heap == [] && s0.bus == NewBus() && s1 == Construct(s0, WebServer(WS.New()))
    ensures s1.heap == [WebServer(WS.New())] && Listeners(s1.bus, WsAddRoute) == [0]
  {
    assert WsAddRoute in Subscriptions(WebServer(WS.New()));
  }

  /** The manager's two routes, published while the web server is the only listener, are both added to it. */
  lemma TwoRoutesAdded(s1: System, w: WS.WebServerModule)
    requires s1.heap == [WebServer(w)] && Listeners(s1.bus, WsAddRoute) == [0]
    ensures CreateWebServerRoutes(s1).heap == [WebServer(WS.OnAddRoute(WS.OnAddRoute(w, ListRoute), UpdateRoute))]
  {
    var r1, r2 := AddRoute(ListRoute), AddRoute(UpdateRoute);
    RouteAdded(s1, w, ListRoute);
    var s2 := Publish(s1, r1);
    RouteAdded(s2, WS.OnAddRoute(w, ListRoute), UpdateRoute);
    var s3 := Publish(s2, r2);
    assert [r1, r2][1..] == [r2];
    assert PublishAll(s1, [r1, r2], MaxRank) == PublishAll(s2, [r2], MaxRank);
    assert PublishAll(s2, [r2], MaxRank) == PublishAll(s3, [], MaxRank);
  }

  lemma ManagerRoutesServed()
    ensures WS.OnAddRoute(WS.OnAddRoute(WS.New(), ListRoute), UpdateRoute) == ServingManagerRoutes()
  {
    var w1 := WS.OnAddRoute(WS.New(), ListRoute);
    assert WS.OnAddRoute(w1, UpdateRoute).state.routes == [ListRoute, UpdateRoute];
  }

  /** Before registration nothing is registered or called, the two routes are published, and only the web server listens. */
  lemma ConstructedLog(store: Store)
    ensures var sys := Constructed(store);
      && sys.registry == [] && sys.calls == []
      && sys.published == [AddRoute(ListRoute), AddRoute(UpdateRoute)]
      && (forall t :: Listeners(sys.bus, t) == if t == WsAddRoute then [0] else [])
  {
  }

  /** Who listens to what once the four modules are constructed: each topic has at most one listener. */
  function BootListeners(t: Topic): seq<nat>
  {
    match t
    case WsAddRoute => [0]
    case TwRequireScope => [1]
    case WsInfo => [1]
    case TwToken => [2]
    case TwMessage => [3]
    case _ => []
  }

  /** Once registered, the web server holds the manager's two routes and is the only module. */
  lemma WithWebServerHeap(store: Store)
    ensures WithWebServer(store).heap == [Load(store, WebServer(ServingManagerRoutes()))]
    ensures WithWebServer(store).store == store
  {
    ConstructedHeap(store);
  }

  lemma WithWebServerRegistry(store: Store)
    ensures WithWebServer(store).registry == [(WS.Name, 0)]
    ensures |WithWebServer(store).heap| == 1
  {
    ConstructedHeap(store);
    ConstructedLog(store);
  }

  lemma WithWebServerCalls(store: Store)
    ensures WithWebServer(store).calls == [Loaded(0)]
    ensures WithWebServer(store).published == [AddRoute(ListRoute), AddRoute(UpdateRoute)]
  {
    ConstructedHeap(store);
    ConstructedLog(store);
  }

  lemma WithWebServerBus(store: Store, t: Topic)
    ensures Listeners(WithWebServer(store).bus, t) == if t == WsAddRoute then [0] else []
  {
    ConstructedHeap(store);
    ConstructedLog(store);
  }

  lemma RegisteredHeap(env: Env, store: Store)
    ensures Registered(env, store).heap == [Load(store, WebServer(ServingManagerRoutes()))] + LoadAll(store, OtherModules(env))
    ensures Registered(env, store).store == store
  {
    WithWebServerHeap(store);
    RegisterAllHeap(WithWebServer(store), OtherModules(env));
  }

  /** The three modules registered after the web server, in `registerModules()` order. */
  lemma OtherModulesShape(env: Env)
    ensures |OtherModules(env)| == 3
    ensures Name(OtherModules(env)[0]) == TA.Name
    ensures Name(OtherModules(env)[1]) == TT.Name
    ensures Name(OtherModules(env)[2]) == GGModule.Name && OtherModules(env)[2].state.GGState?
    ensures Subscriptions(OtherModules(env)[0]) == TA.Subscriptions()
    ensures Subscriptions(OtherModules(env)[1]) == TT.Subscriptions()
    ensures Subscriptions(OtherModules(env)[2]) == GGModule.Subscriptions()
  {
  }

  lemma OtherModulesValid(env: Env)
    ensures forall i :: 0 <= i < |OtherModules(env)| ==> Valid(OtherModules(env)[i])
  {
  }

  lemma RegistryFromOne(sys: System, ms: seq<AnyModule>)
    requires sys.registry == [(WS.Name, 0)] && |sys.heap| == 1
    requires |ms| == 3 && Name(ms[0]) == TA.Name && Name(ms[1]) == TT.Name && Name(ms[2]) == GGModule.Name
    ensures var r := RegisterAll(sys, ms).registry;
      && |r| == 4
      && r[0] == (WS.Name, 0)
      && r[1] == (TA.Name, 1)
      && r[2] == (TT.Name, 2)
      && r[3] == (GGModule.Name, 3)
  {
    assert Keys(sys.registry) == [WS.Name];
    RegisterAllRegistry(sys, ms);
  }

  /** After registration the registry maps each module's name to its position, in registration order. */
  lemma RegisteredRegistry(env: Env, store: Store)
    ensures var r := Registered(env, store).registry;
      && |r| == 4
      && r[0] == (WS.Name, 0)
      && r[1] == (TA.Name, 1)
      && r[2] == (TT.Name, 2)
      && r[3] == (GGModule.Name, 3)
  {
    OtherModulesShape(env);
    WithWebServerRegistry(store);
    RegistryFromOne(WithWebServer(store), OtherModules(env));
  }

  lemma FourLoaded(c: seq<Call>)
    requires c == [Loaded(0)] + LoadedCalls(1, 3)
    ensures |c| == 4 && forall i :: 0 <= i < 4 ==> c[i] == Loaded(i)
  {
  }

  /** Each of the four modules is loaded exactly once, in registration order, and nothing more is published. */
  lemma RegisteredCalls(env: Env, store: Store)
    ensures var c := Registered(env, store).calls;
      |c| == 4 && forall i :: 0 <= i < 4 ==> c[i] == Loaded(i)
    ensures Registered(env, store).published == [AddRoute(ListRoute), AddRoute(UpdateRoute)]
  {
    WithWebServerCalls(store);
    WithWebServerRegistry(store);
    OtherModulesShape(env);
    RegisterAllCalls(WithWebServer(store), OtherModules(env));
    FourLoaded(Registered(env, store).calls);
    RegisterAllHeap(WithWebServer(store), OtherModules(env));
  }

  /** `t`'s listener among the module at position `id`, if it subscribes to `t`. */
  function SubscriberAt(m: AnyModule, id: nat, t: Topic): seq<nat>
  {
    if t in Subscriptions(m) then [id] else []
  }

  lemma {:induction false} SubscribedThree(ms: seq<AnyModule>, t: Topic)
    requires |ms| == 3
    ensures SubscribedIds(ms, 1, t) == SubscriberAt(ms[0], 1, t) + SubscriberAt(ms[1], 2, t) + SubscriberAt(ms[2], 3, t)
  {
    var a, b, c := SubscriberAt(ms[0], 1, t), SubscriberAt(ms[1], 2, t), SubscriberAt(ms[2], 3, t);
    assert ms[1..][1..] == ms[2..] && ms[2..][1..] == [];
    assert SubscribedIds(ms[2..], 3, t) == c + SubscribedIds([], 4, t);
    assert SubscribedIds(ms[1..], 2, t) == b + SubscribedIds(ms[2..], 3, t);
    assert SubscribedIds(ms, 1, t) == a + SubscribedIds(ms[1..], 2, t);
    assert c + [] == c;
    ConcatAssoc(a, b, c);
  }

  lemma BootSubscribers(first: seq<nat>, ms: seq<AnyModule>, t: Topic)
    requires first == if t == WsAddRoute then [0] else []
    requires |ms| == 3
    requires Subscriptions(ms[0]) == TA.Subscriptions()
    requires Subscriptions(ms[1]) == TT.Subscriptions()
    requires Subscriptions(ms[2]) == GGModule.Subscriptions()
    ensures first + SubscribedIds(ms, 1, t) == BootListeners(t)
  {
    SubscribedThree(ms, t);
  }

  /** After registration every topic has the listener `BootListeners` names, and no other. */
  lemma RegisteredBus(env: Env, store: Store, t: Topic)
    ensures Listeners(Registered(env, store).bus, t) == BootListeners(t)
  {
    var ms := OtherModules(env);
    WithWebServerBus(store, t);
    WithWebServerRegistry(store);
    RegisterAllBus(WithWebServer(store), ms, t);
    OtherModulesShape(env);
    BootSubscribers(Listeners(WithWebServer(store).bus, t), ms, t);
  }

  /**
   * The one nested publication: when GG (object 3) is the only listener of
   * chat messages and nobody listens to stream messages, as after
   * registration, a chat message is logged, GG's listener answers it, and its
   * stream message is logged right after it. No module object changes.
   */
  lemma ChatThroughGG(sys: System, chat: TchatMessage)
    requires Listeners(sys.bus, TwMessage) == [3] && Listeners(sys.bus, WsSendOnStream) == []
    requires 3 < |sys.heap| && sys.heap[3].state.GGState?
    ensures Publish(sys, Chat(chat)).heap == sys.heap
    ensures Publish(sys, Chat(chat)).published ==
      sys.published + [Chat(chat)] + GGModule.OnChat(ModuleBase.Module(sys.heap[3].base, sys.heap[3].state.gg), chat)
  {
    var msg := Chat(chat);
    PublishToOne(sys, msg, 3);
    GGDelivery(sys.(published := sys.published + [msg]), chat);
  }

  /** After registration a chat message reaches GG alone, and GG's answer is all it adds to the log. */
  lemma ChatAfterRegistration(env: Env, store: Store, chat: TchatMessage)
    ensures var sys := Registered(env, store);
      && 3 < |sys.heap| && sys.heap[3].state.GGState?
      && Publish(sys, Chat(chat)).heap == sys.heap
      && Publish(sys, Chat(chat)).published ==
           sys.published + [Chat(chat)] + GGModule.OnChat(ModuleBase.Module(sys.heap[3].base, sys.heap[3].state.gg), chat)
  {
    RegisteredBus(env, store, TwMessage);
    RegisteredBus(env, store, WsSendOnStream);
    RegisteredGG(env, store);
    ChatWithBootBus(Registered(env, store), chat);
  }

  /** The boot subscriptions route a chat message to the GG module alone. */
  lemma ChatWithBootBus(sys: System, chat: TchatMessage)
    requires Listeners(sys.bus, TwMessage) == BootListeners(TwMessage)
    requires Listeners(sys.bus, WsSendOnStream) == BootListeners(WsSendOnStream)
    requires 3 < |sys.heap| && sys.heap[3].state.GGState?
    ensures Publish(sys, Chat(chat)).heap == sys.heap
    ensures Publish(sys, Chat(chat)).published ==
      sys.published + [Chat(chat)] + GGModule.OnChat(ModuleBase.Module(sys.heap[3].base, sys.heap[3].state.gg), chat)
  {
    assert BootListeners(TwMessage) == [3];
    assert BootListeners(WsSendOnStream) == [];
    ChatThroughGG(sys, chat);
  }

  /** The fourth registered object is the GG module. */
  lemma RegisteredGG(env: Env, store: Store)
    ensures 3 < |Registered(env, store).heap| && Registered(env, store).heap[3].state.GGState?
  {
    var ms := OtherModules(env);
    RegisteredHeap(env, store);
    OtherModulesShape(env);
    LoadedKind(Registered(env, store).heap, Load(store, WebServer(ServingManagerRoutes())), LoadAll(store, ms), store, ms);
  }

  /** Loading keeps each object's kind, so the fourth object of the heap is the GG module. */
  lemma LoadedKind(heap: seq<AnyModule>, first: AnyModule, loaded: seq<AnyModule>, store: Store, ms: seq<AnyModule>)
    requires |ms| == 3 && ms[2].state.GGState?
    requires loaded == LoadAll(store, ms) && heap == [first] + loaded
    ensures 3 < |heap| && heap[3].state.GGState?
  {
    assert heap[3] == loaded[2] == Load(store, ms[2]);
  }

  /** Delivering a chat message to GG alone logs what GG publishes in answer, and nothing else. */
  lemma GGDelivery(sys: System, chat: TchatMessage)
    requires Listeners(sys.bus, WsSendOnStream) == []
    requires 3 < |sys.heap| && sys.heap[3].state.GGState?
    ensures DeliverAll(sys, [Delivery(3, Chat(chat))], 1) ==
      sys.(published := sys.published + GGModule.OnChat(ModuleBase.Module(sys.heap[3].base, sys.heap[3].state.gg), chat))
  {
    var out := GGModule.OnChat(ModuleBase.Module(sys.heap[3].base, sys.heap[3].state.gg), chat);
    GGOutput(ModuleBase.Module(sys.heap[3].base, sys.heap[3].state.gg), chat, out);
    GGAnswers(sys, chat);
    DeliverSingle(sys, 3, Chat(chat), sys, out);
    StreamUnheard(sys, out);
  }

  /** What GG answers is at most one `ws_send_on_stream`, a topic of rank 0. */
  lemma GGOutput(m: GGModule.GGModule, chat: TchatMessage, out: seq<Message>)
    requires out == GGModule.OnChat(m, chat)
    ensures |out| <= 1
    ensures forall i :: 0 <= i < |out| ==> TopicOf(out[i]) == WsSendOnStream && Rank(TopicOf(out[i])) == 0
  {
  }

  /** A message with a single listener is logged, then delivered to that listener alone. */
  lemma PublishToOne(sys: System, msg: Message, h: nat)
    requires Listeners(sys.bus, TopicOf(msg)) == [h]
    ensures Publish(sys, msg) == DeliverAll(sys.(published := sys.published + [msg]), [Delivery(h, msg)], Rank(TopicOf(msg)))
  {
    assert Emit(sys.bus, msg) == [Delivery(h, msg)];
  }

  /** Delivering one message at rank 1: its listener runs, then what it publishes is published. */
  lemma DeliverSingle(sys: System, h: nat, msg: Message, next: System, out: seq<Message>)
    requires Invoke(sys, h, msg) == (next, out)
    requires forall i :: 0 <= i < |out| ==> Rank(TopicOf(out[i])) == 0
    ensures DeliverAll(sys, [Delivery(h, msg)], 1) == if |out| == 0 then next else PublishAll(next, out, 0)
  {
    RankBounded(TopicOf(msg));
    assert [Delivery(h, msg)][1..] == [];
  }

  /** GG's listener leaves the object as it is and publishes what `OnChat` returns. */
  lemma GGAnswers(sys: System, chat: TchatMessage)
    requires 3 < |sys.heap| && sys.heap[3].state.GGState?
    ensures Invoke(sys, 3, Chat(chat)) == (sys, GGModule.OnChat(ModuleBase.Module(sys.heap[3].base, sys.heap[3].state.gg), chat))
  {
    assert sys.heap[3 := sys.heap[3]] == sys.heap;
  }

  /** Stream messages have no listener: publishing them only logs them. */
  lemma StreamUnheard(sys: System, out: seq<Message>)
    requires Listeners(sys.bus, WsSendOnStream) == []
    requires |out| <= 1 && forall i :: 0 <= i < |out| ==> TopicOf(out[i]) == WsSendOnStream
    ensures (if |out| == 0 then sys else PublishAll(sys, out, 0)) == sys.(published := sys.published + out)
  {
    if |out| == 1 {
      PublishWithoutNesting(sys, out[0]);
      assert HandleAll(sys.heap, [], out[0]) == sys.heap;
      assert out[1..] == [];
    } else {
      assert sys.published + out == sys.published;
    }
  }

  lemma StartAfterLoad(sys: System, booted: System)
    requires |sys.registry| == 4
    requires sys.registry[0].1 == 0 && sys.registry[1].1 == 1 && sys.registry[2].1 == 2 && sys.registry[3].1 == 3
    requires |sys.calls| == 4 && forall i :: 0 <= i < 4 ==> sys.calls[i] == Loaded(i)
    requires booted == StartModules(sys)
    ensures |booted.calls| == 8 && forall i :: 0 <= i < 4 ==> booted.calls[i] == Loaded(i) && booted.calls[4 + i] == Started(i)
  {
  }

  /** Booting loads the four modules, then starts each of them exactly once, both in registration order. */
  lemma BootCalls(env: Env, store: Store)
    ensures var c := Boot(env, store).calls;
      |c| == 8 && forall i :: 0 <= i < 4 ==> c[i] == Loaded(i) && c[4 + i] == Started(i)
  {
    RegisteredRegistry(env, store);
    RegisteredCalls(env, store);
    StartAfterLoad(Registered(env, store), Boot(env, store));
  }

  lemma {:induction false} RegisterAllKeepsWellFormed(sys: System, ms: seq<AnyModule>)
    requires WellFormed(sys)
    requires forall i :: 0 <= i < |ms| ==> Valid(ms[i])
    ensures WellFormed(RegisterAll(sys, ms))
    decreases |ms|
  {
    if |ms| > 0 {
      RegisterKeepsWellFormed(sys, ms[0]);
      RegisterAllKeepsWellFormed(Register(sys, ms[0]), ms[1..]);
    }
  }
}
