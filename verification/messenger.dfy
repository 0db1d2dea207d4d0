/**
 * The message bus: each topic maps to the ordered list of handlers that
 * subscribed to it. Handlers are opaque identifiers; emitting a message
 * yields the ordered log of deliveries it makes.
 */
module Messenger {
  import opened Messages

  type Bus<H> = map<Topic, seq<H>>

  function NewBus<H>(): (bus: Bus<H>)
    ensures forall t :: Listeners(bus, t) == []
  {
    map[]
  }

  /** The handlers subscribed to `t`, in subscription order. */
  function Listeners<H>(bus: Bus<H>, t: Topic): (hs: seq<H>)
    ensures t !in bus ==> hs == []
    ensures t in bus ==> hs == bus[t]
  {
    if t in bus then bus[t] else []
  }

  /**
   * Subscribes `h` to `t`: appended after the existing handlers of `t`
   * (the list is created when `t` has none), every other topic untouched.
   */
  function AddListener<H>(bus: Bus<H>, t: Topic, h: H): (bus': Bus<H>)
    ensures Listeners(bus', t) == Listeners(bus, t) + [h]
    ensures forall u :: u != t ==> Listeners(bus', u) == Listeners(bus, u)
  {
    bus[t := Listeners(bus, t) + [h]]
  }

  /** One handler invocation with its message. */
  datatype Delivery<H> = Delivery(handler: H, message: Message)

  /** One delivery of `m` to each handler of `hs`, in order. */
  function DeliverEach<H>(hs: seq<H>, m: Message): (log: seq<Delivery<H>>)
    ensures |log| == |hs|
    ensures forall i :: 0 <= i < |log| ==> log[i] == Delivery(hs[i], m)
  {
    if |hs| == 0 then [] else [Delivery(hs[0], m)] + DeliverEach(hs[1..], m)
  }

  /**
   * Emits `m`: every handler subscribed to its topic receives it once, in
   * subscription order; with no handler nothing is delivered. The bus
   * itself is not changed.
   */
  function Emit<H>(bus: Bus<H>, m: Message): (log: seq<Delivery<H>>)
    ensures |log| == |Listeners(bus, TopicOf(m))|
    ensures forall i :: 0 <= i < |log| ==>
      log[i].handler == Listeners(bus, TopicOf(m))[i] && log[i].message == m
  {
    DeliverEach(Listeners(bus, TopicOf(m)), m)
  }

  /** The handlers of a delivery log, in order. */
  function Handlers<H>(log: seq<Delivery<H>>): (hs: seq<H>)
    ensures |hs| == |log|
    ensures forall i :: 0 <= i < |hs| ==> hs[i] == log[i].handler
  {
    if |log| == 0 then [] else [log[0].handler] + Handlers(log[1..])
  }

  lemma EmitHandlers<H>(bus: Bus<H>, m: Message)
    ensures Handlers(Emit(bus, m)) == Listeners(bus, TopicOf(m))
  {
  }

  /** Emitting on a topic nobody subscribed to delivers nothing. */
  lemma EmitWithoutListeners<H>(bus: Bus<H>, m: Message)
    requires TopicOf(m) !in bus
    ensures Emit(bus, m) == []
  {
  }

  /**
   * There is no duplicate detection: a handler subscribed k times to a
   * topic receives each message of that topic k times.
   */
  lemma EmitCountsSubscriptions<H>(bus: Bus<H>, m: Message, h: H)
    ensures multiset(Handlers(Emit(bus, m)))[h] == multiset(Listeners(bus, TopicOf(m)))[h]
  {
    EmitHandlers(bus, m);
  }

  /**
   * A subscription reaches exactly the emissions made after it: emitting
   * after subscribing `h` to `t` delivers what the old bus delivered, then
   * one delivery to `h` when the message's topic is `t`.
   */
  lemma EmitAfterAddListener<H>(bus: Bus<H>, t: Topic, h: H, m: Message)
    ensures Emit(AddListener(bus, t, h), m) ==
      Emit(bus, m) + (if TopicOf(m) == t then [Delivery(h, m)] else [])
  {
  }

  /** The bus after a sequence of subscriptions, made in order on `bus`. */
  function SubscribeAll<H>(bus: Bus<H>, subs: seq<(Topic, H)>): Bus<H>
    decreases |subs|
  {
    if |subs| == 0 then bus
    else SubscribeAll(AddListener(bus, subs[0].0, subs[0].1), subs[1..])
  }

  /** The handlers of the subscriptions to `t`, in the order they were made. */
  function SubscribersOf<H>(subs: seq<(Topic, H)>, t: Topic): seq<H>
  {
    if |subs| == 0 then []
    else (if subs[0].0 == t then [subs[0].1] else []) + SubscribersOf(subs[1..], t)
  }

  lemma {:induction false} ListenersAfterSubscribeAll<H>(bus: Bus<H>, subs: seq<(Topic, H)>, t: Topic)
    ensures Listeners(SubscribeAll(bus, subs), t) == Listeners(bus, t) + SubscribersOf(subs, t)
    decreases |subs|
  {
    if |subs| > 0 {
      var bus1 := AddListener(bus, subs[0].0, subs[0].1);
      ListenersAfterSubscribeAll(bus1, subs[1..], t);
      if subs[0].0 == t {
        assert Listeners(bus1, t) == Listeners(bus, t) + [subs[0].1];
      }
    }
  }

  /**
   * Delivery order is subscription order: on a bus built from nothing by
   * `subs`, a message reaches exactly the handlers subscribed to its
   * topic, once per subscription, in the order they subscribed.
   */
  lemma EmitInSubscriptionOrder<H>(subs: seq<(Topic, H)>, m: Message)
    ensures Handlers(Emit(SubscribeAll(NewBus(), subs), m)) == SubscribersOf(subs, TopicOf(m))
  {
    ListenersAfterSubscribeAll(NewBus(), subs, TopicOf(m));
    EmitHandlers(SubscribeAll(NewBus<H>(), subs), m);
  }
}
