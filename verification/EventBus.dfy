/** `InMemoryEventBus` of `apps/server/src/events/bus.ts`, changing its fields in place. */
module EventBus {
  import Reconnect
  import OneConnection

  type Device = string

  datatype Subscriber = Subscriber(id: nat, device: Device)

  /** One call of a subscriber's handler. */
  datatype Delivery = Delivery(subscriber: nat, id: nat, event: Reconnect.ServerEvent)

  function VisibleTo(visibility: (Reconnect.ServerEvent, Device) -> bool, device: Device): Reconnect.Visibility {
    event => visibility(event, device)
  }

  /** The handler calls one publication makes: one for each subscriber that may see it, in the order
      they subscribed. */
  function Deliveries(subscribers: seq<Subscriber>, visibility: (Reconnect.ServerEvent, Device) -> bool,
                      id: nat, event: Reconnect.ServerEvent): seq<Delivery> {
    if subscribers == [] then []
    else
      var last := subscribers[|subscribers| - 1];
      Deliveries(subscribers[..|subscribers| - 1], visibility, id, event)
      + (if visibility(event, last.device) then [Delivery(last.id, id, event)] else [])
  }

  function Count(log: seq<Delivery>, subscriber: nat): nat {
    if log == [] then 0
    else Count(log[..|log| - 1], subscriber) + (if log[|log| - 1].subscriber == subscriber then 1 else 0)
  }

  ghost predicate DistinctIds(subscribers: seq<Subscriber>) {
    forall i, j | 0 <= i < j < |subscribers| :: subscribers[i].id < subscribers[j].id
  }

  /** Each subscriber is called once if it may see the event and not at all otherwise. */
  lemma {:induction false} EachIsCalledOnce(subscribers: seq<Subscriber>, visibility: (Reconnect.ServerEvent, Device) -> bool,
                                            id: nat, event: Reconnect.ServerEvent, k: nat)
    requires DistinctIds(subscribers) && k < |subscribers|
    ensures Count(Deliveries(subscribers, visibility, id, event), subscribers[k].id)
         == (if visibility(event, subscribers[k].device) then 1 else 0)
    decreases |subscribers|
  {
    var front := subscribers[..|subscribers| - 1];
    var last := subscribers[|subscribers| - 1];
    if k < |front| {
      EachIsCalledOnce(front, visibility, id, event, k);
    } else {
      NobodyElse(front, visibility, id, event, last.id);
    }
    var before := Deliveries(front, visibility, id, event);
    if visibility(event, last.device) {
      assert (before + [Delivery(last.id, id, event)])[..|before|] == before;
    } else {
      assert before + [] == before;
    }
  }

  lemma {:induction false} NobodyElse(subscribers: seq<Subscriber>, visibility: (Reconnect.ServerEvent, Device) -> bool,
                                      id: nat, event: Reconnect.ServerEvent, subscriber: nat)
    requires forall s | s in subscribers :: s.id != subscriber
    ensures Count(Deliveries(subscribers, visibility, id, event), subscriber) == 0
    decreases |subscribers|
  {
    if subscribers != [] {
      var front := subscribers[..|subscribers| - 1];
      var last := subscribers[|subscribers| - 1];
      assert last in subscribers && forall s | s in front :: s in subscribers;
      NobodyElse(front, visibility, id, event, subscriber);
      var before := Deliveries(front, visibility, id, event);
      if visibility(event, last.device) {
        assert (before + [Delivery(last.id, id, event)])[..|before|] == before;
      } else {
        assert before + [] == before;
      }
    }
  }

  /** What the calls of one publication carry, and to whom they go: its own number and event, to exactly
      the subscribers that may see it, in the order they subscribed. */
  ghost predicate CallsOf(calls: seq<Delivery>, subscribers: seq<Subscriber>, visibility: (Reconnect.ServerEvent, Device) -> bool,
                          id: nat, event: Reconnect.ServerEvent) {
    && (forall i | 0 <= i < |calls| :: calls[i].id == id && calls[i].event == event)
    && (forall i | 0 <= i < |calls| :: MayCall(calls[i].subscriber, subscribers, visibility, event))
    && (forall i, j | 0 <= i < j < |calls| :: calls[i].subscriber < calls[j].subscriber)
    && (forall s | s in subscribers && visibility(event, s.device) :: Delivery(s.id, id, event) in calls)
  }

  ghost predicate MayCall(subscriber: nat, subscribers: seq<Subscriber>, visibility: (Reconnect.ServerEvent, Device) -> bool,
                          event: Reconnect.ServerEvent) {
    exists s | s in subscribers :: s.id == subscriber && visibility(event, s.device)
  }

  lemma MoreMayCall(calls: seq<Delivery>, front: seq<Subscriber>, last: Subscriber, visibility: (Reconnect.ServerEvent, Device) -> bool,
                    id: nat, event: Reconnect.ServerEvent)
    requires DistinctIds(front + [last]) && CallsOf(calls, front, visibility, id, event)
    ensures forall i | 0 <= i < |calls| :: MayCall(calls[i].subscriber, front + [last], visibility, event) && calls[i].subscriber < last.id
  {
    var all := front + [last];
    forall i | 0 <= i < |calls| ensures MayCall(calls[i].subscriber, all, visibility, event) && calls[i].subscriber < last.id {
      assert MayCall(calls[i].subscriber, front, visibility, event);
      var k :| 0 <= k < |front| && front[k].id == calls[i].subscriber && visibility(event, front[k].device);
      assert all[k] == front[k] && all[|front|] == last && all[k] in all;
    }
  }

  lemma OneMoreSubscriber(calls: seq<Delivery>, front: seq<Subscriber>, last: Subscriber, visibility: (Reconnect.ServerEvent, Device) -> bool,
                          id: nat, event: Reconnect.ServerEvent)
    requires DistinctIds(front + [last]) && CallsOf(calls, front, visibility, id, event)
    ensures CallsOf(calls + (if visibility(event, last.device) then [Delivery(last.id, id, event)] else []), front + [last], visibility, id, event)
  {
    MoreMayCall(calls, front, last, visibility, id, event);
    assert last in front + [last];
    assert visibility(event, last.device) ==> MayCall(last.id, front + [last], visibility, event);
    hide MayCall, DistinctIds;
    assert forall s | s in front + [last] :: s in front || s == last;
  }

  lemma {:induction false} DeliveriesAreTheCalls(subscribers: seq<Subscriber>, visibility: (Reconnect.ServerEvent, Device) -> bool,
                                                 id: nat, event: Reconnect.ServerEvent)
    requires DistinctIds(subscribers)
    ensures CallsOf(Deliveries(subscribers, visibility, id, event), subscribers, visibility, id, event)
    decreases |subscribers|
  {
    if subscribers != [] {
      var front, last := subscribers[..|subscribers| - 1], subscribers[|subscribers| - 1];
      assert subscribers == front + [last];
      DeliveriesAreTheCalls(front, visibility, id, event);
      hide CallsOf;
      OneMoreSubscriber(Deliveries(front, visibility, id, event), front, last, visibility, id, event);
    }
  }

  class InMemoryEventBus {
    var nextId: nat
    var buffer: seq<Reconnect.Stored>
    const bufferSize: nat
    var subscribers: seq<Subscriber>
    var nextSubscriberId: nat
    const visibility: (Reconnect.ServerEvent, Device) -> bool

    /** What the handlers were called with, in order. */
    var log: seq<Delivery>

    ghost function Model(): Reconnect.Bus
      reads this
    {
      Reconnect.Bus(nextId, buffer, bufferSize)
    }

    ghost predicate Valid()
      reads this
    {
      && (forall e | e in buffer :: e.id < nextId)
      && DistinctIds(subscribers)
      && forall s | s in subscribers :: s.id < nextSubscriberId
    }

    constructor (bufferSize: nat, visibility: (Reconnect.ServerEvent, Device) -> bool)
      ensures Valid() && Model() == Reconnect.Bus(1, [], bufferSize) && subscribers == [] && log == []
      ensures this.visibility == visibility
      ensures Reconnect.BusOk(Model(), [])
    {
      nextId, buffer, subscribers, nextSubscriberId, log := 1, [], [], 1, [];
      this.bufferSize, this.visibility := bufferSize, visibility;
    }

    method Publish(event: Reconnect.ServerEvent)
      requires Valid()
      modifies this
      ensures Valid() && subscribers == old(subscribers) && nextSubscriberId == old(nextSubscriberId)
      ensures Model() == Reconnect.Publish(old(Model()), event)
      ensures log == old(log) + Deliveries(subscribers, visibility, old(nextId), event)
      ensures CallsOf(log[|old(log)|..], subscribers, visibility, old(nextId), event)
      ensures event.kind != Reconnect.HEARTBEAT && bufferSize > 0 ==>
                buffer != [] && buffer[|buffer| - 1] == Reconnect.Stored(old(nextId), event)
    {
      hide Deliveries, CallsOf, DistinctIds;
      DeliveriesAreTheCalls(subscribers, visibility, nextId, event);
      var id := nextId;
      nextId := nextId + 1;
      if event.kind != Reconnect.HEARTBEAT {
        buffer := buffer + [Reconnect.Stored(id, event)];
        if |buffer| > bufferSize {
          buffer := buffer[1..];
        }
      }
      Notify(id, event);
    }

    /** The loop over the subscribers; a handler that throws does not stop it. */
    method Notify(id: nat, event: Reconnect.ServerEvent)
      modifies this`log
      ensures log == old(log) + Deliveries(subscribers, visibility, id, event)
    {
      var i := 0;
      ghost var sent: seq<Delivery> := [];
      while i < |subscribers|
        invariant i <= |subscribers|
        invariant sent == Deliveries(subscribers[..i], visibility, id, event)
        invariant log == old(log) + sent
      {
        var next := subscribers[i];
        assert subscribers[..i + 1][..i] == subscribers[..i];
        if visibility(event, next.device) {
          log := log + [Delivery(next.id, id, event)];
          sent := sent + [Delivery(next.id, id, event)];
        }
        i := i + 1;
      }
      assert subscribers[..i] == subscribers;
    }

    method SubscribeWithId(device: Device) returns (id: nat)
      requires Valid()
      modifies this`subscribers, this`nextSubscriberId
      ensures Valid() && id == old(nextSubscriberId) && nextSubscriberId == id + 1
      ensures subscribers == old(subscribers) + [Subscriber(id, device)]
    {
      id := nextSubscriberId;
      nextSubscriberId := nextSubscriberId + 1;
      subscribers := subscribers + [Subscriber(id, device)];
    }

    /** `buffer.filter(...)`. */
    method Replay(device: Device, afterId: nat) returns (events: seq<Reconnect.Stored>)
      requires Valid()
      ensures events == Reconnect.Replay(Model(), VisibleTo(visibility, device), afterId)
    {
      events := [];
      var i := 0;
      while i < |buffer|
        invariant i <= |buffer|
        invariant events == Reconnect.Between(buffer[..i], VisibleTo(visibility, device), afterId, nextId)
      {
        assert buffer[..i + 1] == buffer[..i] + [buffer[i]];
        OneConnection.BetweenGrows(buffer[..i], buffer[i], VisibleTo(visibility, device), afterId, nextId);
        if buffer[i].id > afterId && visibility(buffer[i].event, device) {
          events := events + [buffer[i]];
        }
        i := i + 1;
      }
      assert buffer[..i] == buffer;
    }
  }
}
