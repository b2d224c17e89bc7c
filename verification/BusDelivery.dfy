/** The number a handler is called with is the number the replay goes by: the stream a connection
    writes from its handler's calls is the one of `Reconnect`. */
module BusDelivery {
  import opened EventStream
  import opened Reconnect
  import opened OneConnection
  import opened Resume
  import EventBus

  // ─── one subscriber's calls ──────────────────────────────────────────────────

  function CallsTo(log: seq<EventBus.Delivery>, subscriber: nat): seq<EventBus.Delivery> {
    if log == [] then []
    else
      var last := log[|log| - 1];
      CallsTo(log[..|log| - 1], subscriber) + (if last.subscriber == subscriber then [last] else [])
  }

  /** What the route writes for each call: the number it was called with, and the event. */
  function WrittenFor(calls: seq<EventBus.Delivery>): seq<Item> {
    if calls == [] then []
    else
      var last := calls[|calls| - 1];
      WrittenFor(calls[..|calls| - 1]) + [Item(Message(last.id, last.event.kind, last.event.json), last.event.kind == HEARTBEAT)]
  }

  lemma {:induction false} OthersAreNotCalled(log: seq<EventBus.Delivery>, subscriber: nat)
    requires forall d | d in log :: d.subscriber != subscriber
    ensures CallsTo(log, subscriber) == []
    decreases |log|
  {
    if log != [] {
      assert log[|log| - 1] in log && forall d | d in log[..|log| - 1] :: d in log;
      OthersAreNotCalled(log[..|log| - 1], subscriber);
    }
  }

  lemma {:induction false} CallsToJoin(a: seq<EventBus.Delivery>, b: seq<EventBus.Delivery>, subscriber: nat)
    ensures CallsTo(a + b, subscriber) == CallsTo(a, subscriber) + CallsTo(b, subscriber)
    decreases |b|
  {
    if b == [] {
      assert a + b == a;
    } else {
      CallsToJoin(a, b[..|b| - 1], subscriber);
      assert (a + b)[..|a + b| - 1] == a + b[..|b| - 1];
    }
  }

  lemma CalledOnce(log: seq<EventBus.Delivery>, d: EventBus.Delivery)
    requires d in log && forall i, j | 0 <= i < j < |log| :: log[i].subscriber < log[j].subscriber
    ensures CallsTo(log, d.subscriber) == [d]
  {
    hide CallsTo;
    var i :| 0 <= i < |log| && log[i] == d;
    var before, after := log[..i], log[i + 1..];
    assert log == before + [d] + after;
    forall x | x in before ensures x.subscriber != d.subscriber {
      var j :| 0 <= j < i && log[j] == x;
    }
    forall x | x in after ensures x.subscriber != d.subscriber {
      var j :| 0 <= j < |after| && after[j] == x;
      assert log[i + 1 + j] == x;
    }
    OthersAreNotCalled(before, d.subscriber);
    OthersAreNotCalled(after, d.subscriber);
    OneCall(d, d.subscriber);
    CallsToJoin(before, [d], d.subscriber);
    CallsToJoin(before + [d], after, d.subscriber);
  }

  lemma NotCalled(log: seq<EventBus.Delivery>, subscribers: seq<EventBus.Subscriber>, visibility: (ServerEvent, EventBus.Device) -> bool,
                  id: nat, event: ServerEvent, k: nat)
    requires EventBus.DistinctIds(subscribers) && k < |subscribers| && !visibility(event, subscribers[k].device)
    requires EventBus.CallsOf(log, subscribers, visibility, id, event)
    ensures CallsTo(log, subscribers[k].id) == []
  {
    var me := subscribers[k];
    forall d | d in log ensures d.subscriber != me.id {
      var i :| 0 <= i < |log| && log[i] == d;
      assert EventBus.MayCall(log[i].subscriber, subscribers, visibility, event);
      var j :| 0 <= j < |subscribers| && subscribers[j].id == d.subscriber && visibility(event, subscribers[j].device);
    }
    OthersAreNotCalled(log, me.id);
  }

  /** In one publication a subscriber is called once, with the number and the event of that
      publication, if it may see it, and not at all otherwise. */
  lemma CalledWith(subscribers: seq<EventBus.Subscriber>, visibility: (ServerEvent, EventBus.Device) -> bool, id: nat, event: ServerEvent, k: nat)
    requires EventBus.DistinctIds(subscribers) && k < |subscribers|
    ensures var calls := CallsTo(EventBus.Deliveries(subscribers, visibility, id, event), subscribers[k].id);
      calls == if visibility(event, subscribers[k].device) then [EventBus.Delivery(subscribers[k].id, id, event)] else []
  {
    hide EventBus.Deliveries, CallsTo, EventBus.MayCall, EventBus.DistinctIds;
    var log := EventBus.Deliveries(subscribers, visibility, id, event);
    EventBus.DeliveriesAreTheCalls(subscribers, visibility, id, event);
    if visibility(event, subscribers[k].device) {
      CalledOnce(log, EventBus.Delivery(subscribers[k].id, id, event));
    } else {
      NotCalled(log, subscribers, visibility, id, event, k);
    }
  }

  lemma OneCall(d: EventBus.Delivery, subscriber: nat)
    ensures CallsTo([d], subscriber) == if d.subscriber == subscriber then [d] else []
  {
    assert [d][..0] == [];
  }

  /** What a connection writes when its handler is called is what `Happen` sends: the same items under
      the same numbers, the last of which is what the next heartbeat repeats. */
  lemma HandlerWritesWhatHappens(subscribers: seq<EventBus.Subscriber>, visibility: (ServerEvent, EventBus.Device) -> bool, f: Feedline, event: ServerEvent, k: nat)
    requires EventBus.DistinctIds(subscribers) && k < |subscribers|
    ensures var visible := EventBus.VisibleTo(visibility, subscribers[k].device);
      var calls := CallsTo(EventBus.Deliveries(subscribers, visibility, f.bus.nextId, event), subscribers[k].id);
      Happen(f, visible, Published(event))
        == Feedline(Publish(f.bus, event), Grow(f.history, f.bus, event),
                    if calls == [] then f.lastSent else calls[|calls| - 1].id, f.items + WrittenFor(calls))
  {
    hide EventBus.Deliveries, EventBus.DistinctIds, CallsTo, WrittenFor, Publish, Grow;
    CalledWith(subscribers, visibility, f.bus.nextId, event, k);
    OneWritten(EventBus.Delivery(subscribers[k].id, f.bus.nextId, event));
    assert f.items + [] == f.items;
  }

  lemma OneWritten(d: EventBus.Delivery)
    ensures WrittenFor([]) == []
    ensures WrittenFor([d]) == [Item(Message(d.id, d.event.kind, d.event.json), d.event.kind == HEARTBEAT)]
  {
    assert [d][..0] == [];
  }

  // ─── replaying from a number a handler was called with ───────────────────────

  /** What is stored of these events, numbered on from `id`. */
  function Stamped(events: seq<ServerEvent>, id: nat): seq<Stored> {
    if events == [] then []
    else (if events[0].kind == HEARTBEAT then [] else [Stored(id, events[0])]) + Stamped(events[1..], id + 1)
  }

  function Seen(stored: seq<Stored>, visible: Visibility): seq<Stored> {
    if stored == [] then []
    else
      var last := stored[|stored| - 1];
      Seen(stored[..|stored| - 1], visible) + (if visible(last.event) then [last] else [])
  }

  lemma {:induction false} StampedIds(events: seq<ServerEvent>, id: nat)
    ensures forall e | e in Stamped(events, id) :: id <= e.id < id + |events|
  {
    if events != [] {
      StampedIds(events[1..], id + 1);
    }
  }

  lemma GrowsByTheStamped(w: World, event: ServerEvent)
    ensures Grow(w.history, w.bus, event) == w.history + Stamped([event], w.bus.nextId)
    ensures Publish(w.bus, event).nextId == w.bus.nextId + 1 && Publish(w.bus, event).bufferSize == w.bus.bufferSize
  {
    assert [event][1..] == [] && w.history + [] == w.history;
  }

  lemma StampedJoins(event: ServerEvent, later: seq<ServerEvent>, id: nat)
    ensures Stamped([event] + later, id) == Stamped([event], id) + Stamped(later, id + 1)
  {
    assert ([event] + later)[1..] == later && [event][1..] == [];
  }

  lemma {:induction false} HistoryIsStamped(w: World, events: seq<ServerEvent>)
    ensures PublishAll(w, events).history == w.history + Stamped(events, w.bus.nextId)
    ensures PublishAll(w, events).bus.nextId == w.bus.nextId + |events|
    ensures PublishAll(w, events).bus.bufferSize == w.bus.bufferSize
    decreases |events|
  {
    hide Publish, Grow;
    if events == [] {
      assert w.history + [] == w.history;
    } else {
      var id := w.bus.nextId;
      var next := w.(bus := Publish(w.bus, events[0]), history := Grow(w.history, w.bus, events[0]));
      GrowsByTheStamped(w, events[0]);
      HistoryIsStamped(next, events[1..]);
      assert events == [events[0]] + events[1..];
      StampedJoins(events[0], events[1..], id);
      hide Stamped;
      Regrouped(w.history, Stamped([events[0]], id), Stamped(events[1..], id + 1));
    }
  }

  lemma Regrouped(a: seq<Stored>, b: seq<Stored>, c: seq<Stored>)
    ensures a + b + c == a + (b + c)
  {}

  lemma {:induction false} BetweenIsSeen(h: seq<Stored>, more: seq<Stored>, visible: Visibility, after: int, upTo: int)
    requires (forall e | e in h :: e.id <= after) && forall e | e in more :: after < e.id <= upTo
    ensures Between(h + more, visible, after, upTo) == Seen(more, visible)
    ensures |After(h + more, after)| == |more|
    decreases |more|
  {
    if more == [] {
      assert h + more == h;
      BetweenIsEmptyWhen(h, visible, after, upTo);
      NothingIsAfter(h, after);
    } else {
      var front, last := more[..|more| - 1], more[|more| - 1];
      assert more == front + [last] && last in more;
      BetweenIsSeen(h, front, visible, after, upTo);
      assert (h + more)[..|h + more| - 1] == h + front;
    }
  }

  lemma {:induction false} NothingIsAfter(h: seq<Stored>, after: int)
    requires forall e | e in h :: e.id <= after
    ensures After(h, after) == []
  {
    if h != [] {
      assert h[|h| - 1] in h && forall e | e in h[..|h| - 1] :: e in h;
      NothingIsAfter(h[..|h| - 1], after);
    }
  }

  /** A client that noted the number of the last call resumes after it: the replay from there yields
      exactly what was published after that call and the device may see, in order and under the numbers
      it was published with, as long as the buffer reaches back that far. */
  lemma ReplayFromADelivery(w: World, visible: Visibility, event: ServerEvent, later: seq<ServerEvent>)
    requires BusOk(w.bus, w.history) && event.Valid() && forall e | e in later :: e.Valid()
    requires |Stamped(later, w.bus.nextId + 1)| <= w.bus.bufferSize
    ensures var called := w.bus.nextId;
      Replay(PublishAll(w, [event] + later).bus, visible, called) == Seen(Stamped(later, called + 1), visible)
  {
    var called := w.bus.nextId;
    hide BusOk, Publish, Grow, PublishAll, Between, Seen, After, Stamped;
    PublishedAfterTheCall(w, event, later);
    StampedIds(later, called + 1);
    var h, more := w.history + Stamped([event], called), Stamped(later, called + 1);
    var w' := PublishAll(w, [event] + later);
    BetweenIsSeen(h, more, visible, called, w'.bus.nextId);
    BufferCovers(w'.bus, w'.history, visible, called);
  }

  lemma PublishedAfterTheCall(w: World, event: ServerEvent, later: seq<ServerEvent>)
    requires BusOk(w.bus, w.history) && event.Valid() && forall e | e in later :: e.Valid()
    ensures var called := w.bus.nextId;
      var w' := PublishAll(w, [event] + later);
      var h := w.history + Stamped([event], called);
      && BusOk(w'.bus, w'.history) && w'.history == h + Stamped(later, called + 1)
      && w'.bus.nextId == called + 1 + |later| && w'.bus.bufferSize == w.bus.bufferSize
      && forall e | e in h :: e.id <= called
  {
    hide *;
    var called := w.bus.nextId;
    AllValid(event, later);
    PublishAllKeeps(w, [event] + later);
    HistoryIsStamped(w, [event] + later);
    StampedJoins(event, later, called);
    Regrouped(w.history, Stamped([event], called), Stamped(later, called + 1));
    UpToTheCall(w, event);
  }

  lemma AllValid(event: ServerEvent, later: seq<ServerEvent>)
    requires event.Valid() && forall e | e in later :: e.Valid()
    ensures forall e | e in [event] + later :: e.Valid()
  {}

  lemma UpToTheCall(w: World, event: ServerEvent)
    requires BusOk(w.bus, w.history)
    ensures forall e | e in w.history + Stamped([event], w.bus.nextId) :: e.id <= w.bus.nextId
  {
    hide BusOk, Stamped;
    StampedIds([event], w.bus.nextId);
    IdsAreBelow(w.bus, w.history);
  }

  lemma IdsAreBelow(bus: Bus, history: seq<Stored>)
    requires BusOk(bus, history)
    ensures forall e | e in history :: e.id < bus.nextId
  {}
}
