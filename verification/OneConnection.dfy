/** What one connection of `Reconnect` delivers: the visible history in order, up to wherever it was
    cut. */
module OneConnection {
  import opened Text
  import opened Sse
  import opened EventStream
  import opened Reconnect

  // ─── the bus ─────────────────────────────────────────────────────────────────

  lemma PublishKeeps(bus: Bus, history: seq<Stored>, event: ServerEvent)
    requires BusOk(bus, history) && event.Valid()
    ensures BusOk(Publish(bus, event), Grow(history, bus, event))
  {}

  // ─── what is written is the visible history in order ─────────────────────────

  lemma BetweenGrows(history: seq<Stored>, e: Stored, visible: Visibility, after: int, upTo: int)
    ensures Between(history + [e], visible, after, upTo)
         == Between(history, visible, after, upTo) + (if visible(e.event) && after < e.id <= upTo then [e] else [])
  {
    assert (history + [e])[..|history|] == history;
  }

  lemma {:induction false} BetweenPastTheEnd(history: seq<Stored>, visible: Visibility, after: int, a: int, b: int)
    requires forall e | e in history :: e.id <= a && e.id <= b
    ensures Between(history, visible, after, a) == Between(history, visible, after, b)
  {
    if history != [] {
      assert history[|history| - 1] in history;
      assert forall e | e in history[..|history| - 1] :: e in history;
      BetweenPastTheEnd(history[..|history| - 1], visible, after, a, b);
    }
  }

  lemma FramesGrow(events: seq<Stored>, e: Stored)
    ensures FramesOfStored(events + [e]) == FramesOfStored(events) + [FrameOfStored(e)]
  {
    assert (events + [e])[..|events|] == events;
  }

  lemma EventsGrow(items: seq<Item>, item: Item)
    ensures Events(items + [item]) == Events(items) + (if item.beat then [] else [FrameOf(item.message)])
  {
    assert (items + [item])[..|items|] == items;
  }

  lemma FaithfulGrows(items: seq<Item>, item: Item, history: seq<Stored>, visible: Visibility, start: nat)
    requires Faithful(items, history, visible, start)
    requires item.message.Valid() && (item.beat <==> item.message.event == HEARTBEAT)
    requires Events(items + [item]) == FramesOfStored(Between(history, visible, start, item.message.id))
    ensures Faithful(items + [item], history, visible, start)
  {
    var items' := items + [item];
    forall n: nat | n <= |items'|
      ensures Events(items'[..n]) == FramesOfStored(Between(history, visible, start, Mark(items', n, start)))
    {
      if n <= |items| {
        assert items'[..n] == items[..n];
        assert Mark(items', n, start) == Mark(items, n, start);
      } else {
        assert items'[..n] == items';
      }
    }
  }

  lemma FaithfulLater(items: seq<Item>, history: seq<Stored>, e: Stored, visible: Visibility, start: nat)
    requires Faithful(items, history, visible, start) && start < e.id
    requires forall i | 0 <= i < |items| :: items[i].message.id < e.id
    ensures Faithful(items, history + [e], visible, start)
  {
    forall n: nat | n <= |items|
      ensures Between(history + [e], visible, start, Mark(items, n, start)) == Between(history, visible, start, Mark(items, n, start))
    {
      BetweenGrows(history, e, visible, start, Mark(items, n, start));
    }
  }

  lemma SendKeeps(f: Feedline, visible: Visibility, item: Item, start: nat)
    requires Truthful(f, visible, start)
    requires f.lastSent <= item.message.id < f.bus.nextId
    requires item.message.Valid() && (item.beat <==> item.message.event == HEARTBEAT)
    requires Events(f.items) + (if item.beat then [] else [FrameOf(item.message)])
          == FramesOfStored(Between(f.history, visible, start, item.message.id))
    requires Between(f.history, visible, start, item.message.id) == Between(f.history, visible, start, f.bus.nextId)
    ensures FeedOk(Send(f, item), visible, start)
  {
    hide BusOk, Between, Events;
    EventsGrow(f.items, item);
    FaithfulGrows(f.items, item, f.history, visible, start);
    hide Faithful;
  }

  lemma BeatKeeps(f: Feedline, visible: Visibility, json: string, start: nat)
    requires FeedOk(f, visible, start) && Unbroken(json)
    ensures FeedOk(Happen(f, visible, Beat(json)), visible, start)
  {
    var item := Item(Message(f.lastSent, HEARTBEAT, json), true);
    assert Events(f.items) + [] == Events(f.items);
    assert Unbroken(HEARTBEAT);
    hide BusOk, Faithful;
    SendKeeps(f, visible, item, start);
  }

  lemma PublishKeepsTruth(f: Feedline, visible: Visibility, event: ServerEvent, start: nat)
    requires Truthful(f, visible, start) && event.Valid()
    ensures Truthful(AfterPublish(f, event), visible, start)
  {
    PublishKeeps(f.bus, f.history, event);
    if event.kind != HEARTBEAT {
      FaithfulLater(f.items, f.history, Stored(f.bus.nextId, event), visible, start);
    }
    hide BusOk, Faithful;
  }

  lemma HeartbeatEventKeeps(f: Feedline, visible: Visibility, event: ServerEvent, start: nat)
    requires FeedOk(f, visible, start) && event.Valid() && event.kind == HEARTBEAT
    ensures FeedOk(Happen(f, visible, Published(event)), visible, start)
  {
    var id := f.bus.nextId;
    var item := Item(Message(id, event.kind, event.json), true);
    PublishKeepsTruth(f, visible, event, start);
    BetweenPastTheEnd(f.history, visible, start, id, id + 1);
    assert Events(f.items) + [] == Events(f.items);
    assert AfterPublish(f, event).bus.nextId == id + 1;
    assert AfterPublish(f, event).history == f.history;
    hide BusOk, Faithful, Between, Publish;
    if visible(event) {
      SendKeeps(AfterPublish(f, event), visible, item, start);
    }
  }

  lemma AfterPublishFacts(f: Feedline, event: ServerEvent)
    requires BusOk(f.bus, f.history) && event.kind != HEARTBEAT
    ensures AfterPublish(f, event).bus.nextId == f.bus.nextId + 1
    ensures AfterPublish(f, event).history == f.history + [Stored(f.bus.nextId, event)]
    ensures AfterPublish(f, event).items == f.items && AfterPublish(f, event).lastSent == f.lastSent
    ensures forall e | e in f.history :: e.id < f.bus.nextId
  {}

  /** What a device may see does not change with an event stored past everything it was sent. */
  lemma BetweenBeforeEvent(f: Feedline, e: Stored, visible: Visibility, start: nat)
    requires e.id == f.bus.nextId && start < e.id && f.lastSent < e.id
    requires forall x | x in f.history :: x.id < e.id
    ensures Between(f.history + [e], visible, start, f.lastSent) == Between(f.history, visible, start, f.lastSent)
    ensures Between(f.history + [e], visible, start, e.id) == Between(f.history + [e], visible, start, e.id + 1)
         == Between(f.history, visible, start, e.id) + (if visible(e.event) then [e] else [])
  {
    BetweenPastTheEnd(f.history, visible, start, e.id, e.id + 1);
    BetweenGrows(f.history, e, visible, start, e.id);
    BetweenGrows(f.history, e, visible, start, e.id + 1);
    BetweenGrows(f.history, e, visible, start, f.lastSent);
  }

  lemma UnseenEventKeeps(f: Feedline, visible: Visibility, event: ServerEvent, start: nat)
    requires FeedOk(f, visible, start) && event.Valid() && event.kind != HEARTBEAT && !visible(event)
    ensures FeedOk(Happen(f, visible, Published(event)), visible, start)
  {
    hide BusOk, Faithful, Between, FramesOfStored, Events, Publish;
    AfterPublishFacts(f, event);
    PublishKeepsTruth(f, visible, event, start);
    BetweenBeforeEvent(f, Stored(f.bus.nextId, event), visible, start);
  }

  lemma SeenEventKeeps(f: Feedline, visible: Visibility, event: ServerEvent, start: nat)
    requires FeedOk(f, visible, start) && event.Valid() && event.kind != HEARTBEAT && visible(event)
    ensures FeedOk(Happen(f, visible, Published(event)), visible, start)
  {
    hide BusOk, Faithful, Between, FramesOfStored, Events, Publish;
    var e := Stored(f.bus.nextId, event);
    var after := AfterPublish(f, event);
    AfterPublishFacts(f, event);
    PublishKeepsTruth(f, visible, event, start);
    BetweenBeforeEvent(f, e, visible, start);
    FramesGrow(Between(f.history, visible, start, e.id), e);
    assert Happen(f, visible, Published(event)) == Send(after, ItemOf(e));
    SendKeeps(after, visible, ItemOf(e), start);
  }

  lemma HappenKeeps(f: Feedline, visible: Visibility, h: Happening, start: nat)
    requires FeedOk(f, visible, start) && ValidHappening(h)
    ensures FeedOk(Happen(f, visible, h), visible, start)
  {
    hide FeedOk, Happen;
    match h
    case Beat(json) => BeatKeeps(f, visible, json, start);
    case Published(event) =>
      if event.kind == HEARTBEAT {
        HeartbeatEventKeeps(f, visible, event, start);
      } else if visible(event) {
        SeenEventKeeps(f, visible, event, start);
      } else {
        UnseenEventKeeps(f, visible, event, start);
      }
  }

  lemma {:induction false} HappeningsKeep(f: Feedline, visible: Visibility, hs: seq<Happening>, start: nat)
    requires FeedOk(f, visible, start) && forall h | h in hs :: ValidHappening(h)
    ensures FeedOk(HappenAll(f, visible, hs), visible, start)
    decreases |hs|
  {
    hide FeedOk, Happen, ValidHappening;
    if hs != [] {
      assert hs[0] in hs && forall h | h in hs[1..] :: h in hs;
      HappenKeeps(f, visible, hs[0], start);
      HappeningsKeep(Happen(f, visible, hs[0]), visible, hs[1..], start);
    }
  }

  // ─── reconnecting ────────────────────────────────────────────────────────────

  /** If no more was stored since than the buffer holds, what fell out of it is not news. */
  lemma {:induction false} OldEventsAreOld(history: seq<Stored>, id: int, k: nat)
    requires Increasing(history) && k <= |history| && |After(history, id)| <= k
    ensures forall i | 0 <= i < |history| - k :: history[i].id <= id
    decreases |history|
  {
    if history != [] {
      var last := history[|history| - 1];
      if last.id > id {
        if k > 0 {
          OldEventsAreOld(history[..|history| - 1], id, k - 1);
        }
      }
    }
  }

  lemma {:induction false} BetweenSkipsOld(history: seq<Stored>, j: nat, visible: Visibility, after: int, upTo: int)
    requires j <= |history| && forall i | 0 <= i < j :: history[i].id <= after
    ensures Between(history, visible, after, upTo) == Between(history[j..], visible, after, upTo)
    decreases |history|
  {
    if |history| > j {
      BetweenSkipsOld(history[..|history| - 1], j, visible, after, upTo);
      assert history[j..][..|history| - j - 1] == history[..|history| - 1][j..];
      assert history[j..][|history| - j - 1] == history[|history| - 1];
    } else if |history| > 0 {
      BetweenSkipsOld(history[..|history| - 1], j - 1, visible, after, upTo);
      assert history[j..] == [] && history[..|history| - 1][j - 1..] == [];
    }
  }

  /** Replaying an ordered tail is faithful at every point of it. */
  lemma {:induction false} ReplayIsFaithful(history: seq<Stored>, visible: Visibility, start: nat, upTo: nat)
    requires Increasing(history)
    requires forall e | e in history :: e.event.Valid() && e.event.kind != HEARTBEAT && e.id <= upTo
    ensures ReplayOk(history, visible, start, upTo)
    decreases |history|
  {
    if history != [] {
      var before := history[..|history| - 1];
      var e := history[|history| - 1];
      assert history == before + [e] && e in history;
      assert forall x | x in before :: x in history && x.id < e.id;
      ReplayIsFaithful(before, visible, start, upTo);
      ReplayGrows(before, e, visible, start, upTo);
    }
  }

  lemma ReplayGrows(before: seq<Stored>, e: Stored, visible: Visibility, start: nat, upTo: nat)
    requires ReplayOk(before, visible, start, upTo)
    requires e.id <= upTo && e.event.Valid() && e.event.kind != HEARTBEAT
    requires forall x | x in before :: x.id < e.id
    ensures ReplayOk(before + [e], visible, start, upTo)
  {
    BetweenGrows(before, e, visible, start, upTo);
    if start < e.id {
      ReplayedEarlier(before, e, visible, start, upTo);
      if visible(e.event) {
        ReplayOneMore(before, e, visible, start, upTo);
      } else {
        ReplayUnchanged(before, e, visible, start, upTo);
      }
    } else {
      FaithfulWhenOld(ItemsOf(Between(before, visible, start, upTo)), before, e, visible, start);
      ReplayUnchanged(before, e, visible, start, upTo);
    }
  }

  lemma ReplayUnchanged(before: seq<Stored>, e: Stored, visible: Visibility, start: nat, upTo: nat)
    requires ReplayOk(before, visible, start, upTo)
    requires Between(before + [e], visible, start, upTo) == Between(before, visible, start, upTo) + []
    requires Faithful(ItemsOf(Between(before, visible, start, upTo)), before + [e], visible, start)
    ensures ReplayOk(before + [e], visible, start, upTo)
  {
    hide Faithful, Events, FramesOfStored, Between;
    var known := Between(before, visible, start, upTo);
    assert known + [] == known;
  }

  lemma ReplayedEarlier(before: seq<Stored>, e: Stored, visible: Visibility, start: nat, upTo: nat)
    requires ReplayOk(before, visible, start, upTo) && start < e.id
    requires forall x | x in before :: x.id < e.id
    ensures Faithful(ItemsOf(Between(before, visible, start, upTo)), before + [e], visible, start)
  {
    ItemsFrom(before, visible, start, upTo);
    hide Faithful, Events, FramesOfStored, Between;
    var known := Between(before, visible, start, upTo);
    forall i | 0 <= i < |ItemsOf(known)|
      ensures ItemsOf(known)[i].message.id < e.id
    {
      assert known[i] in before;
    }
    FaithfulLater(ItemsOf(known), before, e, visible, start);
  }

  lemma {:induction false} ItemsFrom(history: seq<Stored>, visible: Visibility, start: nat, upTo: nat)
    ensures forall x | x in Between(history, visible, start, upTo) :: x in history
  {
    if history != [] {
      ItemsFrom(history[..|history| - 1], visible, start, upTo);
      assert forall x | x in history[..|history| - 1] :: x in history;
    }
  }

  lemma FaithfulWhenOld(items: seq<Item>, history: seq<Stored>, e: Stored, visible: Visibility, start: nat)
    requires Faithful(items, history, visible, start) && e.id <= start
    ensures Faithful(items, history + [e], visible, start)
  {
    forall n: nat | n <= |items|
      ensures Between(history + [e], visible, start, Mark(items, n, start)) == Between(history, visible, start, Mark(items, n, start))
    {
      BetweenGrows(history, e, visible, start, Mark(items, n, start));
      var b := Between(history, visible, start, Mark(items, n, start));
      assert b + [] == b;
    }
  }

  lemma ReplayOneMore(before: seq<Stored>, e: Stored, visible: Visibility, start: nat, upTo: nat)
    requires ReplayOk(before, visible, start, upTo)
    requires visible(e.event) && start < e.id <= upTo && e.event.Valid() && e.event.kind != HEARTBEAT
    requires forall x | x in before :: x.id < e.id
    requires Faithful(ItemsOf(Between(before, visible, start, upTo)), before + [e], visible, start)
    ensures ReplayOk(before + [e], visible, start, upTo)
  {
    hide Faithful, Events, FramesOfStored, Between, ItemsOf;
    var known := Between(before, visible, start, upTo);
    var items := ItemsOf(known);
    KnownThen(before, e, visible, start, upTo);
    ItemsGrow(known, e);
    EventsGrow(items, ItemOf(e));
    FramesGrow(known, e);
    FaithfulGrows(items, ItemOf(e), before + [e], visible, start);
  }

  lemma KnownThen(before: seq<Stored>, e: Stored, visible: Visibility, start: nat, upTo: nat)
    requires visible(e.event) && start < e.id <= upTo && forall x | x in before :: x.id < e.id
    ensures Between(before + [e], visible, start, upTo) == Between(before, visible, start, upTo) + [e]
    ensures Between(before + [e], visible, start, e.id) == Between(before, visible, start, upTo) + [e]
  {
    BetweenGrows(before, e, visible, start, upTo);
    BetweenGrows(before, e, visible, start, e.id);
    BetweenPastTheEnd(before, visible, start, e.id, upTo);
    hide Between;
  }

  lemma ItemsGrow(events: seq<Stored>, e: Stored)
    ensures ItemsOf(events + [e]) == ItemsOf(events) + [ItemOf(e)]
  {
    assert (events + [e])[..|events|] == events;
  }

  /** With the resume point within reach of the buffer, the connection opens up to date. */
  lemma OpenIsFaithful(bus: Bus, history: seq<Stored>, visible: Visibility, start: nat)
    requires BusOk(bus, history) && start < bus.nextId
    requires |After(history, start)| <= bus.bufferSize
    ensures FeedOk(OpenFeed(bus, history, visible, Some(start)), visible, start)
  {
    hide BusOk, Between, ReplayOk, After, FeedOk, Increasing, ItemsOf;
    BufferCovers(bus, history, visible, start);
    HistoryOf(bus, history);
    var last: nat := bus.nextId - 1;
    ReplayIsFaithful(history, visible, start, last);
    BetweenPastTheEnd(history, visible, start, last, bus.nextId);
    OpensFrom(OpenFeed(bus, history, visible, Some(start)), visible, start);
  }

  lemma HistoryOf(bus: Bus, history: seq<Stored>)
    requires BusOk(bus, history)
    ensures Increasing(history)
    ensures forall e | e in history :: e.event.Valid() && e.event.kind != HEARTBEAT && e.id <= bus.nextId - 1
  {}

  lemma OpensFrom(f: Feedline, visible: Visibility, start: nat)
    requires BusOk(f.bus, f.history) && start <= f.lastSent < f.bus.nextId
    requires f.items == ItemsOf(Between(f.history, visible, start, f.lastSent))
    requires ReplayOk(f.history, visible, start, f.lastSent)
    requires Between(f.history, visible, start, f.lastSent) == Between(f.history, visible, start, f.bus.nextId)
    ensures FeedOk(f, visible, start)
  {
    hide BusOk, Faithful, Events, FramesOfStored, Between;
  }

  lemma BufferCovers(bus: Bus, history: seq<Stored>, visible: Visibility, start: nat)
    requires BusOk(bus, history) && |After(history, start)| <= bus.bufferSize
    ensures Replay(bus, visible, start) == Between(history, visible, start, bus.nextId)
  {
    var j := |history| - |bus.buffer|;
    if |history| > bus.bufferSize {
      OldEventsAreOld(history, start, bus.bufferSize);
    }
    BetweenSkipsOld(history, j, visible, start, bus.nextId);
  }

  // ─── what one attempt leaves the client with ─────────────────────────────────

  lemma PreambleIsSilent(p: Pending, n: nat)
    requires Idle(p) && n <= 2
    ensures Feed(p, PreambleLines()[..n]) == (p, []) && Feed(p, PreambleLines()) == (p, [])
  {
    FieldLineFeeds(p, "retry", "3000");
    assert OnLine(p, "") == (p, []);
    FeedTwoSilent(p, PreambleLines(), n);
  }

  lemma FeedTwoSilent(p: Pending, lines: seq<string>, n: nat)
    requires |lines| == 2 && n <= 2 && OnLine(p, lines[0]) == (p, []) && OnLine(p, lines[1]) == (p, [])
    ensures Feed(p, lines[..n]) == (p, []) && Feed(p, lines) == (p, [])
  {
    hide OnLine;
    FeedOne(p, lines[0]);
    FeedOne(p, lines[1]);
    FeedInTwoParts(p, [lines[0]], [lines[1]]);
    var none: seq<Frame> := [];
    assert none + none == none;
    assert lines == [lines[0]] + [lines[1]];
    assert lines[..0] == [] && lines[..1] == [lines[0]] && lines[..2] == lines;
  }

  lemma PreambleHasTwoLines()
    ensures |PreambleLines()| == 2
  {}

  lemma PreambleUnbroken()
    ensures AllUnbroken(PreambleLines())
  {}

  /** However the stream is cut, the frames are those of some number of whole items, and of all of
      them when it is not cut. */
  lemma CutDelivers(messages: seq<Message>, cut: nat) returns (n: nat)
    requires forall m | m in messages :: m.Valid()
    requires cut <= |Preamble() + EncodeAll(messages)|
    ensures n <= |messages|
    ensures Push(FRESH, (Preamble() + EncodeAll(messages))[..cut]).1 == FramesOfAll(messages[..n])
    ensures cut == |Preamble() + EncodeAll(messages)| ==> n == |messages|
  {
    var text := (Preamble() + EncodeAll(messages))[..cut];
    hide *;
    FreshPushes(text);
    if cut < |Preamble()| {
      n := 0;
      CutInPreamble(cut);
      assert text == Preamble()[..cut];
      assert messages[..0] == [];
      NoFrames();
    } else {
      var k := cut - |Preamble()|;
      n := Complete(messages, k);
      PastThePreamble(messages, k);
      assert text == Preamble() + EncodeAll(messages)[..k];
      FreshIsIdle();
      CutStreamDecodes(FRESH.pending, messages, k);
      CompleteAtTheEnd(messages);
    }
  }

  lemma NoFrames()
    ensures FramesOfAll([]) == []
  {}

  lemma FreshIsIdle()
    ensures Idle(FRESH.pending)
  {}

  lemma FreshPushes(text: string)
    ensures Push(FRESH, text).1 == Feed(FRESH.pending, Lines(text).0).1
  {
    assert "" + text == text;
    hide Lines, Feed;
  }

  lemma CutInPreamble(cut: nat)
    requires cut < |Preamble()|
    ensures Feed(FRESH.pending, Lines(Preamble()[..cut]).0).1 == []
  {
    var lines := PreambleLines();
    PreambleUnbroken();
    PreambleHasTwoLines();
    hide PreambleLines, Lines, Feed;
    LinesOfPrefix(lines, cut);
    var read := Lines(Preamble()[..cut]).0;
    assert read == lines[..|read|];
    PreambleIsSilent(FRESH.pending, |read|);
  }

  lemma PastThePreamble(messages: seq<Message>, k: nat)
    requires k <= |EncodeAll(messages)|
    ensures Feed(FRESH.pending, Lines(Preamble() + EncodeAll(messages)[..k]).0).1
         == Feed(FRESH.pending, Lines(EncodeAll(messages)[..k]).0).1
  {
    var lines := PreambleLines();
    var rest := EncodeAll(messages)[..k];
    PreambleUnbroken();
    PreambleIsSilent(FRESH.pending, 0);
    hide PreambleLines, Lines, Feed, EncodeAll;
    LinesOfTerminated(lines, rest);
    FeedInTwoParts(FRESH.pending, lines, Lines(rest).0);
    var frames := Feed(FRESH.pending, Lines(rest).0).1;
    assert [] + frames == frames;
  }

  lemma {:induction false} EventsFromFront(item: Item, items: seq<Item>)
    ensures Events([item] + items) == (if item.beat then [] else [FrameOf(item.message)]) + Events(items)
  {
    if items == [] {
      EventsGrow([], item);
      assert [] + [item] == [item] && [item] + items == [item];
    } else {
      var last := items[|items| - 1];
      var front := items[..|items| - 1];
      assert items == front + [last] && [item] + items == ([item] + front) + [last];
      EventsFromFront(item, front);
      EventsGrow([item] + front, last);
      EventsGrow(front, last);
      assert (if item.beat then [] else [FrameOf(item.message)]) + (Events(front) + (if last.beat then [] else [FrameOf(last.message)]))
          == (if item.beat then [] else [FrameOf(item.message)]) + Events(front) + (if last.beat then [] else [FrameOf(last.message)]);
    }
  }

  lemma {:induction false} ConsumeItems(c: Client, items: seq<Item>)
    requires forall i | 0 <= i < |items| :: items[i].beat <==> items[i].message.event == HEARTBEAT
    ensures ConsumeAll(c, FramesOfAll(Messages(items)))
         == Client(if items == [] then c.lastId else Some(Decimal(items[|items| - 1].message.id)), c.received + Events(items))
    decreases |items|
  {
    hide Decimal, Events;
    if items == [] {
      NoEvents();
      assert c.received + [] == c.received;
    } else {
      var frame := FrameOf(items[0].message);
      var rest := items[1..];
      assert items == [items[0]] + rest;
      ConsumeItems(Consume(c, frame), rest);
      EventsFromFront(items[0], rest);
      Reassociate(c.received, [frame], Events(rest));
      assert Messages(items)[1..] == Messages(rest);
      assert FramesOfAll(Messages(items))[1..] == FramesOfAll(Messages(rest));
    }
  }

  lemma NoEvents()
    ensures Events([]) == []
  {}

  lemma Reassociate(a: seq<Frame>, b: seq<Frame>, c: seq<Frame>)
    ensures a + b + c == a + (b + c) && a + c == a + ([] + c)
  {}

  lemma AttemptDelivers(c: Client, f: Feedline, visible: Visibility, start: nat, cut: nat) returns (mark: nat)
    requires FeedOk(f, visible, start) && c.lastId == Some(Decimal(start))
    requires cut <= |Preamble() + EncodeAll(Messages(f.items))|
    ensures start <= mark < f.bus.nextId
    ensures InSync(Attempt(c, f.items, cut), f.history, visible, start, mark, c.received)
    ensures cut == |Preamble() + EncodeAll(Messages(f.items))| ==>
              Attempt(c, f.items, cut).received == c.received + FramesOfStored(Between(f.history, visible, start, f.bus.nextId))
  {
    hide BusOk, Between, FramesOfStored, Decimal, FRESH, Events, Push, ConsumeAll, FramesOfAll;
    var messages := Messages(f.items);
    assert forall m | m in messages :: m.Valid();
    var n := CutDelivers(messages, cut);
    var taken := f.items[..n];
    SameMessages(f.items, n);
    ConsumeItems(c, taken);
    mark := Mark(f.items, n, start);
    assert Events(f.items[..n]) == FramesOfStored(Between(f.history, visible, start, mark));
    assert f.items[..|f.items|] == f.items;
  }

  lemma SameMessages(items: seq<Item>, n: nat)
    requires n <= |items|
    ensures Messages(items)[..n] == Messages(items[..n])
  {}
}
