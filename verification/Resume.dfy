/** Any number of connections in a row (`EventClient.#loop`, `packages/client-core/src/events.ts`)
    against one event bus: what the app was handed is the device's visible history. */
module Resume {
  import opened Text
  import opened Sse
  import opened EventStream
  import opened Reconnect
  import opened OneConnection

  /** What was published while nobody was connected, what happened on the connection that followed,
      and after how many characters that connection was cut. */
  datatype Episode = Episode(quiet: seq<ServerEvent>, live: seq<Happening>, cut: nat)

  datatype World = World(bus: Bus, history: seq<Stored>, client: Client)

  function PublishAll(w: World, events: seq<ServerEvent>): World
    decreases |events|
  {
    if events == [] then w
    else
      PublishAll(w.(bus := Publish(w.bus, events[0]), history := Grow(w.history, w.bus, events[0])), events[1..])
  }

  function CutPoint(items: seq<Item>, cut: nat): (n: nat)
    ensures n <= |Preamble() + EncodeAll(Messages(items))|
  {
    var whole := |Preamble() + EncodeAll(Messages(items))|;
    if cut <= whole then cut else whole
  }

  function Connection(w: World, visible: Visibility, live: seq<Happening>): Feedline {
    HappenAll(OpenFeed(w.bus, w.history, visible, ResumePoint(w.client.lastId)), visible, live)
  }

  function Connect(w: World, visible: Visibility, live: seq<Happening>, cut: nat): World {
    var f := Connection(w, visible, live);
    World(f.bus, f.history, Attempt(w.client, f.items, CutPoint(f.items, cut)))
  }

  function Live(w: World, visible: Visibility, e: Episode): World {
    Connect(PublishAll(w, e.quiet), visible, e.live, e.cut)
  }

  function LiveAll(w: World, visible: Visibility, episodes: seq<Episode>): World
    decreases |episodes|
  {
    if episodes == [] then w else LiveAll(Live(w, visible, episodes[0]), visible, episodes[1..])
  }

  ghost predicate ValidEpisode(e: Episode) {
    && (forall event | event in e.quiet :: event.Valid())
    && (forall h | h in e.live :: ValidHappening(h))
  }

  /** The client comes back before more was stored than the buffer holds, and before ids outgrow
      what a JavaScript number holds exactly. */
  ghost predicate InTime(w: World) {
    && w.bus.nextId <= MAX_SAFE_INTEGER
    && match ResumePoint(w.client.lastId)
       case None => true
       case Some(mark) => |After(w.history, mark)| <= w.bus.bufferSize
  }

  ghost predicate AlwaysInTime(w: World, visible: Visibility, episodes: seq<Episode>)
    decreases |episodes|
  {
    episodes == [] ||
    (&& ValidEpisode(episodes[0])
     && InTime(PublishAll(w, episodes[0].quiet))
     && AlwaysInTime(Live(w, visible, episodes[0]), visible, episodes[1..]))
  }

  /** The client was handed exactly the visible events after `start` and up to `mark`, in order,
      after whatever it had before, and will resume from `mark`. */
  ghost predicate Synced(w: World, visible: Visibility, start: nat, mark: nat, before: seq<Frame>) {
    && BusOk(w.bus, w.history)
    && start <= mark < w.bus.nextId
    && InSync(w.client, w.history, visible, start, mark, before)
  }

  // ─── history only grows, past every id already handed out ────────────────────

  ghost predicate Extends(h: seq<Stored>, h': seq<Stored>, next: nat) {
    && |h| <= |h'| && h == h'[..|h|]
    && forall i | |h| <= i < |h'| :: h'[i].id >= next
  }

  lemma ExtendsTransitive(a: seq<Stored>, b: seq<Stored>, c: seq<Stored>, n: nat, m: nat)
    requires Extends(a, b, n) && Extends(b, c, m) && n <= m
    ensures Extends(a, c, n)
  {
    forall i | |a| <= i < |c| ensures c[i].id >= n {
      if i < |b| {
        assert b[i] == c[i];
      }
    }
    assert c[..|a|] == c[..|b|][..|a|];
  }

  lemma GrowExtends(history: seq<Stored>, bus: Bus, event: ServerEvent)
    ensures Extends(history, Grow(history, bus, event), bus.nextId)
    ensures event.kind == HEARTBEAT ==> Grow(history, bus, event) == history
    ensures Publish(bus, event).nextId == bus.nextId + 1
  {}

  lemma {:induction false} PublishAllKeeps(w: World, events: seq<ServerEvent>)
    requires BusOk(w.bus, w.history) && forall event | event in events :: event.Valid()
    ensures BusOk(PublishAll(w, events).bus, PublishAll(w, events).history)
    ensures Extends(w.history, PublishAll(w, events).history, w.bus.nextId)
    ensures PublishAll(w, events).client == w.client
    ensures PublishAll(w, events).bus.nextId >= w.bus.nextId
    decreases |events|
  {
    hide BusOk, Extends, Publish, Grow;
    if events == [] {
      assert Extends(w.history, w.history, w.bus.nextId) by { GrowExtends(w.history, w.bus, ServerEvent(HEARTBEAT, "")); }
    } else {
      assert events[0] in events && forall x | x in events[1..] :: x in events;
      PublishKeeps(w.bus, w.history, events[0]);
      GrowExtends(w.history, w.bus, events[0]);
      var w1 := w.(bus := Publish(w.bus, events[0]), history := Grow(w.history, w.bus, events[0]));
      PublishAllKeeps(w1, events[1..]);
      ExtendsTransitive(w.history, w1.history, PublishAll(w, events).history, w.bus.nextId, w1.bus.nextId);
    }
  }

  lemma {:induction false} HappenAllExtends(f: Feedline, visible: Visibility, hs: seq<Happening>)
    ensures Extends(f.history, HappenAll(f, visible, hs).history, f.bus.nextId)
    ensures HappenAll(f, visible, hs).bus.nextId >= f.bus.nextId
    decreases |hs|
  {
    if hs != [] {
      var g := Happen(f, visible, hs[0]);
      HappenAllExtends(g, visible, hs[1..]);
      ExtendsTransitive(f.history, g.history, HappenAll(f, visible, hs).history, f.bus.nextId, g.bus.nextId);
    }
  }

  lemma {:induction false} BetweenIgnoresLater(h: seq<Stored>, h': seq<Stored>, next: nat, visible: Visibility, after: int, upTo: int)
    requires Extends(h, h', next) && upTo < next
    ensures Between(h', visible, after, upTo) == Between(h, visible, after, upTo)
    decreases |h'|
  {
    if |h'| > |h| {
      var front := h'[..|h'| - 1];
      assert h' == front + [h'[|h'| - 1]];
      assert front[..|h|] == h'[..|h|];
      BetweenIgnoresLater(h, front, next, visible, after, upTo);
      BetweenGrows(front, h'[|h'| - 1], visible, after, upTo);
    } else {
      assert h' == h;
    }
  }

  lemma {:induction false} BetweenSplits(h: seq<Stored>, visible: Visibility, a: int, b: int, c: int)
    requires Increasing(h) && a <= b <= c
    ensures Between(h, visible, a, c) == Between(h, visible, a, b) + Between(h, visible, b, c)
    decreases |h|
  {
    if h != [] {
      var front := h[..|h| - 1];
      var last := h[|h| - 1];
      assert h == front + [last];
      BetweenSplits(front, visible, a, b, c);
      BetweenGrows(front, last, visible, a, c);
      BetweenGrows(front, last, visible, a, b);
      BetweenGrows(front, last, visible, b, c);
      if last.id <= b {
        BetweenIsEmptyWhen(front, visible, b, c);
      }
    }
  }

  lemma {:induction false} BetweenIsEmptyWhen(h: seq<Stored>, visible: Visibility, after: int, upTo: int)
    requires forall e | e in h :: e.id <= after
    ensures Between(h, visible, after, upTo) == []
  {
    if h != [] {
      assert h[|h| - 1] in h;
      assert forall e | e in h[..|h| - 1] :: e in h;
      BetweenIsEmptyWhen(h[..|h| - 1], visible, after, upTo);
    }
  }

  lemma {:induction false} FramesAppend(a: seq<Stored>, b: seq<Stored>)
    ensures FramesOfStored(a + b) == FramesOfStored(a) + FramesOfStored(b)
    decreases |b|
  {
    if b == [] {
      assert a + b == a;
    } else {
      var front := b[..|b| - 1];
      var last := b[|b| - 1];
      assert a + b == (a + front) + [last] && b == front + [last];
      FramesAppend(a, front);
      FramesGrow(a + front, last);
      FramesGrow(front, last);
    }
  }

  // ─── one episode ─────────────────────────────────────────────────────────────

  /** The numeral of an id is a resume point exactly while the id is a safe integer. */
  lemma ResumesAt(mark: nat)
    ensures ResumePoint(Some(Decimal(mark))) == if mark <= MAX_SAFE_INTEGER then Some(mark) else None
  {
    DecimalValue(mark);
  }

  lemma QuietKeeps(w: World, visible: Visibility, events: seq<ServerEvent>, start: nat, mark: nat, before: seq<Frame>)
    requires Synced(w, visible, start, mark, before) && forall event | event in events :: event.Valid()
    ensures Synced(PublishAll(w, events), visible, start, mark, before)
  {
    hide BusOk, Between;
    PublishAllKeeps(w, events);
    BetweenIgnoresLater(w.history, PublishAll(w, events).history, w.bus.nextId, visible, start, mark);
  }

  lemma Joined(h: seq<Stored>, visible: Visibility, start: nat, mark: nat, end: nat, before: seq<Frame>)
    requires Increasing(h) && start <= mark <= end
    ensures before + FramesOfStored(Between(h, visible, start, mark)) + FramesOfStored(Between(h, visible, mark, end))
         == before + FramesOfStored(Between(h, visible, start, end))
  {
    hide Between, FramesOfStored;
    BetweenSplits(h, visible, start, mark, end);
    FramesAppend(Between(h, visible, start, mark), Between(h, visible, mark, end));
  }

  lemma BusIncreasing(bus: Bus, history: seq<Stored>)
    requires BusOk(bus, history)
    ensures Increasing(history)
  {}

  /** One connection, cut anywhere, resumed in time. */
  lemma ConnectKeeps(w: World, visible: Visibility, live: seq<Happening>, cut: nat, start: nat, mark: nat, before: seq<Frame>)
    returns (mark': nat)
    requires Synced(w, visible, start, mark, before) && InTime(w)
    requires forall h | h in live :: ValidHappening(h)
    ensures mark <= mark'
    ensures Synced(Connect(w, visible, live, cut), visible, start, mark', before)
    ensures cut >= |Preamble() + EncodeAll(Messages(Connection(w, visible, live).items))| ==>
      Connect(w, visible, live, cut).client.received
        == before + FramesOfStored(Between(Connect(w, visible, live, cut).history, visible, start, Connect(w, visible, live, cut).bus.nextId))
  {
    hide BusOk, Between, FramesOfStored, Attempt, After, FeedOk, Decimal, Preamble, ResumePoint, HappenAll, OpenFeed;
    ResumesAt(mark);
    OpenIsFaithful(w.bus, w.history, visible, mark);
    var opening := OpenFeed(w.bus, w.history, visible, Some(mark));
    OpeningKeepsBus(w.bus, w.history, visible, mark);
    HappeningsKeep(opening, visible, live, mark);
    HappenAllExtends(opening, visible, live);
    var f := Connection(w, visible, live);
    FeedHasBus(f, visible, mark);
    BusIncreasing(f.bus, f.history);
    mark' := AttemptDelivers(w.client, f, visible, mark, CutPoint(f.items, cut));
    BetweenIgnoresLater(w.history, f.history, w.bus.nextId, visible, start, mark);
    Joined(f.history, visible, start, mark, mark', before);
    Joined(f.history, visible, start, mark, f.bus.nextId, before);
  }

  lemma OpeningKeepsBus(bus: Bus, history: seq<Stored>, visible: Visibility, mark: nat)
    ensures OpenFeed(bus, history, visible, Some(mark)).bus == bus
    ensures OpenFeed(bus, history, visible, Some(mark)).history == history
  {}

  lemma FeedHasBus(f: Feedline, visible: Visibility, start: nat)
    requires FeedOk(f, visible, start)
    ensures BusOk(f.bus, f.history) && start < f.bus.nextId
  {}

  predicate Uncut(w: World, visible: Visibility, e: Episode) {
    e.cut >= |Preamble() + EncodeAll(Messages(Connection(PublishAll(w, e.quiet), visible, e.live).items))|
  }

  /** However many connections there were and wherever each was cut, the app was handed the visible
      history from its starting point up to its resume point: nothing lost, nothing twice, nothing
      out of order. If the last connection was not cut, that is everything there is. */
  lemma {:induction false} NothingLostNothingTwice(w: World, visible: Visibility, episodes: seq<Episode>, start: nat, mark: nat, before: seq<Frame>)
    returns (end: nat)
    requires Synced(w, visible, start, mark, before) && AlwaysInTime(w, visible, episodes)
    ensures mark <= end && Synced(LiveAll(w, visible, episodes), visible, start, end, before)
    ensures episodes != [] && Uncut(LiveAll(w, visible, episodes[..|episodes| - 1]), visible, episodes[|episodes| - 1]) ==>
      LiveAll(w, visible, episodes).client.received
        == before + FramesOfStored(Between(LiveAll(w, visible, episodes).history, visible, start, LiveAll(w, visible, episodes).bus.nextId))
    decreases |episodes|
  {
    hide Synced, BusOk, Between, FramesOfStored, After, Decimal, Preamble, ResumePoint, PublishAll, Connect, Connection;
    end := mark;
    if episodes != [] {
      var e := episodes[0];
      var rest := episodes[1..];
      QuietKeeps(w, visible, e.quiet, start, mark, before);
      var next := ConnectKeeps(PublishAll(w, e.quiet), visible, e.live, e.cut, start, mark, before);
      end := NothingLostNothingTwice(Live(w, visible, e), visible, rest, start, next, before);
      if rest == [] {
        assert episodes[..|episodes| - 1] == [];
      } else {
        assert episodes[..|episodes| - 1][1..] == rest[..|rest| - 1];
      }
    }
  }

  // ─── without a resume point ──────────────────────────────────────────────────

  /** A client that has no id yet is handed nothing of what was stored before it connected; once a
      frame has reached it, it is in sync from the id that was current when it connected. */
  lemma FirstConnection(w: World, visible: Visibility, live: seq<Happening>, cut: nat) returns (mark: nat)
    requires BusOk(w.bus, w.history) && w.client.lastId.None? && forall h | h in live :: ValidHappening(h)
    ensures BusOk(Connect(w, visible, live, cut).bus, Connect(w, visible, live, cut).history)
    ensures Connect(w, visible, live, cut).client == w.client
         || Synced(Connect(w, visible, live, cut), visible, w.bus.nextId - 1, mark, w.client.received)
    ensures cut >= |Preamble() + EncodeAll(Messages(Connection(w, visible, live).items))| ==>
      Connect(w, visible, live, cut).client.received == w.client.received + FramesOfStored(
        Between(Connect(w, visible, live, cut).history, visible, w.bus.nextId - 1, Connect(w, visible, live, cut).bus.nextId))
  {
    hide BusOk, Between, FramesOfStored, Attempt, FeedOk, Decimal, Preamble, HappenAll, Faithful;
    OpensEmpty(w.bus, w.history, visible);
    var start := w.bus.nextId - 1;
    var opening := OpenFeed(w.bus, w.history, visible, None);
    HappeningsKeep(opening, visible, live, start);
    var f := Connection(w, visible, live);
    FeedHasBus(f, visible, start);
    mark := FirstAttempt(w.client, f, visible, start, CutPoint(f.items, cut));
  }

  lemma OpensEmpty(bus: Bus, history: seq<Stored>, visible: Visibility)
    requires BusOk(bus, history)
    ensures bus.nextId > 0 && FeedOk(OpenFeed(bus, history, visible, None), visible, bus.nextId - 1)
  {
    var start := bus.nextId - 1;
    NothingAfter(bus, history, visible);
    OpenedWithout(bus, history, visible);
    NothingSentIsFaithful(history, visible, start);
    hide BusOk, Between, Faithful, Events, FramesOfStored, OpenFeed;
  }

  lemma NothingAfter(bus: Bus, history: seq<Stored>, visible: Visibility)
    requires BusOk(bus, history)
    ensures bus.nextId > 0
    ensures Between(history, visible, bus.nextId - 1, bus.nextId - 1) == [] == Between(history, visible, bus.nextId - 1, bus.nextId)
  {
    var start := bus.nextId - 1;
    assert forall e | e in history :: e.id <= start;
    hide Between, BusOk;
    BetweenIsEmptyWhen(history, visible, start, start);
    BetweenIsEmptyWhen(history, visible, start, bus.nextId);
  }

  lemma OpenedWithout(bus: Bus, history: seq<Stored>, visible: Visibility)
    requires bus.nextId > 0
    ensures OpenFeed(bus, history, visible, None) == Feedline(bus, history, bus.nextId - 1, [])
  {}

  lemma NothingSentIsFaithful(history: seq<Stored>, visible: Visibility, start: nat)
    requires Between(history, visible, start, start) == []
    ensures Faithful([], history, visible, start) && Events([]) == FramesOfStored(Between(history, visible, start, start))
  {
    hide Between;
  }

  lemma FirstAttempt(c: Client, f: Feedline, visible: Visibility, start: nat, cut: nat) returns (mark: nat)
    requires FeedOk(f, visible, start) && c.lastId.None?
    requires cut <= |Preamble() + EncodeAll(Messages(f.items))|
    ensures start <= mark < f.bus.nextId
    ensures Attempt(c, f.items, cut) == c || InSync(Attempt(c, f.items, cut), f.history, visible, start, mark, c.received)
    ensures cut == |Preamble() + EncodeAll(Messages(f.items))| ==>
              Attempt(c, f.items, cut).received == c.received + FramesOfStored(Between(f.history, visible, start, f.bus.nextId))
  {
    hide BusOk, Between, FramesOfStored, Decimal, FRESH, Events, Push, ConsumeAll, FramesOfAll;
    var messages := Messages(f.items);
    assert forall m | m in messages :: m.Valid();
    var n := CutDelivers(messages, cut);
    SameMessages(f.items, n);
    ConsumeItems(c, f.items[..n]);
    mark := Mark(f.items, n, start);
    assert Events(f.items[..n]) == FramesOfStored(Between(f.history, visible, start, mark));
    assert f.items[..|f.items|] == f.items;
    if n == 0 {
      NoEvents();
      assert c.received + [] == c.received;
    }
  }

  /** A reconnect without a resume point misses what was stored in the meantime: an uncut connection
      brings the app up to date from `start` exactly when nothing visible was stored between. */
  lemma WithoutResumePointEventsAreLost(w: World, visible: Visibility, live: seq<Happening>, cut: nat, start: nat)
    requires BusOk(w.bus, w.history) && w.client.lastId.None? && forall h | h in live :: ValidHappening(h)
    requires start < w.bus.nextId
    requires cut >= |Preamble() + EncodeAll(Messages(Connection(w, visible, live).items))|
    ensures Connect(w, visible, live, cut).client.received == w.client.received + FramesOfStored(
              Between(Connect(w, visible, live, cut).history, visible, start, Connect(w, visible, live, cut).bus.nextId))
       <==> Between(w.history, visible, start, w.bus.nextId - 1) == []
  {
    hide BusOk, Between, FramesOfStored, Attempt, FeedOk, Decimal, Preamble, HappenAll, Faithful;
    var mark := FirstConnection(w, visible, live, cut);
    var opening := OpenFeed(w.bus, w.history, visible, None);
    HappenAllExtends(opening, visible, live);
    var w' := Connect(w, visible, live, cut);
    BusIncreasing(w'.bus, w'.history);
    OpensEmpty(w.bus, w.history, visible);
    BetweenSplits(w'.history, visible, start, w.bus.nextId - 1, w'.bus.nextId);
    BetweenIgnoresLater(w.history, w'.history, w.bus.nextId, visible, start, w.bus.nextId - 1);
    var missed := Between(w.history, visible, start, w.bus.nextId - 1);
    var got := Between(w'.history, visible, w.bus.nextId - 1, w'.bus.nextId);
    FramesAppend(missed, got);
    FramesCount(missed + got);
    FramesCount(got);
    if missed == [] {
      assert missed + got == got;
    }
  }

  lemma {:induction false} FramesCount(events: seq<Stored>)
    ensures |FramesOfStored(events)| == |events|
  {
    if events != [] {
      FramesCount(events[..|events| - 1]);
    }
  }
}
