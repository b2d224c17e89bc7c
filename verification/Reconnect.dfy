/** The event bus with its replay buffer (`apps/server/src/events/bus.ts`), the stream the server
    writes from it (`apps/server/src/http/routes/events.ts`) and the client that reconnects with
    the last id it saw (`packages/client-core/src/events.ts`). */
module Reconnect {
  import opened Text
  import opened Sse
  import opened EventStream

  // ─── the bus ─────────────────────────────────────────────────────────────────

  datatype ServerEvent = ServerEvent(kind: string, json: string) {
    ghost predicate Valid() {
      Unbroken(kind) && Unbroken(json)
    }
  }

  datatype Stored = Stored(id: nat, event: ServerEvent)

  datatype Bus = Bus(nextId: nat, buffer: seq<Stored>, bufferSize: nat)

  type Visibility = ServerEvent -> bool

  const HEARTBEAT: string := "heartbeat"

  function Publish(bus: Bus, event: ServerEvent): Bus {
    if event.kind == HEARTBEAT then bus.(nextId := bus.nextId + 1)
    else
      var grown := bus.buffer + [Stored(bus.nextId, event)];
      bus.(nextId := bus.nextId + 1, buffer := if |grown| > bus.bufferSize then grown[1..] else grown)
  }

  /** The events in `history` with an id above `after`, up to `upTo`, that this device may see. */
  function Between(history: seq<Stored>, visible: Visibility, after: int, upTo: int): seq<Stored> {
    if history == [] then []
    else
      var last := history[|history| - 1];
      Between(history[..|history| - 1], visible, after, upTo)
      + (if visible(last.event) && after < last.id <= upTo then [last] else [])
  }

  /** `replay`: what the buffer holds after the given id. */
  function Replay(bus: Bus, visible: Visibility, afterId: nat): seq<Stored> {
    Between(bus.buffer, visible, afterId, bus.nextId)
  }

  ghost predicate Increasing(history: seq<Stored>) {
    forall i, j | 0 <= i < j < |history| :: history[i].id < history[j].id
  }

  /** The buffer is the tail of everything that was ever stored. */
  ghost predicate BusOk(bus: Bus, history: seq<Stored>) {
    && |bus.buffer| <= |history|
    && bus.buffer == history[|history| - |bus.buffer|..]
    && |bus.buffer| == (if |history| <= bus.bufferSize then |history| else bus.bufferSize)
    && Increasing(history)
    && (forall e | e in history :: 0 < e.id < bus.nextId && e.event.kind != HEARTBEAT && e.event.Valid())
    && bus.nextId > 0
  }

  function Grow(history: seq<Stored>, bus: Bus, event: ServerEvent): seq<Stored> {
    if event.kind == HEARTBEAT then history else history + [Stored(bus.nextId, event)]
  }

  // ─── one connection ──────────────────────────────────────────────────────────

  /** What the server writes: an event of the bus, or a heartbeat that repeats the last id sent. */
  datatype Item = Item(message: Message, beat: bool)

  datatype Happening = Published(event: ServerEvent) | Beat(json: string)

  function ItemOf(e: Stored): Item {
    Item(Message(e.id, e.event.kind, e.event.json), false)
  }

  function ItemsOf(events: seq<Stored>): (items: seq<Item>)
    ensures |items| == |events|
    ensures forall i | 0 <= i < |events| :: items[i] == ItemOf(events[i])
  {
    if events == [] then [] else ItemsOf(events[..|events| - 1]) + [ItemOf(events[|events| - 1])]
  }

  datatype Feedline = Feedline(bus: Bus, history: seq<Stored>, lastSent: nat, items: seq<Item>)

  /** One thing that happens while the connection is open. */
  function Happen(f: Feedline, visible: Visibility, h: Happening): Feedline {
    match h
    case Beat(json) => f.(items := f.items + [Item(Message(f.lastSent, HEARTBEAT, json), true)])
    case Published(event) =>
      var id := f.bus.nextId;
      var next := f.(bus := Publish(f.bus, event), history := Grow(f.history, f.bus, event));
      if visible(event) then
        next.(lastSent := id, items := f.items + [Item(Message(id, event.kind, event.json), event.kind == HEARTBEAT)])
      else next
  }

  function HappenAll(f: Feedline, visible: Visibility, hs: seq<Happening>): Feedline
    decreases |hs|
  {
    if hs == [] then f else HappenAll(Happen(f, visible, hs[0]), visible, hs[1..])
  }

  function Numeric(raw: string): Option<nat> {
    if raw == "" || !AllDigits(raw) || Value(raw) > MAX_SAFE_INTEGER then None else Some(Value(raw))
  }

  /** `parseLastEventId`, on the numerals the server itself writes. */
  function ResumePoint(lastId: Option<string>): Option<nat> {
    if lastId.None? then None else Numeric(lastId.value)
  }

  /** The route: replay, then subscribe, in one synchronous stretch. */
  function OpenFeed(bus: Bus, history: seq<Stored>, visible: Visibility, resume: Option<nat>): Feedline {
    var replayed := if resume.Some? then Replay(bus, visible, resume.value) else [];
    Feedline(bus, history, if bus.nextId > 0 then bus.nextId - 1 else 0, ItemsOf(replayed))
  }

  function Messages(items: seq<Item>): (messages: seq<Message>)
    ensures |messages| == |items|
    ensures forall i | 0 <= i < |items| :: messages[i] == items[i].message
  {
    if items == [] then [] else [items[0].message] + Messages(items[1..])
  }

  function Preamble(): string {
    Terminated(PreambleLines())
  }

  // ─── the client ──────────────────────────────────────────────────────────────

  /** The resume point and the events handed to the app. */
  datatype Client = Client(lastId: Option<string>, received: seq<Frame>)

  function Consume(c: Client, frame: Frame): Client {
    Client(if frame.id.Some? then frame.id else c.lastId,
           if frame.event == Some(HEARTBEAT) then c.received else c.received + [frame])
  }

  function ConsumeAll(c: Client, frames: seq<Frame>): Client
    decreases |frames|
  {
    if frames == [] then c else ConsumeAll(Consume(c, frames[0]), frames[1..])
  }

  /** One attempt whose stream is cut after `cut` characters, read by a fresh decoder. */
  function Attempt(c: Client, items: seq<Item>, cut: nat): Client
    requires cut <= |Preamble() + EncodeAll(Messages(items))|
  {
    ConsumeAll(c, Push(FRESH, (Preamble() + EncodeAll(Messages(items)))[..cut]).1)
  }

  function FrameOfStored(e: Stored): Frame {
    FrameOf(ItemOf(e).message)
  }

  function FramesOfStored(events: seq<Stored>): seq<Frame> {
    if events == [] then [] else FramesOfStored(events[..|events| - 1]) + [FrameOfStored(events[|events| - 1])]
  }

  // ─── what is written is the visible history in order ─────────────────────────

  function Events(items: seq<Item>): seq<Frame> {
    if items == [] then []
    else
      var last := items[|items| - 1];
      Events(items[..|items| - 1]) + (if last.beat then [] else [FrameOf(last.message)])
  }

  /** The resume point a client has after the first `n` items. */
  function Mark(items: seq<Item>, n: nat, start: nat): nat
    requires n <= |items|
  {
    if n == 0 then start else items[n - 1].message.id
  }

  /** After any number of items, what was delivered is the visible history up to the mark. */
  ghost predicate Faithful(items: seq<Item>, history: seq<Stored>, visible: Visibility, start: nat) {
    && (forall n: nat | n <= |items| ::
          Events(items[..n]) == FramesOfStored(Between(history, visible, start, Mark(items, n, start))))
    && (forall i | 0 <= i < |items| :: items[i].message.Valid() && (items[i].beat <==> items[i].message.event == HEARTBEAT))
  }

  ghost predicate Truthful(f: Feedline, visible: Visibility, start: nat) {
    && BusOk(f.bus, f.history)
    && start <= f.lastSent < f.bus.nextId
    && Faithful(f.items, f.history, visible, start)
    && forall i | 0 <= i < |f.items| :: start <= f.items[i].message.id <= f.lastSent
  }

  /** Nothing visible is still unsent. */
  ghost predicate UpToDate(f: Feedline, visible: Visibility, start: nat) {
    && Events(f.items) == FramesOfStored(Between(f.history, visible, start, f.lastSent))
    && Between(f.history, visible, start, f.lastSent) == Between(f.history, visible, start, f.bus.nextId)
  }

  ghost predicate FeedOk(f: Feedline, visible: Visibility, start: nat) {
    Truthful(f, visible, start) && UpToDate(f, visible, start)
  }

  function Send(f: Feedline, item: Item): Feedline {
    f.(lastSent := item.message.id, items := f.items + [item])
  }

  function AfterPublish(f: Feedline, event: ServerEvent): Feedline {
    f.(bus := Publish(f.bus, event), history := Grow(f.history, f.bus, event))
  }

  ghost predicate ValidHappening(h: Happening) {
    match h
    case Published(event) => event.Valid()
    case Beat(json) => Unbroken(json)
  }

  // ─── reconnecting ────────────────────────────────────────────────────────────

  function After(history: seq<Stored>, id: int): seq<Stored> {
    if history == [] then []
    else
      var last := history[|history| - 1];
      After(history[..|history| - 1], id) + (if last.id > id then [last] else [])
  }

  ghost predicate ReplayOk(history: seq<Stored>, visible: Visibility, start: nat, upTo: nat) {
    var items := ItemsOf(Between(history, visible, start, upTo));
    && Faithful(items, history, visible, start)
    && Events(items) == FramesOfStored(Between(history, visible, start, upTo))
    && forall i | 0 <= i < |items| :: start < items[i].message.id <= upTo
  }

  // ─── what one attempt leaves the client with ─────────────────────────────────

  function PreambleLines(): seq<string> {
    [FieldText("retry", "3000"), ""]
  }

  /** The client's two halves of the truth: where it will resume and what it has handed on. */
  ghost predicate InSync(c: Client, history: seq<Stored>, visible: Visibility, start: nat, mark: nat, before: seq<Frame>) {
    c == Client(Some(Decimal(mark)), before + FramesOfStored(Between(history, visible, start, mark)))
  }
}
