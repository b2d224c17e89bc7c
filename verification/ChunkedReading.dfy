/** The connections of `Resume`, read as the network delivers them: the decoder is pushed one chunk
    after another, wherever the chunks happen to end. */
module ChunkedReading {
  import opened Text
  import opened Sse
  import opened EventStream
  import opened Reconnect
  import opened OneConnection
  import opened Resume

  // ─── what the server writes can be cut anywhere ──────────────────────────────

  predicate WithoutCR(s: string) {
    '\r' !in s
  }

  lemma {:induction false} TerminatedWithoutCR(lines: seq<string>)
    requires AllUnbroken(lines)
    ensures WithoutCR(Terminated(lines))
  {
    if lines != [] {
      assert lines[0] in lines && forall line | line in lines[1..] :: line in lines;
      TerminatedWithoutCR(lines[1..]);
      assert Unbroken(lines[0]);
    }
  }

  lemma {:induction false} MessagesWithoutCR(messages: seq<Message>)
    requires forall m | m in messages :: m.Valid()
    ensures WithoutCR(EncodeAll(messages))
  {
    if messages != [] {
      MessageLinesUnbroken(messages[0]);
      hide MessageLines;
      TerminatedWithoutCR(MessageLines(messages[0]));
      MessagesWithoutCR(messages[1..]);
    }
  }

  lemma StreamWithoutCR(messages: seq<Message>, cut: nat)
    requires forall m | m in messages :: m.Valid()
    requires cut <= |Preamble() + EncodeAll(messages)|
    ensures WithoutCR((Preamble() + EncodeAll(messages))[..cut])
  {
    hide EncodeAll;
    MessagesWithoutCR(messages);
    PreambleUnbroken();
    TerminatedWithoutCR(PreambleLines());
  }

  /** A text without a carriage return has no line end of two characters to fall apart. */
  lemma {:induction false} CutsAreClean(before: string, chunks: seq<string>)
    requires WithoutCR(before) && WithoutCR(Flatten(chunks))
    ensures CleanCuts(before, chunks)
    decreases |chunks|
  {
    if chunks != [] {
      assert Flatten(chunks) == chunks[0] + Flatten(chunks[1..]);
      CutsAreClean(before + chunks[0], chunks[1..]);
    }
  }

  /** One attempt, read in any division of the characters that arrived. */
  lemma ReadingIsInvisible(c: Client, items: seq<Item>, cut: nat, chunks: seq<string>)
    requires forall m | m in Messages(items) :: m.Valid()
    requires cut <= |Preamble() + EncodeAll(Messages(items))|
    requires Flatten(chunks) == (Preamble() + EncodeAll(Messages(items)))[..cut]
    ensures ConsumeAll(c, PushAll(FRESH, chunks).1) == Attempt(c, items, cut)
  {
    StreamWithoutCR(Messages(items), cut);
    hide Preamble, EncodeAll, Messages, ConsumeAll, Push, PushAll, CleanCuts;
    CutsAreClean("", chunks);
    ChunkingIsInvisible(FRESH, "", chunks);
  }

  // ─── any number of connections ───────────────────────────────────────────────

  function Written(f: Feedline): string {
    Preamble() + EncodeAll(Messages(f.items))
  }

  function LiveInChunks(w: World, visible: Visibility, e: Episode, chunks: seq<string>): World {
    var f := Connection(PublishAll(w, e.quiet), visible, e.live);
    World(f.bus, f.history, ConsumeAll(w.client, PushAll(FRESH, chunks).1))
  }

  function LiveAllInChunks(w: World, visible: Visibility, episodes: seq<Episode>, readings: seq<seq<string>>): World
    requires |readings| == |episodes|
    decreases |episodes|
  {
    if episodes == [] then w
    else LiveAllInChunks(LiveInChunks(w, visible, episodes[0], readings[0]), visible, episodes[1..], readings[1..])
  }

  /** The chunks are some division of what arrived before the connection was cut. */
  predicate Divides(w: World, visible: Visibility, e: Episode, chunks: seq<string>) {
    var f := Connection(PublishAll(w, e.quiet), visible, e.live);
    Flatten(chunks) == Written(f)[..CutPoint(f.items, e.cut)]
  }

  ghost predicate AllDivide(w: World, visible: Visibility, episodes: seq<Episode>, readings: seq<seq<string>>)
    requires |readings| == |episodes|
    decreases |episodes|
  {
    episodes == [] ||
    (Divides(w, visible, episodes[0], readings[0])
     && AllDivide(LiveInChunks(w, visible, episodes[0], readings[0]), visible, episodes[1..], readings[1..]))
  }

  lemma ConnectionIsValid(w: World, visible: Visibility, live: seq<Happening>, start: nat, mark: nat, before: seq<Frame>)
    requires Synced(w, visible, start, mark, before) && InTime(w)
    requires forall h | h in live :: ValidHappening(h)
    ensures forall m | m in Messages(Connection(w, visible, live).items) :: m.Valid()
  {
    hide BusOk, Between, FramesOfStored, After, Decimal, ResumePoint, HappenAll, OpenFeed, FeedOk;
    ResumesAt(mark);
    OpenIsFaithful(w.bus, w.history, visible, mark);
    HappeningsKeep(OpenFeed(w.bus, w.history, visible, Some(mark)), visible, live, mark);
    FeedMessagesValid(Connection(w, visible, live), visible, mark);
  }

  lemma FeedMessagesValid(f: Feedline, visible: Visibility, start: nat)
    requires FeedOk(f, visible, start)
    ensures forall m | m in Messages(f.items) :: m.Valid()
  {
    hide BusOk, Between, Events;
  }

  lemma OneReading(w: World, visible: Visibility, e: Episode, chunks: seq<string>, start: nat, mark: nat, before: seq<Frame>)
    requires Synced(w, visible, start, mark, before) && ValidEpisode(e) && InTime(PublishAll(w, e.quiet))
    requires Divides(w, visible, e, chunks)
    ensures LiveInChunks(w, visible, e, chunks) == Live(w, visible, e)
  {
    hide Synced, Connection, Attempt, PushAll, ConsumeAll, Preamble, EncodeAll, InTime;
    QuietKeeps(w, visible, e.quiet, start, mark, before);
    var quiet := PublishAll(w, e.quiet);
    ClientIsUntouched(w, e.quiet);
    ConnectionIsValid(quiet, visible, e.live, start, mark, before);
    var f := Connection(quiet, visible, e.live);
    ReadingIsInvisible(w.client, f.items, CutPoint(f.items, e.cut), chunks);
  }

  lemma {:induction false} ClientIsUntouched(w: World, events: seq<ServerEvent>)
    ensures PublishAll(w, events).client == w.client
    decreases |events|
  {
    if events != [] {
      ClientIsUntouched(w.(bus := Publish(w.bus, events[0]), history := Grow(w.history, w.bus, events[0])), events[1..]);
    }
  }

  /** Whatever chunks each connection was read in: the app was handed the visible history up to its
      resume point, nothing lost, nothing twice, nothing out of order. */
  lemma {:induction false} NothingLostInAnyChunks(w: World, visible: Visibility, episodes: seq<Episode>, readings: seq<seq<string>>, start: nat, mark: nat, before: seq<Frame>)
    returns (end: nat)
    requires Synced(w, visible, start, mark, before) && AlwaysInTime(w, visible, episodes)
    requires |readings| == |episodes| && AllDivide(w, visible, episodes, readings)
    ensures LiveAllInChunks(w, visible, episodes, readings) == LiveAll(w, visible, episodes)
    ensures mark <= end && Synced(LiveAllInChunks(w, visible, episodes, readings), visible, start, end, before)
    decreases |episodes|
  {
    hide Synced, ValidEpisode, InTime, Live, LiveInChunks, Divides;
    end := mark;
    if episodes != [] {
      var e := episodes[0];
      OneReading(w, visible, e, readings[0], start, mark, before);
      var next := LiveKeeps(w, visible, e, start, mark, before);
      end := NothingLostInAnyChunks(Live(w, visible, e), visible, episodes[1..], readings[1..], start, next, before);
    }
  }

  lemma LiveKeeps(w: World, visible: Visibility, e: Episode, start: nat, mark: nat, before: seq<Frame>) returns (next: nat)
    requires Synced(w, visible, start, mark, before) && ValidEpisode(e) && InTime(PublishAll(w, e.quiet))
    ensures mark <= next && Synced(Live(w, visible, e), visible, start, next, before)
  {
    hide Synced, InTime, Connect;
    QuietKeeps(w, visible, e.quiet, start, mark, before);
    next := ConnectKeeps(PublishAll(w, e.quiet), visible, e.live, e.cut, start, mark, before);
  }
}
