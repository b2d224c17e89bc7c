/** What a `text/event-stream` means, read a block at a time as section 9.2.6 of the WHATWG HTML
    Living Standard does, and the messages the server writes into one
    (`apps/server/src/http/routes/events.ts`, lines 50-55). */
module EventStream {
  import opened Text
  import opened Sse

  // ─── the standard's reading ──────────────────────────────────────────────────

  function FieldName(line: string): string {
    var colon := IndexOf(line, ':');
    if colon < 0 then line else line[..colon]
  }

  function FieldValue(line: string): string {
    var colon := IndexOf(line, ':');
    var raw := if colon < 0 then "" else line[colon + 1..];
    if raw != "" && raw[0] == ' ' then raw[1..] else raw
  }

  /** The values of the fields called `name`, in order. */
  function Values(block: seq<string>, name: string): seq<string> {
    if block == [] then []
    else
      var line := block[|block| - 1];
      Values(block[..|block| - 1], name) + (if FieldName(line) == name then [FieldValue(line)] else [])
  }

  function WithoutNul(values: seq<string>): seq<string> {
    if values == [] then []
    else
      var last := values[|values| - 1];
      WithoutNul(values[..|values| - 1]) + (if NUL in last then [] else [last])
  }

  function LastOr(values: seq<string>, default: Option<string>): Option<string> {
    if values == [] then default else Some(values[|values| - 1])
  }

  function IdAfter(block: seq<string>, before: Option<string>): Option<string> {
    LastOr(WithoutNul(Values(block, "id")), before)
  }

  /** Every `data` line adds its value and a line feed. */
  function DataBuffer(values: seq<string>): string {
    if values == [] then "" else DataBuffer(values[..|values| - 1]) + values[|values| - 1] + "\n"
  }

  /** And the last line feed is taken off again. */
  function WithoutLast(buffer: string): string {
    if buffer == "" then "" else buffer[..|buffer| - 1]
  }

  lemma {:induction false} JoinedAtTheEnd(values: seq<string>, last: string)
    requires values != []
    ensures Join(values + [last]) == Join(values) + "\n" + last
    decreases |values|
  {
    assert (values + [last])[1..] == values[1..] + [last];
    if |values| > 1 {
      JoinedAtTheEnd(values[1..], last);
      assert values[0] + "\n" + (Join(values[1..]) + "\n" + last) == values[0] + "\n" + Join(values[1..]) + "\n" + last;
    }
  }

  /** The decoder joins what the standard collects. */
  lemma {:induction false} JoinIsTheBuffer(values: seq<string>)
    requires values != []
    ensures DataBuffer(values) == Join(values) + "\n" && WithoutLast(DataBuffer(values)) == Join(values)
    decreases |values|
  {
    var front, last := values[..|values| - 1], values[|values| - 1];
    if front != [] {
      JoinIsTheBuffer(front);
      JoinedAtTheEnd(front, last);
      assert values == front + [last];
    } else {
      assert values == [last] && DataBuffer(front) == "" && "" + last + "\n" == last + "\n";
    }
    assert (Join(values) + "\n")[..|Join(values)|] == Join(values);
  }

  /** The values of the `data` lines can be read off an event again: they are its lines. */
  lemma {:induction false} DataLinesAreItsLines(values: seq<string>)
    requires values != [] && forall value | value in values :: '\n' !in value
    ensures Split(WithoutLast(DataBuffer(values)), '\n') == values
    decreases |values|
  {
    JoinIsTheBuffer(values);
    if |values| == 1 {
      SplitWhole(values[0], '\n');
    } else {
      assert values[0] in values && forall value | value in values[1..] :: value in values;
      DataLinesAreItsLines(values[1..]);
      JoinIsTheBuffer(values[1..]);
      SplitAtFirst(values[0], Join(values[1..]));
    }
  }

  lemma {:induction false} SplitAtFirst(first: string, rest: string)
    requires '\n' !in first
    ensures Split(first + "\n" + rest, '\n') == [first] + Split(rest, '\n')
  {
    var s := first + "\n" + rest;
    if first == [] {
      assert s[1..] == rest;
    } else {
      assert first[0] in first && forall c | c in first[1..] :: c in first;
      SplitAtFirst(first[1..], rest);
      assert s[1..] == first[1..] + "\n" + rest;
      assert first == [first[0]] + first[1..];
    }
  }

  /** A block is an event when it carries data: all of it, the last type and the last id so far. */
  function BlockFrames(block: seq<string>, before: Option<string>): seq<Frame> {
    var data := Values(block, "data");
    if data == [] then []
    else [Frame(IdAfter(block, before), LastOr(Values(block, "event"), None), WithoutLast(DataBuffer(data)))]
  }

  /** The blocks that a blank line has ended, and the lines after the last blank one. */
  function Blocks(lines: seq<string>): (seq<seq<string>>, seq<string>)
    decreases |lines|
  {
    if lines == [] then ([], [])
    else
      var (blocks, open) := Blocks(lines[1..]);
      if lines[0] == "" then ([[]] + blocks, open)
      else if blocks == [] then ([], [lines[0]] + open)
      else ([[lines[0]] + blocks[0]] + blocks[1..], open)
  }

  function FramesOf(blocks: seq<seq<string>>, before: Option<string>): seq<Frame>
    decreases |blocks|
  {
    if blocks == [] then []
    else BlockFrames(blocks[0], before) + FramesOf(blocks[1..], IdAfter(blocks[0], before))
  }

  function IdAfterAll(blocks: seq<seq<string>>, before: Option<string>): Option<string>
    decreases |blocks|
  {
    if blocks == [] then before else IdAfterAll(blocks[1..], IdAfter(blocks[0], before))
  }

  /** What the decoder should have collected part-way through a block. */
  function Collected(block: seq<string>, before: Option<string>): Pending {
    Pending(Values(block, "data"), LastOr(Values(block, "event"), None), IdAfter(block, before))
  }

  // ─── the decoder reads it the same way ───────────────────────────────────────

  lemma ValuesGrow(block: seq<string>, line: string, name: string)
    ensures Values(block + [line], name)
         == Values(block, name) + (if FieldName(line) == name then [FieldValue(line)] else [])
  {
    assert (block + [line])[..|block|] == block;
  }

  lemma IdGrows(block: seq<string>, line: string, before: Option<string>)
    ensures IdAfter(block + [line], before)
         == if FieldName(line) == "id" && NUL !in FieldValue(line) then Some(FieldValue(line)) else IdAfter(block, before)
  {
    ValuesGrow(block, line, "id");
    var ids := Values(block, "id");
    if FieldName(line) == "id" {
      assert (ids + [FieldValue(line)])[..|ids|] == ids;
    } else {
      assert ids + [] == ids;
    }
  }

  lemma LineCollected(block: seq<string>, line: string, before: Option<string>)
    requires line != ""
    ensures OnLine(Collected(block, before), line) == (Collected(block + [line], before), [])
  {
    ValuesGrow(block, line, "data");
    ValuesGrow(block, line, "event");
    IdGrows(block, line, before);
    var data, event := Values(block, "data"), Values(block, "event");
    assert data + [] == data && event + [] == event;
    if line[0] == ':' {
      assert IndexOf(line, ':') == 0;
      assert FieldName(line) == "";
    }
  }

  lemma {:induction false} BlocksAfterOpen(block: seq<string>, tail: seq<string>)
    requires "" !in block
    ensures Blocks(block) == ([], block)
    ensures Blocks(block + [""] + tail) == ([block] + Blocks(tail).0, Blocks(tail).1)
    decreases |block|
  {
    if block == [] {
      assert block + [""] + tail == [""] + tail;
      assert ([""] + tail)[1..] == tail;
    } else {
      BlocksAfterOpen(block[1..], tail);
      assert (block + [""] + tail)[1..] == block[1..] + [""] + tail;
      assert [block[0]] + block[1..] == block;
      assert ([block[1..]] + Blocks(tail).0)[1..] == Blocks(tail).0;
    }
  }

  lemma {:induction false} FeedReadsBlocks(block: seq<string>, before: Option<string>, lines: seq<string>)
    requires "" !in block
    ensures var (blocks, open) := Blocks(block + lines);
            Feed(Collected(block, before), lines) == (Collected(open, IdAfterAll(blocks, before)), FramesOf(blocks, before))
    decreases |lines|
  {
    hide OnLine, Collected, BlockFrames, IdAfter;
    if lines == [] {
      assert block + lines == block;
      BlocksAfterOpen(block, []);
    } else if lines[0] == "" {
      var tail := lines[1..];
      assert block + lines == block + [""] + tail;
      BlocksAfterOpen(block, tail);
      BlankLineDispatches(block, before);
      assert [] + tail == tail;
      FeedReadsBlocks([], IdAfter(block, before), tail);
      assert ([block] + Blocks(tail).0)[1..] == Blocks(tail).0;
    } else {
      LineCollected(block, lines[0], before);
      FeedReadsBlocks(block + [lines[0]], before, lines[1..]);
      assert block + [lines[0]] + lines[1..] == block + lines;
      var rest := Feed(Collected(block + [lines[0]], before), lines[1..]).1;
      assert [] + rest == rest;
    }
  }

  lemma BlankLineDispatches(block: seq<string>, before: Option<string>)
    ensures OnLine(Collected(block, before), "") == (Collected([], IdAfter(block, before)), BlockFrames(block, before))
  {
    hide DataBuffer, WithoutLast, Join;
    if Values(block, "data") != [] {
      JoinIsTheBuffer(Values(block, "data"));
    }
  }

  /** The incremental decoder delivers the events the standard's reading of the text delivers, with
      the same ids and data, for any text in any of the three line-end conventions. */
  lemma DecoderFollowsTheStandard(text: string)
    ensures var (lines, fragment) := Lines(text);
            var (blocks, open) := Blocks(lines);
            Push(FRESH, text) == (Decoder(fragment, Collected(open, IdAfterAll(blocks, None))), FramesOf(blocks, None))
  {
    assert "" + text == text;
    assert [] + Lines(text).0 == Lines(text).0;
    FeedReadsBlocks([], None, Lines(text).0);
  }

  /** The type the standard gives an event: an empty one, like none at all, means `message`. */
  function DispatchedType(block: seq<string>): string {
    var last := LastOr(Values(block, "event"), None);
    if last.None? || last.value == "" then "message" else last.value
  }

  function DispatchedTypes(blocks: seq<seq<string>>): seq<string> {
    if blocks == [] then []
    else (if Values(blocks[0], "data") == [] then [] else [DispatchedType(blocks[0])]) + DispatchedTypes(blocks[1..])
  }

  /** The types of the decoder's frames, for a reader that takes a missing one for `message`. */
  function Types(frames: seq<Frame>): seq<string> {
    if frames == [] then [] else [frames[0].event.GetOr("message")] + Types(frames[1..])
  }

  predicate EmptyType(block: seq<string>) {
    Values(block, "data") != [] && LastOr(Values(block, "event"), None) == Some("")
  }

  /** The decoder keeps an empty type where the standard falls back to `message`: the types of a
      stream agree exactly when no event in it ends its `event` fields with an empty one. */
  lemma {:induction false} TypesAgreeExactlyWhenNoneIsEmpty(blocks: seq<seq<string>>, before: Option<string>)
    ensures Types(FramesOf(blocks, before)) == DispatchedTypes(blocks) <==> forall block | block in blocks :: !EmptyType(block)
    ensures |Types(FramesOf(blocks, before))| == |DispatchedTypes(blocks)|
    decreases |blocks|
  {
    hide BlockFrames, IdAfter, Values, EmptyType, DispatchedType;
    if blocks != [] {
      var rest := FramesOf(blocks[1..], IdAfter(blocks[0], before));
      BlockType(blocks[0], before);
      TypesAgreeExactlyWhenNoneIsEmpty(blocks[1..], IdAfter(blocks[0], before));
      assert (forall block | block in blocks :: !EmptyType(block))
         <==> !EmptyType(blocks[0]) && forall block | block in blocks[1..] :: !EmptyType(block) by {
        assert blocks == [blocks[0]] + blocks[1..];
      }
      if Values(blocks[0], "data") == [] {
        assert [] + rest == rest && [] + DispatchedTypes(blocks[1..]) == DispatchedTypes(blocks[1..]);
      } else {
        var frame := BlockFrames(blocks[0], before)[0];
        assert ([frame] + rest)[1..] == rest;
        SameHead(frame.event.GetOr("message"), Types(rest), DispatchedType(blocks[0]), DispatchedTypes(blocks[1..]));
      }
    }
  }

  lemma BlockType(block: seq<string>, before: Option<string>)
    ensures Values(block, "data") == [] ==> BlockFrames(block, before) == [] && !EmptyType(block)
    ensures Values(block, "data") != [] ==>
      && |BlockFrames(block, before)| == 1
      && (BlockFrames(block, before)[0].event.GetOr("message") == DispatchedType(block) <==> !EmptyType(block))
  {
    hide Values, IdAfter;
  }

  lemma SameHead(a: string, s: seq<string>, b: string, t: seq<string>)
    ensures [a] + s == [b] + t <==> a == b && s == t
  {
    assert ([a] + s)[0] == a && ([a] + s)[1..] == s && ([b] + t)[0] == b && ([b] + t)[1..] == t;
  }

  // ─── what the server writes ──────────────────────────────────────────────────

  datatype Message = Message(id: nat, event: string, data: string) {
    /** Event types are identifiers and the data is one line of JSON. */
    ghost predicate Valid() {
      Unbroken(event) && Unbroken(data)
    }
  }

  function Terminated(lines: seq<string>): string {
    if lines == [] then "" else lines[0] + ("\n" + Terminated(lines[1..]))
  }

  function FieldText(name: string, value: string): string {
    name + ": " + value
  }

  function MessageLines(m: Message): seq<string> {
    [FieldText("id", Decimal(m.id)), FieldText("event", m.event), FieldText("data", m.data), ""]
  }

  function Encode(m: Message): string {
    Terminated(MessageLines(m))
  }

  function EncodeAll(messages: seq<Message>): string {
    if messages == [] then "" else Encode(messages[0]) + EncodeAll(messages[1..])
  }

  function FrameOf(m: Message): Frame {
    Frame(Some(Decimal(m.id)), Some(m.event), m.data)
  }

  function FramesOfAll(messages: seq<Message>): seq<Frame> {
    if messages == [] then [] else [FrameOf(messages[0])] + FramesOfAll(messages[1..])
  }

  /** How many messages are complete in the first `k` characters. */
  function Complete(messages: seq<Message>, k: nat): (n: nat)
    ensures n <= |messages|
    decreases |messages|
  {
    if messages == [] || k < |Encode(messages[0])| then 0
    else 1 + Complete(messages[1..], k - |Encode(messages[0])|)
  }

  lemma {:induction false} FirstLineOf(line: string, rest: string)
    requires Unbroken(line)
    ensures FirstLine(line + ("\n" + rest)) == Some((line, rest))
  {
    if line == "" {
      assert line + ("\n" + rest) == "\n" + rest;
      assert ("\n" + rest)[1..] == rest;
    } else {
      assert forall i | 0 <= i < |line| - 1 :: line[1..][i] == line[i + 1];
      FirstLineOf(line[1..], rest);
      assert (line + ("\n" + rest))[1..] == line[1..] + ("\n" + rest);
      assert [line[0]] + line[1..] == line;
    }
  }

  ghost predicate AllUnbroken(lines: seq<string>) {
    forall i | 0 <= i < |lines| :: Unbroken(lines[i])
  }

  lemma {:induction false} LinesOfTerminated(lines: seq<string>, rest: string)
    requires AllUnbroken(lines)
    ensures Lines(Terminated(lines) + rest) == (lines + Lines(rest).0, Lines(rest).1)
  {
    hide Lines, FirstLine, Terminated;
    if lines == [] {
      assert Terminated(lines) == "" by { NoLines(); }
      assert "" + rest == rest;
      assert lines + Lines(rest).0 == Lines(rest).0;
    } else {
      var more := Terminated(lines[1..]) + rest;
      LinesOfTerminated(lines[1..], rest);
      FirstLineOf(lines[0], more);
      TerminatedUnfolds(lines, rest);
      LinesUnfold(lines[0] + ("\n" + more));
      assert [lines[0]] + (lines[1..] + Lines(rest).0) == lines + Lines(rest).0;
    }
  }

  lemma NoLines()
    ensures Terminated([]) == ""
  {}

  lemma TerminatedUnfolds(lines: seq<string>, rest: string)
    requires lines != []
    ensures Terminated(lines) + rest == lines[0] + ("\n" + (Terminated(lines[1..]) + rest))
  {}

  /** Cut short, terminated lines lose the ones that are not whole. */
  lemma {:induction false} LinesOfPrefix(lines: seq<string>, k: nat)
    requires AllUnbroken(lines) && k <= |Terminated(lines)|
    ensures Lines(Terminated(lines)[..k]).0 <= lines
    ensures Lines(Terminated(lines)[..k]).0 == lines ==> k == |Terminated(lines)|
  {
    var text := Terminated(lines)[..k];
    if lines != [] {
      if k <= |lines[0]| {
        assert text == lines[0][..k];
        assert Unbroken(text);
        NoFirstLine(text);
      } else {
        var k' := k - |lines[0]| - 1;
        var more := Terminated(lines[1..])[..k'];
        assert text == lines[0] + ("\n" + more);
        FirstLineOf(lines[0], more);
        LinesUnfold(text);
        LinesOfPrefix(lines[1..], k');
        assert [lines[0]] + lines[1..] == lines;
        assert ([lines[0]] + Lines(more).0)[1..] == Lines(more).0;
      }
    }
  }

  lemma MessageLinesUnbroken(m: Message)
    requires m.Valid()
    ensures AllUnbroken(MessageLines(m))
  {}

  lemma {:induction false} IndexOfFirst(s: string, c: char, j: nat)
    requires j < |s| && s[j] == c && c !in s[..j]
    ensures IndexOf(s, c) == j
  {
    if j > 0 {
      assert s[0] in s[..j];
      assert forall x | x in s[1..][..j - 1] :: x in s[..j] by {
        assert s[..j] == [s[0]] + s[1..][..j - 1];
      }
      IndexOfFirst(s[1..], c, j - 1);
    }
  }

  lemma FieldLine(name: string, value: string)
    requires ':' !in name
    ensures FieldName(FieldText(name, value)) == name && FieldValue(FieldText(name, value)) == value
  {
    var line := FieldText(name, value);
    assert line[|name|] == ':' && line[..|name|] == name;
    IndexOfFirst(line, ':', |name|);
    assert line[|name| + 1..] == " " + value;
    assert (" " + value)[1..] == value;
  }

  ghost predicate Idle(p: Pending) {
    p.data == [] && p.event == None
  }

  lemma FieldLineFeeds(p: Pending, name: string, value: string)
    requires ':' !in name && name != ""
    ensures OnLine(p, FieldText(name, value)) == (OnField(p, name, value), [])
  {
    FieldLine(name, value);
  }

  lemma BlankLineDelivers(p: Pending, m: Message)
    requires p == Pending([m.data], Some(m.event), Some(Decimal(m.id)))
    ensures OnLine(p, "") == (Pending([], None, p.lastId), [FrameOf(m)])
  {}

  lemma FieldsCollect(p: Pending, m: Message)
    requires Idle(p)
    ensures var id := Decimal(m.id);
            var p1 := p.(lastId := Some(id));
            var p2 := p1.(event := Some(m.event));
      && OnField(p, "id", id) == p1 && OnField(p1, "event", m.event) == p2
      && OnField(p2, "data", m.data) == Pending([m.data], Some(m.event), Some(id))
  {
    assert p.data + [m.data] == [m.data];
  }

  /** One message in, one frame out, at its last character and not before. */
  lemma MessageDecodes(p: Pending, m: Message)
    requires Idle(p)
    ensures Feed(p, MessageLines(m)) == (Pending([], None, Some(Decimal(m.id))), [FrameOf(m)])
    ensures forall n | 0 <= n < 4 :: Feed(p, MessageLines(m)[..n]).1 == []
  {
    hide Feed, OnLine, OnField, Decimal, FieldText, FrameOf;
    var id := Decimal(m.id);
    var p1 := p.(lastId := Some(id));
    var p2 := p1.(event := Some(m.event));
    var p3 := Pending([m.data], Some(m.event), Some(id));
    FieldsCollect(p, m);
    FieldLineFeeds(p, "id", id);
    FieldLineFeeds(p1, "event", m.event);
    FieldLineFeeds(p2, "data", m.data);
    BlankLineDelivers(p3, m);
    FeedFour(p, p1, p2, p3, Pending([], None, Some(id)), MessageLines(m), FrameOf(m));
  }

  lemma FeedFour(p: Pending, p1: Pending, p2: Pending, p3: Pending, p4: Pending, lines: seq<string>, frame: Frame)
    requires |lines| == 4
    requires OnLine(p, lines[0]) == (p1, []) && OnLine(p1, lines[1]) == (p2, []) && OnLine(p2, lines[2]) == (p3, [])
    requires OnLine(p3, lines[3]) == (p4, [frame])
    ensures Feed(p, lines) == (p4, [frame])
    ensures forall n | 0 <= n < 4 :: Feed(p, lines[..n]).1 == []
  {
    hide OnLine;
    FeedOne(p, lines[0]);
    FeedOne(p1, lines[1]);
    FeedOne(p2, lines[2]);
    FeedOne(p3, lines[3]);
    FeedInTwoParts(p, [lines[0]], [lines[1]]);
    FeedInTwoParts(p, [lines[0]] + [lines[1]], [lines[2]]);
    FeedInTwoParts(p, [lines[0]] + [lines[1]] + [lines[2]], [lines[3]]);
    assert lines == [lines[0]] + [lines[1]] + [lines[2]] + [lines[3]];
    var none: seq<Frame> := [];
    assert none + none == none && none + [frame] == [frame];
    assert lines[..0] == [] && lines[..1] == [lines[0]] && lines[..2] == [lines[0]] + [lines[1]];
    assert lines[..3] == [lines[0]] + [lines[1]] + [lines[2]];
  }

  lemma FeedOne(p: Pending, line: string)
    ensures Feed(p, [line]) == OnLine(p, line)
  {
    hide OnLine;
    assert [line][1..] == [];
    assert OnLine(p, line).1 + [] == OnLine(p, line).1;
  }

  /** For every place a connection can be cut, exactly the messages that arrived whole come out,
      unchanged and in order. */
  lemma {:induction false} CutStreamDecodes(p: Pending, messages: seq<Message>, k: nat)
    requires Idle(p) && (forall m | m in messages :: m.Valid()) && k <= |EncodeAll(messages)|
    ensures Feed(p, Lines(EncodeAll(messages)[..k]).0).1 == FramesOfAll(messages[..Complete(messages, k)])
    decreases |messages|
  {
    hide Feed, Lines, Encode, Complete, FramesOfAll, EncodeAll;
    if messages == [] {
      NothingDecodes(p, k);
    } else if k < |Encode(messages[0])| {
      CutInTheFirst(p, messages, k);
    } else {
      var rest := k - |Encode(messages[0])|;
      var p' := Pending([], None, Some(Decimal(messages[0].id)));
      AfterTheFirst(p, messages, k);
      CutStreamDecodes(p', messages[1..], rest);
      CompleteGrows(messages, k);
    }
  }

  lemma NothingDecodes(p: Pending, k: nat)
    requires k <= |EncodeAll([])|
    ensures Feed(p, Lines(EncodeAll([])[..k]).0).1 == FramesOfAll([][..Complete([], k)])
  {}

  lemma CutInTheFirst(p: Pending, messages: seq<Message>, k: nat)
    requires messages != [] && messages[0].Valid() && Idle(p) && k < |Encode(messages[0])| && k <= |EncodeAll(messages)|
    ensures Feed(p, Lines(EncodeAll(messages)[..k]).0).1 == FramesOfAll(messages[..Complete(messages, k)])
  {
    var m := messages[0];
    assert EncodeAll(messages)[..k] == Encode(m)[..k];
    MessageLinesUnbroken(m);
    MessageDecodes(p, m);
    LinesOfPrefix(MessageLines(m), k);
    var lines := Lines(Encode(m)[..k]).0;
    assert messages[..0] == [] && |MessageLines(m)| == 4;
    hide Feed, Lines, MessageLines, Decimal;
    assert lines == MessageLines(m)[..|lines|] && |lines| < 4;
  }

  lemma AfterTheFirst(p: Pending, messages: seq<Message>, k: nat)
    requires messages != [] && messages[0].Valid() && Idle(p) && |Encode(messages[0])| <= k <= |EncodeAll(messages)|
    ensures |EncodeAll(messages)| == |Encode(messages[0])| + |EncodeAll(messages[1..])|
    ensures Feed(p, Lines(EncodeAll(messages)[..k]).0).1
         == [FrameOf(messages[0])]
            + Feed(Pending([], None, Some(Decimal(messages[0].id))), Lines(EncodeAll(messages[1..])[..k - |Encode(messages[0])|]).0).1
  {
    var m := messages[0];
    var rest := EncodeAll(messages[1..])[..k - |Encode(m)|];
    assert EncodeAll(messages)[..k] == Encode(m) + rest;
    assert Encode(m) == Terminated(MessageLines(m));
    MessageLinesUnbroken(m);
    MessageDecodes(p, m);
    hide Feed, Lines, MessageLines, Decimal, Terminated, FrameOf, Encode, EncodeAll;
    LinesOfTerminated(MessageLines(m), rest);
    FeedInTwoParts(p, MessageLines(m), Lines(rest).0);
  }

  lemma CompleteGrows(messages: seq<Message>, k: nat)
    requires messages != [] && |Encode(messages[0])| <= k
    ensures var n := Complete(messages[1..], k - |Encode(messages[0])|);
      Complete(messages, k) == n + 1
      && FramesOfAll(messages[..n + 1]) == [FrameOf(messages[0])] + FramesOfAll(messages[1..][..n])
  {
    hide FrameOf, Encode;
    var n := Complete(messages[1..], k - |Encode(messages[0])|);
    assert messages[..n + 1][1..] == messages[1..][..n];
  }

  /** The whole stream decodes to the messages that were written. */
  lemma {:induction false} CompleteAtTheEnd(messages: seq<Message>)
    ensures Complete(messages, |EncodeAll(messages)|) == |messages|
  {
    if messages != [] {
      CompleteAtTheEnd(messages[1..]);
    }
  }

  lemma EncodeThenDecode(messages: seq<Message>)
    requires forall m | m in messages :: m.Valid()
    ensures Push(FRESH, EncodeAll(messages)).1 == FramesOfAll(messages)
  {
    CompleteAtTheEnd(messages);
    CutStreamDecodes(FRESH.pending, messages, |EncodeAll(messages)|);
    assert EncodeAll(messages)[..|EncodeAll(messages)|] == EncodeAll(messages);
    assert messages[..|messages|] == messages;
    assert "" + EncodeAll(messages) == EncodeAll(messages);
  }
}
