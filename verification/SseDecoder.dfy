/** `SseDecoder` as it is written. */
module SseDecoder {
  import opened Text
  import Sse

  /** The decoder as it is written: one buffer, cut at one line end after another. */
  class Decoder {
    var buffer: string
    var data: seq<string>
    var event: Option<string>
    var lastId: Option<string>

    ghost function Model(): Sse.Decoder
      reads this
    {
      Sse.Decoder(buffer, Sse.Pending(data, event, lastId))
    }

    constructor ()
      ensures Model() == Sse.FRESH
    {
      buffer, data, event, lastId := "", [], None, None;
    }

    method Push(chunk: string) returns (frames: seq<Sse.Frame>)
      modifies this
      ensures (Model(), frames) == Sse.Push(old(Model()), chunk)
    {
      buffer := buffer + chunk;
      frames := [];
      var cut := Sse.FirstLine(buffer);
      ghost var whole := Sse.Feed(Model().pending, Sse.Lines(buffer).0);
      while cut.Some?
        invariant cut == Sse.FirstLine(buffer)
        invariant Sse.Lines(buffer).1 == Sse.Lines(old(buffer) + chunk).1
        invariant Sse.Feed(Model().pending, Sse.Lines(buffer).0).0 == whole.0
        invariant frames + Sse.Feed(Model().pending, Sse.Lines(buffer).0).1 == whole.1
        decreases |buffer|
      {
        var line := cut.value.0;
        assert Sse.Lines(buffer).0 == [line] + Sse.Lines(cut.value.1).0;
        assert Sse.Lines(buffer).0[1..] == Sse.Lines(cut.value.1).0;
        buffer := cut.value.1;
        var frame := Line(line);
        frames := frames + frame;
        cut := Sse.FirstLine(buffer);
      }
      assert Sse.Lines(buffer) == ([], buffer);
      assert frames + [] == frames;
    }

    method Line(line: string) returns (frame: seq<Sse.Frame>)
      modifies this`data, this`event, this`lastId
      ensures (Model().pending, frame) == Sse.OnLine(old(Model()).pending, line)
    {
      if line == "" {
        if data == [] {
          event := None;
          return [];
        }
        frame := [Sse.Frame(lastId, event, Sse.Join(data))];
        data, event := [], None;
        return;
      }
      if line[0] == ':' {
        return [];
      }
      var colon := Sse.IndexOf(line, ':');
      var field := if colon < 0 then line else line[..colon];
      var value := if colon < 0 then "" else line[colon + 1..];
      if value != "" && value[0] == ' ' {
        value := value[1..];
      }
      match field {
        case "data" => data := data + [value];
        case "event" => event := Some(value);
        case "id" => if Sse.NUL !in value { lastId := Some(value); }
        case _ =>
      }
      frame := [];
    }
  }
}
