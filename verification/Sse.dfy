/** The incremental event-stream decoder of `packages/client-core/src/sse.ts`. */
module Sse {
  import opened Text

  const NUL: char := 0 as char

  datatype Frame = Frame(id: Option<string>, event: Option<string>, data: string)

  /** What has been collected since the last blank line, and the stream-level last id. */
  datatype Pending = Pending(data: seq<string>, event: Option<string>, lastId: Option<string>)

  datatype Decoder = Decoder(buffer: string, pending: Pending)

  // ─── lines ───────────────────────────────────────────────────────────────────

  /** `/\r\n|\n|\r/`: the text before the first line end and the text after it. */
  function FirstLine(s: string): (r: Option<(string, string)>)
    ensures r.Some? ==> |r.value.0| + |r.value.1| < |s|
  {
    if s == [] then None
    else if s[0] == '\n' then Some(([], s[1..]))
    else if s[0] == '\r' then
      if |s| > 1 && s[1] == '\n' then Some(([], s[2..])) else Some(([], s[1..]))
    else
      match FirstLine(s[1..])
      case None => None
      case Some((line, rest)) => Some(([s[0]] + line, rest))
  }

  /** The complete lines of a text and the fragment after the last of them. */
  function Lines(s: string): (seq<string>, string)
    decreases |s|
  {
    match FirstLine(s)
    case None => ([], s)
    case Some((line, rest)) => var (lines, fragment) := Lines(rest); ([line] + lines, fragment)
  }

  predicate Unbroken(s: string) {
    forall i | 0 <= i < |s| :: s[i] != '\n' && s[i] != '\r'
  }

  // ─── one line ────────────────────────────────────────────────────────────────

  function IndexOf(s: string, c: char): (i: int)
    ensures -1 <= i < |s|
    ensures i >= 0 ==> s[i] == c && c !in s[..i]
    ensures i < 0 ==> c !in s
  {
    if s == [] then -1
    else if s[0] == c then 0
    else
      var i := IndexOf(s[1..], c);
      if i < 0 then -1
      else assert s[..i + 1] == [s[0]] + s[1..][..i]; i + 1
  }

  function Join(parts: seq<string>): string {
    if parts == [] then ""
    else if |parts| == 1 then parts[0]
    else parts[0] + "\n" + Join(parts[1..])
  }

  function Dispatch(p: Pending): (Pending, seq<Frame>) {
    if p.data == [] then (p.(event := None), [])
    else (Pending([], None, p.lastId), [Frame(p.lastId, p.event, Join(p.data))])
  }

  function OnField(p: Pending, field: string, value: string): Pending {
    if field == "data" then p.(data := p.data + [value])
    else if field == "event" then p.(event := Some(value))
    else if field == "id" then (if NUL in value then p else p.(lastId := Some(value)))
    else p
  }

  function OnLine(p: Pending, line: string): (r: (Pending, seq<Frame>)) {
    if line == "" then Dispatch(p)
    else if line[0] == ':' then (p, [])
    else
      var colon := IndexOf(line, ':');
      var field := if colon < 0 then line else line[..colon];
      var raw := if colon < 0 then "" else line[colon + 1..];
      var value := if raw != "" && raw[0] == ' ' then raw[1..] else raw;
      (OnField(p, field, value), [])
  }

  function Feed(p: Pending, lines: seq<string>): (Pending, seq<Frame>)
    decreases |lines|
  {
    if lines == [] then (p, [])
    else
      var (p1, first) := OnLine(p, lines[0]);
      var (p2, rest) := Feed(p1, lines[1..]);
      (p2, first + rest)
  }

  function Push(d: Decoder, chunk: string): (Decoder, seq<Frame>) {
    var (lines, fragment) := Lines(d.buffer + chunk);
    var (pending, frames) := Feed(d.pending, lines);
    (Decoder(fragment, pending), frames)
  }

  const FRESH: Decoder := Decoder("", Pending([], None, None))

  // ─── cutting the text anywhere ───────────────────────────────────────────────

  predicate EndsInCR(s: string) {
    s != "" && s[|s| - 1] == '\r'
  }

  predicate StartsWithLF(s: string) {
    s != "" && s[0] == '\n'
  }

  lemma {:induction false} FirstLineGrows(a: string, b: string)
    requires FirstLine(a).Some? && !(EndsInCR(a) && StartsWithLF(b))
    ensures FirstLine(a + b) == Some((FirstLine(a).value.0, FirstLine(a).value.1 + b))
    ensures EndsInCR(FirstLine(a).value.1) ==> EndsInCR(a)
  {
    if a[0] != '\n' && a[0] != '\r' {
      FirstLineGrows(a[1..], b);
      assert (a + b)[1..] == a[1..] + b;
    } else if a[0] == '\r' && |a| > 1 && a[1] == '\n' {
      assert (a + b)[2..] == a[2..] + b;
    } else {
      assert (a + b)[1..] == a[1..] + b;
    }
  }

  lemma {:induction false} NoFirstLine(a: string)
    ensures FirstLine(a).None? <==> Unbroken(a)
  {
    if a != [] && a[0] != '\n' && a[0] != '\r' {
      NoFirstLine(a[1..]);
      assert a == [a[0]] + a[1..];
      if Unbroken(a[1..]) {
        assert forall i | 0 <= i < |a| :: i == 0 || a[i] == a[1..][i - 1];
      } else {
        var i :| 0 <= i < |a[1..]| && (a[1..][i] == '\n' || a[1..][i] == '\r');
        assert a[i + 1] == a[1..][i];
      }
    }
  }

  lemma LinesUnfold(s: string)
    ensures FirstLine(s).None? ==> Lines(s) == ([], s)
    ensures FirstLine(s).Some? ==>
              var (line, rest) := FirstLine(s).value;
              Lines(s) == ([line] + Lines(rest).0, Lines(rest).1)
  {}

  /** Reading a text in two parts finds the same lines, unless CR and LF of one line end are
      separated. */
  lemma {:induction false} LinesInTwoParts(a: string, b: string)
    requires !(EndsInCR(a) && StartsWithLF(b))
    ensures Lines(a + b).0 == Lines(a).0 + Lines(Lines(a).1 + b).0
    ensures Lines(a + b).1 == Lines(Lines(a).1 + b).1
    decreases |a|
  {
    hide Lines, FirstLine;
    LinesUnfold(a);
    if FirstLine(a).Some? {
      var (line, rest) := FirstLine(a).value;
      FirstLineGrows(a, b);
      LinesUnfold(a + b);
      LinesInTwoParts(rest, b);
      var after := Lines(Lines(a).1 + b).0;
      assert [line] + (Lines(rest).0 + after) == [line] + Lines(rest).0 + after;
    } else {
      assert Lines(a).0 == [] && Lines(a).1 == a;
      assert [] + Lines(a + b).0 == Lines(a + b).0;
    }
  }

  lemma {:induction false} FeedInTwoParts(p: Pending, a: seq<string>, b: seq<string>)
    ensures var (p1, first) := Feed(p, a);
            var (p2, second) := Feed(p1, b);
            Feed(p, a + b) == (p2, first + second)
    decreases |a|
  {
    hide OnLine;
    if a == [] {
      assert a + b == b;
      assert [] + Feed(p, b).1 == Feed(p, b).1;
    } else {
      var (p0, frames) := OnLine(p, a[0]);
      var (p1, first) := Feed(p0, a[1..]);
      FeedInTwoParts(p0, a[1..], b);
      assert (a + b)[0] == a[0] && (a + b)[1..] == a[1..] + b;
      assert frames + (first + Feed(p1, b).1) == frames + first + Feed(p1, b).1;
    }
  }

  function PushTwice(d: Decoder, a: string, b: string): (Decoder, seq<Frame>) {
    var (d1, first) := Push(d, a);
    var (d2, second) := Push(d1, b);
    (d2, first + second)
  }

  lemma CleanCut(d: Decoder, a: string, b: string)
    requires !(EndsInCR(d.buffer + a) && StartsWithLF(b))
    ensures Push(d, a + b) == PushTwice(d, a, b)
  {
    LinesInTwoParts(d.buffer + a, b);
    assert d.buffer + (a + b) == d.buffer + a + b;
    FeedInTwoParts(d.pending, Lines(d.buffer + a).0, Lines(Lines(d.buffer + a).1 + b).0);
  }

  /** With the two halves of a CRLF in different chunks, the LF reads as a blank line of its own. */
  lemma {:induction false} LinesAcrossCRLF(a: string, b: string)
    requires EndsInCR(a)
    ensures Lines(a).1 == ""
    ensures Lines(a + ("\n" + b)) == (Lines(a).0 + Lines(b).0, Lines(b).1)
    decreases |a|
  {
    var whole := a + ("\n" + b);
    BrokenByCR(a);
    var (line, rest) := FirstLine(a).value;
    FirstLineBeforeLastCR(a, "\n" + b);
    assert ("\n" + b)[1..] == b;
    LinesUnfold(a);
    LinesUnfold(whole);
    if rest != "" {
      LinesAcrossCRLF(rest, b);
      LineAndMore(line, Lines(rest).0, Lines(b).0);
    } else {
      LinesUnfold("");
      LineAndMore(line, [], Lines(b).0);
    }
  }

  lemma LineAndMore(line: string, lines: seq<string>, more: seq<string>)
    ensures [line] + (lines + more) == [line] + lines + more
    ensures [] + more == more && [line] + [] == [line]
  {}

  lemma BrokenByCR(a: string)
    requires EndsInCR(a)
    ensures FirstLine(a).Some?
  {
    NoFirstLine(a);
  }

  lemma {:induction false} FirstLineBeforeLastCR(a: string, b: string)
    requires EndsInCR(a) && FirstLine(a).Some? && StartsWithLF(b)
    ensures var (line, rest) := FirstLine(a).value;
            if rest == "" then FirstLine(a + b) == Some((line, b[1..]))
            else EndsInCR(rest) && FirstLine(a + b) == Some((line, rest + b))
  {
    if a[0] != '\n' && a[0] != '\r' {
      BrokenByCR(a[1..]);
      FirstLineBeforeLastCR(a[1..], b);
      assert (a + b)[1..] == a[1..] + b;
    } else if a[0] == '\r' && |a| > 1 && a[1] == '\n' {
      assert (a + b)[2..] == a[2..] + b;
    } else if |a| == 1 {
      assert (a + b)[2..] == b[1..];
    } else {
      assert (a + b)[1..] == a[1..] + b;
    }
  }

  /** A cut after `a` goes unnoticed by every continuation exactly when it does not fall behind a
      CR, or nothing is pending there for a stray blank line to dispatch. */
  ghost predicate CutIsHarmless(d: Decoder, a: string) {
    forall b :: Push(d, a + b) == PushTwice(d, a, b)
  }

  lemma StrayBlankLine(d: Decoder, a: string, b: string)
    requires EndsInCR(d.buffer + a)
    ensures var (d1, first) := Push(d, a);
            var (p, stray) := OnLine(d1.pending, "");
            && PushTwice(d, a, "\n" + b) == (Push(Decoder("", p), b).0, first + stray + Push(Decoder("", p), b).1)
            && Push(d, a + ("\n" + b)) == (Push(d1, b).0, first + Push(d1, b).1)
  {
    var x := d.buffer + a;
    LinesAcrossCRLF(x, b);
    assert d.buffer + (a + ("\n" + b)) == x + ("\n" + b);
    var (d1, first) := Push(d, a);
    assert d1.buffer + ("\n" + b) == "\n" + b && "" + b == b;
    LinesAfterLF(b);
    FeedInTwoParts(d.pending, Lines(x).0, Lines(b).0);
    var (p, stray) := OnLine(d1.pending, "");
    var (p2, rest) := Feed(p, Lines(b).0);
    assert Feed(d1.pending, [""] + Lines(b).0) == (p2, stray + rest) by {
      assert ([""] + Lines(b).0)[1..] == Lines(b).0;
    }
    assert first + (stray + rest) == first + stray + rest;
  }

  lemma LinesAfterLF(b: string)
    ensures Lines("\n" + b) == ([""] + Lines(b).0, Lines(b).1)
  {
    assert ("\n" + b)[1..] == b;
  }

  lemma CutIsHarmlessExactlyWhen(d: Decoder, a: string)
    ensures CutIsHarmless(d, a) <==>
              (EndsInCR(d.buffer + a) ==> Push(d, a).0.pending.data == [] && Push(d, a).0.pending.event == None)
  {
    var p := Push(d, a).0.pending;
    if EndsInCR(d.buffer + a) {
      if p.data == [] && p.event == None {
        forall b
          ensures Push(d, a + b) == PushTwice(d, a, b)
        {
          if StartsWithLF(b) {
            assert b == "\n" + b[1..];
            StrayBlankLine(d, a, b[1..]);
            NoFragmentAfterCR(d, a);
            assert OnLine(p, "") == (p, []);
            assert Push(d, a).1 + [] == Push(d, a).1;
          } else {
            CleanCut(d, a, b);
          }
        }
      } else {
        StrayBlankLine(d, a, "");
        assert "\n" + "" == "\n";
        NoFragmentAfterCR(d, a);
        assert Push(Push(d, a).0, "").0.pending == p by {
          assert Lines("") == ([], "");
        }
        assert Push(Decoder("", OnLine(p, "").0), "").0.pending == OnLine(p, "").0 by {
          assert Lines("") == ([], "");
        }
        assert Push(d, a + "\n") != PushTwice(d, a, "\n");
      }
    } else {
      forall b
        ensures Push(d, a + b) == PushTwice(d, a, b)
      {
        CleanCut(d, a, b);
      }
    }
  }

  lemma NoFragmentAfterCR(d: Decoder, a: string)
    requires EndsInCR(d.buffer + a)
    ensures Push(d, a).0.buffer == ""
  {
    LinesAcrossCRLF(d.buffer + a, "");
  }

  function Flatten(chunks: seq<string>): string {
    if chunks == [] then "" else chunks[0] + Flatten(chunks[1..])
  }

  function PushAll(d: Decoder, chunks: seq<string>): (Decoder, seq<Frame>)
    decreases |chunks|
  {
    if chunks == [] then (d, [])
    else
      var (d1, first) := Push(d, chunks[0]);
      var (d2, rest) := PushAll(d1, chunks[1..]);
      (d2, first + rest)
  }

  /** No chunk boundary separates the CR from the LF of one line end. */
  ghost predicate CleanCuts(before: string, chunks: seq<string>)
    decreases |chunks|
  {
    && !(EndsInCR(before) && StartsWithLF(Flatten(chunks)))
    && (chunks != [] ==> CleanCuts(before + chunks[0], chunks[1..]))
  }

  /** However the network cuts the text, the frames and the final state are those of one push of
      all of it. */
  lemma {:induction false} ChunkingIsInvisible(d: Decoder, before: string, chunks: seq<string>)
    requires Unbroken(d.buffer) && CleanCuts(before, chunks)
    ensures PushAll(d, chunks) == Push(d, Flatten(chunks))
    decreases |chunks|
  {
    if chunks == [] {
      NoFirstLine(d.buffer);
      assert d.buffer + "" == d.buffer;
    } else {
      var d1 := Push(d, chunks[0]).0;
      FragmentIsUnbroken(d.buffer + chunks[0]);
      ChunkingIsInvisible(d1, before + chunks[0], chunks[1..]);
      if EndsInCR(d.buffer + chunks[0]) && StartsWithLF(Flatten(chunks[1..])) {
        assert chunks[0] != "";
        assert EndsInCR(before + chunks[0]);
      }
      CleanCut(d, chunks[0], Flatten(chunks[1..]));
    }
  }

  lemma {:induction false} FragmentIsUnbroken(s: string)
    ensures Unbroken(Lines(s).1)
    decreases |s|
  {
    NoFirstLine(s);
    if FirstLine(s).Some? {
      FragmentIsUnbroken(FirstLine(s).value.1);
    }
  }
}
