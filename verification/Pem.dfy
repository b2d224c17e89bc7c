/** `toPem` of `apps/server/src/net/der.ts`: base64 in lines of 64 characters. */
module Pem {
  import opened Text
  import opened Base64

  const LINE: nat := 64

  function Chunked(s: string): (lines: seq<string>)
    ensures s == "" <==> lines == []
    decreases |s|
  {
    if s == "" then [] else if |s| <= LINE then [s] else [s[..LINE]] + Chunked(s[LINE..])
  }

  /** The loop over `i += 64`. */
  method LinesOf(encoded: string) returns (lines: seq<string>)
    ensures lines == Chunked(encoded)
  {
    lines := [];
    var i := 0;
    while i < |encoded|
      invariant i <= |encoded|
      invariant Chunked(encoded) == lines + Chunked(encoded[i..])
    {
      var end := if i + LINE < |encoded| then i + LINE else |encoded|;
      assert encoded[i..][..end - i] == encoded[i..end] && encoded[i..][end - i..] == encoded[end..];
      assert encoded[i..] == encoded[i..end] + encoded[end..];
      assert Chunked(encoded[i..]) == [encoded[i..end]] + Chunked(encoded[end..]) by {
        if end == |encoded| {
          assert encoded[end..] == "" && encoded[i..] == encoded[i..end];
        }
      }
      assert lines + ([encoded[i..end]] + Chunked(encoded[end..])) == (lines + [encoded[i..end]]) + Chunked(encoded[end..]);
      lines := lines + [encoded[i..end]];
      i := end;
    }
    assert encoded[i..] == "" && lines + [] == lines;
  }

  function JoinLines(lines: seq<string>): string {
    if lines == [] then "" else if |lines| == 1 then lines[0] else lines[0] + "\n" + JoinLines(lines[1..])
  }

  function Concatenated(lines: seq<string>): string {
    if lines == [] then "" else lines[0] + Concatenated(lines[1..])
  }

  function Begin(name: string): string {
    "-----BEGIN " + name + "-----"
  }

  function End(name: string): string {
    "-----END " + name + "-----"
  }

  function ToPem(name: string, der: seq<byte>): string {
    Begin(name) + "\n" + JoinLines(Chunked(Encode(der))) + "\n" + End(name) + "\n"
  }

  /** No line is blank or longer than 64 characters, and all but the last have exactly 64. */
  lemma {:induction false} LineLengths(s: string, k: nat)
    requires k < |Chunked(s)|
    ensures 0 < |Chunked(s)[k]| <= 64
    ensures k < |Chunked(s)| - 1 ==> |Chunked(s)[k]| == 64
    decreases |s|
  {
    if |s| > LINE && k > 0 {
      LineLengths(s[LINE..], k - 1);
    }
  }

  lemma {:induction false} LinesConcatenate(s: string)
    ensures Concatenated(Chunked(s)) == s
    decreases |s|
  {
    if |s| > LINE {
      LinesConcatenate(s[LINE..]);
      assert Chunked(s)[1..] == Chunked(s[LINE..]);
      assert s == s[..LINE] + s[LINE..];
    } else if s != "" {
      assert Chunked(s)[1..] == [];
      assert s + "" == s;
    }
  }

  lemma {:induction false} LinesHaveNoBreak(s: string)
    requires '\n' !in s
    ensures forall line | line in Chunked(s) :: '\n' !in line
    decreases |s|
  {
    if |s| > LINE {
      assert forall c | c in s[LINE..] || c in s[..LINE] :: c in s;
      LinesHaveNoBreak(s[LINE..]);
    }
  }

  lemma {:induction false} SplitFirst(line: string, rest: string)
    requires '\n' !in line
    ensures Split(line + "\n" + rest, '\n') == [line] + Split(rest, '\n')
  {
    var text := line + "\n" + rest;
    if line == "" {
      assert text == "\n" + rest && text[1..] == rest;
    } else {
      assert text[1..] == line[1..] + "\n" + rest && text[0] == line[0];
      assert line[0] in line;
      SplitFirst(line[1..], rest);
      assert [line[0]] + line[1..] == line;
    }
  }

  lemma {:induction false} SplitJoined(lines: seq<string>, rest: string)
    requires lines != [] && forall line | line in lines :: '\n' !in line
    ensures Split(JoinLines(lines) + "\n" + rest, '\n') == lines + Split(rest, '\n')
    decreases |lines|
  {
    hide Split, JoinLines;
    if |lines| == 1 {
      SplitFirst(lines[0], rest);
      JoinUnfolds(lines);
      assert lines == [lines[0]];
    } else {
      var more := JoinLines(lines[1..]) + "\n" + rest;
      SplitFirst(lines[0], more);
      SplitJoined(lines[1..], rest);
      JoinUnfolds(lines);
      assert lines[0] + "\n" + JoinLines(lines[1..]) + "\n" + rest == lines[0] + "\n" + more;
      assert [lines[0]] + (lines[1..] + Split(rest, '\n')) == lines + Split(rest, '\n');
    }
  }

  lemma JoinUnfolds(lines: seq<string>)
    requires lines != []
    ensures JoinLines(lines) == if |lines| == 1 then lines[0] else lines[0] + "\n" + JoinLines(lines[1..])
  {}

  /** A reader of PEM: what stands between the two marks, without its line breaks, is base64. */
  function ReadPem(name: string, text: string): Option<seq<byte>> {
    var parts := Split(text, '\n');
    var n := |parts|;
    if n < 3 || parts[0] != Begin(name) || parts[n - 2] != End(name) || parts[n - 1] != "" then None
    else ToBytes(Concatenated(parts[1..n - 2]))
  }

  lemma EncodeHasNoBreak(der: seq<byte>)
    ensures '\n' !in Encode(der)
  {}

  /** The body between the marks, as the lines a reader sees. */
  function Body(encoded: string): seq<string> {
    if encoded == "" then [""] else Chunked(encoded)
  }

  lemma PemParts(name: string, der: seq<byte>)
    requires '\n' !in name
    ensures Split(ToPem(name, der), '\n') == [Begin(name)] + Body(Encode(der)) + [End(name), ""]
  {
    hide *;
    var encoded := Encode(der);
    var tail := End(name) + "\n";
    EncodeHasNoBreak(der);
    BodyHasNoBreak(encoded);
    MarksHaveNoBreak(name);
    PemText(name, der);
    SplitFirst(Begin(name), JoinLines(Body(encoded)) + "\n" + tail);
    SplitJoined(Body(encoded), tail);
    SplitFirst(End(name), "");
    NothingSplits();
    assert tail == End(name) + "\n" + "";
    assert [Begin(name)] + (Body(encoded) + ([End(name)] + [""])) == [Begin(name)] + Body(encoded) + [End(name), ""];
  }

  lemma NothingSplits()
    ensures Split("", '\n') == [""]
  {}

  lemma BodyHasNoBreak(encoded: string)
    requires '\n' !in encoded
    ensures Body(encoded) != [] && forall line | line in Body(encoded) :: '\n' !in line
  {
    LinesHaveNoBreak(encoded);
  }

  lemma MarksHaveNoBreak(name: string)
    requires '\n' !in name
    ensures '\n' !in Begin(name) && '\n' !in End(name)
  {}

  lemma PemText(name: string, der: seq<byte>)
    ensures ToPem(name, der) == Begin(name) + "\n" + (JoinLines(Body(Encode(der))) + "\n" + (End(name) + "\n"))
  {
    hide Begin, End, Encode, Chunked;
  }

  /** What was written as PEM is read back byte for byte. */
  lemma PemRoundTrips(name: string, der: seq<byte>)
    requires '\n' !in name
    ensures ReadPem(name, ToPem(name, der)) == Some(der)
  {
    var encoded := Encode(der);
    PemParts(name, der);
    LinesConcatenate(encoded);
    EncodeThenDecode(der);
    hide Encode, ToBytes, Begin, End, ToPem, Chunked;
    var parts := [Begin(name)] + Body(encoded) + [End(name), ""];
    assert parts[1..|parts| - 2] == Body(encoded);
    if encoded == "" {
      assert [""][1..] == [];
      assert Concatenated([""]) == "" + Concatenated([]);
    }
  }
}
