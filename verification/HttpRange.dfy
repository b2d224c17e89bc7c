/** The Range endpoint (`apps/server/src/http/range.ts`) and the readers with which a client
    takes its answers apart (the bottom of `apps/desktop-client/src/main/downloads.ts`). */
module HttpRange {
  import opened Text

  // ─── the request header ──────────────────────────────────────────────────────

  datatype RangeParse =
    | NoRange
    | Ignored
    | Multiple
    | Unsatisfiable
    | Single(start: nat, end: nat)

  /** `/^bytes\s*=\s*(.+)$/i` on trimmed text: the list of range specifiers. */
  function SpecifierList(text: string): Option<string> {
    if !StartsWithIgnoringCase(text, "bytes") then None
    else
      var afterUnit := SkipSpaces(text[5..]);
      if afterUnit == [] || afterUnit[0] != '=' then None
      else
        var list := SkipSpaces(afterUnit[1..]);
        if list == [] || (exists i | 0 <= i < |list| :: IsLineTerminator(list[i])) then None
        else Some(list)
  }

  /** `/^(\d*)-(\d*)$/`: the digits on each side of the dash. */
  function SplitSpecifier(spec: string): (r: Option<(string, string)>)
    ensures r.Some? ==> AllDigits(r.value.0) && AllDigits(r.value.1)
  {
    var n := DigitRun(spec);
    if n < |spec| && spec[n] == '-' && AllDigits(spec[n + 1..])
    then Some((spec[..n], spec[n + 1..]))
    else None
  }

  /** What one specifier selects from a representation of `size` bytes. */
  function Select(first: string, last: string, size: nat): (r: RangeParse)
    requires AllDigits(first) && AllDigits(last)
    ensures r.Single? ==> r.start <= r.end < size
  {
    if first == "" && last == "" then Ignored
    else if size == 0 then Unsatisfiable
    else if first == "" then
      var suffix := Value(last);
      if suffix > MAX_SAFE_INTEGER || suffix == 0 then Unsatisfiable
      else Single(if size <= suffix then 0 else size - suffix, size - 1)
    else
      var start := Value(first);
      if start > MAX_SAFE_INTEGER || start >= size then Unsatisfiable
      else if last == "" then Single(start, size - 1)
      else
        var end := Value(last);
        if end > MAX_SAFE_INTEGER || end < start then Unsatisfiable
        else Single(start, if end < size then end else size - 1)
  }

  function SelectFrom(specs: seq<string>, size: nat): (r: RangeParse)
    requires specs != []
    ensures r.Single? ==> r.start <= r.end < size
  {
    if exists i | 0 <= i < |specs| :: Trim(specs[i]) == "" then Ignored
    else if |specs| > 1 then Multiple
    else
      match SplitSpecifier(Trim(specs[0]))
      case None => Ignored
      case Some((first, last)) => Select(first, last, size)
  }

  function ParseRangeHeader(header: Option<string>, size: nat): (r: RangeParse)
    ensures r.Single? ==> r.start <= r.end < size
  {
    if header.GetOr("") == "" then NoRange
    else
      match SpecifierList(Trim(header.value))
      case None => Ignored
      case Some(list) => SelectFrom(Split(list, ','), size)
  }

  predicate Numeric(s: string) {
    forall i | 0 <= i < |s| :: s[i] == '-' || IsDigit(s[i])
  }

  lemma NumericIsPlain(s: string)
    requires Numeric(s)
    ensures Trim(s) == s && SkipSpaces(s) == s && Split(s, ',') == [s]
    ensures !exists i | 0 <= i < |s| :: IsLineTerminator(s[i])
  {
    TrimKeeps(s);
    SplitWhole(s, ',');
  }

  lemma SpecifierListAt(list: string)
    requires list != [] && Numeric(list)
    ensures Trim("bytes=" + list) == "bytes=" + list
    ensures SpecifierList("bytes=" + list) == Some(list)
  {
    var header := "bytes=" + list;
    NumericIsPlain(list);
    assert header[0] == 'b' && header[|header| - 1] == list[|list| - 1];
    TrimKeeps(header);
    assert header[..5] == "bytes";
    assert header[5..] == ['='] + list;
    assert StartsWithIgnoringCase(header, "bytes") by {
      assert forall i | 0 <= i < 5 :: header[i] == "bytes"[i];
    }
    assert (['='] + list)[1..] == list;
  }

  /** A header in the form `bytes=<first>-<last>` is read as exactly those two numerals, whatever
      they are: the parser neither loses nor invents a digit. */
  lemma PlainHeader(first: string, last: string, size: nat)
    requires AllDigits(first) && AllDigits(last)
    ensures ParseRangeHeader(Some("bytes=" + (first + ("-" + last))), size) == Select(first, last, size)
  {
    var list := first + ("-" + last);
    assert Numeric(list);
    SpecifierListAt(list);
    NumericIsPlain(list);
    SplitSpecifierAt(first, last);
    ReadsList("bytes=" + list, list, size);
  }

  lemma ReadsList(header: string, list: string, size: nat)
    requires |header| > 0 && Trim(header) == header
    requires SpecifierList(header) == Some(list) && Split(list, ',') == [list]
    requires |list| > 0 && Trim(list) == list && SplitSpecifier(list).Some?
    ensures ParseRangeHeader(Some(header), size)
         == Select(SplitSpecifier(list).value.0, SplitSpecifier(list).value.1, size)
  {
    assert [list][0] == list;
  }

  lemma SplitSpecifierAt(first: string, last: string)
    requires AllDigits(first) && AllDigits(last)
    ensures SplitSpecifier(first + ("-" + last)) == Some((first, last))
  {
    var list := first + ("-" + last);
    DigitRunAt(first, "-" + last);
    assert list[|first| + 1..] == last;
  }

  /** The form a resuming client sends. */
  function OpenEndedRange(offset: nat): string {
    "bytes=" + (Decimal(offset) + "-")
  }

  lemma OpenEndedHeader(offset: nat, size: nat)
    ensures ParseRangeHeader(Some(OpenEndedRange(offset)), size)
         == if offset < size && offset <= MAX_SAFE_INTEGER then Single(offset, size - 1) else Unsatisfiable
  {
    PlainHeader(Decimal(offset), "", size);
    assert Decimal(offset) + ("-" + "") == Decimal(offset) + "-";
    DecimalValue(offset);
  }

  function BoundedRange(first: nat, last: nat): string {
    "bytes=" + (Decimal(first) + ("-" + Decimal(last)))
  }

  /** The bounded form selects the bytes from `first` to `last` that exist; a number the parser cannot
      hold exactly selects nothing. */
  lemma BoundedHeader(first: nat, last: nat, size: nat)
    ensures ParseRangeHeader(Some(BoundedRange(first, last)), size)
         == if first < size && first <= last <= MAX_SAFE_INTEGER then Single(first, if last < size then last else size - 1)
            else Unsatisfiable
  {
    PlainHeader(Decimal(first), Decimal(last), size);
    DecimalValue(first);
    DecimalValue(last);
  }

  /** The suffix form selects the last `n` bytes, or the whole of a shorter file. */
  lemma SuffixHeader(n: nat, size: nat)
    ensures ParseRangeHeader(Some("bytes=" + ("-" + Decimal(n))), size)
         == if 0 < n <= MAX_SAFE_INTEGER && size > 0 then Single(if size <= n then 0 else size - n, size - 1)
            else Unsatisfiable
  {
    PlainHeader("", Decimal(n), size);
    assert "" + ("-" + Decimal(n)) == "-" + Decimal(n);
    DecimalValue(n);
  }

  // ─── the answer ──────────────────────────────────────────────────────────────

  datatype Verb = GET | HEAD | OtherVerb
  datatype Mode = FullAccess | StreamOnly
  datatype Disposition = Inline | Attachment

  datatype Request = Request(
    verb: Verb,
    range: Option<string>,
    /** An `If-Range` header was sent and does not match the file's validators. */
    staleValidator: bool,
    mode: Mode,
    disposition: Disposition)

  datatype File = Directory | Regular(content: seq<byte>)

  datatype Reply =
    | BadRequest
    | NotFound
    | DownloadNotAllowed
    | NotSatisfiable(unsatisfied: string)
    | Sent(status: nat, contentRange: Option<string>, contentLength: string, body: seq<byte>)

  function ContentRange(start: nat, end: nat, size: nat): string {
    "bytes " + Decimal(start) + "-" + Decimal(end) + "/" + Decimal(size)
  }

  function UnsatisfiedRange(size: nat): string {
    "bytes */" + Decimal(size)
  }

  /** The selection in force: a stale validator turns a single range into none. */
  function Selection(req: Request, size: nat): (r: RangeParse)
    ensures r.Single? ==> r.start <= r.end < size
  {
    var parsed := ParseRangeHeader(req.range, size);
    if parsed.Single? && req.staleValidator then NoRange else parsed
  }

  predicate WholeBody(selection: RangeParse) {
    selection.NoRange? || selection.Ignored? || selection.Multiple?
  }

  /** The answer each request is owed. */
  function Answer(req: Request, file: File): Reply {
    if req.verb == OtherVerb then BadRequest
    else if file.Directory? then NotFound
    else
      var content := file.content;
      var selection := Selection(req, |content|);
      if req.mode == StreamOnly && req.verb == GET && (req.disposition == Attachment || WholeBody(selection))
      then DownloadNotAllowed
      else
        match selection
        case Unsatisfiable => NotSatisfiable(UnsatisfiedRange(|content|))
        case Single(start, end) =>
          Sent(206, Some(ContentRange(start, end, |content|)), Decimal(end - start + 1),
               if req.verb == HEAD then [] else content[start..end + 1])
        case _ =>
          Sent(200, None, Decimal(|content|), if req.verb == HEAD then [] else content)
  }

  /** `serveFile`: the decisions in the order the endpoint takes them. */
  method ServeFile(req: Request, file: File) returns (reply: Reply)
    ensures reply == Answer(req, file)
  {
    hide ParseRangeHeader;
    if req.verb != GET && req.verb != HEAD {
      return BadRequest;
    }
    if file.Directory? {
      return NotFound;
    }
    var size := |file.content|;
    var parsed := ParseRangeHeader(req.range, size);
    if req.staleValidator && parsed.Single? {
      parsed := NoRange;
    }
    var isFullBody := parsed == NoRange || parsed == Ignored || parsed == Multiple;
    if req.mode == StreamOnly && req.verb != HEAD {
      if req.disposition == Attachment || isFullBody {
        return DownloadNotAllowed;
      }
    }
    if parsed == Unsatisfiable {
      return NotSatisfiable(UnsatisfiedRange(size));
    }
    var start, end := 0, if size == 0 then 0 else size - 1;
    var status, contentRange, contentLength := 200, None, Decimal(size);
    if parsed.Single? {
      start, end := parsed.start, parsed.end;
      status := 206;
      contentRange, contentLength := Some(ContentRange(start, end, size)), Decimal(end - start + 1);
    }
    if req.verb == HEAD || size == 0 {
      return Sent(status, contentRange, contentLength, []);
    }
    if !parsed.Single? {
      assert file.content[start..end + 1] == file.content;
    }
    reply := Sent(status, contentRange, contentLength, file.content[start..end + 1]);
  }

  /** Everything a request can be owed that has no selection of its own. */
  function WholeFile(req: Request, content: seq<byte>): Reply {
    if req.verb == HEAD then Sent(200, None, Decimal(|content|), [])
    else if req.mode == StreamOnly then DownloadNotAllowed
    else Sent(200, None, Decimal(|content|), content)
  }

  /** A HEAD is answered as the GET would be with nothing held back, without the body. */
  lemma HeadIsGetWithoutBody(req: Request, file: File)
    ensures Answer(req.(verb := HEAD), file) ==
      match Answer(req.(verb := GET, mode := FullAccess), file)
      case Sent(status, contentRange, contentLength, _) => Sent(status, contentRange, contentLength, [])
      case other => other
  {
    hide ParseRangeHeader;
  }

  /** Playback alone holds back exactly what would leave the whole file with the caller: a body with
      status 200, or anything offered as a download. All else is answered as under full access. */
  lemma PlaybackHoldsBackExactlyTheCopies(req: Request, file: File)
    ensures var full := Answer(req.(mode := FullAccess), file);
      var limited := Answer(req.(mode := StreamOnly), file);
      && (limited == DownloadNotAllowed
          <==> req.verb == GET && file.Regular? && (req.disposition == Attachment || (full.Sent? && full.status == 200)))
      && (limited != DownloadNotAllowed ==> limited == full)
  {
    hide ParseRangeHeader;
  }

  /** A slice of a file that has changed is not sent: the request is answered as if it had asked for
      the whole file. */
  lemma StaleValidatorGetsTheWhole(req: Request, content: seq<byte>)
    requires req.verb != OtherVerb && req.staleValidator && ParseRangeHeader(req.range, |content|).Single?
    ensures Answer(req, Regular(content)) == WholeFile(req, content)
    ensures Answer(req, Regular(content)) == Answer(req.(range := None, staleValidator := false), Regular(content))
  {
    assert ParseRangeHeader(None, |content|) == NoRange;
    hide ParseRangeHeader;
  }

  function CommaSeparated(specs: seq<string>): string {
    if specs == [] then ""
    else if |specs| == 1 then specs[0]
    else specs[0] + "," + CommaSeparated(specs[1..])
  }

  predicate ListCharacter(c: char) {
    c == '-' || c == ',' || IsDigit(c)
  }

  lemma {:induction false} ListCharacters(specs: seq<string>)
    requires specs != [] && forall spec | spec in specs :: spec != "" && Numeric(spec)
    ensures CommaSeparated(specs) != "" && forall c | c in CommaSeparated(specs) :: ListCharacter(c)
  {
    assert specs[0] in specs;
    forall c | c in specs[0] ensures ListCharacter(c) {
      var i :| 0 <= i < |specs[0]| && specs[0][i] == c;
    }
    if |specs| > 1 {
      assert forall spec | spec in specs[1..] :: spec in specs;
      ListCharacters(specs[1..]);
    }
  }

  lemma {:induction false} SplitAtComma(first: string, rest: string)
    requires ',' !in first
    ensures Split(first + "," + rest, ',') == [first] + Split(rest, ',')
  {
    var s := first + "," + rest;
    if first == [] {
      assert s[1..] == rest;
    } else {
      assert first[0] in first && forall c | c in first[1..] :: c in first;
      SplitAtComma(first[1..], rest);
      assert s[1..] == first[1..] + "," + rest;
      assert first == [first[0]] + first[1..];
    }
  }

  lemma {:induction false} SplitGivesTheSpecs(specs: seq<string>)
    requires specs != [] && forall spec | spec in specs :: Numeric(spec)
    ensures Split(CommaSeparated(specs), ',') == specs
  {
    assert specs[0] in specs;
    assert ',' !in specs[0];
    if |specs| == 1 {
      SplitWhole(specs[0], ',');
    } else {
      assert forall spec | spec in specs[1..] :: spec in specs;
      SplitGivesTheSpecs(specs[1..]);
      SplitAtComma(specs[0], CommaSeparated(specs[1..]));
    }
  }

  lemma ListIsRead(list: string)
    requires list != "" && forall c | c in list :: ListCharacter(c)
    ensures Trim("bytes=" + list) == "bytes=" + list
    ensures SpecifierList("bytes=" + list) == Some(list)
  {
    var header := "bytes=" + list;
    assert list[0] in list && list[|list| - 1] in list;
    forall i | 0 <= i < |list| ensures !IsLineTerminator(list[i]) {
      assert list[i] in list;
    }
    assert header[0] == 'b' && header[|header| - 1] == list[|list| - 1];
    TrimKeeps(header);
    assert header[..5] == "bytes" && header[5..] == ['='] + list && (['='] + list)[1..] == list;
    assert StartsWithIgnoringCase(header, "bytes") by {
      assert forall i | 0 <= i < 5 :: header[i] == "bytes"[i];
    }
  }

  lemma SeveralAreMultiple(specs: seq<string>, size: nat)
    requires |specs| > 1 && forall spec | spec in specs :: spec != "" && Numeric(spec)
    ensures SelectFrom(specs, size) == Multiple
  {
    hide Trim, Numeric, SplitSpecifier, Select;
    forall i | 0 <= i < |specs| ensures Trim(specs[i]) != "" {
      assert specs[i] in specs;
      NumericIsPlain(specs[i]);
    }
  }

  lemma SeveralAreRead(specs: seq<string>, size: nat)
    requires |specs| > 1 && forall spec | spec in specs :: spec != "" && Numeric(spec)
    ensures ParseRangeHeader(Some("bytes=" + CommaSeparated(specs)), size) == Multiple
  {
    hide Trim, Numeric, SpecifierList, Split, SelectFrom, CommaSeparated, ListCharacter;
    ListCharacters(specs);
    ListIsRead(CommaSeparated(specs));
    SplitGivesTheSpecs(specs);
    SeveralAreMultiple(specs, size);
  }

  /** Several ranges at once get the whole file, or a refusal where it is shared for playback only. */
  lemma SeveralRangesGetTheWhole(req: Request, specs: seq<string>, content: seq<byte>)
    requires req.verb != OtherVerb && |specs| > 1 && forall spec | spec in specs :: spec != "" && Numeric(spec)
    requires req.range == Some("bytes=" + CommaSeparated(specs))
    ensures Answer(req, Regular(content)) == WholeFile(req, content)
  {
    hide ParseRangeHeader, CommaSeparated, Numeric;
    SeveralAreRead(specs, |content|);
  }

  /** A header in any other unit is as good as none. */
  lemma OtherUnitsAreIgnored(req: Request, content: seq<byte>)
    requires req.verb != OtherVerb
    requires req.range.Some? ==> !StartsWithIgnoringCase(Trim(req.range.value), "bytes")
    ensures Answer(req, Regular(content)) == WholeFile(req, content)
  {
    hide Trim, Split;
  }

  lemma RangeAnswer(req: Request, content: seq<byte>, start: nat, end: nat)
    requires req.verb == GET && !req.staleValidator
    requires req.mode == StreamOnly ==> req.disposition == Inline
    requires ParseRangeHeader(req.range, |content|) == Single(start, end)
    ensures Answer(req, Regular(content))
         == Sent(206, Some(ContentRange(start, end, |content|)), Decimal(end - start + 1), content[start..end + 1])
  {
    hide ParseRangeHeader;
  }

  /** Two requests that meet at byte `k` bring back the file between them, whichever mode the
      folder is shared in: nothing is sent twice and nothing is left out at the seam. */
  lemma AdjacentRangesReassemble(content: seq<byte>, k: nat, mode: Mode)
    requires 0 < k < |content| <= MAX_SAFE_INTEGER
    ensures var head := Answer(Request(GET, Some(BoundedRange(0, k - 1)), false, mode, Inline), Regular(content));
            var tail := Answer(Request(GET, Some(OpenEndedRange(k)), false, mode, Inline), Regular(content));
            head.Sent? && tail.Sent? && head.body + tail.body == content
  {
    hide ParseRangeHeader, OpenEndedRange, BoundedRange;
    BoundedHeader(0, k - 1, |content|);
    OpenEndedHeader(k, |content|);
    RangeAnswer(Request(GET, Some(BoundedRange(0, k - 1)), false, mode, Inline), content, 0, k - 1);
    RangeAnswer(Request(GET, Some(OpenEndedRange(k)), false, mode, Inline), content, k, |content| - 1);
    assert content[0..k] + content[k..|content|] == content;
  }

  // ─── what a client reads off the answer ──────────────────────────────────────

  function AfterLast(s: string, c: char): (r: Option<string>)
    ensures r.Some? ==> |r.value| < |s| && c !in r.value && s[|s| - |r.value|..] == r.value
  {
    if s == [] then None
    else
      var later := AfterLast(s[1..], c);
      if later.Some? then later
      else if s[0] == c && c !in s[1..] then Some(s[1..])
      else None
  }

  lemma {:induction false} AfterLastAt(before: string, c: char, after: string)
    requires c !in after
    ensures AfterLast(before + [c] + after, c) == Some(after)
  {
    if before == [] {
      assert ([c] + after)[1..] == after;
      NoneAfter(after, c);
      assert before + [c] + after == [c] + after;
    } else {
      AfterLastAt(before[1..], c, after);
      assert (before + [c] + after)[1..] == before[1..] + [c] + after;
    }
  }

  lemma {:induction false} NoneAfter(s: string, c: char)
    requires c !in s
    ensures AfterLast(s, c) == None
  {
    if s != [] {
      NoneAfter(s[1..], c);
    }
  }

  /** `/\/(\d+)\s*$/`: only the last slash can be followed by digits up to the end. */
  function TotalFromContentRange(header: Option<string>): Option<nat> {
    if header.None? then None
    else
      match AfterLast(header.value, '/')
      case None => None
      case Some(rest) =>
        var n := DigitRun(rest);
        if n > 0 && SkipSpaces(rest[n..]) == [] then Some(Value(rest[..n])) else None
  }

  /** `/^\s*bytes\s+(\d+)\s*-/i`. */
  function StartFromContentRange(header: Option<string>): Option<nat> {
    if header.None? then None
    else
      var text := SkipSpaces(header.value);
      if !StartsWithIgnoringCase(text, "bytes") || |text| == 5 || !IsSpace(text[5]) then None
      else
        var numeral := SkipSpaces(text[5..]);
        var n := DigitRun(numeral);
        var rest := SkipSpaces(numeral[n..]);
        if n > 0 && rest != [] && rest[0] == '-' then Some(Value(numeral[..n])) else None
  }

  /** `Content-Length` here is a numeral or absent; on a 206 it describes the slice. */
  function SizeFromHeaders(contentRange: Option<string>, contentLength: Option<string>, offset: nat): Option<nat> {
    var fromRange := TotalFromContentRange(contentRange);
    if fromRange.Some? then fromRange
    else if contentLength.Some? && contentLength.value != "" && AllDigits(contentLength.value)
    then Some(Value(contentLength.value) + offset)
    else None
  }

  lemma TotalAt(before: string, total: nat)
    ensures TotalFromContentRange(Some(before + ['/'] + Decimal(total))) == Some(total)
  {
    AfterLastAt(before, '/', Decimal(total));
    DecimalValue(total);
    DigitRunAt(Decimal(total), "");
    assert Decimal(total) + "" == Decimal(total);
  }

  lemma StartAt(start: nat, rest: string)
    ensures StartFromContentRange(Some("bytes " + (Decimal(start) + ("-" + rest)))) == Some(start)
  {
    var numeral := Decimal(start) + ("-" + rest);
    var header := "bytes " + numeral;
    DecimalValue(start);
    DigitRunAt(Decimal(start), "-" + rest);
    assert header[..5] == "bytes" && header[5] == ' ' && header[5..] == [' '] + numeral;
    assert ([' '] + numeral)[1..] == numeral;
    assert SkipSpaces(header[5..]) == SkipSpaces(numeral) == numeral;
    assert StartsWithIgnoringCase(header, "bytes") by {
      assert forall i | 0 <= i < 5 :: header[i] == "bytes"[i];
    }
  }

  /** Both numbers survive the trip through the header the server writes. */
  lemma ContentRangeRoundTrip(start: nat, end: nat, size: nat)
    ensures StartFromContentRange(Some(ContentRange(start, end, size))) == Some(start)
    ensures TotalFromContentRange(Some(ContentRange(start, end, size))) == Some(size)
  {
    hide *;
    var before := "bytes " + Decimal(start) + "-" + Decimal(end);
    TotalAt(before, size);
    StartAt(start, Decimal(end) + "/" + Decimal(size));
    SpelledFromEitherEnd(start, end, size);
  }

  lemma SpelledFromEitherEnd(start: nat, end: nat, size: nat)
    ensures ContentRange(start, end, size)
         == "bytes " + (Decimal(start) + ("-" + (Decimal(end) + "/" + Decimal(size))))
         == "bytes " + Decimal(start) + "-" + Decimal(end) + ['/'] + Decimal(size)
  {
    hide Decimal;
  }

  lemma NoStartAt(rest: string)
    requires rest != [] && !IsSpace(rest[0]) && !IsDigit(rest[0])
    ensures StartFromContentRange(Some("bytes " + rest)) == None
  {
    var header := "bytes " + rest;
    assert header[0] == 'b' && header[5] == ' ' && header[5..] == [' '] + rest;
    assert ([' '] + rest)[1..] == rest;
    assert SkipSpaces(header[5..]) == SkipSpaces(rest) == rest;
  }

  /** The unsatisfiable form names a size and no starting byte. */
  lemma UnsatisfiedRangeRoundTrip(size: nat)
    ensures StartFromContentRange(Some(UnsatisfiedRange(size))) == None
    ensures TotalFromContentRange(Some(UnsatisfiedRange(size))) == Some(size)
  {
    hide StartFromContentRange, TotalFromContentRange, Decimal;
    TotalAt("bytes *", size);
    NoStartAt("*/" + Decimal(size));
    assert UnsatisfiedRange(size) == "bytes " + ("*/" + Decimal(size));
    assert UnsatisfiedRange(size) == "bytes *" + ['/'] + Decimal(size);
  }

  /** Whatever the endpoint sends, the size the client derives is the size of the file: from
      `Content-Range` on a 206, from `Content-Length` on a 200 read from the start. */
  lemma SizeIsAlwaysKnown(req: Request, content: seq<byte>)
    ensures var reply := Answer(req, Regular(content));
            reply.Sent? ==>
              SizeFromHeaders(reply.contentRange, Some(reply.contentLength), 0) == Some(|content|)
              && (reply.status == 206 ==>
                    forall offset: nat :: SizeFromHeaders(reply.contentRange, Some(reply.contentLength), offset) == Some(|content|))
  {
    hide *;
    AnswerNamesTheSize(req, content);
    var reply := Answer(req, Regular(content));
    if reply.Sent? {
      forall offset: nat | reply.status == 206 || offset == 0
        ensures SizeFromHeaders(reply.contentRange, Some(reply.contentLength), offset) == Some(|content|)
      {
        SizeFrom(reply.contentRange, reply.contentLength, offset, |content|);
      }
    }
  }

  lemma AnswerNamesTheSize(req: Request, content: seq<byte>)
    ensures var reply := Answer(req, Regular(content));
            reply.Sent? ==>
              if reply.status == 206 then TotalFromContentRange(reply.contentRange) == Some(|content|)
              else reply.contentRange == None && reply.contentLength == Decimal(|content|)
  {
    hide ParseRangeHeader, ContentRange, UnsatisfiedRange, Decimal, TotalFromContentRange;
    var selection := Selection(req, |content|);
    if selection.Single? {
      ContentRangeRoundTrip(selection.start, selection.end, |content|);
    }
  }

  lemma SizeFrom(contentRange: Option<string>, contentLength: string, offset: nat, total: nat)
    requires TotalFromContentRange(contentRange) == Some(total) || (contentRange == None && contentLength == Decimal(total) && offset == 0)
    ensures SizeFromHeaders(contentRange, Some(contentLength), offset) == Some(total)
  {
    DecimalValue(total);
    assert TotalFromContentRange(None) == None;
    hide TotalFromContentRange, Decimal, Value;
  }
}
