/** INTEGER, OBJECT IDENTIFIER and the two times, as `apps/server/src/net/der.ts` writes them. */
module DerValues {
  import opened Text
  import opened Der

  // ─── integers (ITU-T X.690, section 8.3) ─────────────────────────────────────

  /** The octets `integer` puts after the length. */
  function IntegerContent(value: int): seq<byte> {
    if value == 0 then [0]
    else
      var bytes := if value > 0 then Octets(value) else [];
      if bytes != [] && bytes[0] >= 0x80 then [0] + bytes else bytes
  }

  method WriteInteger(value: int) returns (out: seq<byte>)
    ensures out == Tlv(0x02, IntegerContent(value))
  {
    if value == 0 {
      return Tlv(INTEGER, [0]);
    }
    // The loop does not run for a negative value.
    var bytes: seq<byte> := [];
    if value > 0 {
      bytes := OctetsOf(value);
    }
    if bytes != [] && bytes[0] >= 0x80 {
      bytes := [0] + bytes;
    }
    out := Tlv(INTEGER, bytes);
  }

  /** Two's complement, refusing content that is empty or longer than necessary. */
  function Signed(content: seq<byte>): Option<int> {
    if content == [] then None
    else if |content| >= 2 && content[0] == 0 && content[1] < 0x80 then None
    else if |content| >= 2 && content[0] == 0xff && content[1] >= 0x80 then None
    else Some(Magnitude(content) - (if content[0] >= 0x80 then Power(256, |content|) else 0))
  }

  lemma {:induction false} LeadingZero(bytes: seq<byte>)
    ensures Magnitude([0] + bytes) == Magnitude(bytes)
    decreases |bytes|
  {
    if bytes == [] {
      assert [0] + bytes == [0] && [0][..0] == [];
    } else {
      var front := bytes[..|bytes| - 1];
      LeadingZero(front);
      assert ([0] + bytes)[..|bytes|] == [0] + front;
    }
  }

  /** An integer keeps its value exactly when it is not negative: below zero no content is written. */
  lemma IntegerRoundTrips(value: int)
    ensures Signed(IntegerContent(value)) == Some(value) <==> value >= 0
  {
    if value > 0 {
      OctetsMean(value);
      LeadingZero(Octets(value));
    } else if value == 0 {
      assert Magnitude([0]) == 0 by { assert [0][..0] == []; }
    }
  }

  /** The octets are minimal: they are the only ones a strict reader takes for the value. */
  lemma IntegerIsMinimal(content: seq<byte>, value: nat)
    requires Signed(content) == Some(value)
    ensures content == IntegerContent(value)
  {
    if content[0] >= 0x80 {
      MagnitudeBound(content);
      assert false;
    } else if content[0] == 0 {
      if |content| == 1 {
        assert content == [0] && [0][..0] == [];
      } else {
        assert content == [0] + content[1..];
        LeadingZero(content[1..]);
        OctetsAreUnique(content[1..]);
      }
    } else {
      OctetsAreUnique(content);
    }
  }

  // ─── raw positive integers ───────────────────────────────────────────────────

  function SkipZeros(raw: seq<byte>): (trimmed: seq<byte>)
    ensures Magnitude(trimmed) == Magnitude(raw)
    ensures raw != [] ==> trimmed != []
    ensures |trimmed| > 1 ==> trimmed[0] != 0
    decreases |raw|
  {
    if |raw| > 1 && raw[0] == 0 then
      LeadingZero(raw[1..]);
      assert raw == [0] + raw[1..];
      SkipZeros(raw[1..])
    else raw
  }

  function PositiveContent(raw: seq<byte>): seq<byte> {
    var trimmed := SkipZeros(raw);
    if trimmed != [] && trimmed[0] >= 0x80 then [0] + trimmed else trimmed
  }

  method WritePositiveInteger(raw: seq<byte>) returns (out: seq<byte>)
    ensures out == Tlv(0x02, PositiveContent(raw))
  {
    var start := 0;
    while start < |raw| - 1 && raw[start] == 0
      invariant 0 <= start <= |raw|
      invariant SkipZeros(raw) == SkipZeros(raw[start..])
    {
      assert raw[start..][1..] == raw[start + 1..];
      start := start + 1;
    }
    var trimmed := raw[start..];
    var needsPad := trimmed != [] && trimmed[0] >= 0x80;
    out := Tlv(INTEGER, if needsPad then [0] + trimmed else trimmed);
  }

  /** The serial number keeps its magnitude exactly when there are any bytes. */
  lemma PositiveIntegerRoundTrips(raw: seq<byte>)
    ensures Signed(PositiveContent(raw)) == Some(Magnitude(raw)) <==> raw != []
  {
    LeadingZero(SkipZeros(raw));
  }

  // ─── object identifiers (section 8.19) ───────────────────────────────────────

  type septet = b: int | 0 <= b < 128

  /** Base-128 digits, most significant first, at least one. */
  function Groups(n: nat): (chunk: seq<septet>)
    ensures chunk != [] && chunk[|chunk| - 1] == n % 128
  {
    if n < 128 then [n] else Groups(n / 128) + [n % 128]
  }

  /** The same digits marked as continued. */
  function Marks(chunk: seq<septet>): (marked: seq<byte>)
    ensures |marked| == |chunk| && forall i | 0 <= i < |chunk| :: marked[i] == 128 + (chunk[i] as int)
  {
    seq(|chunk|, i requires 0 <= i < |chunk| => 128 + (chunk[i] as int))
  }

  function Base128(n: nat): seq<byte> {
    (if n < 128 then [] else Marks(Groups(n / 128))) + [n % 128]
  }

  /** One arc: the do-while loop, then the marking loop. */
  method WriteArc(arc: nat) returns (chunk: seq<byte>)
    ensures chunk == Base128(arc)
  {
    var digits: seq<septet> := [arc % 128];
    var value: nat := arc / 128;
    while value > 0
      invariant value > 0 ==> Groups(arc) == Groups(value) + digits
      invariant value == 0 ==> Groups(arc) == digits
    {
      assert value >= 128 ==> Groups(value) + digits == Groups(value / 128) + ([value % 128] + digits);
      digits := [value % 128] + digits;
      value := value / 128;
    }
    chunk := digits;
    var i := 0;
    while i < |chunk| - 1
      invariant 0 <= i < |chunk| == |digits|
      invariant forall j | 0 <= j < i :: chunk[j] == 128 + (digits[j] as int)
      invariant forall j | i <= j < |chunk| :: chunk[j] == digits[j]
    {
      chunk := chunk[i := 128 + chunk[i]];
      i := i + 1;
    }
    if arc >= 128 {
      assert digits == Groups(arc / 128) + [arc % 128];
      assert chunk == Marks(Groups(arc / 128)) + [arc % 128];
    }
  }

  function ArcsContent(arcs: seq<nat>): seq<byte> {
    if arcs == [] then [] else Base128(arcs[0]) + ArcsContent(arcs[1..])
  }

  function Naturals(arcs: seq<int>): (ns: seq<nat>)
    requires forall n | n in arcs :: n >= 0
    ensures ns == arcs
  {
    if arcs == [] then []
    else
      assert arcs[0] in arcs && forall n | n in arcs[1..] :: n in arcs;
      [arcs[0]] + Naturals(arcs[1..])
  }

  /** `oid`, from its parsed arcs: the first two share a byte, which keeps only its low eight bits. */
  function OidContent(arcs: seq<int>): Option<seq<byte>> {
    if |arcs| < 2 || exists n | n in arcs :: n < 0 then None
    else Some([(40 * arcs[0] + arcs[1]) % 256] + ArcsContent(Naturals(arcs)[2..]))
  }

  method WriteOid(arcs: seq<int>) returns (out: Option<seq<byte>>)
    ensures out == match OidContent(arcs) case None => None case Some(content) => Some(Tlv(0x06, content))
  {
    if |arcs| < 2 || exists n | n in arcs :: n < 0 {
      return None;
    }
    var all := Naturals(arcs);
    var bytes: seq<byte> := [(40 * arcs[0] + arcs[1]) % 256];
    ghost var first := bytes;
    var i := 2;
    while i < |all|
      invariant 2 <= i <= |all|
      invariant first + ArcsContent(all[2..]) == bytes + ArcsContent(all[i..])
    {
      var chunk := WriteArc(all[i]);
      assert all[i..][1..] == all[i + 1..];
      assert bytes + ArcsContent(all[i..]) == (bytes + chunk) + ArcsContent(all[i + 1..]);
      bytes := bytes + chunk;
      i := i + 1;
    }
    assert bytes + [] == bytes;
    out := Some(Tlv(OID, bytes));
  }

  /** The reader's subidentifiers; a value that does not end, or starts with an empty group, is
      refused. */
  function Subidentifiers(acc: nat, started: bool, bytes: seq<byte>): Option<seq<nat>>
    decreases |bytes|
  {
    if bytes == [] then (if started then None else Some([]))
    else if !started && bytes[0] == 0x80 then None
    else
      var value := 128 * acc + bytes[0] % 128;
      if bytes[0] >= 128 then Subidentifiers(value, true, bytes[1..])
      else
        match Subidentifiers(0, false, bytes[1..])
        case None => None
        case Some(rest) => Some([value] + rest)
  }

  function ReadOid(content: seq<byte>): Option<seq<nat>> {
    match Subidentifiers(0, false, content)
    case None => None
    case Some(subs) =>
      if subs == [] then None
      else
        var first := if subs[0] < 80 then [subs[0] / 40, subs[0] % 40] else [2, subs[0] - 80];
        Some(first + subs[1..])
  }

  lemma {:induction false} MarksRead(n: nat, rest: seq<byte>)
    requires n > 0
    ensures Marks(Groups(n))[0] > 0x80
    ensures Subidentifiers(0, false, Marks(Groups(n)) + rest) == Subidentifiers(n, true, rest)
  {
    if n < 128 {
      assert Marks(Groups(n)) == [128 + n];
      assert (Marks(Groups(n)) + rest)[1..] == rest;
    } else {
      var tail := [128 + n % 128] + rest;
      MarksRead(n / 128, tail);
      assert Marks(Groups(n)) == Marks(Groups(n / 128)) + [128 + n % 128];
      assert Marks(Groups(n)) + rest == Marks(Groups(n / 128)) + tail;
      assert tail[1..] == rest;
    }
  }

  lemma ArcReads(n: nat, rest: seq<byte>)
    ensures Subidentifiers(0, false, Base128(n) + rest) ==
      match Subidentifiers(0, false, rest) case None => None case Some(subs) => Some([n] + subs)
  {
    var last := [n % 128] + rest;
    assert last[1..] == rest;
    if n >= 128 {
      MarksRead(n / 128, last);
      assert Base128(n) + rest == Marks(Groups(n / 128)) + last;
    } else {
      assert Base128(n) + rest == last;
    }
  }

  lemma {:induction false} ArcsRead(arcs: seq<nat>)
    ensures Subidentifiers(0, false, ArcsContent(arcs)) == Some(arcs)
    decreases |arcs|
  {
    if arcs != [] {
      ArcsRead(arcs[1..]);
      ArcReads(arcs[0], ArcsContent(arcs[1..]));
      assert arcs == [arcs[0]] + arcs[1..];
    }
  }

  /** How many values end in these bytes. */
  function Ends(bytes: seq<byte>): nat {
    if bytes == [] then 0 else (if bytes[0] < 128 then 1 else 0) + Ends(bytes[1..])
  }

  lemma {:induction false} AsManyAsEnd(acc: nat, started: bool, bytes: seq<byte>)
    ensures var subs := Subidentifiers(acc, started, bytes); subs.Some? ==> |subs.value| == Ends(bytes)
    decreases |bytes|
  {
    if bytes != [] && !(!started && bytes[0] == 0x80) {
      if bytes[0] >= 128 {
        AsManyAsEnd(128 * acc + bytes[0] % 128, true, bytes[1..]);
      } else {
        AsManyAsEnd(0, false, bytes[1..]);
      }
    }
  }

  /** Whether the first two arcs fit the byte they share. */
  predicate FirstArcsFit(a: int, b: int) {
    0 <= a <= 2 && 0 <= b && (a < 2 ==> b < 40) && 40 * a + b < 128
  }

  /** An object identifier is read back exactly when its first two arcs fit their byte. */
  lemma OidRoundTrips(arcs: seq<int>)
    requires OidContent(arcs).Some?
    ensures ReadOid(OidContent(arcs).value) == Some(Naturals(arcs)) <==> FirstArcsFit(arcs[0], arcs[1])
  {
    var a, b, first, rest := OidParts(arcs);
    OidOf(a, b, first, rest);
  }

  lemma OidParts(arcs: seq<int>) returns (a: nat, b: nat, first: byte, rest: seq<nat>)
    requires OidContent(arcs).Some?
    ensures arcs[0] == a && arcs[1] == b && first == (40 * a + b) % 256
    ensures OidContent(arcs).value == [first] + ArcsContent(rest) && Naturals(arcs) == [a, b] + rest
  {
    assert arcs[0] in arcs && arcs[1] in arcs;
    a, b, rest := arcs[0], arcs[1], Naturals(arcs)[2..];
    first := (40 * a + b) % 256;
    hide ArcsContent;
  }

  lemma OidOf(a: nat, b: nat, first: byte, rest: seq<nat>)
    requires first == (40 * a + b) % 256
    ensures ReadOid([first] + ArcsContent(rest)) == Some([a, b] + rest) <==> FirstArcsFit(a, b)
  {
    hide *;
    SharedByte(a, b, first);
    if first < 128 {
      OneByteFirst(first, rest);
      FirstTwo(a, b, first, rest);
    } else {
      SwallowedFirst(first, rest);
      assert |[a, b] + rest| == |rest| + 2;
    }
  }

  lemma SharedByte(a: nat, b: nat, first: byte)
    requires first == (40 * a + b) % 256
    ensures FirstArcsFit(a, b) ==> first == 40 * a + b < 128
  {}

  lemma OneByteFirst(first: byte, rest: seq<nat>)
    requires first < 128
    ensures ReadOid([first] + ArcsContent(rest)) == Some((if first < 80 then [first / 40, first % 40] else [2, first - 80]) + rest)
  {
    var bytes := [first] + ArcsContent(rest);
    assert bytes[1..] == ArcsContent(rest);
    ArcsRead(rest);
    hide ArcsContent;
    assert Subidentifiers(0, false, bytes) == Some([first] + rest);
    hide Subidentifiers;
    assert ([first] + rest)[1..] == rest;
  }

  /** A first byte with its high bit set runs into what follows, and one arc is missing. */
  lemma SwallowedFirst(first: byte, rest: seq<nat>)
    requires first >= 128
    ensures var read := ReadOid([first] + ArcsContent(rest)); read.Some? ==> |read.value| == |rest| + 1
  {
    var bytes := [first] + ArcsContent(rest);
    assert bytes[1..] == ArcsContent(rest);
    ArcsRead(rest);
    AsManyAsEnd(0, false, bytes);
    AsManyAsEnd(0, false, ArcsContent(rest));
    hide Subidentifiers, ArcsContent;
  }

  lemma FirstTwo(a: nat, b: nat, first: byte, rest: seq<nat>)
    requires first == (40 * a + b) % 256 && first < 128
    ensures (if first < 80 then [first / 40, first % 40] else [2, first - 80]) + rest == [a, b] + rest <==> FirstArcsFit(a, b)
  {
    var got: seq<nat> := if first < 80 then [first / 40, first % 40] else [2, first - 80];
    assert (got + rest)[0] == got[0] && (got + rest)[1] == got[1];
    assert ([a, b] + rest)[0] == a && ([a, b] + rest)[1] == b;
  }

  // ─── times (section 4.1.2.5 of RFC 5280) ─────────────────────────────────────

  /** A date as its UTC fields. */
  datatype Date = Date(year: int, month: nat, day: nat, hour: nat, minute: nat, second: nat) {
    predicate Valid() {
      1 <= month <= 12 && 1 <= day <= 31 && hour < 24 && minute < 60 && second < 60
    }
  }

  datatype Time = Time(tag: byte, text: string)

  /** `String(n)` of any whole number. */
  function Numeral(n: int): string {
    if n < 0 then "-" + Decimal(-n) else Decimal(n)
  }

  function Zeros(n: nat): string {
    if n == 0 then "" else "0" + Zeros(n - 1)
  }

  /** `String(n).padStart(width, '0')`. */
  function Pad(n: int, width: nat): string {
    var s := Numeral(n);
    if |s| < width then Zeros(width - |s|) + s else s
  }

  /** `%` keeps the sign of its left side. */
  function Remainder(a: int, m: nat): int
    requires m > 0
  {
    if a >= 0 then a % m else -((-a) % m)
  }

  /** Everything after the year. */
  function Rest(d: Date): string {
    Pad(d.month, 2) + Pad(d.day, 2) + Pad(d.hour, 2) + Pad(d.minute, 2) + Pad(d.second, 2) + "Z"
  }

  function TimeOf(d: Date): Time {
    if d.year < 2050 then Time(UTC_TIME, Pad(Remainder(d.year, 100), 2) + Rest(d))
    else Time(GENERALIZED_TIME, Pad(d.year, 4) + Rest(d))
  }

  /** Two digits at `i`. */
  function Two(s: string, i: nat): nat
    requires i + 2 <= |s| && IsDigit(s[i]) && IsDigit(s[i + 1])
  {
    10 * (s[i] as int - '0' as int) + (s[i + 1] as int - '0' as int)
  }

  function Fields(year: int, s: string): Option<Date>
    requires |s| == 11 && AllDigits(s[..10])
  {
    assert forall i | 0 <= i < 10 :: s[i] == s[..10][i];
    if s[10] != 'Z' then None
    else Some(Date(year, Two(s, 0), Two(s, 2), Two(s, 4), Two(s, 6), Two(s, 8)))
  }

  /** A reader that holds a certificate to section 4.1.2.5 of RFC 5280: UTCTime has a two-digit year,
      50 and above meaning the twentieth century; GeneralizedTime four digits, and only from 2050 on. */
  function ReadTime(t: Time): Option<Date> {
    if t.tag == 0x17 then
      if |t.text| != 13 || !AllDigits(t.text[..12]) then None
      else
        assert t.text[2..][..10] == t.text[..12][2..];
        assert t.text[0] == t.text[..12][0] && t.text[1] == t.text[..12][1];
        var yy := Two(t.text, 0);
        Fields(if yy >= 50 then 1900 + yy else 2000 + yy, t.text[2..])
    else if t.tag == 0x18 then
      if |t.text| != 15 || !AllDigits(t.text[..14]) then None
      else
        assert t.text[4..][..10] == t.text[..14][4..];
        assert forall i | 0 <= i < 4 :: t.text[i] == t.text[..14][i];
        var year := 100 * Two(t.text, 0) + Two(t.text, 2);
        if year < 2050 then None else Fields(year, t.text[4..])
    else None
  }

  lemma TwoDigits(n: nat)
    requires n < 100
    ensures |Pad(n, 2)| == 2 && IsDigit(Pad(n, 2)[0]) && IsDigit(Pad(n, 2)[1]) && Two(Pad(n, 2), 0) == n
  {
    if n < 10 {
      assert Decimal(n) == [DigitChar(n)];
      assert Zeros(1) == "0" + Zeros(0) == "0";
      assert Pad(n, 2) == "0" + [DigitChar(n)];
    } else {
      assert Decimal(n / 10) == [DigitChar(n / 10)];
      assert Decimal(n) == [DigitChar(n / 10)] + [DigitChar(n % 10)];
    }
  }

  lemma FiveFields(a: string, b: string, c: string, d: string, e: string)
    requires |a| == |b| == |c| == |d| == |e| == 2
    requires AllDigits(a) && AllDigits(b) && AllDigits(c) && AllDigits(d) && AllDigits(e)
    ensures var s := a + b + c + d + e + "Z";
      && |s| == 11 && AllDigits(s[..10]) && s[10] == 'Z'
      && Two(s, 0) == Two(a, 0) && Two(s, 2) == Two(b, 0) && Two(s, 4) == Two(c, 0) && Two(s, 6) == Two(d, 0) && Two(s, 8) == Two(e, 0)
  {
    var s := a + b + c + d + e + "Z";
    assert s[0] == a[0] && s[1] == a[1] && s[2] == b[0] && s[3] == b[1] && s[4] == c[0] && s[5] == c[1];
    assert s[6] == d[0] && s[7] == d[1] && s[8] == e[0] && s[9] == e[1];
  }

  lemma RestReads(d: Date, year: int)
    requires d.Valid()
    ensures |Rest(d)| == 11 && AllDigits(Rest(d)[..10])
    ensures Fields(year, Rest(d)) == Some(d.(year := year))
  {
    TwoDigits(d.month);
    TwoDigits(d.day);
    TwoDigits(d.hour);
    TwoDigits(d.minute);
    TwoDigits(d.second);
    hide Pad;
    FiveFields(Pad(d.month, 2), Pad(d.day, 2), Pad(d.hour, 2), Pad(d.minute, 2), Pad(d.second, 2));
  }

  lemma FourDigits(n: nat)
    requires 1000 <= n < 10000
    ensures |Pad(n, 4)| == 4 && AllDigits(Pad(n, 4)) && 100 * Two(Pad(n, 4), 0) + Two(Pad(n, 4), 2) == n
  {
    assert Decimal(n / 1000) == [DigitChar(n / 1000)];
    assert Decimal(n / 100) == Decimal(n / 100 / 10) + [DigitChar(n / 100 % 10)] && n / 100 / 10 == n / 1000;
    assert Decimal(n / 10) == Decimal(n / 10 / 10) + [DigitChar(n / 10 % 10)] && n / 10 / 10 == n / 100;
    assert Decimal(n) == Decimal(n / 10) + [DigitChar(n % 10)];
    assert Decimal(n) == [DigitChar(n / 1000), DigitChar(n / 100 % 10), DigitChar(n / 10 % 10), DigitChar(n % 10)];
  }

  lemma LongYears(n: nat)
    requires n >= 10000
    ensures |Pad(n, 4)| > 4
  {
    assert |Decimal(n / 10000)| >= 1;
    assert |Decimal(n / 1000)| >= 2 && |Decimal(n / 100)| >= 3 && |Decimal(n / 10)| >= 4 by {
      assert n / 1000 / 10 == n / 10000 && n / 100 / 10 == n / 1000 && n / 10 / 10 == n / 100;
    }
  }

  lemma UtcReads(yy: string, rest: string, year: nat, d: Date)
    requires |yy| == 2 && AllDigits(yy) && |rest| == 11 && AllDigits(rest[..10])
    requires year == (if Two(yy, 0) >= 50 then 1900 + Two(yy, 0) else 2000 + Two(yy, 0))
    requires Fields(year, rest) == Some(d)
    ensures ReadTime(Time(UTC_TIME, yy + rest)) == Some(d)
  {
    hide Fields;
    var text := yy + rest;
    assert text[2..] == rest && text[0] == yy[0] && text[1] == yy[1];
    assert text[..12] == yy + rest[..10];
  }

  lemma GeneralizedReads(yyyy: string, rest: string, d: Date)
    requires |yyyy| == 4 && AllDigits(yyyy) && |rest| == 11 && AllDigits(rest[..10])
    requires 100 * Two(yyyy, 0) + Two(yyyy, 2) >= 2050
    requires Fields(100 * Two(yyyy, 0) + Two(yyyy, 2), rest) == Some(d)
    ensures ReadTime(Time(GENERALIZED_TIME, yyyy + rest)) == Some(d)
  {
    hide Fields;
    var text := yyyy + rest;
    assert text[4..] == rest && forall i | 0 <= i < 4 :: text[i] == yyyy[i];
    assert text[..14] == yyyy + rest[..10];
  }

  lemma RecentTimeReads(d: Date)
    requires d.Valid() && 1950 <= d.year < 2050
    ensures ReadTime(TimeOf(d)) == Some(d)
  {
    var yy: nat := Remainder(d.year, 100);
    assert d.year == if yy >= 50 then 1900 + yy else 2000 + yy;
    TwoDigits(yy);
    hide Pad, Rest, Fields, ReadTime, Remainder;
    RestReads(d, d.year);
    UtcReads(Pad(yy, 2), Rest(d), d.year, d);
  }

  lemma FarTimeReads(d: Date)
    requires d.Valid() && 2050 <= d.year < 10000
    ensures ReadTime(TimeOf(d)) == Some(d)
  {
    hide Pad, Rest, Fields, ReadTime;
    FourDigits(d.year);
    RestReads(d, d.year);
    GeneralizedReads(Pad(d.year, 4), Rest(d), d);
  }

  /** A validity date is read back exactly when its year is one both forms can name. */
  lemma TimeRoundTrips(d: Date)
    requires d.Valid()
    ensures ReadTime(TimeOf(d)) == Some(d) <==> 1950 <= d.year <= 9999
  {
    if 1950 <= d.year < 2050 {
      RecentTimeReads(d);
    } else if 2050 <= d.year < 10000 {
      FarTimeReads(d);
    } else if d.year >= 10000 {
      LongYears(d.year);
      RestReads(d, 0);
      hide Pad, Rest, Fields;
    } else {
      hide Pad;
    }
  }
}
