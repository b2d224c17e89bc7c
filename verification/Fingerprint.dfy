/** `packages/client-core/src/certificates.ts`: every spelling of a SHA-256 fingerprint becomes one. */
module Fingerprint {
  import opened Text
  import opened Base64

  // ─── hexadecimal ─────────────────────────────────────────────────────────────

  type nibble = n: int | 0 <= n < 16

  function HexChar(n: nibble): char {
    if n < 10 then ('0' as int + n) as char else ('A' as int + (n - 10)) as char
  }

  predicate IsUpperHex(c: char) {
    '0' <= c <= '9' || 'A' <= c <= 'F'
  }

  function HexValue(c: char): nibble
    requires IsUpperHex(c)
  {
    if c <= '9' then c as int - '0' as int else c as int - 'A' as int + 10
  }

  function HexPair(b: byte): (s: string)
    ensures |s| == 2 && IsUpperHex(s[0]) && IsUpperHex(s[1])
  {
    [HexChar(b / 16), HexChar(b % 16)]
  }

  function Hex(bytes: seq<byte>): (s: string)
    ensures |s| == 2 * |bytes| && forall c | c in s :: IsUpperHex(c)
  {
    if bytes == [] then "" else HexPair(bytes[0]) + Hex(bytes[1..])
  }

  /** Upper-case pairs joined by colons, as Node prints them. */
  function Colons(bytes: seq<byte>): (s: string)
    ensures forall c | c in s :: IsUpperHex(c) || c == ':'
  {
    if bytes == [] then ""
    else if |bytes| == 1 then HexPair(bytes[0])
    else HexPair(bytes[0]) + ":" + Colons(bytes[1..])
  }

  /** The bytes a run of upper-case hexadecimal digits spells. */
  function HexBytes(s: string): (bytes: seq<byte>)
    requires |s| % 2 == 0 && forall c | c in s :: IsUpperHex(c)
    ensures |bytes| == |s| / 2
    decreases |s|
  {
    if s == [] then [] else
      assert s[0] in s && s[1] in s && forall c | c in s[2..] :: c in s;
      [16 * HexValue(s[0]) + HexValue(s[1])] + HexBytes(s[2..])
  }

  // ─── the normaliser ──────────────────────────────────────────────────────────

  predicate IsHex64(s: string) {
    |s| == 64 && forall c | c in s :: IsUpperHex(c)
  }

  function PairsJoined(s: string): string
    requires |s| % 2 == 0
    decreases |s|
  {
    if s == [] then "" else if |s| == 2 then s else s[..2] + ":" + PairsJoined(s[2..])
  }

  function FromHex(hex: string): Option<string> {
    if IsHex64(hex) then Some(PairsJoined(hex)) else None
  }

  function FromBase64(value: string): Option<string> {
    if |value| == 44 && value[43] == '=' && forall i | 0 <= i < 43 :: IsLetter(value[i]) then
      match ToBytes(value)
      case Some(bytes) => if |bytes| != 32 then None else Some(Colons(bytes))
      case None => None
    else None
  }

  predicate IsSeparator(c: char) {
    IsSpace(c) || c == ':' || c == '-'
  }

  /** `.replace(/[\s:-]/g, '')`. */
  function Squeeze(s: string): (r: string)
    ensures |r| <= |s| && forall c | c in r :: c in s && !IsSeparator(c)
  {
    if s == [] then ""
    else
      var rest := Squeeze(s[1..]);
      if IsSeparator(s[0]) then rest else [s[0]] + rest
  }

  /** `toUpperCase()` as far as hexadecimal digits can tell: the ligature U+FB00 becomes two of them. */
  function Upper(s: string): string {
    if s == [] then ""
    else (if s[0] == '\U{FB00}' then "FF" else [ToUpper(s[0])]) + Upper(s[1..])
  }

  /** Where the last `=` is. */
  function LastEquals(s: string): (k: int)
    ensures -1 <= k < |s| && (k >= 0 ==> s[k] == '=')
    ensures forall i | k < i < |s| :: s[i] != '='
  {
    if s == [] then -1 else if s[|s| - 1] == '=' then |s| - 1 else LastEquals(s[..|s| - 1])
  }

  /** `/fingerprint/i.test(s)`. */
  predicate Mentions(s: string) {
    exists i | 0 <= i <= |s| :: StartsWithIgnoringCase(s[i..], "fingerprint")
  }

  function SkipOne(s: string, c: char): string {
    if s != [] && s[0] == c then s[1..] else s
  }

  /** What follows `sha256/`, `SHA-256:` and the like at the start, with any space around the mark. */
  function AfterPrefix(s: string): (rest: Option<string>)
    ensures rest.Some? ==> |rest.value| <= |s| - 7
  {
    if !StartsWithIgnoringCase(s, "sha") then None
    else
      var digits := SkipOne(s[3..], '-');
      if !("256" <= digits) then None
      else
        var mark := SkipSpaces(digits[3..]);
        SkipSpacesShrinks(digits[3..]);
        if mark != [] && (mark[0] == '/' || mark[0] == ':') then
          SkipSpacesShrinks(mark[1..]);
          Some(SkipSpaces(mark[1..]))
        else None
  }

  lemma SkipSpacesShrinks(s: string)
    ensures |SkipSpaces(s)| <= |s|
  {}

  function Unlabelled(text: string): string {
    var k := LastEquals(text);
    if Mentions(text) && k >= 0 then Trim(text[k + 1..]) else text
  }

  /** What is left once label and prefix are gone: base64 first, then digits. */
  function Read(rest: string): Option<string> {
    if FromBase64(rest).Some? then FromBase64(rest) else FromHex(Upper(Squeeze(rest)))
  }

  function Normalise(value: Option<string>): Option<string> {
    if value.None? then None
    else
      var text := Unlabelled(Trim(value.value));
      match AfterPrefix(text)
      case Some(after) => Read(Trim(after))
      case None => Read(text)
  }

  // ─── the result is canonical ─────────────────────────────────────────────────

  lemma HexPairValue(a: char, b: char)
    requires IsUpperHex(a) && IsUpperHex(b)
    ensures HexPair(16 * HexValue(a) + HexValue(b)) == [a, b]
  {
    var x: nibble, y: nibble := HexValue(a), HexValue(b);
    assert (16 * x + y) / 16 == x && (16 * x + y) % 16 == y;
    assert HexChar(x) == a && HexChar(y) == b;
  }

  lemma {:induction false} PairsAreColons(s: string)
    requires |s| % 2 == 0 && forall c | c in s :: IsUpperHex(c)
    ensures PairsJoined(s) == Colons(HexBytes(s))
    decreases |s|
  {
    if s != [] {
      assert s[0] in s && s[1] in s && forall c | c in s[2..] :: c in s;
      HexPairValue(s[0], s[1]);
      PairsAreColons(s[2..]);
      assert s[..2] == [s[0], s[1]];
      assert HexBytes(s)[1..] == HexBytes(s[2..]);
    }
  }

  lemma NormaliseReads(s: string, text: string)
    requires Unlabelled(Trim(s)) == text
    ensures Normalise(Some(s)) == match AfterPrefix(text) case Some(after) => Read(Trim(after)) case None => Read(text)
  {
    hide Trim, Unlabelled, AfterPrefix, Read;
  }

  ghost predicate Canonical(result: Option<string>) {
    result.Some? ==> exists bytes: seq<byte> :: |bytes| == 32 && result == Some(Colons(bytes))
  }

  lemma CanonicalAs(bytes: seq<byte>)
    requires |bytes| == 32
    ensures Canonical(Some(Colons(bytes)))
  {}

  lemma ReadIsCanonical(rest: string)
    ensures Canonical(Read(rest))
  {
    hide ToBytes, Upper, Squeeze, Colons, PairsJoined, Canonical;
    if FromBase64(rest).Some? {
      CanonicalAs(ToBytes(rest).value);
    } else if IsHex64(Upper(Squeeze(rest))) {
      PairsAreColons(Upper(Squeeze(rest)));
      CanonicalAs(HexBytes(Upper(Squeeze(rest))));
    } else {
      RefusalIsCanonical();
    }
  }

  lemma RefusalIsCanonical()
    ensures Canonical(None)
  {}

  /** Whatever is accepted comes out as 32 upper-case pairs joined by colons. */
  lemma NormaliseIsCanonical(value: Option<string>)
    ensures Canonical(Normalise(value))
  {
    hide Read, Canonical, AfterPrefix, Unlabelled;
    if value.None? {
      RefusalIsCanonical();
    } else {
      var text := Unlabelled(Trim(value.value));
      match AfterPrefix(text)
      case Some(after) => ReadIsCanonical(Trim(after));
      case None => ReadIsCanonical(text);
    }
  }

  // ─── every spelling is read ──────────────────────────────────────────────────

  /** The ways the 32 bytes are written around the project. */
  datatype Spelling =
    | Node
    | Lowercase
    | Bare
    | BareLowercase
    | OpenSsl
    | Prefixed
    | Electron
    | BareBase64

  function Lower(s: string): (r: string)
    ensures |r| == |s| && forall i | 0 <= i < |s| :: r[i] == ToLower(s[i])
  {
    if s == [] then "" else [ToLower(s[0])] + Lower(s[1..])
  }

  function Spell(spelling: Spelling, bytes: seq<byte>): string {
    match spelling
    case Node => Colons(bytes)
    case Lowercase => Lower(Colons(bytes))
    case Bare => Hex(bytes)
    case BareLowercase => Lower(Hex(bytes))
    case OpenSsl => "SHA256 Fingerprint=" + Colons(bytes)
    case Prefixed => "sha256:" + Hex(bytes)
    case Electron => "sha256/" + Encode(bytes)
    case BareBase64 => Encode(bytes)
  }

  /** Digits of either case, and the marks people put between them. */
  predicate HexText(s: string) {
    forall c | c in s :: IsUpperHex(c) || 'a' <= c <= 'f' || c == ':'
  }

  lemma {:induction false} SqueezedColons(bytes: seq<byte>)
    ensures Squeeze(Colons(bytes)) == Hex(bytes)
    decreases |bytes|
  {
    if |bytes| == 1 {
      assert Colons(bytes) == HexPair(bytes[0]);
      SqueezeDigits(HexPair(bytes[0]), "");
      assert Hex(bytes[1..]) == "";
      assert HexPair(bytes[0]) + "" == HexPair(bytes[0]);
    } else if |bytes| > 1 {
      SqueezedColons(bytes[1..]);
      SqueezeDigits(HexPair(bytes[0]), ":" + Colons(bytes[1..]));
      assert (":" + Colons(bytes[1..]))[1..] == Colons(bytes[1..]);
      assert Colons(bytes) == HexPair(bytes[0]) + (":" + Colons(bytes[1..]));
    }
  }

  lemma {:induction false} SqueezeDigits(digits: string, rest: string)
    requires forall c | c in digits :: !IsSeparator(c)
    ensures Squeeze(digits + rest) == digits + Squeeze(rest)
  {
    hide IsSeparator;
    if digits == [] {
      assert digits + rest == rest;
    } else {
      assert digits[0] in digits && forall c | c in digits[1..] :: c in digits;
      assert (digits + rest)[1..] == digits[1..] + rest;
      SqueezeDigits(digits[1..], rest);
    }
  }

  lemma {:induction false} SqueezeLower(s: string)
    ensures Squeeze(Lower(s)) == Lower(Squeeze(s))
  {
    if s != [] {
      SqueezeLower(s[1..]);
      assert Lower(s)[1..] == Lower(s[1..]);
    }
  }

  lemma {:induction false} UpperOfDigits(s: string, t: string)
    requires |s| == |t| && forall i | 0 <= i < |s| :: IsUpperHex(t[i]) && (s[i] == t[i] || s[i] == ToLower(t[i]))
    ensures Upper(s) == t
  {
    if s != [] {
      UpperOfDigits(s[1..], t[1..]);
      assert t == [t[0]] + t[1..];
    }
  }

  lemma {:induction false} HexBytesOfHex(bytes: seq<byte>)
    ensures HexBytes(Hex(bytes)) == bytes
    decreases |bytes|
  {
    if bytes != [] {
      HexBytesOfHex(bytes[1..]);
      assert Hex(bytes)[2..] == Hex(bytes[1..]);
      assert Hex(bytes)[0] == HexChar(bytes[0] / 16) && Hex(bytes)[1] == HexChar(bytes[0] % 16);
    }
  }

  /** Text that squeezes and upper-cases to the digits is read as the bytes. */
  lemma DigitsRead(text: string, bytes: seq<byte>)
    requires |bytes| == 32 && Upper(Squeeze(text)) == Hex(bytes) && FromBase64(text).None?
    ensures Read(text) == Some(Colons(bytes))
  {
    hide Upper, Squeeze, FromBase64, HexPair;
    HexBytesOfHex(bytes);
    PairsAreColons(Hex(bytes));
  }

  lemma {:induction false} ColonsLength(bytes: seq<byte>)
    ensures |Colons(bytes)| == if bytes == [] then 0 else 3 * |bytes| - 1
    decreases |bytes|
  {
    if |bytes| > 1 {
      ColonsLength(bytes[1..]);
    }
  }

  lemma HexTextIsPlain(s: string)
    requires HexText(s)
    ensures Trim(s) == s && AfterPrefix(s).None? && !Mentions(s) && Unlabelled(s) == s
  {
    if s != [] {
      assert s[0] in s && s[|s| - 1] in s;
    }
    forall i | 0 <= i <= |s| ensures !StartsWithIgnoringCase(s[i..], "fingerprint") {
      if i + 1 < |s| {
        assert s[i + 1] in s;
        assert s[i..][1] == s[i + 1];
        assert ToLower("fingerprint"[1]) == 'i';
      }
    }
  }

  lemma DigitsOfHex(hex: string)
    requires forall c | c in hex :: IsUpperHex(c)
    ensures HexText(hex) && HexText(Lower(hex)) && Squeeze(hex) == hex && Upper(hex) == hex && Upper(Lower(hex)) == hex
  {
    SqueezeDigits(hex, "");
    assert hex + "" == hex && hex + Squeeze("") == hex;
    forall i | 0 <= i < |hex| ensures IsUpperHex(hex[i]) {
      assert hex[i] in hex;
    }
    hide Squeeze;
    UpperOfDigits(hex, hex);
    UpperOfDigits(Lower(hex), hex);
  }

  lemma LowerHexText(s: string)
    requires forall c | c in s :: IsUpperHex(c) || c == ':'
    ensures HexText(s) && HexText(Lower(s))
  {
    forall c | c in Lower(s) ensures IsUpperHex(c) || 'a' <= c <= 'f' || c == ':' {
      var i :| 0 <= i < |s| && Lower(s)[i] == c;
      assert s[i] in s;
    }
  }

  lemma HexSpellings(spelling: Spelling, bytes: seq<byte>)
    requires |bytes| == 32 && (spelling.Node? || spelling.Lowercase? || spelling.Bare? || spelling.BareLowercase?)
    ensures HexText(Spell(spelling, bytes)) && |Spell(spelling, bytes)| != 44
    ensures Upper(Squeeze(Spell(spelling, bytes))) == Hex(bytes)
  {
    hide Hex, Colons, Upper, Squeeze, Lower, HexText;
    var hex := Hex(bytes);
    DigitsOfHex(hex);
    match spelling {
      case Node =>
        ColonsLength(bytes);
        SqueezedColons(bytes);
        LowerHexText(Colons(bytes));
      case Lowercase =>
        ColonsLength(bytes);
        SqueezedColons(bytes);
        SqueezeLower(Colons(bytes));
        LowerHexText(Colons(bytes));
      case Bare =>
      case BareLowercase => SqueezeLower(hex);
    }
  }

  lemma HexSpellingsAgree(spelling: Spelling, bytes: seq<byte>)
    requires |bytes| == 32 && (spelling.Node? || spelling.Lowercase? || spelling.Bare? || spelling.BareLowercase?)
    ensures Normalise(Some(Spell(spelling, bytes))) == Some(Colons(bytes))
    ensures Trim(Spell(spelling, bytes)) == Spell(spelling, bytes) && Read(Spell(spelling, bytes)) == Some(Colons(bytes))
  {
    hide Spell, Hex, Colons, Upper, Squeeze, Read, AfterPrefix, Unlabelled;
    HexSpellings(spelling, bytes);
    HexTextIsPlain(Spell(spelling, bytes));
    DigitsRead(Spell(spelling, bytes), bytes);
  }

  /** Normalising twice is normalising once. */
  lemma NormaliseIsIdempotent(value: Option<string>)
    ensures Normalise(value).Some? ==> Normalise(Normalise(value)) == Normalise(value)
  {
    hide Normalise;
    NormaliseIsCanonical(value);
    if Normalise(value).Some? {
      var bytes: seq<byte> :| |bytes| == 32 && Normalise(value) == Some(Colons(bytes));
      HexSpellingsAgree(Node, bytes);
    }
  }

  lemma NoMention(s: string)
    requires forall c | c in s :: ToLower(c) != 'i'
    ensures !Mentions(s) && Unlabelled(s) == s
  {
    forall i | 0 <= i <= |s| ensures !StartsWithIgnoringCase(s[i..], "fingerprint") {
      if i + 1 < |s| {
        assert s[i + 1] in s && s[i..][1] == s[i + 1];
        assert ToLower("fingerprint"[1]) == 'i';
      }
    }
  }

  lemma TrimNothing(s: string)
    requires s != [] && !IsSpace(s[0]) && !IsSpace(s[|s| - 1])
    ensures Trim(s) == s
  {
    TrimKeeps(s);
  }

  /** `SHA256 Fingerprint=AB:CD:…`, as OpenSSL prints it. */
  lemma OpenSslAgrees(bytes: seq<byte>)
    requires |bytes| == 32
    ensures Normalise(Some(Spell(OpenSsl, bytes))) == Some(Colons(bytes))
  {
    var heading := "SHA256 Fingerprint";
    var pairs := Colons(bytes);
    var text := heading + "=" + pairs;
    assert "SHA256 Fingerprint=" == heading + "=";
    HexSpellings(Node, bytes);
    HexSpellingsAgree(Node, bytes);
    HexTextIsPlain(pairs);
    ColonsLength(bytes);
    hide Colons, Read, HexText, AfterPrefix, Squeeze, Upper, Unlabelled, Mentions;
    LabelIsFound(heading, pairs);
    TrimNothing(text) by {
      assert text[|text| - 1] == pairs[|pairs| - 1] && pairs[|pairs| - 1] in pairs;
    }
    assert AfterPrefix(pairs).None?;
  }

  lemma LabelIsFound(heading: string, pairs: string)
    requires heading == "SHA256 Fingerprint" && forall c | c in pairs :: IsUpperHex(c) || c == ':'
    ensures Mentions(heading + "=" + pairs)
    ensures Unlabelled(heading + "=" + pairs) == Trim(pairs)
  {
    var text := heading + "=" + pairs;
    assert text[7..] == "Fingerprint=" + pairs;
    assert StartsWithIgnoringCase(text[7..], "fingerprint");
    assert text[18] == '=' && text[19..] == pairs;
    assert forall i | 0 <= i < |pairs| :: pairs[i] in pairs;
    assert forall i | 19 <= i < |text| :: text[i] == pairs[i - 19];
    assert LastEquals(text) == 18;
  }

  lemma PrefixedTrims(hex: string)
    requires hex != [] && !IsSpace(hex[0]) && !IsSpace(hex[|hex| - 1])
    ensures Trim("sha256:" + hex) == "sha256:" + hex && Trim(hex) == hex
  {
    TrimNothing("sha256:" + hex);
    TrimNothing(hex);
  }

  lemma DigitsAreNoSpace(hex: string)
    requires hex != [] && forall c | c in hex :: IsUpperHex(c)
    ensures !IsSpace(hex[0]) && !IsSpace(hex[|hex| - 1])
  {
    assert hex[0] in hex && hex[|hex| - 1] in hex;
  }

  lemma PrefixedIsUnlabelled(hex: string)
    requires forall c | c in hex :: IsUpperHex(c)
    ensures Unlabelled("sha256:" + hex) == "sha256:" + hex
  {
    assert forall c | c in "sha256:" + hex :: c in "sha256:" || c in hex;
    NoMention("sha256:" + hex);
  }

  /** `sha256:` before the digits. */
  lemma PrefixedAgrees(bytes: seq<byte>)
    requires |bytes| == 32
    ensures Normalise(Some(Spell(Prefixed, bytes))) == Some(Colons(bytes))
  {
    var hex := Hex(bytes);
    HexSpellingsAgree(Bare, bytes);
    assert hex != [];
    hide *;
    DigitsAreNoSpace(hex);
    PrefixedTrims(hex);
    PrefixedIsUnlabelled(hex);
    PrefixIsCut("sha256:", hex);
    NormaliseReads("sha256:" + hex, "sha256:" + hex);
    SpellPrefixed(bytes);
  }

  lemma SpellPrefixed(bytes: seq<byte>)
    ensures Spell(Prefixed, bytes) == "sha256:" + Hex(bytes) && Spell(Bare, bytes) == Hex(bytes)
    ensures Spell(Electron, bytes) == "sha256/" + Encode(bytes) && Spell(BareBase64, bytes) == Encode(bytes)
  {}

  lemma PrefixIsCut(prefix: string, rest: string)
    requires prefix == "sha256:" || prefix == "sha256/"
    requires rest != [] && !IsSpace(rest[0])
    ensures AfterPrefix(prefix + rest) == Some(rest)
  {
    var text := prefix + rest;
    assert text[3..][3..] == [prefix[6]] + rest;
    assert SkipOne(text[3..], '-') == text[3..];
    assert "256" <= text[3..];
    assert ([prefix[6]] + rest)[1..] == rest;
  }

  // ─── base64 spellings ────────────────────────────────────────────────────────

  lemma EncodedShape(bytes: seq<byte>)
    requires |bytes| == 32
    ensures |Encode(bytes)| == 44 && Encode(bytes)[43] == '='
    ensures forall i | 0 <= i < 43 :: IsLetter(Encode(bytes)[i])
    ensures Trim(Encode(bytes)) == Encode(bytes)
    ensures Read(Encode(bytes)) == Some(Colons(bytes))
  {
    var letters := Letters(bytes);
    assert Padding(32) == "=";
    var text := Encode(bytes);
    assert text == letters + "=";
    forall i | 0 <= i < 43 ensures IsLetter(text[i]) {
      assert text[i] == letters[i] && letters[i] in letters;
    }
    assert IsLetter(text[0]);
    TrimNothing(text);
    EncodeThenDecode(bytes);
    hide Letters, ToBytes, Colons, Upper, Squeeze;
  }

  lemma ShortIsRefused(rest: string)
    requires |rest| < 44 && forall c | c in rest :: IsLetter(c) || c == '='
    ensures Read(rest) == None
  {
    UpperLength(Squeeze(rest));
  }

  lemma {:induction false} UpperLength(s: string)
    requires forall c | c in s :: c != '\U{FB00}'
    ensures |Upper(s)| == |s|
  {
    if s != [] {
      assert s[0] in s && forall c | c in s[1..] :: c in s;
      UpperLength(s[1..]);
    }
  }

  /** A mention of the word swallows everything up to the pad, and nothing is left. */
  lemma MentionedIsRefused(text: string)
    requires Mentions(text) && text != [] && text[|text| - 1] == '='
    ensures Unlabelled(text) == "" && AfterPrefix("").None? && Read("") == None
  {
    assert LastEquals(text) == |text| - 1;
    assert text[|text|..] == "";
    hide Mentions;
    ShortIsRefused("");
  }

  predicate StartsLikeAPrefix(text: string) {
    StartsWithIgnoringCase(text, "sha256/")
  }

  lemma BarePrefix(text: string)
    requires |text| == 44 && text[43] == '=' && forall i | 0 <= i < 43 :: IsLetter(text[i])
    ensures AfterPrefix(text).Some? <==> StartsLikeAPrefix(text)
    ensures AfterPrefix(text).Some? ==> AfterPrefix(text) == Some(text[7..]) && Trim(text[7..]) == text[7..]
  {
    if StartsWithIgnoringCase(text, "sha") {
      assert IsLetter(text[3]) && IsLetter(text[6]) && IsLetter(text[7]);
      var digits := text[3..];
      assert SkipOne(digits, '-') == digits;
      assert digits[3..] == text[6..] && text[6..][1..] == text[7..];
      assert SkipSpaces(text[6..]) == text[6..] && SkipSpaces(text[7..]) == text[7..];
      assert "256" <= digits <==> text[3] == '2' && text[4] == '5' && text[5] == '6' by {
        assert digits[0] == text[3] && digits[1] == text[4] && digits[2] == text[5];
      }
      TrimNothing(text[7..]);
    }
    hide Trim;
    SameStart(text);
  }

  lemma SameStart(text: string)
    requires |text| == 44
    ensures StartsLikeAPrefix(text) <==> StartsWithIgnoringCase(text, "sha") && text[3] == '2' && text[4] == '5' && text[5] == '6' && text[6] == '/'
  {
    var p := "sha256/";
    assert p[0] == 's' && p[1] == 'h' && p[2] == 'a' && p[3] == '2' && p[4] == '5' && p[5] == '6' && p[6] == '/';
  }

  /** Bare base64 is read exactly when it neither contains the word nor starts like a prefix. */
  lemma BareBase64Agrees(bytes: seq<byte>)
    requires |bytes| == 32
    ensures Normalise(Some(Spell(BareBase64, bytes)))
         == if Mentions(Encode(bytes)) || StartsLikeAPrefix(Encode(bytes)) then None else Some(Colons(bytes))
  {
    hide *;
    var text := Encode(bytes);
    EncodedShape(bytes);
    SpellPrefixed(bytes);
    BarePrefix(text);
    if Mentions(text) {
      MentionedIsRefused(text);
      NormaliseReads(text, "");
    } else {
      Unmentioned(text);
      NormaliseReads(text, text);
      if StartsLikeAPrefix(text) {
        TailShape(text);
        ShortIsRefused(text[7..]);
      }
    }
  }

  lemma Unmentioned(text: string)
    requires !Mentions(text)
    ensures Unlabelled(text) == text
  {}

  lemma TailShape(text: string)
    requires |text| == 44 && text[43] == '=' && forall i | 0 <= i < 43 :: IsLetter(text[i])
    ensures forall c | c in text[7..] :: IsLetter(c) || c == '='
  {
    forall c | c in text[7..] ensures IsLetter(c) || c == '=' {
      var i :| 0 <= i < 37 && text[7..][i] == c;
      assert text[i + 7] == c;
    }
  }

  lemma ElectronText(code: string)
    requires |code| == 44 && code[43] == '=' && IsLetter(code[0])
    ensures Trim("sha256/" + code) == "sha256/" + code && !IsSpace(code[0])
    ensures ("sha256/" + code)[|"sha256/" + code| - 1] == '='
  {
    TrimNothing("sha256/" + code);
  }

  /** Electron's spelling is read exactly when the base64 does not contain the word. */
  lemma ElectronAgrees(bytes: seq<byte>)
    requires |bytes| == 32
    ensures Normalise(Some(Spell(Electron, bytes))) == if Mentions(Encode(bytes)) then None else Some(Colons(bytes))
  {
    hide *;
    var code := Encode(bytes);
    var text := "sha256/" + code;
    EncodedShape(bytes);
    SpellPrefixed(bytes);
    ElectronText(code);
    if Mentions(code) {
      MentionInside(code);
      MentionedIsRefused(text);
      NormaliseReads(text, "");
    } else {
      MentionOutside(code);
      Unmentioned(text);
      NormaliseReads(text, text);
      PrefixIsCut("sha256/", code);
    }
  }

  lemma MentionInside(code: string)
    requires Mentions(code)
    ensures Mentions("sha256/" + code)
  {
    var text := "sha256/" + code;
    var i :| 0 <= i <= |code| && StartsWithIgnoringCase(code[i..], "fingerprint");
    hide StartsWithIgnoringCase;
    assert text[i + 7..] == code[i..];
    assert StartsWithIgnoringCase(text[i + 7..], "fingerprint");
  }

  lemma OtherLetter(s: string)
    requires s != [] && ToLower(s[0]) != 'f'
    ensures !StartsWithIgnoringCase(s, "fingerprint")
  {
    assert ToLower("fingerprint"[0]) == 'f';
  }

  lemma MentionOutside(code: string)
    requires !Mentions(code)
    ensures !Mentions("sha256/" + code)
  {
    var text := "sha256/" + code;
    hide StartsWithIgnoringCase;
    forall i | 0 <= i <= |text| ensures !StartsWithIgnoringCase(text[i..], "fingerprint") {
      if i >= 7 {
        assert text[i..] == code[i - 7..];
      } else {
        assert text[i..][0] == text[i] == "sha256/"[i];
        OtherLetter(text[i..]);
      }
    }
  }

  /** The condition under which a spelling of 32 bytes is read: only base64 has any. */
  predicate Readable(spelling: Spelling, bytes: seq<byte>) {
    match spelling
    case Electron => !Mentions(Encode(bytes))
    case BareBase64 => !Mentions(Encode(bytes)) && !StartsLikeAPrefix(Encode(bytes))
    case _ => true
  }

  /** All spellings of the same 32 bytes normalise to the same text, and nothing that is refused is
      taken for anything else. */
  lemma SpellingsAgree(spelling: Spelling, bytes: seq<byte>)
    requires |bytes| == 32
    ensures Normalise(Some(Spell(spelling, bytes))) == if Readable(spelling, bytes) then Some(Colons(bytes)) else None
  {
    hide Normalise, Spell, Mentions, StartsLikeAPrefix;
    match spelling {
      case OpenSsl => OpenSslAgrees(bytes);
      case Prefixed => PrefixedAgrees(bytes);
      case Electron => ElectronAgrees(bytes);
      case BareBase64 => BareBase64Agrees(bytes);
      case _ => HexSpellingsAgree(spelling, bytes);
    }
  }

  // ─── comparing ───────────────────────────────────────────────────────────────

  lemma ColonsInjective(a: seq<byte>, b: seq<byte>)
    requires |a| == |b| && Colons(a) == Colons(b)
    ensures a == b
  {
    SqueezedColons(a);
    SqueezedColons(b);
    HexBytesOfHex(a);
    HexBytesOfHex(b);
  }

  /** Two spellings match exactly when both are readable and the bytes are the same. */
  lemma MatchIsEquality(s: Spelling, a: seq<byte>, t: Spelling, b: seq<byte>)
    requires |a| == 32 && |b| == 32
    ensures Same(Some(Spell(s, a)), Some(Spell(t, b))) <==> Readable(s, a) && Readable(t, b) && a == b
  {
    hide Normalise, Spell, Readable;
    SpellingsAgree(s, a);
    SpellingsAgree(t, b);
    if Colons(a) == Colons(b) {
      ColonsInjective(a, b);
    }
  }

  predicate Same(a: Option<string>, b: Option<string>) {
    Normalise(a).Some? && Normalise(a) == Normalise(b)
  }

  function Xor(x: nat, y: nat): (z: nat)
    ensures z == 0 <==> x == y
    decreases x + y
  {
    if x == 0 && y == 0 then 0 else 2 * Xor(x / 2, y / 2) + (if x % 2 == y % 2 then 0 else 1)
  }

  function Or(x: nat, y: nat): (z: nat)
    ensures z == 0 <==> x == 0 && y == 0
    decreases x + y
  {
    if x == 0 && y == 0 then 0 else 2 * Or(x / 2, y / 2) + (if x % 2 == 0 && y % 2 == 0 then 0 else 1)
  }

  /** `fingerprintsMatch`, with the loop that never leaves early. */
  method FingerprintsMatch(a: Option<string>, b: Option<string>) returns (same: bool)
    ensures same <==> Same(a, b)
  {
    var left := Normalise(a);
    var right := Normalise(b);
    hide Normalise;
    if left.None? || right.None? { return false; }
    if |left.value| != |right.value| { return false; }
    var diff: nat := 0;
    var i := 0;
    while i < |left.value|
      invariant i <= |left.value|
      invariant diff == 0 <==> left.value[..i] == right.value[..i]
    {
      assert left.value[..i + 1] == left.value[..i] + [left.value[i]];
      assert right.value[..i + 1] == right.value[..i] + [right.value[i]];
      diff := Or(diff, Xor(left.value[i] as nat, right.value[i] as nat));
      i := i + 1;
    }
    assert left.value[..i] == left.value && right.value[..i] == right.value;
    same := diff == 0;
  }
}
