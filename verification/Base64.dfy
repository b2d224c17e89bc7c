/** Base64 as `Buffer.toString('base64')` writes it, and as `base64ToBytes` of
    `packages/client-core/src/certificates.ts` reads it, in a 32-bit register that overflows. */
module Base64 {
  import opened Text

  type sextet = i: int | 0 <= i < 64

  /** ABC…XYZabc…xyz0123456789+/ */
  function Letter(i: sextet): char {
    if i < 26 then ('A' as int + i) as char
    else if i < 52 then ('a' as int + (i - 26)) as char
    else if i < 62 then ('0' as int + (i - 52)) as char
    else if i == 62 then '+'
    else '/'
  }

  /** `ALPHABET.indexOf(char)`. */
  function SextetOf(c: char): Option<sextet> {
    if 'A' <= c <= 'Z' then Some(c as int - 'A' as int)
    else if 'a' <= c <= 'z' then Some(c as int - 'a' as int + 26)
    else if '0' <= c <= '9' then Some(c as int - '0' as int + 52)
    else if c == '+' then Some(62)
    else if c == '/' then Some(63)
    else None
  }

  lemma LetterIndex(i: sextet)
    ensures SextetOf(Letter(i)) == Some(i)
  {}

  predicate IsLetter(c: char) {
    SextetOf(c).Some?
  }

  function Group(a: byte, b: byte, c: byte): (s: string)
    ensures |s| == 4 && forall x | x in s :: IsLetter(x)
  {
    [Letter(a / 4), Letter(a % 4 * 16 + b / 16), Letter(b % 16 * 4 + c / 64), Letter(c % 64)]
  }

  function Pair(a: byte, b: byte): (s: string)
    ensures |s| == 3 && forall x | x in s :: IsLetter(x)
  {
    [Letter(a / 4), Letter(a % 4 * 16 + b / 16), Letter(b % 16 * 4)]
  }

  function Single(a: byte): (s: string)
    ensures |s| == 2 && forall x | x in s :: IsLetter(x)
  {
    [Letter(a / 4), Letter(a % 4 * 16)]
  }

  /** The letters, without the padding. */
  function Letters(bytes: seq<byte>): (s: string)
    ensures |s| == (4 * |bytes| + 2) / 3
    ensures forall x | x in s :: IsLetter(x)
  {
    if bytes == [] then ""
    else if |bytes| == 1 then Single(bytes[0])
    else if |bytes| == 2 then Pair(bytes[0], bytes[1])
    else Group(bytes[0], bytes[1], bytes[2]) + Letters(bytes[3..])
  }

  function Padding(n: nat): string {
    if n % 3 == 0 then "" else if n % 3 == 1 then "==" else "="
  }

  function Encode(bytes: seq<byte>): string {
    Letters(bytes) + Padding(|bytes|)
  }

  // ─── the reader ──────────────────────────────────────────────────────────────

  const WORD: int := 0x1_0000_0000

  /** ToInt32. */
  function Wrap32(x: int): int {
    (x + WORD / 2) % WORD - WORD / 2
  }

  /** `buffer >> bits`, for the few shifts the loop makes. */
  function Shifted(buffer: int, bits: nat): int {
    buffer / PowerOfTwo(bits)
  }

  function PowerOfTwo(n: nat): (p: nat)
    ensures p > 0
  {
    if n == 0 then 1 else 2 * PowerOfTwo(n - 1)
  }

  datatype Register = Register(buffer: int, bits: nat)

  /** One turn of the loop, and the byte it pushes, if any. */
  function Shift(r: Register, index: sextet): (Register, seq<byte>) {
    var buffer := Wrap32(64 * r.buffer) + index;
    var bits := r.bits + 6;
    if bits >= 8 then (Register(buffer, bits - 8), [Shifted(buffer, bits - 8) % 256])
    else (Register(buffer, bits), [])
  }

  /** The whole loop; no value when it throws. */
  function Decode(r: Register, s: string): Option<seq<byte>>
    decreases |s|
  {
    if s == [] then Some([])
    else
      var index := SextetOf(s[0]);
      if index.None? then None
      else
        var (next, pushed) := Shift(r, index.value);
        var rest := Decode(next, s[1..]);
        if rest.None? then None else Some(pushed + rest.value)
  }

  function StripPadding(s: string): (r: string)
    ensures r == [] || r[|r| - 1] != '='
    ensures s == [] || s[|s| - 1] != '=' ==> r == s
    decreases |s|
  {
    if s != [] && s[|s| - 1] == '=' then StripPadding(s[..|s| - 1]) else s
  }

  function ToBytes(s: string): Option<seq<byte>> {
    Decode(Register(0, 0), StripPadding(s))
  }

  /** `base64ToBytes`. */
  method BytesOf(s: string) returns (out: Option<seq<byte>>)
    ensures out == ToBytes(s)
  {
    var clean := StripPadding(s);
    var pushed: seq<byte> := [];
    var buffer: int, bits: nat := 0, 0;
    var i := 0;
    Nothing(ToBytes(s));
    assert clean[i..] == clean;
    while i < |clean|
      invariant i <= |clean|
      invariant ToBytes(s) == After(pushed, Decode(Register(buffer, bits), clean[i..]))
    {
      var index := SextetOf(clean[i]);
      if index.None? {
        return None;
      }
      Turn(Register(buffer, bits), clean[i..], pushed);
      assert clean[i..][1..] == clean[i + 1..];
      buffer := Wrap32(64 * buffer) + index.value;
      bits := bits + 6;
      if bits >= 8 {
        bits := bits - 8;
        pushed := pushed + [Shifted(buffer, bits) % 256];
      }
      i := i + 1;
    }
    assert clean[i..] == [] && pushed + [] == pushed;
    out := Some(pushed);
  }

  function After(pushed: seq<byte>, rest: Option<seq<byte>>): Option<seq<byte>> {
    if rest.None? then None else Some(pushed + rest.value)
  }

  lemma Nothing(rest: Option<seq<byte>>)
    ensures After([], rest) == rest
  {
    if rest.Some? {
      assert [] + rest.value == rest.value;
    }
  }

  lemma Turn(r: Register, s: string, pushed: seq<byte>)
    requires s != [] && SextetOf(s[0]).Some?
    ensures After(pushed, Decode(r, s)) == After(pushed + Shift(r, SextetOf(s[0]).value).1, Decode(Shift(r, SextetOf(s[0]).value).0, s[1..]))
    ensures pushed + [] == pushed
  {
    hide Shift;
    var (next, one) := Shift(r, SextetOf(s[0]).value);
    var rest := Decode(next, s[1..]);
    if rest.Some? {
      assert pushed + (one + rest.value) == (pushed + one) + rest.value;
    }
  }

  // ─── only the low twelve bits of the register matter ─────────────────────────

  lemma WrapKeepsLowBits(x: int)
    ensures Wrap32(x) % 4096 == x % 4096
  {
    var q := (x + WORD / 2) / WORD;
    assert x + WORD / 2 == q * WORD + (x + WORD / 2) % WORD;
    assert Wrap32(x) == x - q * WORD;
    assert WORD == 0x10_0000 * 4096;
    assert Wrap32(x) == x - (q * 0x10_0000) * 4096;
  }

  /** The register after one more letter, up to multiples of 4096, from the one before, up to 64. */
  lemma ShiftLowBits(b: int, index: sextet)
    ensures (Wrap32(64 * b) + index) % 4096 == 64 * (b % 64) + index
  {
    WrapKeepsLowBits(64 * b);
    var q := b / 64;
    assert b == 64 * q + b % 64;
    assert 64 * b == 4096 * q + 64 * (b % 64);
    var w := Wrap32(64 * b);
    assert w % 4096 == (64 * b) % 4096 == 64 * (b % 64);
    assert w == 4096 * (w / 4096) + 64 * (b % 64);
    assert w + index == 4096 * (w / 4096) + (64 * (b % 64) + index);
  }

  lemma ShiftsByFourAndTwo(x: int)
    ensures Shifted(x, 4) == x / 16 && Shifted(x, 2) == x / 4 && Shifted(x, 0) == x
  {
    assert PowerOfTwo(2) == 4;
    assert PowerOfTwo(4) == 4 * PowerOfTwo(2);
  }

  /** A byte read four bits up depends on twelve bits, one read two bits up on ten. */
  lemma BytesOfLowBits(x: int)
    ensures x / 16 % 256 == x % 4096 / 16
    ensures x / 4 % 256 == x % 4096 % 1024 / 4
    ensures x % 256 == x % 4096 % 256
  {
    var q, low := x / 4096, x % 4096;
    SplitBy16(q, low);
    SplitBy4(q, low);
    SplitBy1(q, low);
  }

  lemma SplitBy1(q: int, low: nat)
    ensures (4096 * q + low) % 256 == low % 256
  {
    assert 4096 * q + low == 256 * (16 * q + low / 256) + low % 256;
  }

  lemma SplitBy16(q: int, low: nat)
    requires low < 4096
    ensures (4096 * q + low) / 16 % 256 == low / 16
  {
    assert low == 16 * (low / 16) + low % 16;
    assert 4096 * q + low == 16 * (256 * q + low / 16) + low % 16;
    assert (4096 * q + low) / 16 == 256 * q + low / 16;
  }

  lemma SplitBy4(q: int, low: nat)
    ensures (4096 * q + low) / 4 % 256 == low % 1024 / 4
  {
    var a, d := low / 1024, low % 1024;
    assert low == 1024 * a + d;
    assert d == 4 * (d / 4) + d % 4;
    assert 4096 * q + low == 4 * (256 * (4 * q + a) + d / 4) + d % 4;
    assert (4096 * q + low) / 4 == 256 * (4 * q + a) + d / 4;
  }

  lemma LowSextet(x: int)
    ensures x % 64 == x % 4096 % 64
  {
    assert x == 64 * (64 * (x / 4096)) + x % 4096;
  }

  lemma Turns(r: Register, i: sextet)
    ensures var buffer := Wrap32(64 * r.buffer) + i;
      Shift(r, i) == if r.bits < 2 then (Register(buffer, r.bits + 6), [])
                     else (Register(buffer, r.bits - 2), [Shifted(buffer, r.bits - 2) % 256])
  {}

  /** One turn, whatever overflowed before: only the six bits of the last letter matter. */
  lemma ShiftAt(r: Register, i: sextet)
    requires r.bits in {0, 2, 4, 6}
    ensures var (next, pushed) := Shift(r, i);
      var low := r.buffer % 64;
      && next.buffer % 64 == i
      && (r.bits == 0 ==> next.bits == 6 && pushed == [])
      && (r.bits == 6 ==> next.bits == 4 && pushed == [low * 4 + i / 16])
      && (r.bits == 4 ==> next.bits == 2 && pushed == [low % 16 * 16 + i / 4])
      && (r.bits == 2 ==> next.bits == 0 && pushed == [low % 4 * 64 + i])
  {
    var low := r.buffer % 64;
    var buffer := Wrap32(64 * r.buffer) + i;
    ShiftLowBits(r.buffer, i);
    hide Wrap32, Shifted;
    BytesOfLowBits(buffer);
    ShiftsByFourAndTwo(buffer);
    FourUp(low, i);
    TwoUp(low, i);
    LowByte(low, i);
    LowSextet(buffer);
    Turns(r, i);
    hide *;
  }

  lemma FourUp(low: sextet, i: sextet)
    ensures (64 * low + i) / 16 == low * 4 + i / 16
    ensures (64 * low + i) % 64 == i
  {
    assert i == 16 * (i / 16) + i % 16;
    assert 64 * low + i == 16 * (4 * low + i / 16) + i % 16;
  }

  lemma TwoUp(low: sextet, i: sextet)
    ensures (64 * low + i) % 1024 / 4 == low % 16 * 16 + i / 4
  {
    TenBits(low / 16, 64 * (low % 16) + i, 64 * low + i);
    DropTwo(low % 16, i);
  }

  lemma TenBits(a: nat, r: nat, x: nat)
    requires r < 1024 && x == 1024 * a + r
    ensures x % 1024 == r
  {}

  lemma DropTwo(d: nat, i: sextet)
    ensures (64 * d + i) / 4 == d * 16 + i / 4
  {
    assert 64 * d + i == 4 * (16 * d + i / 4) + i % 4;
  }

  lemma LowByte(low: sextet, i: sextet)
    ensures (64 * low + i) % 256 == low % 4 * 64 + i
  {
    var a, d := low / 4, low % 4;
    assert low == 4 * a + d;
    assert 64 * low + i == 256 * a + (64 * d + i);
  }

  /** What the register pushes for four letters, whatever was in it before. */
  lemma FourLetters(r: Register, i0: sextet, i1: sextet, i2: sextet, i3: sextet)
    requires r.bits == 0
    ensures var (r1, p1) := Shift(r, i0); var (r2, p2) := Shift(r1, i1); var (r3, p3) := Shift(r2, i2); var (r4, p4) := Shift(r3, i3);
      && p1 == [] && p2 == [i0 * 4 + i1 / 16] && p3 == [i1 % 16 * 16 + i2 / 4] && p4 == [i2 % 4 * 64 + i3] && r4.bits == 0
      && r1.bits == 6 && r2.bits == 4 && r3.bits == 2
  {
    hide Shift;
    var r1 := Shift(r, i0).0;
    var r2 := Shift(r1, i1).0;
    var r3 := Shift(r2, i2).0;
    ShiftAt(r, i0);
    ShiftAt(r1, i1);
    ShiftAt(r2, i2);
    ShiftAt(r3, i3);
  }

  lemma DecodeStep(r: Register, i: sextet, rest: string)
    ensures Decode(r, [Letter(i)] + rest) ==
      var (next, pushed) := Shift(r, i);
      var tail := Decode(next, rest);
      if tail.None? then None else Some(pushed + tail.value)
  {
    LetterIndex(i);
    assert ([Letter(i)] + rest)[1..] == rest;
  }

  /** Decoding one letter at a time, with nothing said about what a turn pushes. */
  function Push(r: Register, i: sextet): seq<byte> {
    Shift(r, i).1
  }

  function NextRegister(r: Register, i: sextet): Register {
    Shift(r, i).0
  }

  lemma OneLetter(r: Register, i: sextet, rest: string)
    ensures Decode(r, [Letter(i)] + rest) == After(Push(r, i), Decode(NextRegister(r, i), rest))
  {
    DecodeStep(r, i, rest);
  }

  lemma TwoLetters(r: Register, i0: sextet, i1: sextet, rest: string)
    ensures Decode(r, [Letter(i0), Letter(i1)] + rest)
         == After(Push(r, i0) + Push(NextRegister(r, i0), i1), Decode(NextRegister(NextRegister(r, i0), i1), rest))
  {
    hide Push, NextRegister, Letter, Decode;
    OneLetter(r, i0, [Letter(i1)] + rest);
    OneLetter(NextRegister(r, i0), i1, rest);
    assert [Letter(i0), Letter(i1)] + rest == [Letter(i0)] + ([Letter(i1)] + rest);
    AfterTwice(Push(r, i0), Push(NextRegister(r, i0), i1), Decode(NextRegister(NextRegister(r, i0), i1), rest));
  }

  lemma AfterTwice(a: seq<byte>, b: seq<byte>, rest: Option<seq<byte>>)
    ensures After(a, After(b, rest)) == After(a + b, rest)
  {
    if rest.Some? {
      assert a + (b + rest.value) == (a + b) + rest.value;
    }
  }

  lemma SingleDecodes(r: Register, a: byte)
    requires r.bits == 0
    ensures Decode(r, Single(a)) == Some([a])
  {
    var i0: sextet, i1: sextet := a / 4, a % 4 * 16 + 0 / 16;
    GroupBits(a, 0, 0);
    FourLetters(r, i0, i1, 0, 0);
    assert Push(r, i0) == [] && Push(NextRegister(r, i0), i1) == [a];
    assert Single(a) == [Letter(i0), Letter(i1)];
    hide Push, NextRegister, Letter, Shift, Single;
    TwoLetters(r, i0, i1, "");
    assert ([] + [a]) + [] == [a];
    assert [Letter(i0), Letter(i1)] + "" == [Letter(i0), Letter(i1)];
  }

  lemma PairDecodes(r: Register, a: byte, b: byte)
    requires r.bits == 0
    ensures Decode(r, Pair(a, b)) == Some([a, b])
  {
    var i0: sextet, i1: sextet, i2: sextet := a / 4, a % 4 * 16 + b / 16, b % 16 * 4 + 0 / 64;
    GroupBits(a, b, 0);
    FourLetters(r, i0, i1, i2, 0);
    var r2 := NextRegister(NextRegister(r, i0), i1);
    assert Push(r, i0) == [] && Push(NextRegister(r, i0), i1) == [a] && Push(r2, i2) == [b];
    assert Pair(a, b) == [Letter(i0), Letter(i1)] + [Letter(i2)];
    hide Push, NextRegister, Letter, Shift, Pair;
    TwoLetters(r, i0, i1, [Letter(i2)]);
    OneLetter(r2, i2, "");
    assert [Letter(i2)] + "" == [Letter(i2)];
    assert ([] + [a]) + ([b] + []) == [a, b];
  }

  /** For every byte sequence of any length, the register returns it although it overflows. */
  lemma {:induction false} LettersDecode(r: Register, bytes: seq<byte>)
    requires r.bits == 0
    ensures Decode(r, Letters(bytes)) == Some(bytes)
    decreases |bytes|
  {
    hide Shift, Single, Pair, Group;
    if bytes == [] {
    } else if |bytes| == 1 {
      SingleDecodes(r, bytes[0]);
      assert bytes == [bytes[0]];
    } else if |bytes| == 2 {
      PairDecodes(r, bytes[0], bytes[1]);
      assert bytes == [bytes[0], bytes[1]];
    } else {
      GroupDecodes(r, bytes[0], bytes[1], bytes[2], Letters(bytes[3..]));
      LettersDecode(AfterGroup(r, bytes[0], bytes[1], bytes[2]), bytes[3..]);
      assert bytes == [bytes[0], bytes[1], bytes[2]] + bytes[3..];
    }
  }

  function AfterGroup(r: Register, a: byte, b: byte, c: byte): Register {
    NextRegister(NextRegister(NextRegister(NextRegister(r, a / 4), a % 4 * 16 + b / 16), b % 16 * 4 + c / 64), c % 64)
  }

  lemma GroupBits(a: byte, b: byte, c: byte)
    ensures a / 4 * 4 + (a % 4 * 16 + b / 16) / 16 == a
    ensures (a % 4 * 16 + b / 16) % 16 * 16 + (b % 16 * 4 + c / 64) / 4 == b
    ensures (b % 16 * 4 + c / 64) % 4 * 64 + c % 64 == c
  {
    assert (16 * (a % 4) + b / 16) / 16 == a % 4 && (16 * (a % 4) + b / 16) % 16 == b / 16;
    assert (4 * (b % 16) + c / 64) / 4 == b % 16 && (4 * (b % 16) + c / 64) % 4 == c / 64;
  }

  lemma GroupDecodes(r: Register, a: byte, b: byte, c: byte, rest: string)
    requires r.bits == 0
    ensures AfterGroup(r, a, b, c).bits == 0
    ensures Decode(r, Group(a, b, c) + rest) == After([a, b, c], Decode(AfterGroup(r, a, b, c), rest))
  {
    var i0: sextet, i1: sextet, i2: sextet, i3: sextet := a / 4, a % 4 * 16 + b / 16, b % 16 * 4 + c / 64, c % 64;
    GroupBits(a, b, c);
    FourLetters(r, i0, i1, i2, i3);
    var r2 := NextRegister(NextRegister(r, i0), i1);
    assert Push(r, i0) == [] && Push(NextRegister(r, i0), i1) == [a] && Push(r2, i2) == [b] && Push(NextRegister(r2, i2), i3) == [c];
    assert Group(a, b, c) + rest == [Letter(i0), Letter(i1)] + ([Letter(i2), Letter(i3)] + rest);
    hide Push, NextRegister, Letter, Shift, Group, Decode;
    TwoLetters(r, i0, i1, [Letter(i2), Letter(i3)] + rest);
    TwoLetters(r2, i2, i3, rest);
    AfterTwice([] + [a], [b] + [c], Decode(AfterGroup(r, a, b, c), rest));
    assert ([] + [a]) + ([b] + [c]) == [a, b, c];
  }

  lemma PaddingStrips(s: string, n: nat)
    requires forall x | x in s :: IsLetter(x)
    ensures StripPadding(s + Padding(n)) == s
  {
    assert s + "" == s;
    assert (s + "=")[..|s|] == s;
    assert (s + "==")[..|s| + 1] == s + "=";
    assert s != [] ==> s[|s| - 1] in s;
  }

  lemma EncodeThenDecode(bytes: seq<byte>)
    ensures ToBytes(Encode(bytes)) == Some(bytes)
  {
    PaddingStrips(Letters(bytes), |bytes|);
    LettersDecode(Register(0, 0), bytes);
  }
}
