/** The tag-length-value writer of `apps/server/src/net/der.ts`, against a reader that accepts only
    the distinguished form of ITU-T X.690 (sections 8.1.3 and 10.1). */
module Der {
  import opened Text

  // ─── whole numbers as octets ─────────────────────────────────────────────────

  /** Big-endian octets of a whole number, none for zero. */
  function Octets(n: nat): seq<byte> {
    if n == 0 then [] else Octets(n / 256) + [n % 256]
  }

  /** What octets mean, most significant first. */
  function Magnitude(octets: seq<byte>): nat {
    if octets == [] then 0 else 256 * Magnitude(octets[..|octets| - 1]) + octets[|octets| - 1]
  }

  lemma {:induction false} OctetsMean(n: nat)
    ensures Magnitude(Octets(n)) == n
    ensures n > 0 ==> Octets(n) != [] && Octets(n)[0] != 0
  {
    if n > 0 {
      OctetsMean(n / 256);
      assert Octets(n)[..|Octets(n)| - 1] == Octets(n / 256);
    }
  }

  /** Octets without a leading zero are the only such octets of their magnitude. */
  lemma {:induction false} OctetsAreUnique(octets: seq<byte>)
    requires octets == [] || octets[0] != 0
    ensures Octets(Magnitude(octets)) == octets
    ensures octets != [] ==> Magnitude(octets) > 0
    decreases |octets|
  {
    if octets != [] {
      var front, last := octets[..|octets| - 1], octets[|octets| - 1];
      OctetsAreUnique(front);
      assert Magnitude(octets) / 256 == Magnitude(front) && Magnitude(octets) % 256 == last;
      assert octets == front + [last];
    }
  }

  function Power(base: nat, n: nat): nat {
    if n == 0 then 1 else base * Power(base, n - 1)
  }

  lemma {:induction false} OctetsCount(n: nat, k: nat)
    requires n < Power(256, k)
    ensures |Octets(n)| <= k
  {
    if n > 0 && k > 0 {
      OctetsCount(n / 256, k - 1);
    }
  }

  lemma {:induction false} MagnitudeBound(octets: seq<byte>)
    ensures Magnitude(octets) < Power(256, |octets|)
    decreases |octets|
  {
    if octets != [] {
      MagnitudeBound(octets[..|octets| - 1]);
    }
  }

  lemma LengthsFit(n: nat)
    requires n <= MAX_SAFE_INTEGER
    ensures |Octets(n)| <= 7
  {
    assert Power(256, 1) == 256 && Power(256, 2) == 0x1_0000 && Power(256, 3) == 0x100_0000;
    assert Power(256, 4) == 256 * Power(256, 3) && Power(256, 5) == 256 * Power(256, 4);
    assert Power(256, 6) == 256 * Power(256, 5) && Power(256, 7) == 256 * Power(256, 6);
    OctetsCount(n, 7);
  }

  lemma OctetsUnfold(n: nat, tail: seq<byte>)
    requires n > 0
    ensures Octets(n) + tail == Octets(n / 256) + ([n % 256] + tail)
  {}

  /** `for (let n = …; n > 0; n = Math.floor(n / 256)) size.unshift(n % 256)`. */
  method OctetsOf(length: nat) returns (size: seq<byte>)
    ensures size == Octets(length)
  {
    size := [];
    var n := length;
    while n > 0
      invariant Octets(length) == Octets(n) + size
    {
      OctetsUnfold(n, size);
      size := [n % 256] + size;
      n := n / 256;
    }
  }

  // ─── tag, length, value ──────────────────────────────────────────────────────

  /** `0x80 | k`, as one byte. */
  function Marked(k: nat): byte {
    128 + k % 128
  }

  function LengthField(n: nat): seq<byte> {
    if n < 0x80 then [n] else [Marked(|Octets(n)|)] + Octets(n)
  }

  function Tlv(tag: byte, value: seq<byte>): seq<byte> {
    [tag] + LengthField(|value|) + value
  }

  method WriteTlv(tag: byte, value: seq<byte>) returns (out: seq<byte>)
    ensures out == Tlv(tag, value)
  {
    if |value| < 0x80 {
      return [tag, |value|] + value;
    }
    var size := OctetsOf(|value|);
    out := [tag, Marked(|size|)] + size + value;
  }

  datatype Element = Element(tag: byte, value: seq<byte>, rest: seq<byte>)

  /** A length field at the start of `bytes`: its value and how many octets it takes. Indefinite,
      reserved and longer than necessary forms are refused. */
  function ReadLength(bytes: seq<byte>): Option<(nat, nat)> {
    if bytes == [] then None
    else if bytes[0] < 128 then Some((bytes[0], 1))
    else
      var k := bytes[0] - 128;
      if k == 0 || k == 127 || |bytes| < 1 + k then None
      else
        var octets := bytes[1..1 + k];
        if octets[0] == 0 || Magnitude(octets) < 128 then None else Some((Magnitude(octets), 1 + k))
  }

  function ReadElement(bytes: seq<byte>): (e: Option<Element>)
    ensures e.Some? ==> |e.value.value| < |bytes| && |e.value.rest| < |bytes|
  {
    if bytes == [] then None
    else
      match ReadLength(bytes[1..])
      case None => None
      case Some((length, taken)) =>
        ReadLengthTakes(bytes[1..]);
        if |bytes| < 1 + taken + length then None
        else Some(Element(bytes[0], bytes[1 + taken..1 + taken + length], bytes[1 + taken + length..]))
  }

  lemma ReadLengthTakes(bytes: seq<byte>)
    ensures ReadLength(bytes).Some? ==> 1 <= ReadLength(bytes).value.1 <= |bytes|
  {}

  lemma LengthReads(n: nat, rest: seq<byte>)
    requires n <= MAX_SAFE_INTEGER
    ensures ReadLength(LengthField(n) + rest) == Some((n, |LengthField(n)|))
  {
    hide Octets, Magnitude, Power;
    if n >= 0x80 {
      var octets := Octets(n);
      LengthsFit(n);
      OctetsMean(n);
      var bytes := LengthField(n) + rest;
      assert bytes[1..1 + |octets|] == octets;
      assert bytes[0] == 128 + |octets|;
    }
  }

  lemma LengthWrites(bytes: seq<byte>)
    requires ReadLength(bytes).Some?
    ensures bytes[..ReadLength(bytes).value.1] == LengthField(ReadLength(bytes).value.0)
  {
    if bytes[0] >= 128 {
      var k := bytes[0] - 128;
      var octets := bytes[1..1 + k];
      OctetsAreUnique(octets);
      assert bytes[..1 + k] == [bytes[0]] + octets;
    }
  }

  /** What was written is read back, whatever follows it: the encoding ends where it says it ends. */
  lemma ElementReads(tag: byte, value: seq<byte>, rest: seq<byte>)
    requires |value| <= MAX_SAFE_INTEGER
    ensures ReadElement(Tlv(tag, value) + rest) == Some(Element(tag, value, rest))
  {
    hide ReadLength, LengthField;
    var field := LengthField(|value|);
    var bytes := Tlv(tag, value) + rest;
    LengthReads(|value|, value + rest);
    assert bytes == [tag] + (field + (value + rest));
    assert bytes[1..] == field + (value + rest);
    assert bytes[1 + |field|..1 + |field| + |value|] == value;
    assert bytes[1 + |field| + |value|..] == rest;
  }

  /** And only what the writer would write is read. */
  lemma ElementWrites(bytes: seq<byte>)
    requires ReadElement(bytes).Some?
    ensures var e := ReadElement(bytes).value; bytes == Tlv(e.tag, e.value) + e.rest
  {
    LengthWrites(bytes[1..]);
    ReadLengthTakes(bytes[1..]);
    hide ReadLength, LengthField;
    var (length, taken) := ReadLength(bytes[1..]).value;
    var e := ReadElement(bytes).value;
    assert bytes[1..][..taken] == bytes[1..1 + taken];
    assert bytes == [bytes[0]] + bytes[1..1 + taken] + bytes[1 + taken..1 + taken + length] + bytes[1 + taken + length..];
  }

  /** No encoding is a prefix of another. */
  lemma PrefixFree(tag: byte, value: seq<byte>, tag': byte, value': seq<byte>)
    requires |value| <= MAX_SAFE_INTEGER && |value'| <= MAX_SAFE_INTEGER
    requires Tlv(tag, value) <= Tlv(tag', value')
    ensures tag == tag' && value == value'
  {
    var long := Tlv(tag', value');
    var rest := long[|Tlv(tag, value)|..];
    assert long == Tlv(tag, value) + rest && long == long + [];
    hide Tlv, ReadElement;
    ElementReads(tag, value, rest);
    ElementReads(tag', value', []);
  }

  /** A definite length field of any form (section 8.1.3): short, or long with any leading zeros. */
  ghost predicate Denotes(field: seq<byte>, n: nat) {
    && field != []
    && if field[0] < 128 then field == [n]
       else 128 < field[0] < 255 && |field| == 1 + (field[0] - 128) && Magnitude(field[1..]) == n
  }

  /** The form chosen is the shortest there is, and the only one of its size. */
  lemma LengthIsMinimal(field: seq<byte>, n: nat)
    requires n <= MAX_SAFE_INTEGER && Denotes(field, n)
    ensures Denotes(LengthField(n), n)
    ensures |LengthField(n)| <= |field|
    ensures |LengthField(n)| == |field| ==> LengthField(n) == field
  {
    if n >= 0x80 {
      FieldDenotes(n);
      LongFieldIsLonger(field[1..], n);
      assert field == [field[0]] + field[1..];
    }
  }

  lemma FieldDenotes(n: nat)
    requires 0x80 <= n <= MAX_SAFE_INTEGER
    ensures Denotes(LengthField(n), n) && LengthField(n) == [128 + |Octets(n)|] + Octets(n)
  {
    OctetsMean(n);
    LengthsFit(n);
    SmallMark(|Octets(n)|);
    hide Octets, Magnitude;
    assert LengthField(n)[1..] == Octets(n);
  }

  lemma SmallMark(k: nat)
    requires k < 128
    ensures Marked(k) == 128 + k
  {}

  lemma LongFieldIsLonger(octets: seq<byte>, n: nat)
    requires Magnitude(octets) == n
    ensures |Octets(n)| <= |octets|
    ensures |Octets(n)| == |octets| ==> Octets(n) == octets
  {
    OctetsMean(n);
    MagnitudeBound(octets);
    OctetsCount(n, |octets|);
    if |Octets(n)| == |octets| {
      SameSizeSameOctets(Octets(n), octets);
    }
  }

  lemma {:induction false} SameSizeSameOctets(a: seq<byte>, b: seq<byte>)
    requires |a| == |b| && Magnitude(a) == Magnitude(b)
    ensures a == b
    decreases |a|
  {
    if a != [] {
      SameSizeSameOctets(a[..|a| - 1], b[..|b| - 1]);
      assert a == a[..|a| - 1] + [a[|a| - 1]] && b == b[..|b| - 1] + [b[|b| - 1]];
    }
  }

  // ─── nested values ───────────────────────────────────────────────────────────

  /** What the helpers `sequence`, `set`, `explicit` and the primitive ones build. */
  datatype Node =
    | Primitive(tag: byte, content: seq<byte>)
    | Constructed(tag: byte, children: seq<Node>)

  /** Bit 6 of the tag. */
  predicate IsConstructed(tag: byte) {
    tag / 32 % 2 == 1
  }

  function Write(node: Node): seq<byte>
    decreases node, 1
  {
    match node
    case Primitive(tag, content) => Tlv(tag, content)
    case Constructed(tag, children) => Tlv(tag, WriteAll(children))
  }

  function WriteAll(nodes: seq<Node>): seq<byte>
    decreases nodes, 0
  {
    if nodes == [] then [] else Write(nodes[0]) + WriteAll(nodes[1..])
  }

  ghost predicate WellFormed(node: Node)
    decreases node, 1
  {
    match node
    case Primitive(tag, content) => !IsConstructed(tag) && |content| <= MAX_SAFE_INTEGER
    case Constructed(tag, children) => IsConstructed(tag) && |WriteAll(children)| <= MAX_SAFE_INTEGER && AllWellFormed(children)
  }

  ghost predicate AllWellFormed(nodes: seq<Node>)
    decreases nodes, 0
  {
    nodes == [] || (WellFormed(nodes[0]) && AllWellFormed(nodes[1..]))
  }

  function ReadAll(bytes: seq<byte>): Option<seq<Node>>
    decreases |bytes|
  {
    if bytes == [] then Some([])
    else
      match ReadElement(bytes)
      case None => None
      case Some(e) =>
        var node :=
          if !IsConstructed(e.tag) then Some(Primitive(e.tag, e.value))
          else (match ReadAll(e.value) case None => None case Some(children) => Some(Constructed(e.tag, children)));
        var rest := ReadAll(e.rest);
        if node.None? || rest.None? then None else Some([node.value] + rest.value)
  }

  lemma WrittenStarts(node: Node)
    ensures Write(node) != []
  {}

  /** Nested values decode to exactly the tree that was written. */
  lemma {:induction false} TreesReadBack(nodes: seq<Node>)
    requires AllWellFormed(nodes)
    ensures ReadAll(WriteAll(nodes)) == Some(nodes)
    decreases nodes
  {
    hide ReadElement, Tlv;
    if nodes != [] {
      var node, rest := nodes[0], nodes[1..];
      TreesReadBack(rest);
      WrittenStarts(node);
      match node {
        case Primitive(tag, content) => ElementReads(tag, content, WriteAll(rest));
        case Constructed(tag, children) =>
          TreesReadBack(children);
          ElementReads(tag, WriteAll(children), WriteAll(rest));
      }
      assert nodes == [node] + rest;
    }
  }

  /** Every byte string the reader accepts is the writer's own for the tree it yields. */
  lemma {:induction false} OnlyWrittenIsRead(bytes: seq<byte>)
    requires ReadAll(bytes).Some? && |bytes| <= MAX_SAFE_INTEGER
    ensures AllWellFormed(ReadAll(bytes).value) && WriteAll(ReadAll(bytes).value) == bytes
    decreases |bytes|
  {
    if bytes != [] {
      var e := ReadElement(bytes).value;
      ElementWrites(bytes);
      hide ReadElement, Tlv;
      OnlyWrittenIsRead(e.rest);
      var nodes := ReadAll(bytes).value;
      if IsConstructed(e.tag) {
        OnlyWrittenIsRead(e.value);
      }
      assert nodes[1..] == ReadAll(e.rest).value;
    }
  }

  /** Different trees have different encodings. */
  lemma EncodingIsUnique(a: seq<Node>, b: seq<Node>)
    requires AllWellFormed(a) && AllWellFormed(b) && WriteAll(a) == WriteAll(b)
    ensures a == b
  {
    hide ReadAll, WriteAll, AllWellFormed;
    TreesReadBack(a);
    TreesReadBack(b);
  }

  // ─── the helpers ─────────────────────────────────────────────────────────────

  const INTEGER: byte := 0x02
  const OID: byte := 0x06
  const UTC_TIME: byte := 0x17
  const GENERALIZED_TIME: byte := 0x18
  const SEQUENCE: byte := 0x30
  const SET: byte := 0x31

  function Joined(parts: seq<seq<byte>>): seq<byte> {
    if parts == [] then [] else parts[0] + Joined(parts[1..])
  }

  function Sequence(parts: seq<seq<byte>>): seq<byte> {
    Tlv(SEQUENCE, Joined(parts))
  }

  function Set(parts: seq<seq<byte>>): seq<byte> {
    Tlv(SET, Joined(parts))
  }

  /** `explicit(n, …)`, for the tag numbers that fit one byte. */
  function Explicit(n: nat, parts: seq<seq<byte>>): seq<byte>
    requires n < 31
  {
    Tlv(0xa0 + n, Joined(parts))
  }

  function Written(nodes: seq<Node>): (parts: seq<seq<byte>>)
    ensures |parts| == |nodes|
  {
    if nodes == [] then [] else [Write(nodes[0])] + Written(nodes[1..])
  }

  lemma {:induction false} JoinedIsWritten(nodes: seq<Node>)
    ensures Joined(Written(nodes)) == WriteAll(nodes)
    decreases |nodes|
  {
    if nodes != [] {
      JoinedIsWritten(nodes[1..]);
    }
  }

  /** Joining the encodings of well-formed parts under one of the constructed tags reads back as the
      tree with those parts. */
  lemma HelpersBuildTrees(children: seq<Node>, n: nat)
    requires AllWellFormed(children) && |WriteAll(children)| <= MAX_SAFE_INTEGER && n < 31
    ensures ReadAll(Sequence(Written(children))) == Some([Constructed(0x30, children)])
    ensures ReadAll(Set(Written(children))) == Some([Constructed(0x31, children)])
    ensures ReadAll(Explicit(n, Written(children))) == Some([Constructed(0xa0 + n, children)])
  {
    hide ReadAll, Tlv, WriteAll, AllWellFormed, Joined, Written;
    JoinedIsWritten(children);
    OneTree(SEQUENCE, children);
    OneTree(SET, children);
    assert IsConstructed(0xa0 + n);
    OneTree(0xa0 + n, children);
  }

  lemma OneTree(tag: byte, children: seq<Node>)
    requires IsConstructed(tag) && AllWellFormed(children) && |WriteAll(children)| <= MAX_SAFE_INTEGER
    ensures ReadAll(Tlv(tag, WriteAll(children))) == Some([Constructed(tag, children)])
  {
    hide Tlv, ReadAll;
    var node := Constructed(tag, children);
    assert [node][1..] == [];
    assert WellFormed(node);
    assert AllWellFormed([node][1..]);
    TreesReadBack([node]);
    assert WriteAll([node][1..]) == [];
    assert WriteAll([node]) == Write(node) + [] == Write(node);
  }
}
