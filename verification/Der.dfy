/** The DER half of tofu/scripts/pem_to_jwks.py: a reader for RSA public keys, against an
    encoder written from ITU-T X.690 and RFC 5280. */
module Der {
  import opened Wrappers

  type Byte = b: int | 0 <= b < 256

  // ---- big-endian numbers ----------------------------------------------------------------

  /** int.from_bytes(s, "big"). */
  function FromBigEndian(s: seq<Byte>): nat {
    if s == [] then 0 else FromBigEndian(s[..|s| - 1]) * 256 + s[|s| - 1]
  }

  /** The shortest big-endian form; zero is the empty one. */
  function BigEndian(n: nat): seq<Byte> {
    if n == 0 then [] else BigEndian(n / 256) + [n % 256]
  }

  lemma {:induction false} BigEndianIsMinimal(n: nat)
    ensures FromBigEndian(BigEndian(n)) == n
    ensures n > 0 ==> BigEndian(n) != [] && BigEndian(n)[0] != 0
  {
    if n > 0 {
      BigEndianIsMinimal(n / 256);
      assert BigEndian(n)[..|BigEndian(n)| - 1] == BigEndian(n / 256);
    }
  }

  lemma {:induction false} LeadingZero(s: seq<Byte>)
    ensures FromBigEndian([0] + s) == FromBigEndian(s)
  {
    if s == [] {
      assert ([0] + s)[..0] == [];
    } else {
      LeadingZero(s[..|s| - 1]);
      assert ([0] + s)[..|s|] == [0] + s[..|s| - 1];
    }
  }

  // ---- Python slices, and the reader -----------------------------------------------------

  /** data[from:to] for from <= to: a slice stops at the end of the data. */
  function Slice(data: seq<Byte>, from: nat, to: nat): seq<Byte>
    requires from <= to
  {
    data[if from <= |data| then from else |data|..if to <= |data| then to else |data|]
  }

  /** What read_tag_length returns: the tag, the length, and where the contents start. */
  datatype Header = Header(tag: Byte, length: nat, pos: nat)

  /** read_tag_length as a value; None is an IndexError. */
  function HeaderAt(data: seq<Byte>, pos: nat): Option<Header> {
    if pos + 1 >= |data| then None
    else
      var first := data[pos + 1];
      if first < 128 then Some(Header(data[pos], first, pos + 2))
      else
        var contents := pos + 2 + (first - 128);
        Some(Header(data[pos], FromBigEndian(Slice(data, pos + 2, contents)), contents))
  }

  /** A slice that starts inside the data stops at its end. */
  lemma SliceAfter(before: seq<Byte>, octets: seq<Byte>, rest: seq<Byte>, to: nat)
    requires to == |before + octets| || (to > |before + octets| && rest == [])
    ensures Slice(before + octets + rest, |before|, to) == octets
  {
  }

  /** A length below 128 stands for itself. A header is an error exactly if its tag or its
      first length octet is missing. */
  lemma ShortHeader(before: seq<Byte>, tag: Byte, length: Byte, rest: seq<Byte>)
    ensures length < 128 ==>
      HeaderAt(before + [tag, length] + rest, |before|) == Some(Header(tag, length, |before| + 2))
    ensures HeaderAt(before + [tag, length] + rest, |before|).Some?
    ensures HeaderAt(before, |before|).None? && HeaderAt(before + [tag], |before|).None?
  {
    hide FromBigEndian, Slice;
  }

  lemma LongForm(data: seq<Byte>, pos: nat, count: nat)
    requires pos + 1 < |data| && data[pos + 1] as int == 128 + count
    ensures HeaderAt(data, pos)
         == Some(Header(data[pos], FromBigEndian(Slice(data, pos + 2, pos + 2 + count)), pos + 2 + count))
  {
    hide FromBigEndian, Slice;
  }

  /** From 128 on it counts length octets, minimal or not, of which there may be none or, at
      the end of the data, fewer than it says. */
  lemma LongHeader(before: seq<Byte>, tag: Byte, first: Byte, octets: seq<Byte>, rest: seq<Byte>)
    requires first >= 128 && (|octets| == first - 128 || (|octets| < first - 128 && rest == []))
    ensures HeaderAt(before + [tag, first] + octets + rest, |before|)
         == Some(Header(tag, FromBigEndian(octets), |before| + 2 + (first - 128)))
  {
    hide FromBigEndian, Slice, HeaderAt;
    var data, count: nat := before + [tag, first] + octets + rest, first - 128;
    SliceAfter(before + [tag, first], octets, rest, |before| + 2 + count);
    LongForm(data, |before|, count);
  }

  method ReadTagLength(data: seq<Byte>, start: nat) returns (header: Option<Header>)
    ensures header == HeaderAt(data, start)
  {
    var pos := start;
    if pos >= |data| {
      return None;
    }
    var tag := data[pos];
    pos := pos + 1;
    if pos >= |data| {
      return None;
    }
    var length: nat := data[pos];
    pos := pos + 1;
    if length >= 128 {
      var numBytes := length - 128;
      length := FromBigEndian(Slice(data, pos, pos + numBytes));
      pos := pos + numBytes;
    }
    header := Some(Header(tag, length, pos));
  }

  /** The header of the exponent and the octets of the modulus, as the reader finds them. */
  function Locate(der: seq<Byte>): Option<(seq<Byte>, Header)> {
    var outer := HeaderAt(der, 0);
    if outer.None? then None else
    var algorithm := HeaderAt(der, outer.value.pos);
    if algorithm.None? then None else
    var bits := HeaderAt(der, algorithm.value.pos + algorithm.value.length);
    if bits.None? then None else
    var inner := HeaderAt(der, bits.value.pos + 1);
    if inner.None? then None else
    var n := HeaderAt(der, inner.value.pos);
    if n.None? then None else
    var end := n.value.pos + n.value.length;
    var e := HeaderAt(der, end);
    if e.None? then None else Some((Slice(der, n.value.pos, end), e.value))
  }

  /** Without one leading zero, if there is one. */
  function Unsigned(s: seq<Byte>): seq<Byte> {
    if s != [] && s[0] == 0 then s[1..] else s
  }

  /** _parse_rsa_public_key_der as a value; None is an IndexError. */
  function ParsedKey(der: seq<Byte>): Option<(seq<Byte>, seq<Byte>)> {
    var found := Locate(der);
    if found.None? then None
    else
      var (n, e) := found.value;
      var octets := Slice(der, e.pos, e.pos + e.length);
      if n == [] || octets == [] then None else Some((Unsigned(n), Unsigned(octets)))
  }

  method ParseRsaPublicKeyDer(der: seq<Byte>) returns (key: Option<(seq<Byte>, seq<Byte>)>)
    ensures key == ParsedKey(der)
  {
    hide HeaderAt;
    var offset := 0;
    var header := ReadTagLength(der, offset);
    if header.None? { return None; }
    offset := header.value.pos;

    header := ReadTagLength(der, offset);
    if header.None? { return None; }
    offset := header.value.pos + header.value.length;

    header := ReadTagLength(der, offset);
    if header.None? { return None; }
    offset := header.value.pos + 1;

    header := ReadTagLength(der, offset);
    if header.None? { return None; }
    offset := header.value.pos;

    header := ReadTagLength(der, offset);
    if header.None? { return None; }
    offset := header.value.pos;
    var nBytes := Slice(der, offset, offset + header.value.length);
    offset := offset + header.value.length;
    // The code reads nBytes[0] before the next header; either way the outcome is an IndexError.
    if nBytes == [] { return None; }
    if nBytes[0] == 0 { nBytes := nBytes[1..]; }

    header := ReadTagLength(der, offset);
    if header.None? { return None; }
    offset := header.value.pos;
    var eBytes := Slice(der, offset, offset + header.value.length);
    if eBytes == [] { return None; }
    if eBytes[0] == 0 { eBytes := eBytes[1..]; }
    key := Some((nBytes, eBytes));
  }

  // ---- the encoder -------------------------------------------------------------------------

  const SEQUENCE: Byte := 0x30
  const INTEGER: Byte := 0x02
  const BIT_STRING: Byte := 0x03

  /** The long form has at most 126 length octets (section 8.1.3.5 of ITU-T X.690). */
  predicate Encodable(length: nat) {
    |BigEndian(length)| <= 126
  }

  function LengthOctets(length: nat): seq<Byte>
    requires Encodable(length)
  {
    if length < 128 then [length] else [128 + |BigEndian(length)|] + BigEndian(length)
  }

  function Encoding(tag: Byte, contents: seq<Byte>): seq<Byte>
    requires Encodable(|contents|)
  {
    [tag] + LengthOctets(|contents|) + contents
  }

  /** The contents of an INTEGER: two's complement, as short as possible. */
  function IntegerOctets(n: nat): seq<Byte> {
    if n == 0 then [0]
    else
      BigEndianIsMinimal(n);
      if BigEndian(n)[0] >= 128 then [0] + BigEndian(n) else BigEndian(n)
  }

  /** Every INTEGER length fits, and so does that of the SEQUENCE around both. */
  predicate KeyFits(n: nat, e: nat) {
    Encodable(|IntegerOctets(n)|) && Encodable(|IntegerOctets(e)|)
    && Encodable(|Encoding(INTEGER, IntegerOctets(n))| + |Encoding(INTEGER, IntegerOctets(e))|)
  }

  /** RSAPublicKey (section A.1.1 of RFC 8017). */
  function RsaPublicKey(n: nat, e: nat): seq<Byte>
    requires KeyFits(n, e)
  {
    Encoding(SEQUENCE, Encoding(INTEGER, IntegerOctets(n)) + Encoding(INTEGER, IntegerOctets(e)))
  }

  /** Every length in a SubjectPublicKeyInfo fits. */
  predicate Fits(algorithm: seq<Byte>, n: nat, e: nat) {
    Encodable(|algorithm|) && KeyFits(n, e) && Encodable(|[0] + RsaPublicKey(n, e)|)
    && Encodable(|Encoding(SEQUENCE, algorithm) + Encoding(BIT_STRING, [0] + RsaPublicKey(n, e))|)
  }

  /** SubjectPublicKeyInfo (section 4.1 of RFC 5280), for any contents of the
      AlgorithmIdentifier. */
  function SubjectPublicKeyInfo(algorithm: seq<Byte>, n: nat, e: nat): seq<Byte>
    requires Fits(algorithm, n, e)
  {
    Encoding(SEQUENCE, Encoding(SEQUENCE, algorithm) + Encoding(BIT_STRING, [0] + RsaPublicKey(n, e)))
  }

  // ---- reading back ---------------------------------------------------------------------------

  /** `s` is in `data` from `pos` on. */
  predicate At(data: seq<Byte>, pos: nat, s: seq<Byte>) {
    pos + |s| <= |data| && data[pos..pos + |s|] == s
  }

  lemma AtBoth(data: seq<Byte>, pos: nat, a: seq<Byte>, b: seq<Byte>)
    ensures At(data, pos, a + b) <==> At(data, pos, a) && At(data, pos + |a|, b)
  {
    if At(data, pos, a + b) {
      assert data[pos..pos + |a|] == data[pos..pos + |a + b|][..|a|] == a;
      assert data[pos + |a|..pos + |a| + |b|] == data[pos..pos + |a + b|][|a|..] == b;
    }
    if At(data, pos, a) && At(data, pos + |a|, b) {
      assert data[pos..pos + |a + b|] == data[pos..pos + |a|] + data[pos + |a|..pos + |a| + |b|];
    }
  }

  /** A header is read back, in the short form and in the long one. */
  lemma HeaderReadBack(data: seq<Byte>, pos: nat, tag: Byte, length: nat)
    requires Encodable(length) && At(data, pos, [tag] + LengthOctets(length))
    ensures HeaderAt(data, pos) == Some(Header(tag, length, pos + 1 + |LengthOctets(length)|))
  {
    hide BigEndian, FromBigEndian;
    var octets := LengthOctets(length);
    AtBoth(data, pos, [tag], octets);
    assert data[pos] == data[pos..pos + 1][0] == tag;
    assert data[pos + 1] == data[pos + 1..pos + 1 + |octets|][0] == octets[0];
    if length >= 128 {
      BigEndianIsMinimal(length);
      AtBoth(data, pos + 1, octets[..1], BigEndian(length));
      assert octets == octets[..1] + BigEndian(length);
    }
  }

  /** The tag and length octets of an encoding. */
  function Prefix(tag: Byte, length: nat): seq<Byte>
    requires Encodable(length)
  {
    [tag] + LengthOctets(length)
  }

  /** Everything in front of the contents of the exponent. */
  function KeyHead(algorithm: seq<Byte>, n: nat, e: nat): seq<Byte>
    requires Fits(algorithm, n, e)
  {
    var key, bits := RsaPublicKey(n, e), [0] + RsaPublicKey(n, e);
    Prefix(SEQUENCE, |Encoding(SEQUENCE, algorithm) + Encoding(BIT_STRING, bits)|)
    + (Prefix(SEQUENCE, |algorithm|)
       + (algorithm
          + (Prefix(BIT_STRING, |bits|)
             + ([0]
                + (Prefix(SEQUENCE, |Encoding(INTEGER, IntegerOctets(n)) + Encoding(INTEGER, IntegerOctets(e))|)
                   + (Prefix(INTEGER, |IntegerOctets(n)|)
                      + (IntegerOctets(n)
                         + Prefix(INTEGER, |IntegerOctets(e)|))))))))
  }

  lemma HeadThenExponent(algorithm: seq<Byte>, n: nat, e: nat)
    requires Fits(algorithm, n, e)
    ensures SubjectPublicKeyInfo(algorithm, n, e) == KeyHead(algorithm, n, e) + IntegerOctets(e)
  {
    hide IntegerOctets, LengthOctets, BigEndian;
  }

  /** The reader, over the head of a key, finds the modulus and the exponent's header. */
  lemma LocateInKey(data: seq<Byte>, algorithm: seq<Byte>, n: nat, e: nat)
    requires Fits(algorithm, n, e) && At(data, 0, KeyHead(algorithm, n, e))
    ensures Locate(data) == Some((IntegerOctets(n), Header(INTEGER, |IntegerOctets(e)|, |KeyHead(algorithm, n, e)|)))
  {
    hide HeaderAt, At, IntegerOctets, LengthOctets, BigEndian, Encodable;
    var key, bits := RsaPublicKey(n, e), [0] + RsaPublicKey(n, e);
    var total := |Encoding(SEQUENCE, algorithm) + Encoding(BIT_STRING, bits)|;
    var numbers := |Encoding(INTEGER, IntegerOctets(n)) + Encoding(INTEGER, IntegerOctets(e))|;
    var h9 := Prefix(INTEGER, |IntegerOctets(e)|);
    var h8 := IntegerOctets(n) + h9;
    var h7 := Prefix(INTEGER, |IntegerOctets(n)|) + h8;
    var h6 := Prefix(SEQUENCE, numbers) + h7;
    var h5 := [0] + h6;
    var h4 := Prefix(BIT_STRING, |bits|) + h5;
    var h3 := algorithm + h4;
    var h2 := Prefix(SEQUENCE, |algorithm|) + h3;
    assert KeyHead(algorithm, n, e) == Prefix(SEQUENCE, total) + h2;
    var p2 := ReadHeader(data, 0, SEQUENCE, total, h2);
    var p3 := ReadHeader(data, p2, SEQUENCE, |algorithm|, h3);
    AtBoth(data, p3, algorithm, h4);
    var p5 := ReadHeader(data, p3 + |algorithm|, BIT_STRING, |bits|, h5);
    AtBoth(data, p5, [0], h6);
    var p7 := ReadHeader(data, p5 + 1, SEQUENCE, numbers, h7);
    var p8 := ReadHeader(data, p7, INTEGER, |IntegerOctets(n)|, h8);
    AtBoth(data, p8, IntegerOctets(n), h9);
    AtSlice(data, p8, IntegerOctets(n));
    assert h9 == h9 + [];
    var end := ReadHeader(data, p8 + |IntegerOctets(n)|, INTEGER, |IntegerOctets(e)|, []);
  }

  lemma AtSlice(data: seq<Byte>, pos: nat, s: seq<Byte>)
    requires At(data, pos, s)
    ensures Slice(data, pos, pos + |s|) == s
  {
  }

  lemma ReadHeader(data: seq<Byte>, pos: nat, tag: Byte, length: nat, rest: seq<Byte>) returns (contents: nat)
    requires Encodable(length) && At(data, pos, Prefix(tag, length) + rest)
    ensures contents == pos + |Prefix(tag, length)|
    ensures HeaderAt(data, pos) == Some(Header(tag, length, contents)) && At(data, contents, rest)
  {
    hide HeaderAt, At, LengthOctets;
    contents := pos + |Prefix(tag, length)|;
    AtBoth(data, pos, Prefix(tag, length), rest);
    HeaderReadBack(data, pos, tag, length);
  }

  lemma UnsignedInteger(n: nat)
    ensures IntegerOctets(n) != [] && Unsigned(IntegerOctets(n)) == BigEndian(n)
  {
  }

  /** The reader over a key followed by anything in place of the exponent's contents. */
  lemma ReadWithTail(algorithm: seq<Byte>, n: nat, e: nat, tail: seq<Byte>)
    requires Fits(algorithm, n, e)
    ensures ParsedKey(KeyHead(algorithm, n, e) + tail)
         == if tail == [] then None else Some((BigEndian(n), Unsigned(Slice(tail, 0, |IntegerOctets(e)|))))
  {
    hide Locate, KeyHead, IntegerOctets, BigEndian;
    var head := KeyHead(algorithm, n, e);
    assert At(head + tail, 0, head);
    LocateInKey(head + tail, algorithm, n, e);
    UnsignedInteger(n);
    UnsignedInteger(e);
    assert Slice(head + tail, |head|, |head| + |IntegerOctets(e)|) == Slice(tail, 0, |IntegerOctets(e)|);
  }

  /** Round trip: whatever the algorithm identifier and however long the numbers, reading
      an encoded key gives exactly the shortest big-endian forms of the modulus and the
      exponent. Octets after the key are ignored. */
  lemma KeyReadBack(algorithm: seq<Byte>, n: nat, e: nat, trailing: seq<Byte>)
    requires Fits(algorithm, n, e)
    ensures ParsedKey(SubjectPublicKeyInfo(algorithm, n, e) + trailing) == Some((BigEndian(n), BigEndian(e)))
  {
    hide ParsedKey, KeyHead, IntegerOctets, SubjectPublicKeyInfo, Fits, BigEndian, Unsigned;
    HeadThenExponent(algorithm, n, e);
    ReadWithTail(algorithm, n, e, IntegerOctets(e) + trailing);
    UnsignedInteger(e);
    assert KeyHead(algorithm, n, e) + (IntegerOctets(e) + trailing) == SubjectPublicKeyInfo(algorithm, n, e) + trailing;
    assert Slice(IntegerOctets(e) + trailing, 0, |IntegerOctets(e)|) == IntegerOctets(e);
  }

  // ---- truncated keys -----------------------------------------------------------------------

  /** On a shorter copy of the data a header is the same, missing, or ends past the end. */
  lemma HeaderTruncated(data: seq<Byte>, m: nat, pos: nat)
    requires m <= |data|
    ensures var (short, full) := (HeaderAt(data[..m], pos), HeaderAt(data, pos));
            short == full || short.None? || short.value.pos >= m
    ensures pos >= m ==> HeaderAt(data[..m], pos).None?
  {
    if pos + 1 < m && data[pos + 1] >= 128 {
      var contents := pos + 2 + (data[pos + 1] - 128);
      if contents < m { assert Slice(data[..m], pos + 2, contents) == Slice(data, pos + 2, contents); }
    }
  }

  lemma LocateTruncated(data: seq<Byte>, m: nat)
    requires m <= |data| && Locate(data).Some?
    ensures var (short, full) := (Locate(data[..m]), Locate(data));
            short.None? || short.value.1.pos >= m || short.value.1 == full.value.1
  {
    hide HeaderAt;
    var outer := HeaderAt(data[..m], 0);
    HeaderTruncated(data, m, 0);
    if outer.None? { return; }
    var algorithm := HeaderAt(data[..m], outer.value.pos);
    HeaderTruncated(data, m, outer.value.pos);
    if algorithm.None? { return; }
    var bits := HeaderAt(data[..m], algorithm.value.pos + algorithm.value.length);
    HeaderTruncated(data, m, algorithm.value.pos + algorithm.value.length);
    if bits.None? { return; }
    var inner := HeaderAt(data[..m], bits.value.pos + 1);
    HeaderTruncated(data, m, bits.value.pos + 1);
    if inner.None? { return; }
    var n := HeaderAt(data[..m], inner.value.pos);
    HeaderTruncated(data, m, inner.value.pos);
    if n.None? { return; }
    HeaderTruncated(data, m, n.value.pos + n.value.length);
  }

  lemma HeadTruncated(algorithm: seq<Byte>, n: nat, e: nat, m: nat)
    requires Fits(algorithm, n, e) && m <= |KeyHead(algorithm, n, e)|
    ensures ParsedKey(KeyHead(algorithm, n, e)[..m]).None?
  {
    hide Locate, KeyHead, IntegerOctets;
    var head := KeyHead(algorithm, n, e);
    assert At(head, 0, head);
    LocateInKey(head, algorithm, n, e);
    LocateTruncated(head, m);
  }

  /** Exactly which truncated keys are noticed: losing the whole exponent or more is an
      error, but a key that has lost only some of its last octets is accepted, with an
      exponent cut short. */
  lemma TruncatedKey(algorithm: seq<Byte>, n: nat, e: nat, lost: nat)
    requires Fits(algorithm, n, e) && lost <= |SubjectPublicKeyInfo(algorithm, n, e)|
    ensures var (key, octets) := (SubjectPublicKeyInfo(algorithm, n, e), IntegerOctets(e));
            ParsedKey(key[..|key| - lost])
            == if lost >= |octets| then None else Some((BigEndian(n), Unsigned(octets[..|octets| - lost])))
  {
    hide ParsedKey, KeyHead, IntegerOctets, SubjectPublicKeyInfo, Fits, BigEndian, Unsigned;
    var (key, octets) := (SubjectPublicKeyInfo(algorithm, n, e), IntegerOctets(e));
    var head := KeyHead(algorithm, n, e);
    HeadThenExponent(algorithm, n, e);
    if lost >= |octets| {
      assert key[..|key| - lost] == head[..|key| - lost];
      HeadTruncated(algorithm, n, e, |key| - lost);
    } else {
      var tail := octets[..|octets| - lost];
      assert key[..|key| - lost] == head + tail;
      ReadWithTail(algorithm, n, e, tail);
      assert Slice(tail, 0, |octets|) == tail;
    }
  }

  function Pow256(k: nat): (p: nat)
    ensures p > 0
  {
    if k == 0 then 1 else 256 * Pow256(k - 1)
  }

  lemma {:induction false} DroppedOctets(s: seq<Byte>, lost: nat)
    requires lost <= |s|
    ensures FromBigEndian(s[..|s| - lost]) == FromBigEndian(s) / Pow256(lost)
  {
    if lost == 0 {
      assert s[..|s|] == s;
    } else {
      DroppedOctets(s[..|s| - 1], lost - 1);
      assert s[..|s| - 1][..|s| - 1 - (lost - 1)] == s[..|s| - lost];
      DivideTwice(FromBigEndian(s), Pow256(lost - 1));
      assert FromBigEndian(s) / 256 == FromBigEndian(s[..|s| - 1]);
    }
  }

  lemma DivideTwice(n: nat, p: nat)
    requires p > 0
    ensures n / 256 / p == n / (256 * p)
  {
    var q := n / 256 / p;
    var r := n / 256 - q * p;
    assert n == 256 * (q * p + r) + n % 256;
    assert 256 * (q * p) == q * (256 * p);
    Quotient(n, 256 * p, q, 256 * r + n % 256);
  }

  lemma Quotient(n: nat, d: nat, q: nat, r: nat)
    requires 0 <= r < d && n == q * d + r
    ensures n / d == q
  {
    Multiples(q - n / d, d);
    assert (q - n / d) * d == q * d - (n / d) * d;
  }

  lemma Multiples(k: int, d: nat)
    ensures k >= 1 ==> k * d >= d
    ensures k <= -1 ==> k * d + d <= 0
  {
  }

  /** What such a key says: the exponent divided by 256 for every octet lost. */
  lemma TruncatedExponent(e: nat, lost: nat)
    requires lost <= |IntegerOctets(e)|
    ensures FromBigEndian(Unsigned(IntegerOctets(e)[..|IntegerOctets(e)| - lost])) == e / Pow256(lost)
  {
    hide IntegerOctets, BigEndian;
    var octets := IntegerOctets(e);
    UnsignedInteger(e);
    BigEndianIsMinimal(e);
    UnsignedKeepsValue(octets);
    UnsignedKeepsValue(octets[..|octets| - lost]);
    DroppedOctets(octets, lost);
  }

  lemma UnsignedKeepsValue(s: seq<Byte>)
    ensures FromBigEndian(Unsigned(s)) == FromBigEndian(s)
  {
    if s != [] && s[0] == 0 {
      LeadingZero(s[1..]);
      assert s == [0] + s[1..];
    }
  }
}
