/** Python's base64 module as pem_to_jwks.py uses it: the lenient decoder, and the
    URL-safe encoder with its padding stripped. */
module Base64 {
  import opened Wrappers
  import opened Der

  type Sextet = d: int | 0 <= d < 64

  // ---- encoding (section 4 of RFC 4648) ---------------------------------------------------

  /** The four digits of three octets, bit by bit. */
  function Digit1(a: Byte): Sextet { a / 4 }
  function Digit2(a: Byte, b: Byte): Sextet { a % 4 * 16 + b / 16 }
  function Digit3(b: Byte, c: Byte): Sextet { b % 16 * 4 + c / 64 }
  function Digit4(c: Byte): Sextet { c % 64 }

  /** The octets as 6-bit digits, most significant first, the last one filled with zeros. */
  function Sextets(b: seq<Byte>): seq<Sextet> {
    if b == [] then []
    else if |b| == 1 then [Digit1(b[0]), Digit2(b[0], 0)]
    else if |b| == 2 then [Digit1(b[0]), Digit2(b[0], b[1]), Digit3(b[1], 0)]
    else [Digit1(b[0]), Digit2(b[0], b[1]), Digit3(b[1], b[2]), Digit4(b[2])] + Sextets(b[3..])
  }

  function Digit(d: Sextet): (c: char)
    ensures c < '\U{80}' && c != '='
  {
    if d < 26 then ('A' as int + d) as char
    else if d < 52 then ('a' as int + d - 26) as char
    else if d < 62 then ('0' as int + d - 52) as char
    else if d == 62 then '+' else '/'
  }

  function Digits(ds: seq<Sextet>): (s: string)
    ensures |s| == |ds| && forall i :: 0 <= i < |ds| ==> s[i] == Digit(ds[i])
  {
    seq(|ds|, i requires 0 <= i < |ds| => Digit(ds[i]))
  }

  /** Enough "=" to fill the last group of four. */
  function Padding(length: nat): string {
    if length % 3 == 0 then "" else if length % 3 == 1 then "==" else "="
  }

  /** b64encode. */
  function Encode(b: seq<Byte>): string {
    Digits(Sextets(b)) + Padding(|b|)
  }

  // ---- decoding (binascii.a2b_base64 without strict mode) -----------------------------------

  function DigitValue(c: char): Option<Sextet> {
    if 'A' <= c <= 'Z' then Some(c as int - 'A' as int)
    else if 'a' <= c <= 'z' then Some(c as int - 'a' as int + 26)
    else if '0' <= c <= '9' then Some(c as int - '0' as int + 52)
    else if c == '+' then Some(62) else if c == '/' then Some(63) else None
  }

  lemma DigitHasValue(d: Sextet)
    ensures DigitValue(Digit(d)) == Some(d)
  {
  }

  const CAPITALS := "ABCDEFGHIJKLMNOPQRSTUVWXYZ"
  const SMALL := "abcdefghijklmnopqrstuvwxyz"
  const DECIMALS := "0123456789"
  const ALPHABET := CAPITALS + SMALL + DECIMALS + "+/"
  const URL_ALPHABET := CAPITALS + SMALL + DECIMALS + "-_"

  /** Letters, digits, and two more characters. */
  predicate IsTable(table: string, plus: char, slash: char) {
    && |table| == 64 && table[62] == plus && table[63] == slash
    && (forall d :: 0 <= d < 26 ==> table[d] as int == 'A' as int + d)
    && (forall d :: 26 <= d < 52 ==> table[d] as int == 'a' as int + d - 26)
    && (forall d :: 52 <= d < 62 ==> table[d] as int == '0' as int + d - 52)
  }

  lemma ByTable(table: string, d: Sextet, c: char)
    requires IsTable(table, '+', '/')
    ensures Digit(d) == table[d] && (DigitValue(c) == Some(d) <==> c == table[d])
  {
  }

  lemma AlphabetIsTable()
    ensures IsTable(ALPHABET, '+', '/') && IsTable(URL_ALPHABET, '-', '_')
  {
    LettersAre();
  }

  /** Table 1 of RFC 4648, both ways; no other character has a value. */
  lemma AlphabetIs(d: Sextet, c: char)
    ensures |ALPHABET| == 64 && Digit(d) == ALPHABET[d]
    ensures DigitValue(c) == Some(d) <==> c == ALPHABET[d]
  {
    hide Digit, DigitValue, IsTable;
    AlphabetIsTable();
    ByTable(ALPHABET, d, c);
    TableLength(ALPHABET, '+', '/');
  }

  lemma TableLength(table: string, plus: char, slash: char)
    requires IsTable(table, plus, slash)
    ensures |table| == 64
  {
  }

  lemma LettersAre()
    ensures |CAPITALS| == |SMALL| == 26 && |DECIMALS| == 10
    ensures forall d :: 0 <= d < 26 ==> CAPITALS[d] as int == 'A' as int + d && SMALL[d] as int == 'a' as int + d
    ensures forall d :: 0 <= d < 10 ==> DECIMALS[d] as int == '0' as int + d
  {
  }

  /** The digits are those of the same number in base 64, filled up with zero bits. */
  lemma SextetsHaveTheValue(a: Byte, b: Byte, c: Byte)
    ensures var (v, w, x, y) := (Digit1(a), Digit2(a, b), Digit3(b, c), Digit4(c));
            v as int * 262144 + w as int * 4096 + x as int * 64 + y == a as int * 65536 + b as int * 256 + c
    ensures Sextets([a, b, c]) == [Digit1(a), Digit2(a, b), Digit3(b, c), Digit4(c)]
    ensures Sextets([a, b]) == [Digit1(a), Digit2(a, b), Digit3(b, 0)] && Sextets([a]) == [Digit1(a), Digit2(a, 0)]
  {
    assert [a, b, c][3..] == [];
  }

  lemma {:induction false} EncodedLength(b: seq<Byte>)
    ensures |Encode(b)| == (|b| + 2) / 3 * 4
  {
    hide Digits, Digit1, Digit2, Digit3, Digit4;
    if |b| >= 3 {
      EncodedLength(b[3..]);
      OneGroupMore(|b| - 3);
    }
  }

  lemma OneGroupMore(n: nat)
    ensures (n + 5) / 3 * 4 == (n + 2) / 3 * 4 + 4 && Padding(n + 3) == Padding(n)
  {
  }

  /** The low bits of a digit that the next octet starts with. */
  function Low4(d: Sextet): nat { d % 16 }
  function Low2(d: Sextet): nat { d % 4 }

  /** An octet from the bits left over and the next digit. */
  function Octet1(left: nat, d: Sextet): Byte
    requires left < 64
  {
    left * 4 + d / 16
  }

  function Octet2(left: nat, d: Sextet): Byte
    requires left < 16
  {
    left * 16 + d / 4
  }

  function Octet3(left: nat, d: Sextet): Byte
    requires left < 4
  {
    left * 64 + d
  }

  lemma Split16(q: nat, r: nat)
    requires r < 16
    ensures (q * 16 + r) / 16 == q && (q * 16 + r) % 16 == r
  {
  }

  lemma Split4(q: nat, r: nat)
    requires r < 4
    ensures (q * 4 + r) / 4 == q && (q * 4 + r) % 4 == r
  {
  }

  lemma DigitsGiveOctets(a: Byte, b: Byte, c: Byte)
    ensures Low4(Digit2(a, b)) < 16 && Low2(Digit3(b, c)) < 4 && Low4(Digit2(a, 0)) == 0 && Low2(Digit3(b, 0)) == 0
    ensures Octet1(Digit1(a), Digit2(a, b)) == a
    ensures Octet2(Low4(Digit2(a, b)), Digit3(b, c)) == b
    ensures Octet3(Low2(Digit3(b, c)), Digit4(c)) == c
  {
    Split16(a % 4, b / 16);
    Split16(a % 4, 0);
    Split4(b % 16, c / 64);
    Split4(b % 16, 0);
  }

  /** `quad` digits of the current group have been read, and `left` holds the bits of the
      last one that are not in `out` yet. */
  datatype Decoder = Decoder(quad: nat, left: nat, pads: nat, out: seq<Byte>)
  {
    predicate Valid() {
      quad < 4 && (quad == 1 ==> left < 64) && (quad == 2 ==> left < 16) && (quad == 3 ==> left < 4)
    }

    function Push(d: Sextet): (s: Decoder)
      requires Valid()
      ensures s.Valid()
    {
      match quad
      case 0 => Decoder(1, d, 0, out)
      case 1 => Decoder(2, Low4(d), 0, out + [Octet1(left, d)])
      case 2 => Decoder(3, Low2(d), 0, out + [Octet2(left, d)])
      case _ => Decoder(0, 0, 0, out + [Octet3(left, d)])
    }
  }

  /** The rest of the text; None is binascii.Error. Characters outside the alphabet are
      skipped, and padding that completes a group ends the input. */
  function DecodeFrom(s: string, st: Decoder): Option<seq<Byte>>
    requires st.Valid()
  {
    if s == [] then if st.quad == 0 then Some(st.out) else None
    else if s[0] == '=' then
      if st.quad >= 2 && st.quad + st.pads + 1 >= 4 then Some(st.out)
      else DecodeFrom(s[1..], st.(pads := if st.quad >= 2 then st.pads + 1 else st.pads))
    else
      var digit := DigitValue(s[0]);
      DecodeFrom(s[1..], if digit.Some? then st.Push(digit.value) else st)
  }

  predicate IsAscii(s: string) {
    forall c :: c in s ==> c < '\U{80}'
  }

  /** b64decode of a str. */
  function Decode(s: string): Option<seq<Byte>> {
    if IsAscii(s) then DecodeFrom(s, Decoder(0, 0, 0, [])) else None
  }

  lemma DecodeDigit(d: Sextet, ds: seq<Sextet>, rest: string, st: Decoder)
    requires st.Valid()
    ensures DecodeFrom(Digits([d] + ds) + rest, st) == DecodeFrom(Digits(ds) + rest, st.Push(d))
  {
    hide DigitValue, Digit;
    DigitHasValue(d);
    var s := Digits([d] + ds) + rest;
    assert s[0] == Digit(d);
    assert Digits([d] + ds)[1..] == Digits(ds);
    assert s[1..] == Digits(ds) + rest;
  }

  /** A full group of four digits yields its three octets. */
  lemma DecodeGroup(w: Sextet, x: Sextet, y: Sextet, z: Sextet, ds: seq<Sextet>, rest: string, out: seq<Byte>)
    requires Low4(x) < 16 && Low2(y) < 4
    ensures DecodeFrom(Digits([w, x, y, z] + ds) + rest, Decoder(0, 0, 0, out))
         == DecodeFrom(Digits(ds) + rest,
                       Decoder(0, 0, 0, out + [Octet1(w, x), Octet2(Low4(x), y), Octet3(Low2(y), z)]))
  {
    hide DecodeFrom, Digits, Low2, Low4, Octet1, Octet2, Octet3;
    var a, b, c := Octet1(w, x), Octet2(Low4(x), y), Octet3(Low2(y), z);
    assert [w, x, y, z] + ds == [w] + ([x] + ([y] + ([z] + ds)));
    DecodeDigit(w, [x] + ([y] + ([z] + ds)), rest, Decoder(0, 0, 0, out));
    DecodeDigit(x, [y] + ([z] + ds), rest, Decoder(1, w, 0, out));
    DecodeDigit(y, [z] + ds, rest, Decoder(2, Low4(x), 0, out + [a]));
    DecodeDigit(z, ds, rest, Decoder(3, Low2(y), 0, out + [a] + [b]));
    assert out + [a] + [b] + [c] == out + [a, b, c];
  }

  lemma DecodeThreeDigits(w: Sextet, x: Sextet, y: Sextet, rest: string, out: seq<Byte>)
    requires Low4(x) < 16 && Low2(y) == 0
    ensures DecodeFrom(Digits([w, x, y]) + ("=" + rest), Decoder(0, 0, 0, out))
         == Some(out + [Octet1(w, x), Octet2(Low4(x), y)])
  {
    hide DecodeFrom, Digits, Low2, Low4, Octet1, Octet2;
    var a, b, end := Octet1(w, x), Octet2(Low4(x), y), "=" + rest;
    var none: seq<Sextet> := [];
    assert [w, x, y] == [w] + ([x] + ([y] + none));
    DecodeDigit(w, [x] + ([y] + none), end, Decoder(0, 0, 0, out));
    DecodeDigit(x, [y] + none, end, Decoder(1, w, 0, out));
    DecodeDigit(y, none, end, Decoder(2, Low4(x), 0, out + [a]));
    assert Digits(none) + end == end;
    FinalPadding("=", rest, Decoder(3, 0, 0, out + [a] + [b]));
    assert out + [a] + [b] == out + [a, b];
  }

  lemma DecodeTwoDigits(w: Sextet, x: Sextet, rest: string, out: seq<Byte>)
    requires Low4(x) == 0
    ensures DecodeFrom(Digits([w, x]) + ("==" + rest), Decoder(0, 0, 0, out)) == Some(out + [Octet1(w, x)])
  {
    hide DecodeFrom, Digits, Low4, Octet1;
    var none: seq<Sextet>, end := [], "==" + rest;
    assert [w, x] == [w] + ([x] + none);
    DecodeDigit(w, [x] + none, end, Decoder(0, 0, 0, out));
    DecodeDigit(x, none, end, Decoder(1, w, 0, out));
    assert Digits(none) + end == end;
    FinalPadding("==", rest, Decoder(2, 0, 0, out + [Octet1(w, x)]));
  }

  lemma DecodeShort(b: seq<Byte>, rest: string, out: seq<Byte>)
    requires |b| == 1 || |b| == 2
    ensures DecodeFrom(Encode(b) + rest, Decoder(0, 0, 0, out)) == Some(out + b)
  {
    hide *;
    EncodedShort(b);
    if |b| == 1 {
      DigitsGiveOctets(b[0], 0, 0);
      DecodeTwoDigits(Digit1(b[0]), Digit2(b[0], 0), rest, out);
      assert b == [b[0]];
      assert Encode(b) + rest == Digits([Digit1(b[0]), Digit2(b[0], 0)]) + ("==" + rest);
    } else {
      DigitsGiveOctets(b[0], b[1], 0);
      DecodeThreeDigits(Digit1(b[0]), Digit2(b[0], b[1]), Digit3(b[1], 0), rest, out);
      assert b == [b[0], b[1]];
      assert Encode(b) + rest == Digits([Digit1(b[0]), Digit2(b[0], b[1]), Digit3(b[1], 0)]) + ("=" + rest);
    }
  }

  lemma FinalPadding(s: string, rest: string, st: Decoder)
    requires st.Valid() && ((s == "=" && st.quad == 3) || (s == "==" && st.quad == 2 && st.pads == 0))
    ensures DecodeFrom(s + rest, st) == Some(st.out)
  {
    if s == "==" {
      assert (s + rest)[1..] == "=" + rest;
      var next := st.(pads := 1);
      assert DecodeFrom("=" + rest, next) == Some(st.out);
    }
  }

  lemma EncodedShort(b: seq<Byte>)
    ensures |b| == 1 ==> Encode(b) == Digits([Digit1(b[0]), Digit2(b[0], 0)]) + "=="
    ensures |b| == 2 ==> Encode(b) == Digits([Digit1(b[0]), Digit2(b[0], b[1]), Digit3(b[1], 0)]) + "="
  {
    hide Digits, Digit1, Digit2, Digit3;
  }

  lemma EncodedGroup(b: seq<Byte>)
    requires |b| >= 3
    ensures var group := [Digit1(b[0]), Digit2(b[0], b[1]), Digit3(b[1], b[2]), Digit4(b[2])];
            Encode(b) == Digits(group + Sextets(b[3..])) + Padding(|b|)
    ensures Encode(b[3..]) == Digits(Sextets(b[3..])) + Padding(|b|)
  {
    hide Digits, Digit1, Digit2, Digit3, Digit4;
    assert Padding(|b[3..]|) == Padding(|b|);
  }

  /** Full groups are followed by what is decoded next; padding ends the input. */
  lemma {:induction false} DecodeEncoded(b: seq<Byte>, rest: string, out: seq<Byte>)
    ensures DecodeFrom(Encode(b) + rest, Decoder(0, 0, 0, out))
         == if |b| % 3 == 0 then DecodeFrom(rest, Decoder(0, 0, 0, out + b)) else Some(out + b)
  {
    hide DecodeFrom, Encode;
    if b == [] {
      EncodeNothing();
      assert out + b == out && "" + rest == rest;
    } else if |b| < 3 {
      DecodeShort(b, rest, out);
    } else {
      DecodeFirstGroup(b, rest, out);
      DecodeEncoded(b[3..], rest, out + b[..3]);
      assert out + b[..3] + b[3..] == out + b;
    }
  }

  lemma DecodeFirstGroup(b: seq<Byte>, rest: string, out: seq<Byte>)
    requires |b| >= 3
    ensures DecodeFrom(Encode(b) + rest, Decoder(0, 0, 0, out))
         == DecodeFrom(Encode(b[3..]) + rest, Decoder(0, 0, 0, out + b[..3]))
  {
    hide *;
    EncodedGroup(b);
    DigitsGiveOctets(b[0], b[1], b[2]);
    var (w, x, y, z) := (Digit1(b[0]), Digit2(b[0], b[1]), Digit3(b[1], b[2]), Digit4(b[2]));
    DecodeGroup(w, x, y, z, Sextets(b[3..]), Padding(|b|) + rest, out);
    assert b[..3] == [b[0], b[1], b[2]];
    assert Encode(b) + rest == Digits([w, x, y, z] + Sextets(b[3..])) + (Padding(|b|) + rest);
    assert Encode(b[3..]) + rest == Digits(Sextets(b[3..])) + (Padding(|b|) + rest);
  }

  lemma EncodeNothing()
    ensures Encode([]) == ""
  {
  }

  lemma NothingToDecode(out: seq<Byte>)
    ensures DecodeFrom("", Decoder(0, 0, 0, out)) == Some(out)
  {
  }

  /** b64decode undoes b64encode. */
  lemma DecodeUndoesEncode(b: seq<Byte>)
    ensures Decode(Encode(b)) == Some(b)
  {
    hide DecodeFrom;
    DecodeEncoded(b, "", []);
    NothingToDecode(b);
    assert [] + b == b && Encode(b) + "" == Encode(b);
  }

  /** What follows encoded text: after padding nothing counts any more, and "=" where no
      padding is due counts for nothing. */
  lemma TextAfterPadding(b: seq<Byte>, rest: string)
    requires IsAscii(rest)
    ensures |b| % 3 != 0 ==> Decode(Encode(b) + rest) == Some(b)
    ensures |b| % 3 == 0 ==> Decode(Encode(b) + "=" + rest) == Decode(Encode(b) + rest)
  {
    hide Sextets, Digit, DecodeFrom, Encode;
    EncodedIsAscii(b);
    DecodeEncoded(b, rest, []);
    DecodeEncoded(b, "=" + rest, []);
    assert [] + b == b && Encode(b) + "=" + rest == Encode(b) + ("=" + rest);
    ExcessPadding(rest, b);
  }

  lemma EncodedIsAscii(b: seq<Byte>)
    ensures IsAscii(Encode(b))
  {
    hide Sextets, Digit;
  }

  lemma ExcessPadding(rest: string, out: seq<Byte>)
    ensures DecodeFrom("=" + rest, Decoder(0, 0, 0, out)) == DecodeFrom(rest, Decoder(0, 0, 0, out))
  {
  }

  predicate InAlphabet(c: char) { c in ALPHABET }

  /** The characters of the text that mean anything. */
  function Kept(s: string): string {
    if s == [] then [] else (if InAlphabet(s[0]) || s[0] == '=' then [s[0]] else []) + Kept(s[1..])
  }

  /** Every other ASCII character, a line break or a space say, is skipped wherever it stands;
      any other character is an error. */
  lemma OthersAreSkipped(s: string)
    ensures Decode(s) == if exists c :: c in s && c >= '\U{80}' then None else Decode(Kept(s))
  {
    hide DecodeFrom;
    if IsAscii(s) {
      KeptIsAscii(s);
      DecodeKept(s, Decoder(0, 0, 0, []));
    }
  }

  lemma {:induction false} KeptIsAscii(s: string)
    requires IsAscii(s)
    ensures IsAscii(Kept(s))
  {
    if s != [] {
      assert s[0] in s && forall c :: c in s[1..] ==> c in s;
      KeptIsAscii(s[1..]);
    }
  }

  lemma {:induction false} DecodeKept(s: string, st: Decoder)
    requires st.Valid()
    ensures DecodeFrom(s, st) == DecodeFrom(Kept(s), st)
    decreases |s|
  {
    hide DigitValue, Kept, DecodeFrom, Decoder.Push, InAlphabet;
    KeptStep(s);
    if s != [] {
      var (c, rest) := (s[0], s[1..]);
      CharacterCounts(c);
      DecodeCharacter(c, rest, st);
      DecodeCharacter(c, Kept(rest), st);
      assert s == [c] + rest;
      if DigitValue(c).None? && c != '=' {
        DecodeKept(rest, st);
      } else if c != '=' {
        DecodeKept(rest, st.Push(DigitValue(c).value));
      } else {
        DecodeKept(rest, st.(pads := if st.quad >= 2 then st.pads + 1 else st.pads));
      }
    }
  }

  /** What one character does. */
  lemma DecodeCharacter(c: char, rest: string, st: Decoder)
    requires st.Valid()
    ensures DecodeFrom([c] + rest, st)
         == if c != '=' then
              if DigitValue(c).Some? then DecodeFrom(rest, st.Push(DigitValue(c).value)) else DecodeFrom(rest, st)
            else if st.quad >= 2 && st.quad + st.pads + 1 >= 4 then Some(st.out)
            else DecodeFrom(rest, st.(pads := if st.quad >= 2 then st.pads + 1 else st.pads))
  {
    hide DigitValue, Decoder.Push;
    assert ([c] + rest)[1..] == rest;
  }

  lemma CharacterCounts(c: char)
    ensures DigitValue(c).Some? <==> InAlphabet(c)
    ensures DigitValue('=').None?
  {
    hide Digit;
    AlphabetIs(0, c);
    if DigitValue(c).Some? { AlphabetIs(DigitValue(c).value, c); }
    if InAlphabet(c) {
      var d :| 0 <= d < 64 && ALPHABET[d] == c;
      AlphabetIs(d, c);
    }
  }

  lemma KeptStep(s: string)
    ensures s == [] ==> Kept(s) == []
    ensures s != [] && (InAlphabet(s[0]) || s[0] == '=') ==> Kept(s) == [s[0]] + Kept(s[1..])
    ensures s != [] && !(InAlphabet(s[0]) || s[0] == '=') ==> Kept(s) == Kept(s[1..])
  {
  }

  /** Without padding the digits must come in groups of four. */
  lemma DigitsOnly(s: string)
    requires forall c :: c in s ==> InAlphabet(c)
    ensures Decode(s).None? <==> |s| % 4 != 0
  {
    hide DecodeFrom, InAlphabet;
    forall c | c in s ensures c < '\U{80}' { CharacterIsAscii(c); }
    DecodeDigitsOnly(s, Decoder(0, 0, 0, []));
  }

  lemma CharacterIsAscii(c: char)
    requires InAlphabet(c)
    ensures c < '\U{80}'
  {
    hide Digit;
    var d :| 0 <= d < 64 && ALPHABET[d] == c;
    AlphabetIs(d, c);
  }

  lemma {:induction false} DecodeDigitsOnly(s: string, st: Decoder)
    requires st.Valid() && forall i :: 0 <= i < |s| ==> InAlphabet(s[i])
    ensures DecodeFrom(s, st).None? <==> InGroup(|s| + st.quad) != 0
    decreases |s|
  {
    hide DigitValue, DecodeFrom, Decoder.Push, InGroup, InAlphabet;
    if s == [] {
      NothingLeft(st);
    } else {
      var (c, rest) := (s[0], s[1..]);
      CharacterCounts(c);
      DecodeCharacter(c, rest, st);
      assert s == [c] + rest;
      PushTurns(st, DigitValue(c).value, |rest|);
      DecodeDigitsOnly(rest, st.Push(DigitValue(c).value));
    }
  }

  lemma NothingLeft(st: Decoder)
    requires st.Valid()
    ensures DecodeFrom([], st).None? <==> InGroup(st.quad) != 0
  {
  }

  function InGroup(digits: nat): nat { digits % 4 }

  lemma PushTurns(st: Decoder, d: Sextet, more: nat)
    requires st.Valid()
    ensures InGroup(more + st.Push(d).quad) == InGroup(more + 1 + st.quad)
  {
  }

  // ---- the URL-safe alphabet, unpadded (section 5 of RFC 4648, section 2 of RFC 7515) ------------

  function UrlCharacter(c: char): char {
    if c == '+' then '-' else if c == '/' then '_' else c
  }

  /** urlsafe_b64encode: the standard form with two characters exchanged. */
  function UrlsafeEncode(b: seq<Byte>): (s: string)
    ensures |s| == |Encode(b)| && forall i :: 0 <= i < |s| ==> s[i] == UrlCharacter(Encode(b)[i])
  {
    seq(|Encode(b)|, i requires 0 <= i < |Encode(b)| => UrlCharacter(Encode(b)[i]))
  }

  /** rstrip(b"="). */
  function StripPadding(s: string): string {
    if s != [] && s[|s| - 1] == '=' then StripPadding(s[..|s| - 1]) else s
  }

  /** The field values of the JWK. */
  function Base64Url(b: seq<Byte>): string {
    StripPadding(UrlsafeEncode(b))
  }

  lemma StripOne(s: string)
    ensures StripPadding(s + "=") == StripPadding(s)
  {
  }

  lemma StripNone(s: string)
    requires s == [] || s[|s| - 1] != '='
    ensures StripPadding(s) == s
  {
  }

  lemma StripExactly(s: string, length: nat)
    requires s == [] || s[|s| - 1] != '='
    ensures StripPadding(s + Padding(length)) == s
  {
    hide StripPadding;
    StripNone(s);
    StripOne(s);
    StripOne(s + "=");
    assert s + "" == s && s + "=" + "=" == s + "==";
  }

  /** Stripping removes the padding, all of it, and nothing else. */
  lemma StripRemovesThePadding(b: seq<Byte>)
    ensures UrlsafeEncode(b) == Base64Url(b) + Padding(|b|) && |Base64Url(b)| == |Sextets(b)|
    ensures forall i :: 0 <= i < |Sextets(b)| ==> Base64Url(b)[i] == UrlCharacter(Digit(Sextets(b)[i]))
  {
    hide StripPadding, Sextets, Digit;
    var s, n := UrlsafeEncode(b), |Sextets(b)|;
    assert s[n..] == Padding(|b|);
    assert s == s[..n] + s[n..];
    StripExactly(s[..n], |b|);
  }

  function UrlValue(c: char): Option<Sextet> {
    if c == '-' then Some(62) else if c == '_' then Some(63)
    else if c == '+' || c == '/' then None else DigitValue(c)
  }

  /** Unpadded base64url, read strictly: no other characters, no length of 1 modulo 4, and
      the unused bits of the last digit zero. */
  function UrlDecode(s: string): Option<seq<Byte>> {
    if s == "" then Some([])
    else if |s| == 1 then None
    else
      var w, x := UrlValue(s[0]), UrlValue(s[1]);
      if w.None? || x.None? then None
      else
        var a := Octet1(w.value, x.value);
        if |s| == 2 then if Low4(x.value) == 0 then Some([a]) else None
        else
          var y := UrlValue(s[2]);
          if y.None? then None
          else
            var b := Octet2(Low4(x.value), y.value);
            if |s| == 3 then if Low2(y.value) == 0 then Some([a, b]) else None
            else
              var z, rest := UrlValue(s[3]), UrlDecode(s[4..]);
              if z.None? || rest.None? then None
              else Some([a, b, Octet3(Low2(y.value), z.value)] + rest.value)
  }

  lemma ByUrlTable(table: string, d: Sextet, c: char)
    requires IsTable(table, '-', '_')
    ensures UrlCharacter(Digit(d)) == table[d] && (UrlValue(c) == Some(d) <==> c == table[d])
  {
  }

  /** Table 2 of RFC 4648, both ways. */
  lemma UrlAlphabetIs(d: Sextet, c: char)
    ensures |URL_ALPHABET| == 64 && UrlCharacter(Digit(d)) == URL_ALPHABET[d]
    ensures UrlValue(c) == Some(d) <==> c == URL_ALPHABET[d]
  {
    hide Digit, UrlCharacter, UrlValue, IsTable;
    AlphabetIsTable();
    ByUrlTable(URL_ALPHABET, d, c);
    TableLength(URL_ALPHABET, '-', '_');
  }

  lemma UrlDigit(d: Sextet)
    ensures UrlValue(UrlCharacter(Digit(d))) == Some(d)
  {
  }

  /** A text of URL-safe digits. */
  function UrlDigits(ds: seq<Sextet>): (s: string)
    ensures |s| == |ds| && forall i :: 0 <= i < |ds| ==> s[i] == UrlCharacter(Digit(ds[i]))
  {
    seq(|ds|, i requires 0 <= i < |ds| => UrlCharacter(Digit(ds[i])))
  }

  lemma UrlDigitsHaveValues(ds: seq<Sextet>)
    ensures forall i :: 0 <= i < |ds| ==> UrlValue(UrlDigits(ds)[i]) == Some(ds[i])
  {
    hide UrlValue, UrlCharacter, Digit;
    forall i | 0 <= i < |ds| ensures UrlValue(UrlDigits(ds)[i]) == Some(ds[i]) { UrlDigit(ds[i]); }
  }

  lemma UrlDecodeShort(ds: seq<Sextet>)
    requires |ds| == 2 || |ds| == 3
    requires Low4(ds[1]) < 16
    ensures |ds| == 2 && Low4(ds[1]) == 0 ==> UrlDecode(UrlDigits(ds)) == Some([Octet1(ds[0], ds[1])])
    ensures |ds| == 3 && Low2(ds[2]) == 0 ==>
      UrlDecode(UrlDigits(ds)) == Some([Octet1(ds[0], ds[1]), Octet2(Low4(ds[1]), ds[2])])
  {
    hide UrlValue, UrlDigits, Low2, Low4, Octet1, Octet2;
    UrlDigitsHaveValues(ds);
  }

  lemma UrlDecodeGroup(ds: seq<Sextet>)
    requires |ds| >= 4 && Low4(ds[1]) < 16 && Low2(ds[2]) < 4 && UrlDecode(UrlDigits(ds[4..])).Some?
    ensures UrlDecode(UrlDigits(ds))
         == Some([Octet1(ds[0], ds[1]), Octet2(Low4(ds[1]), ds[2]), Octet3(Low2(ds[2]), ds[3])]
                 + UrlDecode(UrlDigits(ds[4..])).value)
  {
    hide UrlValue, UrlCharacter, Digit, Low2, Low4, Octet1, Octet2, Octet3;
    UrlDigitsHaveValues(ds);
    assert UrlDigits(ds)[4..] == UrlDigits(ds[4..]);
  }

  lemma {:induction false} UrlDecodeDigits(b: seq<Byte>)
    ensures UrlDecode(UrlDigits(Sextets(b))) == Some(b)
  {
    hide UrlDecode, UrlDigits, Digit1, Digit2, Digit3, Digit4, Low2, Low4, Octet1, Octet2, Octet3;
    if b == [] {
      NothingToUrlDecode();
    } else if |b| == 1 {
      DigitsGiveOctets(b[0], 0, 0);
      UrlDecodeShort(Sextets(b));
      assert b == [b[0]];
    } else if |b| == 2 {
      DigitsGiveOctets(b[0], b[1], 0);
      UrlDecodeShort(Sextets(b));
      assert b == [b[0], b[1]];
    } else {
      DigitsGiveOctets(b[0], b[1], b[2]);
      UrlDecodeDigits(b[3..]);
      assert Sextets(b)[4..] == Sextets(b[3..]);
      UrlDecodeGroup(Sextets(b));
      assert b == [b[0], b[1], b[2]] + b[3..];
    }
  }

  lemma NothingToUrlDecode()
    ensures UrlDecode(UrlDigits([])) == Some([])
  {
  }

  /** What the script writes into a field decodes to the octets it was given. */
  lemma UrlDecodeUndoesBase64Url(b: seq<Byte>)
    ensures UrlDecode(Base64Url(b)) == Some(b)
  {
    hide UrlDecode, Sextets, Base64Url, Digit, UrlCharacter;
    StripRemovesThePadding(b);
    assert Base64Url(b) == UrlDigits(Sextets(b));
    UrlDecodeDigits(b);
  }
}
