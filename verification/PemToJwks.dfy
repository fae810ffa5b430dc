/** pem_to_jwks of tofu/scripts/pem_to_jwks.py: from a PEM public key to the fields of a
    JSON Web Key. */
module PemToJwks {
  import opened Wrappers
  import opened GoStrings
  import opened Der
  import opened Base64

  // ---- str.strip, str.splitlines --------------------------------------------------------

  /** str.isspace of one character: four more separators than Go's. */
  predicate PythonSpace(c: char) {
    IsSpace(c) || '\U{1C}' <= c <= '\U{1F}'
  }

  function LStrip(s: string): string {
    if s != [] && PythonSpace(s[0]) then LStrip(s[1..]) else s
  }

  function RStrip(s: string): string {
    if s != [] && PythonSpace(s[|s| - 1]) then RStrip(s[..|s| - 1]) else s
  }

  function Strip(s: string): string {
    RStrip(LStrip(s))
  }

  predicate IsBreak(c: char) {
    '\n' <= c <= '\r' || '\U{1C}' <= c <= '\U{1E}' || c == '\U{85}' || c == '\U{2028}' || c == '\U{2029}'
  }

  const BREAKS := "\n\U{0B}\U{0C}\r\U{1C}\U{1D}\U{1E}\U{85}\U{2028}\U{2029}"

  /** The characters that str.splitlines splits at, and those that str.strip strips. */
  lemma PythonCharacters(c: char)
    ensures IsBreak(c) <==> c in BREAKS
    ensures PythonSpace(c) <==> c in SPACES || c in "\U{1C}\U{1D}\U{1E}\U{1F}"
  {
    SpacesAre(c);
    hide IsSpace;
    var b := BREAKS;
    assert '\n' <= c <= '\r' ==> b[c as int - '\n' as int] == c;
    assert '\U{1C}' <= c <= '\U{1E}' ==> b[c as int - '\U{1C}' as int + 4] == c;
    assert b[7] == '\U{85}' && b[8] == '\U{2028}' && b[9] == '\U{2029}';
  }

  /** Carriage return and line feed together are one break; text that ends in a break has
      no empty line after it. */
  function SplitLines(s: string): seq<string> {
    if s == [] then []
    else if s[0] == '\r' && |s| > 1 && s[1] == '\n' then [""] + SplitLines(s[2..])
    else if IsBreak(s[0]) then [""] + SplitLines(s[1..])
    else
      var rest := SplitLines(s[1..]);
      if rest == [] then [[s[0]]] else [[s[0]] + rest[0]] + rest[1..]
  }

  predicate OneLine(s: string) {
    forall c :: c in s ==> !IsBreak(c)
  }

  /** One line break: a carriage return with the line feed after it, or one character. */
  predicate IsNewline(s: string) {
    s == "\r\n" || (|s| == 1 && s[0] in BREAKS)
  }

  lemma SplitAtNewline(newline: string, rest: string)
    requires IsNewline(newline) && (newline == "\r" ==> rest == [] || rest[0] != '\n')
    ensures SplitLines(newline + rest) == [""] + SplitLines(rest)
  {
    PythonCharacters(newline[0]);
    hide IsBreak;
    assert (newline + rest)[|newline|..] == rest;
  }

  /** A line ends at the first break, whichever it is. */
  lemma {:induction false} SplitFirstLine(line: string, newline: string, rest: string)
    requires OneLine(line) && IsNewline(newline)
    requires newline == "\r" ==> rest == [] || rest[0] != '\n'
    ensures SplitLines(line + newline + rest) == [line] + SplitLines(rest)
  {
    var s := line + newline + rest;
    if line == [] {
      assert s == newline + rest;
      SplitAtNewline(newline, rest);
    } else {
      assert s[0] in line && !IsBreak(s[0]);
      assert s[1..] == line[1..] + newline + rest;
      SplitFirstLine(line[1..], newline, rest);
      assert [line[0]] + line[1..] == line;
    }
  }

  lemma {:induction false} SplitLastLine(line: string)
    requires OneLine(line) && line != []
    ensures SplitLines(line) == [line]
  {
    assert line[0] in line;
    if |line| > 1 {
      SplitLastLine(line[1..]);
      assert [line[0]] + line[1..] == line;
    } else {
      assert line[1..] == [] && line == [line[0]];
    }
  }

  // ---- the script ---------------------------------------------------------------------------

  predicate IsHeader(line: string) {
    HasPrefix(line, "-----")
  }

  function BodyLines(lines: seq<string>): seq<string> {
    if lines == [] then []
    else (if IsHeader(lines[0]) then [] else [lines[0]]) + BodyLines(lines[1..])
  }

  /** Exactly the lines that do not start with five hyphens are kept, in their order. */
  lemma {:induction false} BodyLinesAre(a: seq<string>, line: string)
    ensures BodyLines(a + [line]) == if "-----" <= line then BodyLines(a) else BodyLines(a) + [line]
  {
    if a == [] {
      assert a + [line] == [line] && [line][1..] == [];
    } else {
      assert (a + [line])[1..] == a[1..] + [line];
      BodyLinesAre(a[1..], line);
    }
  }

  /** "".join(lines). */
  function Concat(lines: seq<string>): string {
    if lines == [] then "" else lines[0] + Concat(lines[1..])
  }

  /** Each line is put after the ones before it, with nothing in between. */
  lemma {:induction false} ConcatAppends(lines: seq<string>, line: string)
    ensures Concat(lines + [line]) == Concat(lines) + line
  {
    if lines == [] {
      assert lines + [line] == [line] && [line][1..] == [];
    } else {
      assert (lines + [line])[1..] == lines[1..] + [line];
      ConcatAppends(lines[1..], line);
    }
  }

  datatype Jwk = Jwk(kty: string, use: string, alg: string, kid: string, n: string, e: string)

  /** pem_to_jwks, for any digest function; None is an exception. */
  function PemToJwk(pem: string, sha256: seq<Byte> -> seq<Byte>): Option<Jwk> {
    var der := Decode(Concat(BodyLines(SplitLines(Strip(pem)))));
    if der.None? then None
    else
      var key := ParsedKey(der.value);
      if key.None? then None
      else
        var (n, e) := key.value;
        Some(Jwk("RSA", "sig", "RS256", Base64Url(sha256(der.value)), Base64Url(n), Base64Url(e)))
  }

  // ---- PEM files ------------------------------------------------------------------------------

  /** The lines, each followed by the line break. */
  function Lines(lines: seq<string>, newline: string): string {
    if lines == [] then "" else lines[0] + newline + Lines(lines[1..], newline)
  }

  /** A header line, the base64 text of the key cut into lines anywhere, and a footer line. */
  function Wrap(header: string, body: seq<string>, footer: string, newline: string): string {
    Lines([header] + body, newline) + footer
  }

  ghost predicate IsPem(header: string, body: seq<string>, footer: string, newline: string, der: seq<Byte>) {
    && IsNewline(newline) && Concat(body) == Encode(der)
    && "-----" <= header && OneLine(header) && "-----" <= footer && OneLine(footer)
    && !PythonSpace(footer[|footer| - 1])
  }

  lemma {:induction false} StripWhitespace(before: string, text: string, after: string)
    requires (forall c :: c in before ==> PythonSpace(c)) && forall c :: c in after ==> PythonSpace(c)
    requires text != [] && !PythonSpace(text[0]) && !PythonSpace(text[|text| - 1])
    ensures Strip(before + text + after) == text
  {
    LStripWhitespace(before, text + after);
    assert before + text + after == before + (text + after);
    RStripWhitespace(text, after);
  }

  lemma {:induction false} LStripWhitespace(before: string, text: string)
    requires (forall c :: c in before ==> PythonSpace(c)) && text != [] && !PythonSpace(text[0])
    ensures LStrip(before + text) == text
  {
    if before == [] {
      assert before + text == text;
    } else {
      assert before[0] in before;
      assert (before + text)[1..] == before[1..] + text;
      LStripWhitespace(before[1..], text);
    }
  }

  lemma {:induction false} RStripWhitespace(text: string, after: string)
    requires (forall c :: c in after ==> PythonSpace(c)) && text != [] && !PythonSpace(text[|text| - 1])
    ensures RStrip(text + after) == text
  {
    if after == [] {
      assert text + after == text;
    } else {
      assert after[|after| - 1] in after;
      assert (text + after)[..|text + after| - 1] == text + after[..|after| - 1];
      RStripWhitespace(text, after[..|after| - 1]);
    }
  }

  /** A character of base64 text: neither a line break nor a hyphen. */
  predicate BodyCharacter(c: char) {
    !IsBreak(c) && c != '-'
  }

  lemma EncodedCharacters(b: seq<Byte>)
    ensures forall c :: c in Encode(b) ==> BodyCharacter(c)
  {
  }

  lemma {:induction false} LineCharacters(lines: seq<string>, i: nat)
    requires i < |lines|
    ensures forall c :: c in lines[i] ==> c in Concat(lines)
  {
    if i > 0 { LineCharacters(lines[1..], i - 1); }
  }

  lemma StartOfLine(line: string)
    requires OneLine(line) && line != []
    ensures line[0] != '\n'
  {
    assert line[0] in line;
  }

  lemma StartOfLines(lines: seq<string>, footer: string)
    requires (forall i :: 0 <= i < |lines| ==> OneLine(lines[i])) && OneLine(footer) && footer != []
    ensures (Lines(lines, "\r") + footer)[0] != '\n'
  {
    hide OneLine;
    if lines == [] {
      StartOfLine(footer);
    } else if lines[0] != [] {
      StartOfLine(lines[0]);
    }
  }

  /** Splitting gives back the lines that were joined. */
  lemma {:induction false} SplitLinesOf(lines: seq<string>, footer: string, newline: string)
    requires IsNewline(newline) && forall i :: 0 <= i < |lines| ==> OneLine(lines[i])
    requires OneLine(footer) && footer != []
    ensures SplitLines(Lines(lines, newline) + footer) == lines + [footer]
  {
    hide SplitLines;
    if lines == [] {
      SplitLastLine(footer);
      assert "" + footer == footer;
    } else {
      var rest := Lines(lines[1..], newline) + footer;
      assert Lines(lines, newline) + footer == lines[0] + newline + rest;
      if newline == "\r" { StartOfLines(lines[1..], footer); }
      SplitFirstLine(lines[0], newline, rest);
      SplitLinesOf(lines[1..], footer, newline);
      assert [lines[0]] + (lines[1..] + [footer]) == lines + [footer];
    }
  }

  /** No line of base64 text is taken for a header, wherever it is cut. */
  lemma {:induction false} BodyIsKept(body: seq<string>, footer: string)
    requires (forall c :: c in Concat(body) ==> c != '-') && IsHeader(footer)
    ensures BodyLines(body + [footer]) == body
  {
    if body == [] {
      assert [] + [footer] == [footer];
    } else {
      assert IsHeader(body[0]) ==> body[0][0] == '-' && body[0][0] in Concat(body);
      assert forall c :: c in Concat(body[1..]) ==> c in Concat(body);
      BodyIsKept(body[1..], footer);
      assert (body + [footer])[1..] == body[1..] + [footer];
    }
  }

  lemma PemText(header: string, body: seq<string>, footer: string, newline: string, der: seq<Byte>)
    requires IsPem(header, body, footer, newline, der)
    ensures SplitLines(Wrap(header, body, footer, newline)) == [header] + body + [footer]
    ensures BodyLines([header] + body + [footer]) == body
  {
    hide SplitLines, IsBreak, Encode;
    EncodedCharacters(der);
    var lines := [header] + body;
    forall i | 0 <= i < |lines| ensures OneLine(lines[i]) {
      if i > 0 { LineCharacters(body, i - 1); }
    }
    SplitLinesOf(lines, footer, newline);
    BodyIsKept(body, footer);
    assert ([header] + body + [footer])[1..] == body + [footer];
  }

  /** The text of a PEM file is what is left after stripping it. */
  lemma WrapIsTrimmed(header: string, body: seq<string>, footer: string, newline: string)
    requires "-----" <= header && "-----" <= footer && !PythonSpace(footer[|footer| - 1])
    ensures var text := Wrap(header, body, footer, newline);
            text != [] && !PythonSpace(text[0]) && !PythonSpace(text[|text| - 1])
  {
  }

  /** The script decodes exactly the wrapped octets, wherever the text is cut into lines. */
  lemma PemDecodes(before: string, header: string, body: seq<string>, footer: string, newline: string, after: string,
                   der: seq<Byte>)
    requires IsPem(header, body, footer, newline, der)
    requires (forall c :: c in before ==> PythonSpace(c)) && forall c :: c in after ==> PythonSpace(c)
    ensures var pem := before + Wrap(header, body, footer, newline) + after;
            Decode(Concat(BodyLines(SplitLines(Strip(pem))))) == Some(der)
  {
    hide Wrap, Strip, SplitLines, BodyLines, Decode, Encode, PythonSpace;
    WrapIsTrimmed(header, body, footer, newline);
    StripWhitespace(before, Wrap(header, body, footer, newline), after);
    PemText(header, body, footer, newline, der);
    DecodeUndoesEncode(der);
  }

  /** What the fields of a JWK say about the key: unpadded base64url of the shortest
      big-endian octets (sections 2 and 6.3.1 of RFC 7518), and of the key's digest. */
  ghost predicate Describes(jwk: Jwk, n: nat, e: nat, digest: seq<Byte>) {
    && UrlDecode(jwk.n).Some? && FromBigEndian(UrlDecode(jwk.n).value) == n
    && UrlDecode(jwk.e).Some? && FromBigEndian(UrlDecode(jwk.e).value) == e
    && (n > 0 ==> UrlDecode(jwk.n).value != [] && UrlDecode(jwk.n).value[0] != 0)
    && (e > 0 ==> UrlDecode(jwk.e).value != [] && UrlDecode(jwk.e).value[0] != 0)
    && UrlDecode(jwk.kid) == Some(digest) && jwk.kty == "RSA" && jwk.alg == "RS256" && jwk.use == "sig"
  }

  /** Value preservation, from the PEM file to the JWK: for every algorithm identifier and
      all numbers whose lengths DER can state, however the base64 text is cut into lines,
      whichever line break is used and whatever whitespace surrounds the file. */
  lemma JwkDescribesTheKey(before: string, header: string, body: seq<string>, footer: string, newline: string,
                           after: string,
                           algorithm: seq<Byte>, n: nat, e: nat, sha256: seq<Byte> -> seq<Byte>)
    requires Fits(algorithm, n, e) && IsPem(header, body, footer, newline, SubjectPublicKeyInfo(algorithm, n, e))
    requires (forall c :: c in before ==> PythonSpace(c)) && forall c :: c in after ==> PythonSpace(c)
    ensures var jwk := PemToJwk(before + Wrap(header, body, footer, newline) + after, sha256);
            jwk.Some? && Describes(jwk.value, n, e, sha256(SubjectPublicKeyInfo(algorithm, n, e)))
  {
    hide Wrap, Strip, SplitLines, BodyLines, Decode, PythonSpace, SubjectPublicKeyInfo, Fits, ParsedKey,
         Base64Url, UrlDecode, BigEndian, FromBigEndian, IsPem;
    var der := SubjectPublicKeyInfo(algorithm, n, e);
    PemDecodes(before, header, body, footer, newline, after, der);
    KeyReadBack(algorithm, n, e, []);
    assert der + [] == der;
    BigEndianIsMinimal(n);
    BigEndianIsMinimal(e);
    UrlDecodeUndoesBase64Url(BigEndian(n));
    UrlDecodeUndoesBase64Url(BigEndian(e));
    UrlDecodeUndoesBase64Url(sha256(der));
  }
}
