/** The string functions of the Go standard library the controller uses. */
module GoStrings {
  import opened Wrappers

  // ---- strings.ToLower, on the characters that can occur in a UUID ----------

  function LowerChar(c: char): char {
    if 'A' <= c <= 'Z' then (c as int + 32) as char else c
  }

  function ToLower(s: string): string {
    seq(|s|, i requires 0 <= i < |s| => LowerChar(s[i]))
  }

  const UPPER_CASE := "ABCDEFGHIJKLMNOPQRSTUVWXYZ"
  const LOWER_CASE := "abcdefghijklmnopqrstuvwxyz"

  /** Each letter of the upper-case alphabet becomes the one in its place in the lower-case
      alphabet, and every other ASCII character stays as it is. */
  lemma ToLowerByLetter(s: string, i: nat)
    requires i < |s|
    ensures |ToLower(s)| == |s|
    ensures forall j :: 0 <= j < 26 && s[i] == UPPER_CASE[j] ==> ToLower(s)[i] == LOWER_CASE[j]
    ensures s[i] < '\U{80}' && s[i] !in UPPER_CASE ==> ToLower(s)[i] == s[i]
  {
    UpperCaseLetters();
  }

  lemma UpperCaseLetters()
    ensures forall j :: 0 <= j < 26 ==> UPPER_CASE[j] as int == 'A' as int + j && LOWER_CASE[j] as int == 'a' as int + j
    ensures forall c :: 'A' <= c <= 'Z' ==> c in UPPER_CASE
  {
    forall c | 'A' <= c <= 'Z' ensures c in UPPER_CASE {
      assert UPPER_CASE[c as int - 'A' as int] == c;
    }
  }

  /** strings.HasPrefix and strings.HasSuffix. */
  predicate HasPrefix(s: string, prefix: string) {
    prefix <= s
  }

  predicate HasSuffix(s: string, suffix: string) {
    |suffix| <= |s| && s[|s| - |suffix|..] == suffix
  }

  predicate IsLowerHex(c: char) {
    'a' <= c <= 'f' || '0' <= c <= '9'
  }

  /** isValidAzureUUID: the 8-4-4-4-12 form, in either case. */
  predicate IsValidAzureUuid(s: string) {
    && |s| == 36
    && forall i :: 0 <= i < 36 ==>
      if i == 8 || i == 13 || i == 18 || i == 23 then LowerChar(s[i]) == '-'
      else IsLowerHex(LowerChar(s[i]))
  }

  lemma PrefixAndSuffix(s: string, t: string)
    ensures HasPrefix(s, t) <==> exists rest: string :: s == t + rest
    ensures HasSuffix(s, t) <==> exists rest: string :: s == rest + t
  {
    if HasPrefix(s, t) { assert s == t + s[|t|..]; }
    if HasSuffix(s, t) { assert s == s[..|s| - |t|] + t; }
  }

  const HEX_DIGITS := "0123456789abcdefABCDEF"

  /** The form character by character: hyphens in four places, hexadecimal digits elsewhere. */
  lemma UuidForm(s: string)
    ensures IsValidAzureUuid(s)
            <==> && |s| == 36 && s[8] == '-' && s[13] == '-' && s[18] == '-' && s[23] == '-'
                 && forall i :: 0 <= i < 36 && i !in {8, 13, 18, 23} ==> s[i] in HEX_DIGITS
  {
    hide LowerChar, IsLowerHex;
    forall c ensures (c in HEX_DIGITS <==> IsLowerHex(LowerChar(c))) && (c == '-' <==> LowerChar(c) == '-') {
      HexDigit(c);
    }
  }

  lemma HexDigit(c: char)
    ensures c in HEX_DIGITS <==> IsLowerHex(LowerChar(c))
    ensures c == '-' <==> LowerChar(c) == '-'
  {
    HexDigitsAre();
    var d := HEX_DIGITS;
    assert '0' <= c <= '9' ==> d[c as int - '0' as int] == c;
    assert 'a' <= c <= 'f' ==> d[c as int - 'a' as int + 10] == c;
    assert 'A' <= c <= 'F' ==> d[c as int - 'A' as int + 16] == c;
  }

  lemma HexDigitsAre()
    ensures |HEX_DIGITS| == 22
    ensures forall k :: 0 <= k < 10 ==> HEX_DIGITS[k] as int == '0' as int + k
    ensures forall k :: 10 <= k < 16 ==> HEX_DIGITS[k] as int == 'a' as int + k - 10
    ensures forall k :: 16 <= k < 22 ==> HEX_DIGITS[k] as int == 'A' as int + k - 16
  {
  }

  /** Writing one letter of a valid name in the other case leaves it valid. */
  lemma CaseOfLetter(s: string, i: nat, j: nat)
    requires IsValidAzureUuid(s) && i < |s| && j < 26
    ensures s[i] == UPPER_CASE[j] ==> IsValidAzureUuid(s[i := LOWER_CASE[j]])
    ensures s[i] == LOWER_CASE[j] ==> IsValidAzureUuid(s[i := UPPER_CASE[j]])
  {
    hide ToLower, IsValidAzureUuid;
    UpperCaseLetters();
    if s[i] == UPPER_CASE[j] { SameLowered(s, i, LOWER_CASE[j]); }
    if s[i] == LOWER_CASE[j] { SameLowered(s, i, UPPER_CASE[j]); }
  }

  lemma SameLowered(s: string, i: nat, c: char)
    requires i < |s| && LowerChar(s[i]) == LowerChar(c)
    ensures IsValidAzureUuid(s) <==> IsValidAzureUuid(s[i := c])
  {
    assert ToLower(s) == ToLower(s[i := c]);
    UuidIgnoresCase(s, s[i := c]);
  }

  /** No valid UUID starts with either prefix Kubernetes reserves, so the two
      explicit prefix checks never drop what the UUID check would keep. */
  lemma ReservedPrefixesAreNotUuids(s: string)
    requires IsValidAzureUuid(s)
    ensures !HasPrefix(s, "system:") && !HasPrefix(s, "kubeadm:")
  {
    assert IsLowerHex(LowerChar(s[0]));
  }

  lemma UuidIgnoresCase(s: string, t: string)
    requires ToLower(s) == ToLower(t)
    ensures IsValidAzureUuid(s) <==> IsValidAzureUuid(t)
  {
    assert |s| == |ToLower(s)| == |ToLower(t)| == |t|;
    assert forall i | 0 <= i < |s| :: LowerChar(s[i]) == ToLower(s)[i] == ToLower(t)[i] == LowerChar(t[i]);
  }

  // ---- uuid.Parse, and String of the result ------------------------------------

  predicate IsHexText(s: string) {
    forall i :: 0 <= i < |s| ==> IsLowerHex(LowerChar(s[i]))
  }

  function Hyphenated(s: string): (id: string)
    requires |s| == 32
    ensures |id| == 36 && id[8] == id[13] == id[18] == id[23] == '-'
    ensures (forall i :: 0 <= i < 8 ==> id[i] == s[i]) && forall i :: 9 <= i < 13 ==> id[i] == s[i - 1]
    ensures (forall i :: 14 <= i < 18 ==> id[i] == s[i - 2]) && forall i :: 19 <= i < 23 ==> id[i] == s[i - 3]
    ensures forall i :: 24 <= i < 36 ==> id[i] == s[i - 4]
  {
    s[..8] + "-" + s[8..12] + "-" + s[12..16] + "-" + s[16..20] + "-" + s[20..]
  }

  /** What uuid.Parse makes of a text: besides the hyphenated form it takes a URN, any two
      ASCII characters around that form, and 32 hexadecimal digits. */
  function ParsedUuid(s: string): Option<string> {
    if IsValidAzureUuid(s) then Some(ToLower(s))
    else if |s| == 45 && ToLower(s[..9]) == "urn:uuid:" && IsValidAzureUuid(s[9..]) then Some(ToLower(s[9..]))
    else if |s| == 38 && s[0] < '\U{80}' && s[37] < '\U{80}' && IsValidAzureUuid(s[1..37]) then Some(ToLower(s[1..37]))
    else if |s| == 32 && IsHexText(s) then
      Some(ToLower(Hyphenated(s)))
    else None
  }

  predicate IsUuid(s: string) {
    ParsedUuid(s).Some?
  }

  /** Every form stands for one lower-case hyphenated UUID, which stands for itself. */
  lemma ParsedUuidIsCanonical(s: string)
    requires IsUuid(s)
    ensures var id := ParsedUuid(s).value; IsValidAzureUuid(id) && ToLower(id) == id && ParsedUuid(id) == Some(id)
  {
    hide ToLower, IsValidAzureUuid;
    if IsValidAzureUuid(s) {
      LowerUuid(s);
    } else if |s| == 45 {
      LowerUuid(s[9..]);
    } else if |s| == 38 {
      LowerUuid(s[1..37]);
    } else {
      HyphenatedIsUuid(s);
      LowerUuid(Hyphenated(s));
    }
  }

  /** The 32 digits of a hyphenated UUID. */
  function Compact(id: string): (s: string)
    requires |id| == 36
    ensures |s| == 32
    ensures (forall i :: 0 <= i < 8 ==> s[i] == id[i]) && forall i :: 8 <= i < 12 ==> s[i] == id[i + 1]
    ensures (forall i :: 12 <= i < 16 ==> s[i] == id[i + 2]) && forall i :: 16 <= i < 20 ==> s[i] == id[i + 3]
    ensures forall i :: 20 <= i < 32 ==> s[i] == id[i + 4]
  {
    id[..8] + id[9..13] + id[14..18] + id[19..23] + id[24..]
  }

  /** In either case: the UUID itself, a URN of it, the UUID between two ASCII characters, or
      its digits. */
  ghost predicate StandsFor(s: string, id: string)
    requires |id| == 36
  {
    || ToLower(s) == id || ToLower(s) == Compact(id)
    || (exists urn: string, t: string :: s == urn + t && ToLower(urn) == "urn:uuid:" && ToLower(t) == id)
    || (exists a: char, t: string, b: char :: s == [a] + t + [b] && a < '\U{80}' && b < '\U{80}' && ToLower(t) == id)
  }

  /** Exactly which texts uuid.Parse accepts, and what it makes of each. */
  lemma ParsedUuidIff(s: string, id: string)
    ensures ParsedUuid(s) == Some(id)
            <==> |id| == 36 && IsValidAzureUuid(id) && ToLower(id) == id && StandsFor(s, id)
  {
    hide ToLower, IsValidAzureUuid, IsHexText, LowerChar, StandsFor, ParsedUuid;
    if ParsedUuid(s) == Some(id) {
      IsUuidHasValue(s);
      ParsedUuidIsCanonical(s);
      UuidForm(id);
      ParsedStandsFor(s, id);
    }
    if |id| == 36 && IsValidAzureUuid(id) && ToLower(id) == id && StandsFor(s, id) { StandsForParses(s, id); }
  }

  lemma IsUuidHasValue(s: string)
    ensures IsUuid(s) <==> ParsedUuid(s).Some?
  {
  }

  lemma ParsedStandsFor(s: string, id: string)
    requires ParsedUuid(s) == Some(id) && |id| == 36
    ensures StandsFor(s, id)
  {
    hide IsValidAzureUuid, IsHexText, LowerChar, Hyphenated, Compact;
    if IsValidAzureUuid(s) {
    } else if |s| == 45 && ToLower(s[..9]) == "urn:uuid:" && IsValidAzureUuid(s[9..]) {
      assert s == s[..9] + s[9..];
    } else if |s| == 38 {
      assert s == [s[0]] + s[1..37] + [s[37]];
    } else {
      assert ToLower(s) == Compact(ToLower(Hyphenated(s)));
    }
  }

  lemma StandsForParses(s: string, id: string)
    requires |id| == 36 && IsValidAzureUuid(id) && ToLower(id) == id && StandsFor(s, id)
    ensures ParsedUuid(s) == Some(id)
  {
    hide IsValidAzureUuid, IsHexText, LowerChar, Hyphenated, Compact;
    if ToLower(s) == id {
      UuidIgnoresCase(s, id);
    } else if ToLower(s) == Compact(id) {
      CompactParses(s, id);
    } else if urn: string, t: string :| s == urn + t && ToLower(urn) == "urn:uuid:" && ToLower(t) == id {
      UuidIgnoresCase(t, id);
      assert |urn| == |ToLower(urn)| == 9;
      UuidForm(s);
      assert s[..9] == urn && s[9..] == t;
    } else {
      var a: char, t: string, b: char :| s == [a] + t + [b] && a < '\U{80}' && b < '\U{80}' && ToLower(t) == id;
      UuidIgnoresCase(t, id);
      UuidForm(s);
      assert s[1..37] == t;
    }
  }

  lemma CompactParses(s: string, id: string)
    requires |id| == 36 && IsValidAzureUuid(id) && ToLower(id) == id && ToLower(s) == Compact(id)
    ensures ParsedUuid(s) == Some(id)
  {
    hide LowerChar, Hyphenated, Compact, IsValidAzureUuid, IsHexText;
    CompactIsHex(s, id);
    UuidForm(s);
    UuidForm(id);
    assert LowerChar('-') == '-' by { HexDigit('-'); }
    var h := Hyphenated(s);
    assert |s| == 32 && forall j :: 0 <= j < 32 ==> LowerChar(s[j]) == ToLower(s)[j] == Compact(id)[j];
    forall i | 0 <= i < 36 ensures LowerChar(h[i]) == id[i] {
      assert 8 < i < 13 ==> h[i] == s[i - 1] && Compact(id)[i - 1] == id[i];
      assert 13 < i < 18 ==> h[i] == s[i - 2] && Compact(id)[i - 2] == id[i];
      assert 18 < i < 23 ==> h[i] == s[i - 3] && Compact(id)[i - 3] == id[i];
      assert 23 < i ==> h[i] == s[i - 4] && Compact(id)[i - 4] == id[i];
    }
    assert ToLower(h) == id;
  }

  lemma CompactIsHex(s: string, id: string)
    requires |id| == 36 && IsValidAzureUuid(id) && ToLower(id) == id && ToLower(s) == Compact(id)
    ensures IsHexText(s) && |s| == 32
  {
    hide IsLowerHex, LowerChar, Compact;
    assert |s| == |ToLower(s)|;
    assert forall i :: 0 <= i < 36 ==> LowerChar(id[i]) == ToLower(id)[i] == id[i];
    assert forall i :: 0 <= i < 32 ==> LowerChar(s[i]) == ToLower(s)[i] == Compact(id)[i];
  }

  lemma LowerUuid(s: string)
    requires IsValidAzureUuid(s)
    ensures IsValidAzureUuid(ToLower(s)) && ToLower(ToLower(s)) == ToLower(s)
  {
    assert forall i | 0 <= i < |s| :: ToLower(ToLower(s))[i] == ToLower(s)[i];
  }

  lemma HyphenatedIsUuid(s: string)
    requires |s| == 32 && IsHexText(s)
    ensures IsValidAzureUuid(Hyphenated(s))
  {
    hide IsLowerHex, Hyphenated;
  }

  // ---- strings.TrimSpace -------------------------------------------------------

  /** unicode.IsSpace. */
  predicate IsSpace(c: char) {
    '\t' <= c <= '\r' || c == ' ' || c == '\U{85}' || c == '\U{A0}' || c == '\U{1680}' || '\U{2000}' <= c <= '\U{200A}'
    || c == '\U{2028}' || c == '\U{2029}' || c == '\U{202F}' || c == '\U{205F}' || c == '\U{3000}'
  }

  function TrimLeft(s: string): string {
    if s != [] && IsSpace(s[0]) then TrimLeft(s[1..]) else s
  }

  function TrimRight(s: string): string {
    if s != [] && IsSpace(s[|s| - 1]) then TrimRight(s[..|s| - 1]) else s
  }

  function TrimSpace(s: string): string {
    TrimRight(TrimLeft(s))
  }

  /** Nothing is left to trim at either end. */
  predicate Trimmed(s: string) {
    s == [] || (!IsSpace(s[0]) && !IsSpace(s[|s| - 1]))
  }

  lemma {:induction false} TrimLeftWorks(s: string)
    ensures TrimLeft(s) == [] || !IsSpace(TrimLeft(s)[0])
    ensures exists i :: 0 <= i <= |s| && TrimLeft(s) == s[i..]
  {
    if s != [] && IsSpace(s[0]) {
      TrimLeftWorks(s[1..]);
      var i :| 0 <= i <= |s[1..]| && TrimLeft(s[1..]) == s[1..][i..];
      assert s[1..][i..] == s[i + 1..];
    } else {
      assert s == s[0..];
    }
  }

  lemma {:induction false} TrimRightWorks(s: string)
    ensures TrimRight(s) == [] || !IsSpace(TrimRight(s)[|TrimRight(s)| - 1])
    ensures TrimRight(s) <= s
  {
    if s != [] && IsSpace(s[|s| - 1]) { TrimRightWorks(s[..|s| - 1]); }
  }

  lemma TrimSpaceTrims(s: string)
    ensures Trimmed(TrimSpace(s))
    ensures forall c :: c in TrimSpace(s) ==> c in s
  {
    hide TrimLeft, TrimRight, IsSpace;
    TrimLeftWorks(s);
    TrimRightWorks(TrimLeft(s));
    var left := TrimLeft(s);
    var i :| 0 <= i <= |s| && left == s[i..];
    assert TrimSpace(s) == left[..|TrimSpace(s)|];
    if TrimSpace(s) != [] { assert TrimSpace(s)[0] == left[0]; }
  }

  lemma TrimSpaceOfTrimmed(s: string)
    requires Trimmed(s)
    ensures TrimSpace(s) == s
  {
  }

  const SPACES := "\t\n\U{0B}\U{0C}\r \U{85}\U{A0}\U{1680}\U{2000}\U{2001}\U{2002}\U{2003}\U{2004}\U{2005}\U{2006}"
    + "\U{2007}\U{2008}\U{2009}\U{200A}\U{2028}\U{2029}\U{202F}\U{205F}\U{3000}"

  predicate AllIn(s: string, characters: string) {
    forall c :: c in s ==> c in characters
  }

  lemma SpacesAre(c: char)
    ensures IsSpace(c) <==> c in SPACES
  {
    var s := SPACES;
    assert '\t' <= c <= '\r' ==> s[c as int - '\t' as int] == c;
    assert '\U{2000}' <= c <= '\U{200A}' ==> s[c as int - '\U{2000}' as int + 9] == c;
    assert s[5] == ' ' && s[6] == '\U{85}' && s[7] == '\U{A0}' && s[8] == '\U{1680}';
    assert s[20] == '\U{2028}' && s[21] == '\U{2029}' && s[22] == '\U{202F}' && s[23] == '\U{205F}';
    assert s[24] == '\U{3000}';
  }

  lemma {:induction false} TrimLeftSpaces(a: string, s: string)
    requires AllIn(a, SPACES)
    ensures TrimLeft(a + s) == TrimLeft(s)
  {
    hide IsSpace;
    if a == [] {
      assert a + s == s;
    } else {
      SpacesAre(a[0]);
      assert (a + s)[1..] == a[1..] + s;
      TrimLeftSpaces(a[1..], s);
    }
  }

  lemma {:induction false} TrimRightSpaces(s: string, b: string)
    requires AllIn(b, SPACES)
    ensures TrimRight(s + b) == TrimRight(s)
  {
    hide IsSpace;
    if b == [] {
      assert s + b == s;
    } else {
      SpacesAre(b[|b| - 1]);
      assert (s + b)[..|s + b| - 1] == s + b[..|b| - 1];
      TrimRightSpaces(s, b[..|b| - 1]);
    }
  }

  lemma {:induction false} TrimLeftDrops(s: string) returns (a: string)
    ensures AllIn(a, SPACES) && s == a + TrimLeft(s)
  {
    hide IsSpace;
    a := "";
    if s != [] && IsSpace(s[0]) {
      SpacesAre(s[0]);
      var rest := TrimLeftDrops(s[1..]);
      a := [s[0]] + rest;
    }
  }

  lemma {:induction false} TrimRightDrops(s: string) returns (b: string)
    ensures AllIn(b, SPACES) && s == TrimRight(s) + b
  {
    hide IsSpace;
    b := "";
    if s != [] && IsSpace(s[|s| - 1]) {
      SpacesAre(s[|s| - 1]);
      var rest := TrimRightDrops(s[..|s| - 1]);
      b := rest + [s[|s| - 1]];
    }
  }

  /** Exactly what trimming leaves: what is between the spaces at both ends. */
  lemma TrimSpaceIff(s: string, t: string)
    ensures TrimSpace(s) == t
            <==> && (t == "" || (t[0] !in SPACES && t[|t| - 1] !in SPACES))
                 && exists a, b :: s == a + t + b && AllIn(a, SPACES) && AllIn(b, SPACES)
  {
    hide IsSpace, TrimLeft, TrimRight;
    if TrimSpace(s) == t {
      TrimSpaceTrims(s);
      var a := TrimLeftDrops(s);
      var b := TrimRightDrops(TrimLeft(s));
      assert s == a + t + b;
    }
    if t != "" {
      SpacesAre(t[0]);
      SpacesAre(t[|t| - 1]);
    }
    if && (t == "" || (t[0] !in SPACES && t[|t| - 1] !in SPACES))
       && exists a, b :: s == a + t + b && AllIn(a, SPACES) && AllIn(b, SPACES)
    {
      var a, b :| s == a + t + b && AllIn(a, SPACES) && AllIn(b, SPACES);
      TrimBetween(a, t, b);
    }
  }

  lemma TrimBetween(a: string, t: string, b: string)
    requires AllIn(a, SPACES) && AllIn(b, SPACES) && Trimmed(t)
    ensures TrimSpace(a + t + b) == t
  {
    hide IsSpace, TrimLeft, TrimRight, TrimSpace;
    if t == "" {
      TrimNothing(a, b);
    } else {
      TrimSomething(a, t, b);
    }
  }

  lemma TrimNothing(a: string, b: string)
    requires AllIn(a, SPACES) && AllIn(b, SPACES)
    ensures TrimSpace(a + "" + b) == ""
  {
    hide IsSpace;
    assert a + "" + b == (a + b) + "" && AllIn(a + b, SPACES);
    TrimLeftSpaces(a + b, "");
  }

  lemma TrimSomething(a: string, t: string, b: string)
    requires AllIn(a, SPACES) && AllIn(b, SPACES) && Trimmed(t) && t != ""
    ensures TrimSpace(a + t + b) == t
  {
    hide IsSpace;
    assert a + t + b == a + (t + b);
    TrimLeftSpaces(a, t + b);
    assert TrimLeft(t + b) == t + b;
    TrimRightSpaces(t, b);
  }
}
