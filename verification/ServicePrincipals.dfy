/** parseServicePrincipals of cmd/main.go: a comma-separated list in canonical form. */
module ServicePrincipals {
  import opened Wrappers
  import opened GoStrings

  // ---- strings.Split and strings.Join on "," ------------------------------------------

  function Split(s: string): (parts: seq<string>)
    ensures |parts| > 0
  {
    if s == [] then [""]
    else
      var rest := Split(s[1..]);
      if s[0] == ',' then [""] + rest else [[s[0]] + rest[0]] + rest[1..]
  }

  function Join(parts: seq<string>): string {
    if parts == [] then ""
    else if |parts| == 1 then parts[0]
    else parts[0] + "," + Join(parts[1..])
  }

  lemma {:induction false} SplitFirst(a: string, rest: string)
    requires ',' !in a
    ensures Split(a) == [a]
    ensures Split(a + "," + rest) == [a] + Split(rest)
  {
    if a == [] {
      assert a + "," + rest == [','] + rest;
      assert ([','] + rest)[1..] == rest;
    } else {
      SplitFirst(a[1..], rest);
      assert (a + "," + rest)[1..] == a[1..] + "," + rest;
      assert [a[0]] + a[1..] == a;
    }
  }

  lemma {:induction false} SplitUndoesJoin(parts: seq<string>)
    requires parts != [] && forall p :: p in parts ==> ',' !in p
    ensures Split(Join(parts)) == parts
  {
    hide Split;
    if |parts| == 1 {
      SplitFirst(parts[0], "");
    } else {
      SplitUndoesJoin(parts[1..]);
      SplitFirst(parts[0], Join(parts[1..]));
      assert parts == [parts[0]] + parts[1..];
    }
  }

  lemma {:induction false} SplitHasNoCommas(s: string)
    ensures forall p :: p in Split(s) ==> ',' !in p
  {
    if s != [] {
      SplitHasNoCommas(s[1..]);
      var rest := Split(s[1..]);
      assert ',' !in rest[0];
      forall p | p in Split(s) ensures ',' !in p {
        if s[0] != ',' && p != [s[0]] + rest[0] { assert p in rest[1..]; }
      }
    }
  }

  // ---- sort.Strings -----------------------------------------------------------------

  /** Byte order, which for UTF-8 strings is the order of their characters. */
  predicate Less(a: string, b: string) {
    b != [] && (a == [] || a[0] < b[0] || (a[0] == b[0] && Less(a[1..], b[1..])))
  }

  lemma {:induction false} LessIsTotal(a: string, b: string)
    ensures a == b || Less(a, b) || Less(b, a)
    ensures !(Less(a, b) && Less(b, a)) && !Less(a, a)
  {
    if a != [] && b != [] {
      LessIsTotal(a[1..], b[1..]);
      assert a == [a[0]] + a[1..] && b == [b[0]] + b[1..];
    }
    if a != [] { LessIsTotal(a[1..], a[1..]); }
  }

  lemma {:induction false} LessIsTransitive(a: string, b: string, c: string)
    requires Less(a, b) && Less(b, c)
    ensures Less(a, c)
  {
    if a != [] && a[0] == b[0] == c[0] { LessIsTransitive(a[1..], b[1..], c[1..]); }
  }

  /** Where two texts first differ decides; a text that only ends earlier comes first. */
  lemma {:induction false} LessIff(a: string, b: string)
    ensures Less(a, b)
            <==> exists k: nat :: k <= |a| && k < |b| && a[..k] == b[..k] && (k == |a| || a[k] < b[k])
  {
    if Less(a, b) {
      var k := FirstDifference(a, b);
    }
    if k: nat :| k <= |a| && k < |b| && a[..k] == b[..k] && (k == |a| || a[k] < b[k]) { DifferenceDecides(a, b, k); }
  }

  lemma {:induction false} FirstDifference(a: string, b: string) returns (k: nat)
    requires Less(a, b)
    ensures k <= |a| && k < |b| && a[..k] == b[..k] && (k == |a| || a[k] < b[k])
  {
    k := 0;
    if a != [] && a[0] == b[0] {
      var rest := FirstDifference(a[1..], b[1..]);
      k := rest + 1;
      assert a[..k] == [a[0]] + a[1..][..rest] && b[..k] == [b[0]] + b[1..][..rest];
    }
  }

  lemma {:induction false} DifferenceDecides(a: string, b: string, k: nat)
    requires k <= |a| && k < |b| && a[..k] == b[..k] && (k == |a| || a[k] < b[k])
    ensures Less(a, b)
  {
    if k > 0 {
      assert a[0] == a[..k][0] == b[..k][0] == b[0];
      assert a[1..][..k - 1] == a[..k][1..] == b[..k][1..] == b[1..][..k - 1];
      DifferenceDecides(a[1..], b[1..], k - 1);
    }
  }

  ghost predicate Increasing(s: seq<string>) {
    forall i, j :: 0 <= i < j < |s| ==> Less(s[i], s[j])
  }

  function Insert(s: seq<string>, x: string): seq<string> {
    if s == [] || !Less(s[0], x) then [x] + s else [s[0]] + Insert(s[1..], x)
  }

  /** sort.Strings, as a value. */
  function Sort(s: seq<string>): seq<string> {
    if s == [] then [] else Insert(Sort(s[1..]), s[0])
  }

  lemma {:induction false} InsertWorks(s: seq<string>, x: string)
    requires Increasing(s) && x !in s
    ensures Increasing(Insert(s, x)) && Elements(Insert(s, x)) == Elements(s) + {x}
  {
    hide Less;
    var r := Insert(s, x);
    if s == [] {
    } else if !Less(s[0], x) {
      LessIsTotal(s[0], x);
      forall j | 0 <= j < |s| ensures Less(x, s[j]) {
        if j > 0 { LessIsTransitive(x, s[0], s[j]); }
      }
      assert forall i, j :: 0 <= i < j < |r| ==> Less(r[i], r[j]) by {
        assert forall j :: 1 <= j < |r| ==> r[j] == s[j - 1];
      }
    } else {
      InsertWorks(s[1..], x);
      var tail := Insert(s[1..], x);
      forall j | 0 <= j < |tail| ensures Less(s[0], tail[j]) {
        assert tail[j] in Elements(tail);
        if tail[j] != x {
          assert tail[j] in s[1..];
          var k :| 0 <= k < |s[1..]| && s[1..][k] == tail[j];
          assert s[k + 1] == tail[j];
        }
      }
      assert forall j :: 1 <= j < |r| ==> r[j] == tail[j - 1];
      assert Elements(r) == {s[0]} + Elements(tail);
      assert s == [s[0]] + s[1..];
      assert Elements(s) == {s[0]} + Elements(s[1..]);
    }
  }

  lemma {:induction false} SortWorks(s: seq<string>)
    requires NoDuplicates(s)
    ensures Increasing(Sort(s)) && Elements(Sort(s)) == Elements(s)
  {
    hide Insert;
    if s != [] {
      SortWorks(s[1..]);
      assert s == [s[0]] + s[1..];
      assert Elements(s) == {s[0]} + Elements(s[1..]);
      assert s[0] !in s[1..];
      assert s[0] in Sort(s[1..]) <==> s[0] in Elements(Sort(s[1..]));
      InsertWorks(Sort(s[1..]), s[0]);
    }
  }

  /** An increasing list is determined by its set of elements. */
  lemma {:induction false} IncreasingIsUnique(a: seq<string>, b: seq<string>)
    requires Increasing(a) && Increasing(b) && Elements(a) == Elements(b)
    ensures a == b
  {
    hide Less;
    NoElements(a);
    NoElements(b);
    if a != [] {
      SmallestIsFirst(a, b);
      SmallestIsFirst(b, a);
      LessIsTotal(a[0], b[0]);
      assert a == [a[0]] + a[1..] && b == [b[0]] + b[1..];
      forall x ensures x in Elements(a[1..]) <==> x in Elements(b[1..]) {
        LessIsTotal(x, x);
        assert x in Elements(a) <==> x == a[0] || x in a[1..];
        assert x in Elements(b) <==> x == b[0] || x in b[1..];
        assert x in a[1..] ==> Less(a[0], x);
        assert x in b[1..] ==> Less(b[0], x);
      }
      IncreasingRest(a);
      IncreasingRest(b);
      IncreasingIsUnique(a[1..], b[1..]);
    }
  }

  lemma IncreasingRest(s: seq<string>)
    requires Increasing(s) && s != []
    ensures Increasing(s[1..])
  {
    hide Less;
    forall i, j | 0 <= i < j < |s[1..]| ensures Less(s[1..][i], s[1..][j]) {
      assert s[1..][i] == s[i + 1] && s[1..][j] == s[j + 1];
    }
  }

  lemma NoElements(s: seq<string>)
    ensures Elements(s) == {} <==> s == []
  {
    if s != [] { assert s[0] in Elements(s); }
  }

  lemma SmallestIsFirst(a: seq<string>, b: seq<string>)
    requires Increasing(a) && a != [] && b != [] && Elements(b) <= Elements(a)
    ensures a[0] == b[0] || Less(a[0], b[0])
  {
    hide Less;
    assert b[0] in Elements(b);
    var k :| 0 <= k < |a| && a[k] == b[0];
  }

  // ---- the canonical form --------------------------------------------------------------

  /** The non-empty trimmed parts, in order. */
  function TokenList(parts: seq<string>): seq<string> {
    if parts == [] then []
    else
      var token := TrimSpace(parts[|parts| - 1]);
      TokenList(parts[..|parts| - 1]) + if token != "" then [token] else []
  }

  function Tokens(value: string): set<string> {
    set p | p in Split(value) && TrimSpace(p) != "" :: TrimSpace(p)
  }

  function Parse(value: string): seq<string> {
    Sort(Dedup(TokenList(Split(value))))
  }

  lemma {:induction false} TokenListElements(parts: seq<string>)
    ensures Elements(TokenList(parts)) == set p | p in parts && TrimSpace(p) != "" :: TrimSpace(p)
  {
    hide TrimSpace;
    if parts != [] {
      var front, last := parts[..|parts| - 1], parts[|parts| - 1];
      TokenListElements(front);
      assert parts == front + [last];
      assert Elements(TokenList(parts))
          == Elements(TokenList(front)) + if TrimSpace(last) != "" then {TrimSpace(last)} else {};
    }
  }

  /** parseServicePrincipals. */
  method ParseServicePrincipals(value: string) returns (servicePrincipals: seq<string>)
    ensures servicePrincipals == Parse(value)
    ensures Increasing(servicePrincipals) && Elements(servicePrincipals) == Tokens(value)
  {
    hide Split, TrimSpace, Dedup, Sort;
    var parts, seen: set<string> := Split(value), {};
    servicePrincipals := [];
    DedupEmpty<string>();
    assert parts[..0] == [];
    for i := 0 to |parts|
      invariant servicePrincipals == Dedup(TokenList(parts[..i]))
      invariant seen == Elements(servicePrincipals)
    {
      var token := TrimSpace(parts[i]);
      assert parts[..i + 1][..i] == parts[..i];
      DedupSnoc(TokenList(parts[..i]), token);
      if token == "" {
        assert TokenList(parts[..i + 1]) == TokenList(parts[..i]);
        continue;
      }
      assert TokenList(parts[..i + 1]) == TokenList(parts[..i]) + [token];
      if token in seen {
        continue;
      }
      seen := seen + {token};
      servicePrincipals := servicePrincipals + [token];
    }
    assert parts[..|parts|] == parts;
    TokenListElements(parts);
    DedupKeepsElements(TokenList(parts));
    SortWorks(servicePrincipals);
    servicePrincipals := Sort(servicePrincipals);
  }

  /** The canonical form: strictly increasing, holding exactly the tokens, every one
      trimmed, non-empty and free of commas. */
  lemma ParseIsCanonical(value: string)
    ensures Increasing(Parse(value)) && Elements(Parse(value)) == Tokens(value)
    ensures forall t :: t in Parse(value) ==> t != "" && Trimmed(t) && ',' !in t
  {
    hide Split, TrimSpace, Dedup, Sort, Less, Trimmed;
    var parts := Split(value);
    TokenListElements(parts);
    DedupKeepsElements(TokenList(parts));
    SortWorks(Dedup(TokenList(parts)));
    SplitHasNoCommas(value);
    forall t | t in Parse(value) ensures t != "" && Trimmed(t) && ',' !in t {
      assert t in Elements(Parse(value));
      var p :| p in parts && TrimSpace(p) != "" && TrimSpace(p) == t;
      TrimSpaceTrims(p);
    }
  }

  /** The list depends on the set of tokens and on nothing else. */
  lemma ParseDependsOnTokens(v: string, w: string)
    ensures Parse(v) == Parse(w) <==> Tokens(v) == Tokens(w)
  {
    hide Parse, Tokens, Less;
    ParseIsCanonical(v);
    ParseIsCanonical(w);
    if Tokens(v) == Tokens(w) { IncreasingIsUnique(Parse(v), Parse(w)); }
  }

  /** Joining and parsing again gives the same list, so the string form is canonical too. */
  lemma ReparseIsStable(value: string)
    ensures Parse(Join(Parse(value))) == Parse(value)
    ensures Tokens(Join(Parse(value))) == Tokens(value)
  {
    hide Parse, Split, TrimSpace, Less, Trimmed, Join;
    var list := Parse(value);
    ParseIsCanonical(value);
    if list == [] {
      EmptyTokens();
    } else {
      SplitUndoesJoin(list);
    }
    forall t ensures t in Tokens(Join(list)) <==> t in Elements(list) {
      if t in list { TrimSpaceOfTrimmed(t); }
      if t in Tokens(Join(list)) && list != [] {
        var p :| p in list && TrimSpace(p) != "" && TrimSpace(p) == t;
        TrimSpaceOfTrimmed(p);
      }
    }
    ParseDependsOnTokens(Join(list), value);
  }

  lemma EmptyTokens()
    ensures Tokens(Join([])) == {}
  {
  }

  // ---- lists as people write them ---------------------------------------------------------------

  /** An entry of a list: a token, perhaps none, with spaces around it. */
  datatype Entry = Entry(before: string, token: string, after: string)
  {
    function Text(): string { before + token + after }

    predicate Valid() {
      && AllIn(before, SPACES) && AllIn(after, SPACES) && ',' !in token
      && (token == "" || (token[0] !in SPACES && token[|token| - 1] !in SPACES))
    }
  }

  function Texts(entries: seq<Entry>): (texts: seq<string>)
    ensures |texts| == |entries| && forall i :: 0 <= i < |texts| ==> texts[i] == entries[i].Text()
  {
    seq(|entries|, i requires 0 <= i < |entries| => entries[i].Text())
  }

  lemma EntryIsTrimmed(e: Entry)
    requires e.Valid()
    ensures TrimSpace(e.Text()) == e.token && ',' !in e.Text()
  {
    hide TrimSpace;
    TrimSpaceIff(e.Text(), e.token);
    assert ',' !in SPACES;
  }

  /** Whatever spaces stand around the entries of a comma-separated list, and however many
      entries are empty, the list holds exactly the tokens. */
  lemma ListHasTheTokens(entries: seq<Entry>)
    requires forall i :: 0 <= i < |entries| ==> entries[i].Valid()
    ensures Elements(Parse(Join(Texts(entries))))
         == set i | 0 <= i < |entries| && entries[i].token != "" :: entries[i].token
  {
    hide Parse, Join, Split, TrimSpace, Entry.Valid, Entry.Text;
    var texts := Texts(entries);
    ParseIsCanonical(Join(texts));
    forall i | 0 <= i < |texts| ensures TrimSpace(texts[i]) == entries[i].token && ',' !in texts[i] {
      EntryIsTrimmed(entries[i]);
    }
    if texts == [] {
      EmptyTokens();
    } else {
      SplitUndoesJoin(texts);
      forall t
        ensures t in Tokens(Join(texts)) <==> exists i :: 0 <= i < |entries| && entries[i].token == t && t != ""
      {
        if i :| 0 <= i < |entries| && entries[i].token == t && t != "" { assert texts[i] in texts; }
      }
    }
  }
}
