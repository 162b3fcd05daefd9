/// The three regular expressions of process_natural_language_query, written
/// as scanners over ASCII text:
///   re.match(r"^\s*select", q, re.IGNORECASE)
///   re.search(r'in\s+["\']?(\w+)["\']?\s+schema', lower)
///   re.search(r"tables\s+with\s+(\w+)", lower)
/// Each scanner is tied by lemmas to a description of the strings the
/// pattern accepts, so that the capture it returns is the one the regex
/// engine's backtracking would settle on.
module Patterns {
  import opened Strings
  import opened Options

  /** \s on ASCII text: the characters str.isspace() accepts, that is
      space, \t, \n, \v, \f, \r and the separators \x1c to \x1f. */
  predicate IsSpace(c: char) {
    c == ' ' || 9 as char <= c <= 13 as char || 28 as char <= c <= 31 as char
  }

  /** \w on ASCII text. */
  predicate IsWordChar(c: char) {
    'a' <= c <= 'z' || 'A' <= c <= 'Z' || '0' <= c <= '9' || c == '_'
  }

  /** ["\'] */
  predicate IsQuote(c: char) {
    c == '"' || c == '\''
  }

  /** The end of the longest run of characters satisfying p from position i:
      where a greedy `p*` starting at i stops. */
  function RunEnd(s: string, i: nat, p: char -> bool): (j: nat)
    requires i <= |s|
    ensures i <= j <= |s|
    ensures forall k | i <= k < j :: p(s[k])
    ensures j == |s| || !p(s[j])
    decreases |s| - i
  {
    if i < |s| && p(s[i]) then RunEnd(s, i + 1, p) else i
  }

  /** A run that cannot be extended is the longest run. */
  lemma {:induction false} RunEndAt(s: string, i: nat, j: nat, p: char -> bool)
    requires i <= j <= |s|
    requires forall k | i <= k < j :: p(s[k])
    requires j == |s| || !p(s[j])
    ensures RunEnd(s, i, p) == j
    decreases j - i
  {
    if i < j {
      RunEndAt(s, i + 1, j, p);
    }
  }

  /** ["\']? at position i: one past a quote there, else i itself. */
  function OptQuote(s: string, i: nat): (j: nat)
    requires i <= |s|
    ensures j == i || (i < |s| && j == i + 1 && IsQuote(s[i]))
  {
    if i < |s| && IsQuote(s[i]) then i + 1 else i
  }

  // ---------------------------------------------------------------------
  // ^\s*select, case-insensitively

  /** re.match(r"^\s*select", q, re.IGNORECASE): after the leading
      whitespace, the text starts with "select" in any letter case. */
  predicate StartsWithSelect(q: string) {
    var i := RunEnd(q, 0, IsSpace);
    StartsWith(Lower(q[i..]), "select")
  }

  /** The strings the pattern accepts: some prefix of whitespace, then
      "select" in any letter case. */
  ghost predicate SelectAfterSpaces(q: string) {
    exists n | 0 <= n <= |q| :: (forall k | 0 <= k < n :: IsSpace(q[k])) && StartsWith(Lower(q[n..]), "select")
  }

  /** The scanner accepts exactly the strings the pattern accepts: it does not
      matter which whitespace prefix the pattern would consume. */
  lemma StartsWithSelectIffPattern(q: string)
    ensures StartsWithSelect(q) <==> SelectAfterSpaces(q)
  {
    if SelectAfterSpaces(q) {
      var n :| 0 <= n <= |q| && (forall k | 0 <= k < n :: IsSpace(q[k])) && StartsWith(Lower(q[n..]), "select");
      assert LowerChar(q[n]) == 's' by {
        assert Lower(q[n..])[0] == 's' && q[n..][0] == q[n];
      }
      RunEndAt(q, 0, n, IsSpace);
    }
  }

  /** Whatever follows, a query made of whitespace, "select" in any case and
      any further text passes the test. */
  lemma SelectWhateverFollows(spaces: string, select: string, rest: string)
    requires forall k | 0 <= k < |spaces| :: IsSpace(spaces[k])
    requires Lower(select) == "select"
    ensures StartsWithSelect(spaces + select + rest)
  {
    var q := spaces + select + rest;
    assert forall k | 0 <= k < |spaces| :: q[k] == spaces[k];
    assert q[|spaces|] == select[0];
    assert !IsSpace(select[0]) by {
      assert LowerChar(select[0]) == Lower(select)[0] == 's';
    }
    RunEndAt(q, 0, |spaces|, IsSpace);
    assert q[|spaces|..] == select + rest;
    LowerAppend(select, rest);
  }

  /** Lower-casing leaves whitespace where it is. */
  lemma RunEndOfLower(q: string, i: nat)
    requires i <= |q|
    ensures RunEnd(Lower(q), i, IsSpace) == RunEnd(q, i, IsSpace)
  {
    var j := RunEnd(q, i, IsSpace);
    RunEndAt(Lower(q), i, j, IsSpace);
  }

  /** The select test ignores letter case, so it gives the same answer on
      the query and on its lower-case form. */
  lemma SelectIgnoresCase(q: string)
    ensures StartsWithSelect(q) <==> StartsWithSelect(Lower(q))
  {
    var i := RunEnd(q, 0, IsSpace);
    RunEndOfLower(q, 0);
    assert Lower(q)[i..] == Lower(q[i..]);
    LowerIdempotent(q[i..]);
  }

  // ---------------------------------------------------------------------
  // in\s+["']?(\w+)["']?\s+schema

  /** Where `in\s+["']?(\w+)["']?\s+schema` matches at position p of s, the
      captured word; None when it does not match there. */
  function SchemaPhraseAt(s: string, p: nat): Option<string>
    requires p <= |s|
  {
    if !("in" <= s[p..]) then None
    else
      var a := RunEnd(s, p + 2, IsSpace);
      var b := OptQuote(s, a);
      var c := RunEnd(s, b, IsWordChar);
      var d := OptQuote(s, c);
      var e := RunEnd(s, d, IsSpace);
      if p + 2 < a && b < c && d < e && "schema" <= s[e..] then Some(s[b..c]) else None
  }

  /** The positions p < a <= b < c <= d < e spell out one match of the pattern
      starting at p: "in", whitespace up to a, an optional quote up to b, the
      word s[b..c], an optional quote up to d, whitespace up to e, "schema". */
  ghost predicate SchemaPhraseShape(s: string, p: nat, a: nat, b: nat, c: nat, d: nat, e: nat) {
    && p + 2 < a <= b < c <= d < e && e + 6 <= |s|
    && s[p..p + 2] == "in"
    && (forall k | p + 2 <= k < a :: IsSpace(s[k]))
    && (b == a || (b == a + 1 && IsQuote(s[a])))
    && (forall k | b <= k < c :: IsWordChar(s[k]))
    && (d == c || (d == c + 1 && IsQuote(s[c])))
    && (forall k | d <= k < e :: IsSpace(s[k]))
    && s[e..e + 6] == "schema"
  }

  /** Every capture of the scanner comes from a match of the pattern. */
  lemma SchemaPhraseSound(s: string, p: nat)
    requires p <= |s| && SchemaPhraseAt(s, p).Some?
    ensures exists a: nat, b: nat, c: nat, d: nat, e: nat :: SchemaPhraseShape(s, p, a, b, c, d, e) && SchemaPhraseAt(s, p).value == s[b..c]
  {
    var a := RunEnd(s, p + 2, IsSpace);
    var b := OptQuote(s, a);
    var c := RunEnd(s, b, IsWordChar);
    var d := OptQuote(s, c);
    var e := RunEnd(s, d, IsSpace);
    assert s[p..p + 2] == s[p..][..2];
    assert s[e..e + 6] == s[e..][..6];
    assert SchemaPhraseShape(s, p, a, b, c, d, e);
  }

  /** Every match of the pattern at p is the one the scanner finds: the
      pattern has a single way to match at a given position, so the engine's
      backtracking cannot settle on another capture. */
  lemma SchemaPhraseComplete(s: string, p: nat, a: nat, b: nat, c: nat, d: nat, e: nat)
    requires SchemaPhraseShape(s, p, a, b, c, d, e)
    ensures SchemaPhraseAt(s, p) == Some(s[b..c])
  {
    assert "in" <= s[p..] by {
      assert s[p..][..2] == s[p..p + 2];
    }
    SpacesBeforeWord(s, p + 2, a);
    WordBeforeSpace(s, b, c);
    assert s[e] == 's' by {
      assert s[e..e + 6][0] == s[e];
    }
    SpacesBeforeWord(s, d, e);
    assert "schema" <= s[e..] by {
      assert s[e..][..6] == s[e..e + 6];
    }
    SchemaPhraseAtIs(s, p, a, b, c, d, e);
  }

  /** The scanner's result once each of its steps is known. */
  lemma SchemaPhraseAtIs(s: string, p: nat, a: nat, b: nat, c: nat, d: nat, e: nat)
    requires p + 2 <= |s| && "in" <= s[p..]
    requires RunEnd(s, p + 2, IsSpace) == a && OptQuote(s, a) == b
    requires RunEnd(s, b, IsWordChar) == c && OptQuote(s, c) == d
    requires RunEnd(s, d, IsSpace) == e
    requires p + 2 < a && b < c && d < e && "schema" <= s[e..]
    ensures SchemaPhraseAt(s, p) == Some(s[b..c])
  {
  }

  /** Whitespace up to a quote or word character ends there. */
  lemma SpacesBeforeWord(s: string, i: nat, j: nat)
    requires i <= j < |s| && forall k | i <= k < j :: IsSpace(s[k])
    requires IsQuote(s[j]) || IsWordChar(s[j])
    ensures RunEnd(s, i, IsSpace) == j
  {
    RunEndAt(s, i, j, IsSpace);
  }

  /** Word characters up to a quote or whitespace end there. */
  lemma WordBeforeSpace(s: string, i: nat, j: nat)
    requires i <= j < |s| && forall k | i <= k < j :: IsWordChar(s[k])
    requires IsQuote(s[j]) || IsSpace(s[j])
    ensures RunEnd(s, i, IsWordChar) == j
  {
    RunEndAt(s, i, j, IsWordChar);
  }

  /** The text pre + "in" + spaces + word + spaces + "schema" has the
      pattern matching right after pre, capturing the word. */
  lemma SchemaPhraseOf(pre: string, sp: string, w: string, sp2: string)
    requires |sp| > 0 && forall k | 0 <= k < |sp| :: IsSpace(sp[k])
    requires |w| > 0 && forall k | 0 <= k < |w| :: IsWordChar(w[k])
    requires |sp2| > 0 && forall k | 0 <= k < |sp2| :: IsSpace(sp2[k])
    ensures SchemaPhraseAt(pre + "in" + sp + w + sp2 + "schema", |pre|) == Some(w)
  {
    var s := pre + "in" + sp + w + sp2 + "schema";
    var p := |pre|;
    var a := p + 2 + |sp|;
    var c := a + |w|;
    var e := c + |sp2|;
    assert forall k | p <= k < p + 2 :: s[k] == "in"[k - p];
    assert forall k | p + 2 <= k < a :: s[k] == sp[k - p - 2];
    assert forall k | a <= k < c :: s[k] == w[k - a];
    assert forall k | c <= k < e :: s[k] == sp2[k - c];
    assert forall k | e <= k < e + 6 :: s[k] == "schema"[k - e];
    assert s[p..p + 2] == "in";
    assert s[a..c] == w;
    assert s[e..e + 6] == "schema";
    assert SchemaPhraseShape(s, p, a, a, c, c, e);
    SchemaPhraseComplete(s, p, a, a, c, c, e);
  }

  /** A match anywhere makes the search succeed. */
  lemma SchemaPhraseFound(s: string, p: nat)
    requires p <= |s| && SchemaPhraseAt(s, p).Some?
    ensures SchemaPhrase(s).Some?
  {
    assert SchemaMatchFrom(s, 0) <= p;
  }

  /** A match stays a match when text is added after it. */
  lemma SchemaPhraseShapeAppend(s: string, t: string, p: nat, a: nat, b: nat, c: nat, d: nat, e: nat)
    requires SchemaPhraseShape(s, p, a, b, c, d, e)
    ensures SchemaPhraseShape(s + t, p, a, b, c, d, e) && (s + t)[b..c] == s[b..c]
  {
    var u := s + t;
    assert forall k | 0 <= k < |s| :: u[k] == s[k];
    assert u[p..p + 2] == s[p..p + 2];
    assert u[e..e + 6] == s[e..e + 6];
  }

  /** Text added after a match does not change it. */
  lemma SchemaPhraseAtAppend(s: string, t: string, p: nat)
    requires p <= |s| && SchemaPhraseAt(s, p).Some?
    ensures SchemaPhraseAt(s + t, p) == SchemaPhraseAt(s, p)
  {
    SchemaPhraseSound(s, p);
    var a: nat, b: nat, c: nat, d: nat, e: nat :| SchemaPhraseShape(s, p, a, b, c, d, e) && SchemaPhraseAt(s, p).value == s[b..c];
    SchemaPhraseShapeAppend(s, t, p, a, b, c, d, e);
    SchemaPhraseComplete(s + t, p, a, b, c, d, e);
  }

  /** Text added after a text where the pattern matches leaves a match. */
  lemma SchemaPhraseExtend(s: string, t: string)
    requires SchemaPhrase(s).Some?
    ensures SchemaPhrase(s + t).Some?
  {
    var p := SchemaMatchFrom(s, 0);
    SchemaPhraseAtAppend(s, t, p);
    SchemaPhraseFound(s + t, p);
  }

  /** The pattern cannot match in a text that does not contain "schema". */
  lemma SchemaPhraseNeedsSchema(s: string)
    ensures SchemaPhrase(s).Some? ==> Contains(s, "schema")
  {
    var m := SchemaMatchFrom(s, 0);
    if m <= |s| {
      SchemaPhraseAtNeedsSchema(s, m);
    }
  }

  lemma SchemaPhraseAtNeedsSchema(s: string, p: nat)
    requires p <= |s|
    ensures SchemaPhraseAt(s, p).Some? ==> Contains(s, "schema")
  {
    if "in" <= s[p..] {
      var a := RunEnd(s, p + 2, IsSpace);
      var b := OptQuote(s, a);
      var c := RunEnd(s, b, IsWordChar);
      var d := OptQuote(s, c);
      var e := RunEnd(s, d, IsSpace);
      if "schema" <= s[e..] {
        assert s[e..e + 6] == s[e..][..6];
        ContainsAt(s, "schema", e);
      }
    }
  }

  /** The leftmost position from p on where the schema pattern matches, or
      |s| + 1 when it matches nowhere: where re.search stops. */
  function SchemaMatchFrom(s: string, p: nat): (m: nat)
    requires p <= |s|
    ensures p <= m <= |s| + 1
    ensures m <= |s| ==> SchemaPhraseAt(s, m).Some?
    ensures forall k | p <= k < m && k <= |s| :: SchemaPhraseAt(s, k).None?
    decreases |s| - p
  {
    if SchemaPhraseAt(s, p).Some? then p
    else if p == |s| then |s| + 1
    else SchemaMatchFrom(s, p + 1)
  }

  /** re.search(r'in\s+["\']?(\w+)["\']?\s+schema', s).group(1), or None. */
  function SchemaPhrase(s: string): Option<string> {
    var m := SchemaMatchFrom(s, 0);
    if m <= |s| then SchemaPhraseAt(s, m) else None
  }

  // ---------------------------------------------------------------------
  // tables\s+with\s+(\w+)

  /** Where `tables\s+with\s+(\w+)` matches at position p of s, the captured
      word; None when it does not match there. */
  function TablesWithAt(s: string, p: nat): Option<string>
    requires p <= |s|
  {
    if !("tables" <= s[p..]) then None
    else
      var a := RunEnd(s, p + 6, IsSpace);
      if a == p + 6 || !("with" <= s[a..]) then None
      else
        var b := RunEnd(s, a + 4, IsSpace);
        var c := RunEnd(s, b, IsWordChar);
        if b == a + 4 || c == b then None else Some(s[b..c])
  }

  /** The positions p < a < b < c spell out the match of the pattern at p
      that the greedy \w+ settles on: "tables", whitespace up to a, "with",
      whitespace up to b, and the whole run of word characters s[b..c]. */
  ghost predicate TablesWithShape(s: string, p: nat, a: nat, b: nat, c: nat) {
    && p + 6 < a && a + 4 < b < c <= |s|
    && s[p..p + 6] == "tables"
    && (forall k | p + 6 <= k < a :: IsSpace(s[k]))
    && s[a..a + 4] == "with"
    && (forall k | a + 4 <= k < b :: IsSpace(s[k]))
    && (forall k | b <= k < c :: IsWordChar(s[k]))
    && (c == |s| || !IsWordChar(s[c]))
  }

  /** Every capture of the scanner comes from a match of the pattern. */
  lemma TablesWithSound(s: string, p: nat)
    requires p <= |s| && TablesWithAt(s, p).Some?
    ensures exists a: nat, b: nat, c: nat :: TablesWithShape(s, p, a, b, c) && TablesWithAt(s, p).value == s[b..c]
  {
    var a := RunEnd(s, p + 6, IsSpace);
    var b := RunEnd(s, a + 4, IsSpace);
    var c := RunEnd(s, b, IsWordChar);
    assert "tables" <= s[p..] && p + 6 < a && "with" <= s[a..] && a + 4 < b < c;
    TablesWithShapeOfRuns(s, p, a, b, c);
    TablesWithComplete(s, p, a, b, c);
  }

  lemma TablesWithShapeOfRuns(s: string, p: nat, a: nat, b: nat, c: nat)
    requires p + 6 < a && a + 4 < b < c <= |s|
    requires "tables" <= s[p..] && "with" <= s[a..]
    requires RunEnd(s, p + 6, IsSpace) == a && RunEnd(s, a + 4, IsSpace) == b && RunEnd(s, b, IsWordChar) == c
    ensures TablesWithShape(s, p, a, b, c)
  {
    assert s[p..p + 6] == s[p..][..6];
    assert s[a..a + 4] == s[a..][..4];
  }

  /** Every such match is the one the scanner finds. */
  lemma TablesWithComplete(s: string, p: nat, a: nat, b: nat, c: nat)
    requires TablesWithShape(s, p, a, b, c)
    ensures TablesWithAt(s, p) == Some(s[b..c])
  {
    assert "tables" <= s[p..] by {
      assert s[p..][..6] == s[p..p + 6];
    }
    assert RunEnd(s, p + 6, IsSpace) == a by {
      assert s[a] == s[a..a + 4][0] == 'w';
      RunEndAt(s, p + 6, a, IsSpace);
    }
    assert "with" <= s[a..] by {
      assert s[a..][..4] == s[a..a + 4];
    }
    assert RunEnd(s, a + 4, IsSpace) == b by {
      assert IsWordChar(s[b]);
      RunEndAt(s, a + 4, b, IsSpace);
    }
    assert RunEnd(s, b, IsWordChar) == c by {
      RunEndAt(s, b, c, IsWordChar);
    }
    TablesWithAtIs(s, p, a, b, c);
  }

  lemma TablesWithAtIs(s: string, p: nat, a: nat, b: nat, c: nat)
    requires p + 6 < a && a + 4 < b < c <= |s|
    requires "tables" <= s[p..] && "with" <= s[a..]
    requires RunEnd(s, p + 6, IsSpace) == a && RunEnd(s, a + 4, IsSpace) == b && RunEnd(s, b, IsWordChar) == c
    ensures TablesWithAt(s, p) == Some(s[b..c])
  {
  }

  /** The leftmost position from p on where the tables-with pattern
      matches, or |s| + 1 when it matches nowhere. */
  function TablesWithMatchFrom(s: string, p: nat): (m: nat)
    requires p <= |s|
    ensures p <= m <= |s| + 1
    ensures m <= |s| ==> TablesWithAt(s, m).Some?
    ensures forall k | p <= k < m && k <= |s| :: TablesWithAt(s, k).None?
    decreases |s| - p
  {
    if TablesWithAt(s, p).Some? then p
    else if p == |s| then |s| + 1
    else TablesWithMatchFrom(s, p + 1)
  }

  /** re.search(r"tables\s+with\s+(\w+)", s).group(1), or None. */
  function TablesWith(s: string): Option<string> {
    var m := TablesWithMatchFrom(s, 0);
    if m <= |s| then TablesWithAt(s, m) else None
  }
}
