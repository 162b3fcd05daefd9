/// Text helpers used by the metadata lookup and the query classifier:
/// ASCII lower-casing (Python's str.lower() on ASCII text), prefix, suffix
/// and substring tests, and the decimal rendering of a count.
module Strings {

  /** str.lower() on one character, for ASCII letters. */
  function LowerChar(c: char): char {
    if 'A' <= c <= 'Z' then (c as int - 'A' as int + 'a' as int) as char else c
  }

  function Lower(s: string): string {
    seq(|s|, i requires 0 <= i < |s| => LowerChar(s[i]))
  }

  /** s.startswith(p) */
  predicate StartsWith(s: string, p: string) {
    p <= s
  }

  /** s.endswith(p) */
  predicate EndsWith(s: string, p: string) {
    |p| <= |s| && s[|s| - |p|..] == p
  }

  /** t in s, for strings: t occurs somewhere in s. */
  predicate Contains(s: string, t: string) {
    exists i | 0 <= i <= |s| :: t <= s[i..]
  }

  /** Lower-casing is a character-by-character map, so it distributes over concatenation. */
  lemma LowerAppend(a: string, b: string)
    ensures Lower(a + b) == Lower(a) + Lower(b)
  {
    assert forall i | 0 <= i < |a + b| :: Lower(a + b)[i] == (Lower(a) + Lower(b))[i] by {
      forall i | 0 <= i < |a + b|
        ensures Lower(a + b)[i] == (Lower(a) + Lower(b))[i]
      {
        if i < |a| {
          assert (a + b)[i] == a[i];
        } else {
          assert (a + b)[i] == b[i - |a|];
        }
      }
    }
  }

  /** Lower-casing twice is lower-casing once. */
  lemma LowerIdempotent(s: string)
    ensures Lower(Lower(s)) == Lower(s)
  {
    assert forall i | 0 <= i < |s| :: LowerChar(LowerChar(s[i])) == LowerChar(s[i]);
  }

  /** If a + b occurs in s, so does b. */
  lemma ContainsRight(s: string, a: string, b: string)
    requires Contains(s, a + b)
    ensures Contains(s, b)
  {
    var i :| 0 <= i <= |s| && a + b <= s[i..];
    assert b <= s[i + |a|..] by {
      assert forall k | 0 <= k < |b| :: s[i + |a|..][k] == s[i..][|a| + k] == (a + b)[|a| + k] == b[k];
    }
  }

  /** If a + b occurs in s, so does a. */
  lemma ContainsLeft(s: string, a: string, b: string)
    requires Contains(s, a + b)
    ensures Contains(s, a)
  {
    var i :| 0 <= i <= |s| && a + b <= s[i..];
    assert a <= s[i..] by {
      assert forall k | 0 <= k < |a| :: s[i..][k] == (a + b)[k] == a[k];
    }
  }

  /** A string that occurs at position i of s is contained in s. */
  lemma ContainsAt(s: string, t: string, i: nat)
    requires i + |t| <= |s| && s[i..i + |t|] == t
    ensures Contains(s, t)
  {
    assert t <= s[i..];
  }

  /** t occurs in any string that has it as an infix. */
  lemma ContainsInfix(a: string, t: string, b: string)
    ensures Contains(a + t + b, t)
  {
    var s := a + t + b;
    assert t <= s[|a|..] by {
      assert forall k | 0 <= k < |t| :: s[|a|..][k] == s[|a| + k] == t[k];
    }
  }

  /** Text added after s keeps every occurrence in s. */
  lemma ContainsExtendRight(s: string, t: string, u: string)
    requires Contains(s, t)
    ensures Contains(s + u, t)
  {
    var i :| 0 <= i <= |s| && t <= s[i..];
    assert forall k | 0 <= k < |t| :: (s + u)[i..][k] == s[i..][k];
    assert t <= (s + u)[i..];
  }

  /** A lower-case string followed by a lower-case string is lower-case. */
  lemma LowerCaseConcat(a: string, b: string)
    requires Lower(a) == a && Lower(b) == b
    ensures Lower(a + b) == a + b
  {
    LowerAppend(a, b);
  }

  /** A string holding a character that s lacks does not occur in s. */
  lemma MissingCharNotContained(s: string, t: string, c: char)
    requires c in t && c !in s
    ensures !Contains(s, t)
  {
  }

  /** A two-character text that occurs neither in a nor in b, nor across
      the seam between them, does not occur in a + b. */
  lemma PairNotContainedConcat(a: string, b: string, t: string)
    requires |t| == 2 && !Contains(a, t) && !Contains(b, t)
    requires a == [] || b == [] || a[|a| - 1] != t[0] || b[0] != t[1]
    ensures !Contains(a + b, t)
  {
    forall i | 0 <= i <= |a + b|
      ensures !(t <= (a + b)[i..])
    {
      if i + 2 <= |a| {
        assert (a + b)[i..][..2] == a[i..][..2];
      } else if i >= |a| {
        assert (a + b)[i..] == b[i - |a|..];
      }
    }
  }

  predicate IsDigit(c: char) {
    '0' <= c <= '9'
  }

  function DigitChar(d: nat): (c: char)
    requires d < 10
    ensures IsDigit(c)
  {
    ('0' as int + d) as char
  }

  /** str(n) for a non-negative int: its decimal digits, most significant first. */
  function NatToString(n: nat): (r: string)
    ensures |r| >= 1
    ensures forall i | 0 <= i < |r| :: IsDigit(r[i])
    ensures r[0] == '0' ==> n == 0
    decreases n
  {
    if n < 10 then [DigitChar(n)] else NatToString(n / 10) + [DigitChar(n % 10)]
  }

  /** str(n) for any int: a minus sign before the digits of a negative n. */
  function IntToString(n: int): (r: string)
    ensures |r| >= 1
    ensures n >= 0 <==> r[0] != '-'
    ensures n < 0 ==> r[1..] == NatToString(-n)
  {
    if n < 0 then "-" + NatToString(-n) else NatToString(n)
  }

  /** The number a string of decimal digits denotes. */
  function DigitsValue(s: string): nat
    requires forall i | 0 <= i < |s| :: IsDigit(s[i])
    decreases |s|
  {
    if s == [] then 0
    else
      assert IsDigit(s[|s| - 1]);
      DigitsValue(s[..|s| - 1]) * 10 + (s[|s| - 1] as int - '0' as int)
  }

  /** Reading back the rendered count gives the count. */
  lemma {:induction false} NatToStringRoundTrip(n: nat)
    ensures DigitsValue(NatToString(n)) == n
    decreases n
  {
    var r := NatToString(n);
    if n >= 10 {
      NatToStringRoundTrip(n / 10);
      assert r[..|r| - 1] == NatToString(n / 10);
    }
  }

  /** Reading back a rendered int, sign included, gives the int. */
  lemma IntToStringRoundTrip(n: int)
    ensures var r := IntToString(n);
      if r[0] == '-' then (forall i | 1 <= i < |r| :: IsDigit(r[i])) && DigitsValue(r[1..]) == -n
      else (forall i | 0 <= i < |r| :: IsDigit(r[i])) && DigitsValue(r) == n
  {
    if n < 0 {
      NatToStringRoundTrip(-n);
    } else {
      NatToStringRoundTrip(n);
    }
  }
}
