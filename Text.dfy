/**
 * The Python `str` operations that the product parser and the inventory rely
 * on: substring test (`p in s`), `split('\n')`, `split(':', 1)[1]`, `strip()`
 * and `lower()`. Strings are sequences of `char`; `strip` and `lower` are
 * restricted to ASCII (see IsSpace and LowerChar).
 */
module Text {

  /** `str.isspace` on ASCII characters: \t \n \v \f \r (9-13), the four
      separators \x1c-\x1f (28-31) and the space (32). */
  predicate IsSpace(c: char) {
    ('\t' <= c <= '\r') || ('\U{1C}' <= c <= ' ')
  }

  predicate AllSpace(s: string) {
    forall i :: 0 <= i < |s| ==> IsSpace(s[i])
  }

  /** A string that `strip()` leaves alone: it neither starts nor ends with whitespace. */
  predicate Trimmed(s: string) {
    s == [] || (!IsSpace(s[0]) && !IsSpace(s[|s| - 1]))
  }

  /** `strip()`: whitespace removed from both ends. */
  function Strip(s: string): string
    decreases |s|
  {
    if |s| > 0 && IsSpace(s[0]) then Strip(s[1..])
    else if |s| > 0 && IsSpace(s[|s| - 1]) then Strip(s[..|s| - 1])
    else s
  }

  /** `strip()` leaves a string that neither starts nor ends with whitespace. */
  lemma {:induction false} StripTrimmed(s: string)
    ensures Trimmed(Strip(s)) && |Strip(s)| <= |s|
    decreases |s|
  {
    if |s| > 0 && IsSpace(s[0]) {
      StripTrimmed(s[1..]);
    } else if |s| > 0 && IsSpace(s[|s| - 1]) {
      StripTrimmed(s[..|s| - 1]);
    }
  }

  /** What `strip()` removes is whitespace, from the two ends only: the result
      is an infix of the string with nothing but whitespace around it. */
  lemma {:induction false} StripInfix(s: string) returns (pre: string, post: string)
    ensures s == pre + Strip(s) + post
    ensures AllSpace(pre) && AllSpace(post)
    decreases |s|
  {
    if |s| > 0 && IsSpace(s[0]) {
      var p, q := StripInfix(s[1..]);
      pre, post := [s[0]] + p, q;
      assert s == [s[0]] + s[1..];
    } else if |s| > 0 && IsSpace(s[|s| - 1]) {
      var p, q := StripInfix(s[..|s| - 1]);
      pre, post := p, q + [s[|s| - 1]];
      assert s == s[..|s| - 1] + [s[|s| - 1]];
    } else {
      pre, post := [], [];
    }
  }

  /** `strip()` is determined by its specification: whatever whitespace
      surrounds a trimmed string, stripping gives back exactly that string. */
  lemma {:induction false} StripUnique(a: string, m: string, b: string)
    requires AllSpace(a) && AllSpace(b) && Trimmed(m)
    ensures Strip(a + m + b) == m
    decreases |a| + |b|
  {
    var s := a + m + b;
    if a != [] {
      assert s[1..] == a[1..] + m + b;
      StripUnique(a[1..], m, b);
    } else if b != [] && m == [] {
      assert s[1..] == a + m + b[1..];
      StripUnique(a, m, b[1..]);
    } else if b != [] {
      assert s[0] == m[0];
      assert s[..|s| - 1] == a + m + b[..|b| - 1];
      StripUnique(a, m, b[..|b| - 1]);
    } else {
      assert s == m;
    }
  }

  /** Stripping twice is stripping once. */
  lemma StripIdempotent(s: string)
    ensures Strip(Strip(s)) == Strip(s)
  {
    var m := Strip(s);
    StripTrimmed(s);
    assert m == [] + m + [];
    StripUnique([], m, []);
  }

  /** `str.lower()` on one ASCII character. */
  function LowerChar(c: char): char {
    if 'A' <= c <= 'Z' then (c as int - 'A' as int + 'a' as int) as char else c
  }

  /** `str.lower()`: every upper-case ASCII letter replaced by its lower-case form. */
  function Lower(s: string): (r: string)
    ensures |r| == |s|
    ensures forall i :: 0 <= i < |s| ==> r[i] == LowerChar(s[i])
  {
    if s == [] then [] else [LowerChar(s[0])] + Lower(s[1..])
  }

  lemma LowerIdempotent(s: string)
    ensures Lower(Lower(s)) == Lower(s)
  {
    var r := Lower(Lower(s));
    assert forall i :: 0 <= i < |s| ==> r[i] == Lower(s)[i];
  }

  predicate StartsWith(s: string, p: string) {
    |p| <= |s| && s[..|p|] == p
  }

  /** Python's substring test `p in s`. */
  predicate Contains(s: string, p: string)
    decreases |s|
  {
    StartsWith(s, p) || (|s| > 0 && Contains(s[1..], p))
  }

  /** A substring is found wherever it sits in the string. */
  lemma {:induction false} ContainsInfix(a: string, p: string, b: string)
    ensures Contains(a + p + b, p)
    decreases |a|
  {
    if a == [] {
      assert (a + p + b)[..|p|] == p;
    } else {
      assert (a + p + b)[1..] == a[1..] + p + b;
      ContainsInfix(a[1..], p, b);
    }
  }

  /** Every character of a contained substring occurs in the string. */
  lemma {:induction false} ContainsChar(s: string, p: string, c: char)
    requires Contains(s, p) && c in p
    ensures c in s
    decreases |s|
  {
    if StartsWith(s, p) {
      assert c in s[..|p|];
    } else {
      ContainsChar(s[1..], p, c);
    }
  }

  /** The substring test finds only real occurrences: a string that contains
      `p` has `p` at some index. */
  lemma {:induction false} ContainsSound(s: string, p: string) returns (i: nat)
    requires Contains(s, p)
    ensures i + |p| <= |s| && s[i..i + |p|] == p
    decreases |s|
  {
    if StartsWith(s, p) {
      i := 0;
    } else {
      var k := ContainsSound(s[1..], p);
      assert s[1..][k..k + |p|] == s[k + 1..k + 1 + |p|];
      i := k + 1;
    }
  }

  /** A string lacking one of the characters of `p` does not contain `p`. */
  lemma MissingChar(s: string, p: string, c: char)
    requires c in p && c !in s
    ensures !Contains(s, p)
  {
    if Contains(s, p) {
      ContainsChar(s, p, c);
    }
  }

  /** Position of the first occurrence of `c` (`str.index`). */
  function IndexOf(s: string, c: char): (r: nat)
    requires c in s
    ensures r < |s| && s[r] == c && c !in s[..r]
  {
    if s[0] == c then 0 else 1 + IndexOf(s[1..], c)
  }

  /** `s.split(c, 1)[1]`: what follows the first occurrence of `c`. */
  function AfterFirst(s: string, c: char): string
    requires c in s
  {
    s[IndexOf(s, c) + 1..]
  }

  /** `AfterFirst` splits at the first separator whatever the rest holds. */
  lemma AfterFirstOf(pre: string, c: char, rest: string)
    requires c !in pre
    ensures AfterFirst(pre + [c] + rest, c) == rest
  {
    var s := pre + [c] + rest;
    assert s[|pre|] == c;
  }

  /** `s.split(sep)`: the pieces between occurrences of `sep`, at least one. */
  function Split(s: string, sep: char): (r: seq<string>)
    ensures |r| >= 1
    ensures forall k :: 0 <= k < |r| ==> sep !in r[k]
    decreases |s|
  {
    if sep !in s then [s]
    else
      var i := IndexOf(s, sep);
      [s[..i]] + Split(s[i + 1..], sep)
  }

  /** `sep.join(parts)`, the inverse of Split. */
  function Join(parts: seq<string>, sep: char): string
  {
    if parts == [] then []
    else if |parts| == 1 then parts[0]
    else parts[0] + [sep] + Join(parts[1..], sep)
  }

}
