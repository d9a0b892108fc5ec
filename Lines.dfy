/**
 * Laws of `str.split` on a separator and of its inverse `sep.join`: the
 * parser splits the analysis text into lines with them.
 */
module Lines {
  import opened Text

  /** A string is what precedes position `i`, the character there and what
      follows it. */
  lemma Around(s: string, i: nat)
    requires i < |s|
    ensures s == s[..i] + [s[i]] + s[i + 1..]
  {
  }

  /** Joining a piece in front of at least one more adds one separator. */
  lemma JoinCons(a: string, r: seq<string>, sep: char)
    requires |r| >= 1
    ensures Join([a] + r, sep) == a + [sep] + Join(r, sep)
  {
    assert ([a] + r)[1..] == r;
  }

  /** A string holding the separator splits into the text before its first
      occurrence followed by the pieces of the text after it. */
  lemma SplitFirst(s: string, sep: char)
    requires sep in s
    ensures Split(s, sep) == [s[..IndexOf(s, sep)]] + Split(s[IndexOf(s, sep) + 1..], sep)
  {
  }

  /** A string without the separator is a single piece. */
  lemma SplitWhole(s: string, sep: char)
    requires sep !in s
    ensures Join(Split(s, sep), sep) == s
  {
    assert Split(s, sep) == [s];
  }

  /** Joining the pieces gives back the string. */
  lemma {:induction false} JoinSplit(s: string, sep: char)
    ensures Join(Split(s, sep), sep) == s
    decreases |s|
  {
    if sep in s {
      var i := IndexOf(s, sep);
      var t := s[i + 1..];
      JoinSplit(t, sep);
      SplitFirst(s, sep);
      JoinCons(s[..i], Split(t, sep), sep);
      Around(s, i);
    } else {
      SplitWhole(s, sep);
    }
  }

  /** Splitting a join of separator-free pieces gives back the pieces. */
  lemma {:induction false} SplitJoin(parts: seq<string>, sep: char)
    requires |parts| >= 1
    requires forall k :: 0 <= k < |parts| ==> sep !in parts[k]
    ensures Split(Join(parts, sep), sep) == parts
    decreases |parts|
  {
    if |parts| > 1 {
      var s := Join(parts, sep);
      assert s == parts[0] + [sep] + Join(parts[1..], sep);
      AfterFirstOf(parts[0], sep, Join(parts[1..], sep));
      assert sep in s by { assert s[|parts[0]|] == sep; }
      var i := IndexOf(s, sep);
      assert i == |parts[0]|;
      assert s[..i] == parts[0];
      assert s[i + 1..] == Join(parts[1..], sep);
      SplitJoin(parts[1..], sep);
    }
  }
}
