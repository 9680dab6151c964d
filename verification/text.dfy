/**
 This module models JavaScript's `String.prototype.split` with a one-character
 separator: the string is cut at EVERY occurrence of the separator, so two
 adjacent separators produce an empty piece, and the result always has at
 least one piece (`"".split(' ')` is `[""]`).
 */
module Text {

  /** Glues pieces back together with the separator between consecutive pieces. */
  function Join(parts: seq<string>, sep: char): string
    requires |parts| >= 1
  {
    if |parts| == 1 then parts[0] else parts[0] + [sep] + Join(parts[1..], sep)
  }

  /** `s.split(sep)`: the pieces contain no separator and glue back to `s`. */
  function Split(s: string, sep: char): (parts: seq<string>)
    ensures |parts| >= 1
    ensures forall i | 0 <= i < |parts| :: sep !in parts[i]
    ensures Join(parts, sep) == s
    decreases |s|
  {
    if |s| == 0 then [""]
    else
      var tail := Split(s[1..], sep);
      if s[0] == sep then
        assert ([""] + tail)[1..] == tail;
        [""] + tail
      else
        var parts := [[s[0]] + tail[0]] + tail[1..];
        assert |tail| > 1 ==> parts[1..] == tail[1..];
        assert s == [s[0]] + s[1..];
        parts
  }

  /** A string without the separator is a single piece. */
  lemma {:induction false} SplitWithoutSeparator(a: string, sep: char)
    requires sep !in a
    ensures Split(a, sep) == [a]
    decreases |a|
  {
    if |a| > 0 {
      SplitWithoutSeparator(a[1..], sep);
      assert [a[0]] + a[1..] == a;
    }
  }

  /** Cutting at the first separator: the text before it is the first piece. */
  lemma {:induction false} SplitAfterSeparator(a: string, sep: char, b: string)
    requires sep !in a
    ensures Split(a + [sep] + b, sep) == [a] + Split(b, sep)
    decreases |a|
  {
    var s := a + [sep] + b;
    if |a| == 0 {
      assert s[0] == sep && s[1..] == b;
    } else {
      assert s[0] == a[0];
      assert s[1..] == a[1..] + [sep] + b;
      SplitAfterSeparator(a[1..], sep, b);
      assert [a[0]] + a[1..] == a;
    }
  }

  /** Splitting undoes joining when no piece holds the separator. */
  lemma {:induction false} SplitJoin(parts: seq<string>, sep: char)
    requires |parts| >= 1
    requires forall i | 0 <= i < |parts| :: sep !in parts[i]
    ensures Split(Join(parts, sep), sep) == parts
    decreases |parts|
  {
    if |parts| == 1 {
      SplitWithoutSeparator(parts[0], sep);
    } else {
      SplitJoin(parts[1..], sep);
      SplitAfterSeparator(parts[0], sep, Join(parts[1..], sep));
      assert [parts[0]] + parts[1..] == parts;
    }
  }

  /** A piece that is the last one sits at the end of the joined string. */
  lemma {:induction false} JoinEndsWithLastPart(parts: seq<string>, sep: char)
    requires |parts| >= 1
    ensures var j, last := Join(parts, sep), parts[|parts| - 1];
            |last| <= |j| && j[|j| - |last|..] == last
    decreases |parts|
  {
    if |parts| > 1 {
      JoinEndsWithLastPart(parts[1..], sep);
      var rest := Join(parts[1..], sep);
      var j := parts[0] + [sep] + rest;
      assert j[|j| - |parts[|parts| - 1]|..] == rest[|rest| - |parts[|parts| - 1]|..];
    }
  }

  // ---------------------------------------------------------------------------
  // Header-value normalisation

  /** The whitespace the Fetch `Headers` object strips from both ends of a value. */
  predicate IsHttpWhitespace(c: char) {
    c == ' ' || c == '\t' || c == '\r' || c == '\n'
  }

  predicate IsTrimmed(s: string) {
    |s| == 0 || (!IsHttpWhitespace(s[0]) && !IsHttpWhitespace(s[|s| - 1]))
  }

  /** How many whitespace characters open the string. */
  function LeadingWhitespace(s: string): (n: nat)
    ensures n <= |s|
    ensures forall i | 0 <= i < n :: IsHttpWhitespace(s[i])
    ensures n < |s| ==> !IsHttpWhitespace(s[n])
  {
    if |s| > 0 && IsHttpWhitespace(s[0]) then
      var m := LeadingWhitespace(s[1..]);
      assert forall i | 1 <= i < m + 1 :: s[i] == s[1..][i - 1];
      m + 1
    else 0
  }

  /** Drops leading whitespace: what is left is a suffix, and only whitespace went. */
  function TrimStart(s: string): (r: string)
    ensures |r| <= |s| && r == s[|s| - |r|..]
    ensures |r| > 0 ==> !IsHttpWhitespace(r[0])
    ensures forall i | 0 <= i < |s| - |r| :: IsHttpWhitespace(s[i])
  {
    s[LeadingWhitespace(s)..]
  }

  /** Drops trailing whitespace: what is left is a prefix, and only whitespace went. */
  function TrimEnd(s: string): (r: string)
    ensures |r| <= |s| && r == s[..|r|]
    ensures |r| > 0 ==> !IsHttpWhitespace(r[|r| - 1])
    ensures forall i | |r| <= i < |s| :: IsHttpWhitespace(s[i])
  {
    if |s| > 0 && IsHttpWhitespace(s[|s| - 1]) then
      var t := s[..|s| - 1];
      var r := TrimEnd(t);
      assert t[..|r|] == s[..|r|];
      r
    else s
  }

  /** A header value as `Headers.get` returns it: whitespace removed from both ends. */
  function Trim(s: string): (r: string)
    ensures IsTrimmed(r)
    ensures IsTrimmed(s) ==> r == s
    // r is what remains of s once its leading and trailing whitespace is cut off
    ensures var k := LeadingWhitespace(s);
            && k + |r| <= |s| && r == s[k..k + |r|]
            && (forall i | 0 <= i < k :: IsHttpWhitespace(s[i]))
            && (forall i | k + |r| <= i < |s| :: IsHttpWhitespace(s[i]))
  {
    var k := LeadingWhitespace(s);
    var t := TrimStart(s);
    var r := TrimEnd(t);
    assert |r| > 0 ==> r[0] == t[0];
    assert IsTrimmed(s) ==> k == 0 && t == s;
    assert |r| < |t| ==> IsHttpWhitespace(t[|t| - 1]);
    TrimmedRun(s, k, t, r);
    r
  }

  /** A prefix of `s[k..]` followed only by whitespace is the run `s[k..k + |r|]` with whitespace after it. */
  lemma TrimmedRun(s: string, k: nat, t: string, r: string)
    requires k <= |s| && t == s[k..]
    requires |r| <= |t| && r == t[..|r|]
    requires forall i | |r| <= i < |t| :: IsHttpWhitespace(t[i])
    ensures k + |r| <= |s| && r == s[k..k + |r|]
    ensures forall i | k + |r| <= i < |s| :: IsHttpWhitespace(s[i])
  {
    forall i | k + |r| <= i < |s|
      ensures IsHttpWhitespace(s[i])
    {
      assert s[i] == t[i - k];
    }
  }
}
