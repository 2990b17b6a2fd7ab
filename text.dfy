/** The few operations of .NET's `System.String` that the Arduino decoder relies on. */
module Text {

  /** .NET's `char.IsWhiteSpace`: the characters `String.Trim()` removes. */
  predicate IsWhiteSpace(c: char): (b: bool)
    ensures c < '\U{80}' ==> (b <==> ('\t' <= c <= '\r') || c == ' ')
    ensures b ==> c != '\0' && !('0' <= c <= '9') && !('A' <= c <= 'Z')
  {
    ('\t' <= c <= '\r') || c == ' ' || c == '\U{85}' || c == '\U{A0}' || c == '\U{1680}'
    || ('\U{2000}' <= c <= '\U{200A}') || c == '\U{2028}' || c == '\U{2029}'
    || c == '\U{202F}' || c == '\U{205F}' || c == '\U{3000}'
  }

  /** Ordinal prefix test, `s.StartsWith(prefix)`. */
  predicate StartsWith(s: string, prefix: string): (b: bool)
    ensures b <==> |prefix| <= |s| && s[..|prefix|] == prefix
  {
    prefix <= s
  }

  /** How many leading characters satisfy `white`. */
  function LeadingWhite(s: string, white: char -> bool): (n: nat)
    ensures n <= |s|
    ensures forall k :: 0 <= k < n ==> white(s[k])
    ensures n == |s| || !white(s[n])
  {
    if s != [] && white(s[0]) then
      var m := LeadingWhite(s[1..], white);
      assert forall k :: 1 <= k < 1 + m ==> s[k] == s[1..][k - 1];
      1 + m
    else 0
  }

  /** How many trailing characters satisfy `white`. */
  function TrailingWhite(s: string, white: char -> bool): (n: nat)
    ensures n <= |s|
    ensures forall k :: |s| - n <= k < |s| ==> white(s[k])
    ensures n == |s| || !white(s[|s| - n - 1])
  {
    if s != [] && white(s[|s| - 1]) then
      var m := TrailingWhite(s[..|s| - 1], white);
      assert forall k :: |s| - 1 - m <= k < |s| - 1 ==> s[k] == s[..|s| - 1][k];
      1 + m
    else 0
  }

  /** Removes leading and trailing characters satisfying `white`; the result neither
      begins nor ends with one. */
  function Strip(s: string, white: char -> bool): (r: string)
    ensures |r| <= |s|
    ensures r == [] || (!white(r[0]) && !white(r[|r| - 1]))
  {
    var t := s[LeadingWhite(s, white)..];
    t[..|t| - TrailingWhite(t, white)]
  }

  /** What `Strip` keeps is the infix of `s` after the leading white run, and everything
      it removes, on either side, satisfies `white`. */
  lemma StripInfix(s: string, white: char -> bool)
    ensures var i, r := LeadingWhite(s, white), Strip(s, white);
      i + |r| <= |s| && r == s[i..i + |r|]
      && (forall k :: 0 <= k < i ==> white(s[k]))
      && (forall k :: i + |r| <= k < |s| ==> white(s[k]))
  {
    var i := LeadingWhite(s, white);
    var t := s[i..];
    var r := Strip(s, white);
    forall k | i + |r| <= k < |s|
      ensures white(s[k])
    {
      assert s[k] == t[k - i];
    }
  }

  /** `s.Trim()`. */
  function Trim(s: string): (r: string)
    ensures |r| <= |s|
    ensures r == [] || (!IsWhiteSpace(r[0]) && !IsWhiteSpace(r[|r| - 1]))
    ensures (s == [] || (!IsWhiteSpace(s[0]) && !IsWhiteSpace(s[|s| - 1]))) ==> r == s
  {
    Strip(s, IsWhiteSpace)
  }

  /** Stripping a string that neither begins nor ends with a white character changes nothing. */
  lemma StripClean(s: string, white: char -> bool)
    requires s == [] || (!white(s[0]) && !white(s[|s| - 1]))
    ensures Strip(s, white) == s
  {
  }

  /** Stripping removes exactly the white padding around a clean, non-empty core. */
  lemma StripPadded(w1: string, core: string, w2: string, white: char -> bool)
    requires forall k :: 0 <= k < |w1| ==> white(w1[k])
    requires forall k :: 0 <= k < |w2| ==> white(w2[k])
    requires core != [] && !white(core[0]) && !white(core[|core| - 1])
    ensures Strip(w1 + core + w2, white) == core
  {
    var s := w1 + core + w2;
    var i := LeadingWhite(s, white);
    assert s[|w1|] == core[0];
    assert i == |w1|;
    var t := s[i..];
    assert t == core + w2;
    var j := TrailingWhite(t, white);
    assert t[|core| - 1] == core[|core| - 1];
    assert j == |w2|;
    assert t[..|t| - j] == core;
  }

  /** Proof helper: sequence concatenation is associative. */
  lemma AppendAssoc<T>(s: seq<T>, t: seq<T>, u: seq<T>)
    ensures (s + t) + u == s + (t + u)
  {
  }

  /** `Trim` is idempotent. */
  lemma TrimIdempotent(s: string)
    ensures Trim(Trim(s)) == Trim(s)
  {
    StripClean(Trim(s), IsWhiteSpace);
  }

  /** `s.Split(sep)`: the pieces between separators, empty pieces kept. */
  function Split(s: string, sep: char): (parts: seq<string>)
    ensures |parts| >= 1
    ensures forall i :: 0 <= i < |parts| ==> sep !in parts[i]
  {
    if s == [] then [[]]
    else
      var rest := Split(s[1..], sep);
      if s[0] == sep then [[]] + rest
      else [[s[0]] + rest[0]] + rest[1..]
  }

  /** `String.Join(sep, parts)`. */
  function Join(parts: seq<string>, sep: char): string
    requires |parts| >= 1
  {
    if |parts| == 1 then parts[0] else parts[0] + [sep] + Join(parts[1..], sep)
  }

  /** Joining the pieces back with the separator gives the original string. */
  lemma {:induction false} JoinSplit(s: string, sep: char)
    ensures Join(Split(s, sep), sep) == s
  {
    if s != [] {
      var rest := Split(s[1..], sep);
      JoinSplit(s[1..], sep);
      if s[0] == sep {
        assert Split(s, sep)[1..] == rest;
      } else {
        var parts := Split(s, sep);
        if |rest| == 1 {
          assert parts == [[s[0]] + rest[0]];
        } else {
          assert parts[1..] == rest[1..];
          assert Join(rest, sep) == rest[0] + [sep] + Join(rest[1..], sep);
        }
      }
    }
  }

  /** The first piece of `w + [sep] + rest` is `w` when `w` holds no separator,
      and the remaining pieces are those of `rest`. */
  lemma {:induction false} SplitAfterWord(w: string, sep: char, rest: string)
    requires sep !in w
    ensures Split(w + [sep] + rest, sep) == [w] + Split(rest, sep)
  {
    if w == [] {
      assert (w + [sep] + rest)[1..] == rest;
    } else {
      assert (w + [sep] + rest)[1..] == w[1..] + [sep] + rest;
      SplitAfterWord(w[1..], sep, rest);
      assert [w[0]] + w[1..] == w;
    }
  }

  /** A string without the separator splits into itself alone. */
  lemma {:induction false} SplitNoSeparator(s: string, sep: char)
    requires sep !in s
    ensures Split(s, sep) == [s]
  {
    if s != [] {
      SplitNoSeparator(s[1..], sep);
      assert [s[0]] + s[1..] == s;
    }
  }
}
