/** `int.TryParse` / `int.Parse` for the default `NumberStyles.Integer` with the
    invariant culture's signs, and `int.ToString()` as its partner. */
module NumberParsing {
  import opened Int32
  import opened Text

  datatype Option<T> = None | Some(value: T)

  predicate IsDigit(c: char) {
    '0' <= c <= '9'
  }

  predicate AllDigits(s: string) {
    forall i :: 0 <= i < |s| ==> IsDigit(s[i])
  }

  /** The value of a string of decimal digits, most significant first. */
  function DigitsValue(s: string): nat
    requires AllDigits(s)
  {
    if s == [] then 0 else 10 * DigitsValue(s[..|s| - 1]) + (s[|s| - 1] as int - '0' as int)
  }

  /** White space that `NumberStyles.AllowLeadingWhite`/`AllowTrailingWhite` accept:
      U+0009 to U+000D and the space. */
  predicate IsNumberWhite(c: char) {
    ('\t' <= c <= '\r') || c == ' '
  }

  /** An optional `-` or `+` followed by at least one digit, within the `int` range. */
  function SignedValue(t: string): (r: Option<int>)
    ensures r.Some? ==> IsInt32(r.value)
    ensures r.Some? ==> |t| > 0 && (IsDigit(t[0]) || (|t| > 1 && (t[0] == '-' || t[0] == '+')))
    ensures r.Some? ==> forall k :: 0 < k < |t| ==> IsDigit(t[k])
  {
    var negative := t != [] && t[0] == '-';
    var digits := if t != [] && (t[0] == '-' || t[0] == '+') then t[1..] else t;
    if digits == [] || !AllDigits(digits) then None
    else
      var v: int := if negative then 0 - (DigitsValue(digits) as int) else DigitsValue(digits);
      if IsInt32(v) then Some(v) else None
  }

  /** `int.TryParse(s, out v)`: `Some(v)` on success, `None` where it returns false.
      `int.Parse(s)` accepts exactly the same strings and throws where this is `None`. */
  function TryParseInt32(s: string): (r: Option<int>)
    ensures r.Some? ==> IsInt32(r.value)
  {
    SignedValue(Strip(s, IsNumberWhite))
  }

  function DigitChar(d: nat): (c: char)
    requires d < 10
    ensures IsDigit(c) && c as int - '0' as int == d
  {
    ('0' as int + d) as char
  }

  /** Decimal rendering of a natural number, without leading zeros. */
  function ShowNat(n: nat): (s: string)
    ensures s != [] && AllDigits(s) && DigitsValue(s) == n
    ensures n >= 10 ==> s[0] != '0'
  {
    if n < 10 then [DigitChar(n)]
    else
      var s := ShowNat(n / 10) + [DigitChar(n % 10)];
      assert s[..|s| - 1] == ShowNat(n / 10);
      assert s[0] == ShowNat(n / 10)[0];
      s
  }

  /** `n.ToString()` under the invariant culture. */
  function Show(n: int): string {
    if n < 0 then "-" + ShowNat(-n) else ShowNat(n)
  }

  /** Every `int` survives rendering and parsing back. */
  lemma ParseShow(n: int)
    requires IsInt32(n)
    ensures TryParseInt32(Show(n)) == Some(n)
  {
    var s := Show(n);
    StripClean(s, IsNumberWhite);
    if n < 0 {
      assert s[1..] == ShowNat(-n);
    }
  }

  /** A number outside the `int` range is rejected, so `int.TryParse` returns false and
      `int.Parse` throws. */
  lemma RejectsOverflow(n: int)
    requires !IsInt32(n)
    ensures TryParseInt32(Show(n)) == None
  {
    var s := Show(n);
    StripClean(s, IsNumberWhite);
    if n < 0 {
      assert s[1..] == ShowNat(-n);
    }
  }

  /** The value an optional sign and a run of digits stand for. */
  function SignedDigits(sign: string, digits: string): int
    requires AllDigits(digits)
  {
    if sign == "-" then 0 - (DigitsValue(digits) as int) else DigitsValue(digits)
  }

  /** Proof helper: `SignedValue` reads an optional sign followed by digits. */
  lemma SignThenDigits(sign: string, digits: string)
    requires sign == "" || sign == "+" || sign == "-"
    requires digits != [] && AllDigits(digits)
    ensures var v := SignedDigits(sign, digits);
      SignedValue(sign + digits) == if IsInt32(v) then Some(v) else None
  {
    if sign != "" {
      assert (sign + digits)[1..] == digits;
    } else {
      assert sign + digits == digits;
      assert IsDigit(digits[0]);
    }
  }

  /** Leading and trailing number white space, a `+` and leading zeros are all accepted:
      the parse depends only on the sign and the value of the digits. */
  lemma ParseNonCanonical(w1: string, sign: string, digits: string, w2: string)
    requires forall k :: 0 <= k < |w1| ==> IsNumberWhite(w1[k])
    requires forall k :: 0 <= k < |w2| ==> IsNumberWhite(w2[k])
    requires sign == "" || sign == "+" || sign == "-"
    requires digits != [] && AllDigits(digits)
    ensures var v := SignedDigits(sign, digits);
      TryParseInt32(w1 + sign + digits + w2) == if IsInt32(v) then Some(v) else None
  {
    var core := sign + digits;
    assert w1 + sign + digits + w2 == w1 + core + w2;
    assert Strip(w1 + core + w2, IsNumberWhite) == core by {
      assert core[|core| - 1] == digits[|digits| - 1];
      assert core[0] == if sign == "" then digits[0] else sign[0];
      StripPadded(w1, core, w2, IsNumberWhite);
    }
    SignThenDigits(sign, digits);
  }

  /** The shape `NumberStyles.Integer` accepts: number white space, an optional sign, at
      least one digit, number white space. */
  predicate NumberShape(w1: string, sign: string, digits: string, w2: string) {
    (forall k :: 0 <= k < |w1| ==> IsNumberWhite(w1[k]))
    && (forall k :: 0 <= k < |w2| ==> IsNumberWhite(w2[k]))
    && (sign == "" || sign == "+" || sign == "-")
    && digits != [] && AllDigits(digits)
  }

  /** Proof helper: a string `SignedValue` accepts is an optional sign and digits. */
  lemma SignedParts(t: string) returns (sign: string, digits: string)
    requires SignedValue(t).Some?
    ensures sign == "" || sign == "+" || sign == "-"
    ensures digits != [] && AllDigits(digits) && t == sign + digits
    ensures SignedValue(t) == Some(SignedDigits(sign, digits))
  {
    sign := if t[0] == '-' || t[0] == '+' then t[..1] else "";
    digits := t[|sign|..];
    assert t == sign + digits;
    assert forall k :: 0 <= k < |digits| ==> digits[k] == t[|sign| + k];
  }

  /** Proof helper: a string is its stripped core between two runs of number white space. */
  lemma PaddedParts(s: string) returns (w1: string, w2: string)
    ensures forall k :: 0 <= k < |w1| ==> IsNumberWhite(w1[k])
    ensures forall k :: 0 <= k < |w2| ==> IsNumberWhite(w2[k])
    ensures s == w1 + Strip(s, IsNumberWhite) + w2
  {
    var i := LeadingWhite(s, IsNumberWhite);
    var t := Strip(s, IsNumberWhite);
    StripInfix(s, IsNumberWhite);
    w1 := s[..i];
    w2 := s[i + |t|..];
    assert s == w1 + t + w2;
    assert forall k :: 0 <= k < |w2| ==> w2[k] == s[i + |t| + k];
  }

  /** The converse of `ParseNonCanonical`: only strings of the accepted shape parse, and
      they parse to the signed value of their digits. */
  lemma ParseAcceptsOnlyNumbers(s: string)
    requires TryParseInt32(s).Some?
    ensures exists w1, sign, digits, w2 ::
              NumberShape(w1, sign, digits, w2) && s == w1 + sign + digits + w2
              && TryParseInt32(s) == Some(SignedDigits(sign, digits))
  {
    var t := Strip(s, IsNumberWhite);
    var w1, w2 := PaddedParts(s);
    var sign, digits := SignedParts(t);
    assert NumberShape(w1, sign, digits, w2);
    assert s == w1 + sign + digits + w2 by {
      AppendAssoc(w1, sign, digits);
    }
  }

  /** A sign inside the digits is rejected: `"1-2"` is not 12. */
  lemma ExampleInnerSign(s: string)
    requires s == "1-2"
    ensures TryParseInt32(s) == None
  {
    StripClean(s, IsNumberWhite);
    assert !IsDigit(s[1]);
  }

  /** `" +05 "` parses as 5. */
  lemma ExamplePadded(s: string)
    requires s == " +05 "
    ensures TryParseInt32(s) == Some(5)
  {
    assert s == " " + "+" + "05" + " ";
    assert DigitsValue("05") == 5 by {
      assert "05"[..1] == "0";
    }
    ParseNonCanonical(" ", "+", "05", " ");
  }

  /** A character that is neither a digit, a sign nor number white space makes the parse fail. */
  lemma RejectsForeign(s: string, k: nat)
    requires k < |s| && !IsDigit(s[k]) && !IsNumberWhite(s[k]) && s[k] != '-' && s[k] != '+'
    ensures TryParseInt32(s) == None
  {
    var t := Strip(s, IsNumberWhite);
    var i := LeadingWhite(s, IsNumberWhite);
    StripInfix(s, IsNumberWhite);
    assert i <= k < i + |t|;
    var j := k - i;
    assert t[j] == s[k];
    if t[0] == '-' || t[0] == '+' {
      assert j > 0 && t[1..][j - 1] == s[k];
    }
  }

  /** The empty string and a lone sign are not numbers. */
  lemma RejectsEmpty(s: string)
    requires |s| == 0 || (|s| == 1 && (s[0] == '-' || s[0] == '+'))
    ensures TryParseInt32(s) == None
  {
    StripClean(s, IsNumberWhite);
    if s != [] {
      assert s[1..] == [];
    }
  }
}
