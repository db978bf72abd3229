/**
 * Character-level helpers shared by the validators and by the JavaScript
 * conversions the client relies on: white space as `String.prototype.trim`
 * strips it, decimal digits, the decimal rendering of an integer (`${n}`,
 * `String(n)`), and `Number(s)` restricted to integer literals.
 */
module Text {
  import opened Options

  /** ECMAScript WhiteSpace and LineTerminator code points: what `trim()` removes. */
  predicate IsWhitespace(c: char) {
    || c == '\t' || c == '\n' || c == '\U{000B}' || c == '\U{000C}' || c == '\r' || c == ' '
    || c == '\U{00A0}' || c == '\U{1680}' || ('\U{2000}' <= c <= '\U{200A}')
    || c == '\U{2028}' || c == '\U{2029}' || c == '\U{202F}' || c == '\U{205F}'
    || c == '\U{3000}' || c == '\U{FEFF}'
  }

  predicate AllWhitespace(s: string) {
    forall i :: 0 <= i < |s| ==> IsWhitespace(s[i])
  }

  /** `s` without its leading white space: the longest suffix that does not start with white space. */
  function TrimStart(s: string): (r: string)
    ensures |r| <= |s| && r == s[|s| - |r|..]
    ensures AllWhitespace(s[..|s| - |r|])
    ensures |r| > 0 ==> !IsWhitespace(r[0])
  {
    if |s| > 0 && IsWhitespace(s[0]) then
      var r := TrimStart(s[1..]);
      assert s[..|s| - |r|] == [s[0]] + s[1..][..|s[1..]| - |r|];
      r
    else
      s
  }

  /** `s` without its trailing white space: the longest prefix that does not end with white space. */
  function TrimEnd(s: string): (r: string)
    ensures |r| <= |s| && r == s[..|r|]
    ensures AllWhitespace(s[|r|..])
    ensures |r| > 0 ==> !IsWhitespace(r[|r| - 1])
  {
    if |s| > 0 && IsWhitespace(s[|s| - 1]) then
      var r := TrimEnd(s[..|s| - 1]);
      assert s[|r|..] == s[..|s| - 1][|r|..] + [s[|s| - 1]];
      r
    else
      s
  }

  /** `r` is the slice `s[i..j]`, and everything of `s` outside that slice is white space. */
  ghost predicate TrimmedAt(s: string, r: string, i: int, j: int) {
    0 <= i <= j <= |s| && r == s[i..j] && AllWhitespace(s[..i]) && AllWhitespace(s[j..])
  }

  /** `s.trim()`: the slice of `s` between its leading and its trailing white space. */
  function Trim(s: string): (r: string)
    ensures exists i, j :: TrimmedAt(s, r, i, j)
    ensures |r| == 0 <==> AllWhitespace(s)
    ensures |r| > 0 ==> !IsWhitespace(r[0]) && !IsWhitespace(r[|r| - 1])
  {
    var t := TrimStart(s);
    var r := TrimEnd(t);
    var k := |s| - |t|;
    TrimmedPieces(s, t, r);
    AllWhitespaceSplit(s, k);
    assert t[|r|..] == t || |r| > 0;
    r
  }

  /** Stripping a white-space prefix and then a white-space suffix leaves a slice surrounded by white space. */
  lemma TrimmedPieces(s: string, t: string, r: string)
    requires |t| <= |s| && t == s[|s| - |t|..] && AllWhitespace(s[..|s| - |t|])
    requires |r| <= |t| && r == t[..|r|] && AllWhitespace(t[|r|..])
    ensures TrimmedAt(s, r, |s| - |t|, |s| - |t| + |r|)
  {
    var k := |s| - |t|;
    assert s[k + |r|..] == t[|r|..];
    assert s[k..k + |r|] == r;
  }

  /** A string is all white space exactly when both pieces of any split are. */
  lemma AllWhitespaceSplit(s: string, k: nat)
    requires k <= |s|
    ensures AllWhitespace(s) <==> AllWhitespace(s[..k]) && AllWhitespace(s[k..])
  {
    assert forall i :: 0 <= i < k ==> s[..k][i] == s[i];
    assert forall i :: k <= i < |s| ==> s[k..][i - k] == s[i];
  }

  lemma {:induction false} TrimStartOfWhitespacePrefix(a: string, s: string)
    requires AllWhitespace(a)
    ensures TrimStart(a + s) == TrimStart(s)
    decreases |a|
  {
    if |a| > 0 {
      assert (a + s)[1..] == a[1..] + s;
      TrimStartOfWhitespacePrefix(a[1..], s);
    } else {
      assert a + s == s;
    }
  }

  lemma {:induction false} TrimEndOfWhitespaceSuffix(s: string, b: string)
    requires AllWhitespace(b)
    ensures TrimEnd(s + b) == TrimEnd(s)
    decreases |b|
  {
    if |b| > 0 {
      assert (s + b)[..|s + b| - 1] == s + b[..|b| - 1];
      TrimEndOfWhitespaceSuffix(s, b[..|b| - 1]);
    } else {
      assert s + b == s;
    }
  }

  /** Removing leading white space commutes with appending: only the front of `s` matters. */
  lemma {:induction false} TrimStartOfAppend(s: string, b: string)
    requires !AllWhitespace(s)
    ensures TrimStart(s + b) == TrimStart(s) + b
    decreases |s|
  {
    assert |s| > 0;
    if IsWhitespace(s[0]) {
      assert (s + b)[1..] == s[1..] + b;
      assert !AllWhitespace(s[1..]) by {
        var i :| 0 <= i < |s| && !IsWhitespace(s[i]);
        assert s[1..][i - 1] == s[i];
      }
      TrimStartOfAppend(s[1..], b);
    }
  }

  /** Trimming ignores any white space placed around the value. */
  lemma TrimIgnoresSurroundingWhitespace(a: string, s: string, b: string)
    requires AllWhitespace(a) && AllWhitespace(b)
    ensures Trim(a + s + b) == Trim(s)
  {
    var whole := a + (s + b);
    assert a + s + b == whole;
    if AllWhitespace(s) {
      assert (s + b)[..|s|] == s && (s + b)[|s|..] == b;
      AllWhitespaceSplit(s + b, |s|);
      assert whole[..|a|] == a && whole[|a|..] == s + b;
      AllWhitespaceSplit(whole, |a|);
    } else {
      TrimStartOfWhitespacePrefix(a, s + b);
      TrimStartOfAppend(s, b);
      TrimEndOfWhitespaceSuffix(TrimStart(s), b);
      assert Trim(whole) == TrimEnd(TrimStart(s) + b);
    }
  }

  /** A trimmed value is left alone by a second trim. */
  lemma TrimIdempotent(s: string)
    ensures Trim(Trim(s)) == Trim(s)
  {
    var r := Trim(s);
    if |r| > 0 {
      assert TrimStart(r) == r;
      assert TrimEnd(r) == r;
    }
  }

  lemma TrimOfTrimmed(s: string)
    requires |s| > 0 && !IsWhitespace(s[0]) && !IsWhitespace(s[|s| - 1])
    ensures Trim(s) == s
  {
    assert TrimStart(s) == s;
    assert TrimEnd(s) == s;
  }

  predicate IsDigit(c: char) {
    '0' <= c <= '9'
  }

  predicate AllDigits(s: string) {
    forall i :: 0 <= i < |s| ==> IsDigit(s[i])
  }

  function DigitValue(c: char): nat
    requires IsDigit(c)
  {
    (c as int) - ('0' as int)
  }

  function DigitChar(d: nat): (c: char)
    requires d < 10
    ensures IsDigit(c) && DigitValue(c) == d
  {
    (('0' as int) + d) as char
  }

  /** The decimal digits of `n`, most significant first, with no leading zero. */
  function NatDigits(n: nat): (r: string)
    ensures |r| > 0 && AllDigits(r)
    ensures |r| > 1 ==> r[0] != '0'
    decreases n
  {
    if n < 10 then [DigitChar(n)] else NatDigits(n / 10) + [DigitChar(n % 10)]
  }

  /** The value of a numeral made of decimal digits. */
  function DigitsValue(s: string): nat
    requires AllDigits(s)
  {
    if |s| == 0 then 0 else DigitsValue(s[..|s| - 1]) * 10 + DigitValue(s[|s| - 1])
  }

  /** Reading back the digits of `n` gives `n`. */
  lemma {:induction false} DigitsValueOfNatDigits(n: nat)
    ensures DigitsValue(NatDigits(n)) == n
    decreases n
  {
    if n >= 10 {
      DigitsValueOfNatDigits(n / 10);
      var r := NatDigits(n);
      assert r[..|r| - 1] == NatDigits(n / 10);
    }
  }

  /** `${n}` / `String(n)` for an integer `n`: an optional minus sign, then the digits of |n|. */
  function DecimalString(n: int): (r: string)
    ensures |r| > 0 && IsDigit(r[|r| - 1])
    ensures r[0] == '-' <==> n < 0
    ensures forall i :: 0 < i < |r| ==> IsDigit(r[i])
    ensures IsDigit(r[0]) || r[0] == '-'
  {
    if n < 0 then "-" + NatDigits(-n) else NatDigits(n)
  }

  /** A digit string has no surrounding whitespace to trim. */
  lemma TrimOfDigits(s: string)
    ensures |s| > 0 && AllDigits(s) ==> Trim(s) == s
  {
    if |s| > 0 && AllDigits(s) {
      TrimOfTrimmed(s);
    }
  }

  /** An optionally signed run of decimal digits, or `None`. */
  function SignedDigits(t: string): (r: Option<int>)
    ensures |t| > 0 && AllDigits(t) ==> r == Some(DigitsValue(t))
  {
    if |t| > 1 && (t[0] == '-' || t[0] == '+') && AllDigits(t[1..]) then
      var v: int := DigitsValue(t[1..]);
      Some(if t[0] == '-' then -v else v)
    else if AllDigits(t) then Some(DigitsValue(t))
    else None
  }

  /**
   * `Number(s)` for the integer literals the client feeds it: surrounding white
   * space is ignored, a blank string is 0, an optional sign may precede the
   * digits, and anything else is NaN (`None`).
   */
  function ParseInteger(s: string): (r: Option<int>)
    ensures AllWhitespace(s) ==> r == Some(0)
    ensures |s| > 0 && AllDigits(s) ==> r == Some(DigitsValue(s))
  {
    TrimOfDigits(s);
    var t := Trim(s);
    if |t| == 0 then Some(0) else SignedDigits(t)
  }

  /** `Number(String(n)) == n`: the decimal rendering of an integer reads back as that integer. */
  lemma {:induction false} ParseDecimalString(n: int)
    ensures ParseInteger(DecimalString(n)) == Some(n)
  {
    var r := DecimalString(n);
    TrimOfTrimmed(r);
    assert ParseInteger(r) == SignedDigits(r);
    SignedDigitsOfDecimal(n);
  }

  /** The sign and digits of a rendered integer read back as that integer. */
  lemma {:induction false} SignedDigitsOfDecimal(n: int)
    ensures SignedDigits(DecimalString(n)) == Some(n)
  {
    var r := DecimalString(n);
    if n < 0 {
      assert r[1..] == NatDigits(-n);
      DigitsValueOfNatDigits(-n);
    } else {
      DigitsValueOfNatDigits(n);
    }
  }

  /** Distinct integers render differently. */
  lemma DecimalStringInjective(m: int, n: int)
    requires DecimalString(m) == DecimalString(n)
    ensures m == n
  {
    ParseDecimalString(m);
    ParseDecimalString(n);
  }
}
