/**
 * JavaScript's `parseFloat` on the radius text, with the result as an
 * `Option<real>`: `None` stands for NaN. The longest prefix that reads as a
 * decimal literal is taken, after leading white space, so trailing text is
 * ignored ("12km" reads as 12).
 */
module Numbers {
  import opened Options

  predicate IsDigit(c: char) { '0' <= c <= '9' }

  function DigitValue(c: char): (d: nat)
    requires IsDigit(c)
    ensures d < 10
  {
    c as int - '0' as int
  }

  predicate AllDigits(d: string) { forall k :: 0 <= k < |d| ==> IsDigit(d[k]) }

  /** The value of a run of decimal digits, most significant first. */
  function DigitsValue(d: string): nat
    requires AllDigits(d)
    decreases |d|
  {
    if d == [] then 0 else 10 * DigitsValue(d[..|d| - 1]) + DigitValue(d[|d| - 1])
  }

  function Pow10(n: nat): (p: nat)
    ensures p >= 1
  {
    if n == 0 then 1 else 10 * Pow10(n - 1)
  }

  /** ECMAScript's WhiteSpace and LineTerminator characters, which `parseFloat` skips. */
  predicate IsWhiteSpace(c: char) {
    || c == '\t' || c == '\n' || c == '\U{000B}' || c == '\U{000C}' || c == '\r' || c == ' '
    || c == '\U{00A0}' || c == '\U{1680}' || ('\U{2000}' <= c <= '\U{200A}')
    || c == '\U{2028}' || c == '\U{2029}' || c == '\U{202F}' || c == '\U{205F}'
    || c == '\U{3000}' || c == '\U{FEFF}'
  }

  /** The first index at or after `i` that is not white space. */
  function SkipWhiteSpace(s: string, i: nat): (j: nat)
    requires i <= |s|
    ensures i <= j <= |s|
    ensures forall k :: i <= k < j ==> IsWhiteSpace(s[k])
    ensures j < |s| ==> !IsWhiteSpace(s[j])
    decreases |s| - i
  {
    if i < |s| && IsWhiteSpace(s[i]) then SkipWhiteSpace(s, i + 1) else i
  }

  /** The first index at or after `i` that is not a digit. */
  function DigitsEnd(s: string, i: nat): (j: nat)
    requires i <= |s|
    ensures i <= j <= |s|
    ensures AllDigits(s[i..j])
    ensures j < |s| ==> !IsDigit(s[j])
    decreases |s| - i
  {
    if i < |s| && IsDigit(s[i]) then
      var j := DigitsEnd(s, i + 1);
      assert s[i..j] == [s[i]] + s[i + 1..j];
      j
    else i
  }

  /** An optional sign at `i`: whether it is '-', and where the unsigned part starts. */
  function Sign(s: string, i: nat): (r: (bool, nat))
    requires i <= |s|
    ensures i <= r.1 <= i + 1 && r.1 <= |s|
  {
    if i < |s| && (s[i] == '-' || s[i] == '+') then (s[i] == '-', i + 1) else (false, i)
  }

  /** The exponent part at `m` (`e` or `E`, a sign, digits) or 0 when there is none. */
  function Exponent(s: string, m: nat): int
    requires m <= |s|
  {
    if m < |s| && (s[m] == 'e' || s[m] == 'E') then
      var (negative, p) := Sign(s, m + 1);
      var q := DigitsEnd(s, p);
      if q == p then 0
      else if negative then -(DigitsValue(s[p..q]) as int) else DigitsValue(s[p..q])
    else 0
  }

  /** A run of `n` digits denotes less than ten to the `n`. */
  lemma {:induction false} DigitsValueBound(d: string)
    requires AllDigits(d)
    ensures DigitsValue(d) < Pow10(|d|)
    decreases |d|
  {
    if d != [] {
      DigitsValueBound(d[..|d| - 1]);
    }
  }

  /** The value of the digits after a decimal point. */
  function FractionValue(f: string): real
    requires AllDigits(f)
  {
    DigitsValue(f) as real / Pow10(|f|) as real
  }

  /** A quotient of a smaller non-negative number by a larger one is in [0, 1), and positive with the numerator. */
  lemma QuotientBelowOne(a: real, b: real)
    requires 0.0 <= a < b
    ensures 0.0 <= a / b < 1.0
    ensures a > 0.0 ==> a / b > 0.0
  {
  }

  /** The digits after a decimal point denote a number in [0, 1), positive unless all digits are zero. */
  lemma FractionRange(f: string)
    requires AllDigits(f)
    ensures 0.0 <= FractionValue(f) < 1.0
    ensures DigitsValue(f) > 0 ==> FractionValue(f) > 0.0
  {
    DigitsValueBound(f);
    QuotientBelowOne(DigitsValue(f) as real, Pow10(|f|) as real);
  }

  /** `x` times ten to the `e`. */
  function Scale(x: real, e: int): real {
    if e >= 0 then x * Pow10(e) as real else x / Pow10(-e) as real
  }

  /** Scaling by ten to the zero changes nothing. */
  lemma ScaleZero(x: real)
    ensures Scale(x, 0) == x
  {
    assert Pow10(0) == 1;
  }

  function ParseFloat(s: string): Option<real> {
    var i := SkipWhiteSpace(s, 0);
    var (negative, j) := Sign(s, i);
    var k := DigitsEnd(s, j);
    var hasPoint := k < |s| && s[k] == '.';
    var m := if hasPoint then DigitsEnd(s, k + 1) else k;
    if k == j && (!hasPoint || m == k + 1) then None
    else
      var fraction := if hasPoint then FractionValue(s[k + 1..m]) else 0.0;
      var magnitude := Scale(DigitsValue(s[j..k]) as real + fraction, Exponent(s, m));
      Some(if negative then -magnitude else magnitude)
  }

  /** The decimal text of a natural number, without leading zeros. */
  function NatString(n: nat): (d: string)
    ensures d != [] && AllDigits(d)
    decreases n
  {
    var last := ['0' + (n % 10) as char];
    if n < 10 then last else NatString(n / 10) + last
  }

  lemma {:induction false} NatStringValue(n: nat)
    ensures DigitsValue(NatString(n)) == n
    decreases n
  {
    if n >= 10 {
      var d := NatString(n);
      assert d[..|d| - 1] == NatString(n / 10);
      NatStringValue(n / 10);
    }
  }

  lemma {:induction false} DigitsEndAt(s: string, i: nat, e: nat)
    requires i <= e <= |s| && AllDigits(s[i..e])
    requires e == |s| || !IsDigit(s[e])
    ensures DigitsEnd(s, i) == e
    decreases e - i
  {
    if i < e {
      assert s[i] == s[i..e][0];
      assert s[i + 1..e] == s[i..e][1..];
      DigitsEndAt(s, i + 1, e);
    }
  }

  /** Text that cannot continue a decimal literal, so `parseFloat` stops in front of it. */
  predicate EndsLiteral(t: string) {
    t == [] || !(IsDigit(t[0]) || t[0] == '.' || t[0] == 'e' || t[0] == 'E')
  }

  /** In a digit run `d` followed by text that cannot continue the literal, the scan reads exactly `d`. */
  lemma DigitsScan(d: string, t: string)
    requires d != [] && AllDigits(d) && EndsLiteral(t)
    ensures var s := d + t;
      && SkipWhiteSpace(s, 0) == 0 && Sign(s, 0) == (false, 0)
      && DigitsEnd(s, 0) == |d| && s[0..|d|] == d
      && !(|d| < |s| && s[|d|] == '.') && Exponent(s, |d|) == 0
  {
    var s := d + t;
    assert s[0] == d[0];
    assert s[0..|d|] == d;
    assert |d| < |s| ==> s[|d|] == t[0];
    DigitsEndAt(s, 0, |d|);
  }

  /** A digit run followed by text that cannot continue the literal reads as the run's value. */
  lemma ParseDigits(d: string, t: string)
    requires d != [] && AllDigits(d) && EndsLiteral(t)
    ensures ParseFloat(d + t) == Some(DigitsValue(d) as real)
  {
    DigitsScan(d, t);
    ScaleZero(DigitsValue(d) as real + 0.0);
  }

  /** The digits of `n`, followed by text that cannot continue the literal, read as `n`. */
  lemma ParseNatString(n: nat, t: string)
    requires EndsLiteral(t)
    ensures ParseFloat(NatString(n) + t) == Some(n as real)
  {
    ParseDigits(NatString(n), t);
    NatStringValue(n);
  }

  /** A minus sign in front of the digits of `n` reads as `-n`. */
  lemma ParseNegativeNatString(n: nat)
    ensures ParseFloat("-" + NatString(n)) == Some(-(n as real))
  {
    var d := NatString(n);
    var s := "-" + d;
    assert SkipWhiteSpace(s, 0) == 0 && Sign(s, 0) == (true, 1) by {
      assert !IsWhiteSpace(s[0]);
    }
    assert DigitsEnd(s, 1) == |s| && s[1..|s|] == d by {
      assert s[1..|s|] == d;
      DigitsEndAt(s, 1, |s|);
    }
    NatStringValue(n);
    assert Exponent(s, |s|) == 0;
    ScaleZero(n as real + 0.0);
  }

  /** In `d.f` followed by `t`, the integer digits are `d` and nothing precedes them. */
  lemma IntegerPartScan(d: string, f: string, t: string)
    requires d != [] && AllDigits(d)
    ensures var s := d + "." + f + t;
      && SkipWhiteSpace(s, 0) == 0 && Sign(s, 0) == (false, 0)
      && DigitsEnd(s, 0) == |d| && s[0..|d|] == d && s[|d|] == '.'
  {
    var s := d + "." + f + t;
    assert s[0] == d[0];
    assert s[0..|d|] == d && s[|d|] == '.';
    DigitsEndAt(s, 0, |d|);
  }

  /** In `d.f` followed by text that cannot continue the literal, the fraction digits are `f` and no exponent follows. */
  lemma FractionPartScan(d: string, f: string, t: string)
    requires f != [] && AllDigits(f) && EndsLiteral(t)
    ensures var s := d + "." + f + t; var m := |d| + 1 + |f|;
      && DigitsEnd(s, |d| + 1) == m && Exponent(s, m) == 0 && s[|d| + 1..m] == f
  {
    var s := d + "." + f + t;
    var m := |d| + 1 + |f|;
    assert s[m..] == t;
    assert Exponent(s, m) == 0 by {
      assert m < |s| ==> s[m] == t[0];
    }
    assert DigitsEnd(s, |d| + 1) == m by {
      assert s[|d| + 1..m] == f;
      assert m < |s| ==> s[m] == t[0];
      DigitsEndAt(s, |d| + 1, m);
    }
  }

  /**
   * The digits of `n`, a point and the fraction digits `f`, followed by text
   * that cannot continue the literal, read as `n` plus `f` scaled down by its length.
   */
  lemma ParseDecimal(n: nat, f: string, t: string)
    requires f != [] && AllDigits(f) && EndsLiteral(t)
    ensures ParseFloat(NatString(n) + "." + f + t) == Some(n as real + FractionValue(f))
  {
    var d := NatString(n);
    IntegerPartScan(d, f, t);
    FractionPartScan(d, f, t);
    NatStringValue(n);
    assert Scale(n as real + FractionValue(f), 0) == n as real + FractionValue(f);
  }

  /** In `d` `e` `x` followed by text that cannot continue the literal, the exponent is `x`'s value. */
  lemma ExponentPartScan(d: string, x: string, t: string)
    requires x != [] && AllDigits(x) && EndsLiteral(t)
    ensures var s := d + "e" + x + t;
      s[|d|] == 'e' && Exponent(s, |d|) == DigitsValue(x)
  {
    var s := d + "e" + x + t;
    var q := |d| + 1 + |x|;
    assert s[|d|] == 'e' && s[|d| + 1..q] == x;
    assert Sign(s, |d| + 1) == (false, |d| + 1) by {
      assert s[|d| + 1] == x[0];
    }
    assert DigitsEnd(s, |d| + 1) == q by {
      assert q < |s| ==> s[q] == t[0];
      DigitsEndAt(s, |d| + 1, q);
    }
  }

  /** In `d` `e` `x` followed by text that cannot continue the literal, the digits are `d` and the exponent is `x`'s value. */
  lemma ExponentScan(d: string, x: string, t: string)
    requires d != [] && AllDigits(d) && x != [] && AllDigits(x) && EndsLiteral(t)
    ensures var s := d + "e" + x + t;
      && SkipWhiteSpace(s, 0) == 0 && Sign(s, 0) == (false, 0)
      && DigitsEnd(s, 0) == |d| && s[0..|d|] == d && s[|d|] == 'e'
      && Exponent(s, |d|) == DigitsValue(x)
  {
    var s := d + "e" + x + t;
    ExponentPartScan(d, x, t);
    assert s[0..|d|] == d;
    assert SkipWhiteSpace(s, 0) == 0 && Sign(s, 0) == (false, 0) by {
      assert s[0] == d[0];
    }
    DigitsEndAt(s, 0, |d|);
  }

  /** A digit run, an `e` and an exponent digit run, followed by text that cannot continue the literal. */
  lemma ParseDigitsExponent(d: string, x: string, t: string)
    requires d != [] && AllDigits(d) && x != [] && AllDigits(x) && EndsLiteral(t)
    ensures ParseFloat(d + "e" + x + t) == Some(Scale(DigitsValue(d) as real, DigitsValue(x)))
  {
    var s := d + "e" + x + t;
    ExponentScan(d, x, t);
    assert Scale(DigitsValue(s[0..|d|]) as real + 0.0, Exponent(s, |d|)) == Scale(DigitsValue(d) as real, DigitsValue(x));
  }

  /**
   * The digits of `n`, an `e` and the digits of `x`, followed by text that
   * cannot continue the literal, read as `n` times ten to the `x`.
   */
  lemma ParseExponent(n: nat, x: nat, t: string)
    requires EndsLiteral(t)
    ensures ParseFloat(NatString(n) + "e" + NatString(x) + t) == Some(Scale(n as real, x))
  {
    ParseDigitsExponent(NatString(n), NatString(x), t);
    NatStringValue(n);
    NatStringValue(x);
  }
}
