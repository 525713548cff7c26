/**
 * JavaScript numbers as the pipeline observes them, and the conversions it uses:
 * `parseFloat`, `parseInt(s, 16)` and `parseFloat(x.toFixed(2))`. Finite values are
 * exact reals; the rounding of IEEE doubles is not modelled.
 */
module JsNumbers {
  import opened Wrappers
  import opened JsStrings

  /** A JavaScript number: a finite value, one of the two infinities, or NaN. */
  datatype Num = Finite(value: real) | PosInfinity | NegInfinity | NaN

  function DigitValue(c: char): (d: nat)
    requires IsDigit(c)
    ensures d < 10
  {
    c as int - '0' as int
  }

  /** The value of a string of decimal digits (0 for the empty string). */
  function DigitsValue(ds: string): nat
    requires AllSatisfy(ds, IsDigit)
  {
    if ds == [] then 0 else 10 * DigitsValue(ds[..|ds| - 1]) + DigitValue(ds[|ds| - 1])
  }

  /** The exponent `e[+-]digits` at the head of `s`, if one is there. */
  function ExponentPrefix(s: string): Option<int> {
    if s == [] || (s[0] != 'e' && s[0] != 'E') then None
    else
      var t := s[1..];
      var neg := t != [] && t[0] == '-';
      var u := if t != [] && (t[0] == '-' || t[0] == '+') then t[1..] else t;
      var n := SpanLength(u, IsDigit);
      if n == 0 then None
      else
        var magnitude: int := DigitsValue(u[..n]);
        Some(if neg then -magnitude else magnitude)
  }

  /** `m * 10^e`, one power of ten at a time. */
  function Scale(m: real, e: int): real
    decreases if e >= 0 then e else -e
  {
    if e == 0 then m
    else if e > 0 then 10.0 * Scale(m, e - 1)
    else Scale(m, e + 1) / 10.0
  }

  /** The longest unsigned decimal literal at the head of `u` (digits, an optional
      fraction and an optional exponent) and its value, if there is one. */
  function DecimalPrefix(u: string): Option<real> {
    var i := SpanLength(u, IsDigit);
    var rest := u[i..];
    var dot := rest != [] && rest[0] == '.';
    var f := if dot then SpanLength(rest[1..], IsDigit) else 0;
    if i + f == 0 then None
    else Some(LiteralValue(u[..i], if dot then rest[1..][..f] else [], if dot then rest[1 + f..] else rest))
  }

  /** The value of a literal with whole digits `w` and fraction digits `fd`,
      scaled by the exponent at the head of `after` when there is one. */
  function LiteralValue(w: string, fd: string, after: string): real
    requires AllSatisfy(w, IsDigit) && AllSatisfy(fd, IsDigit)
  {
    var mantissa := DigitsValue(w) as real + (if fd == [] then 0.0 else FractionValue(fd));
    match ExponentPrefix(after)
    case None => mantissa
    case Some(e) => Scale(mantissa, e)
  }


  /** The value of the digits after a decimal point: the first digit counts
      tenths, the next hundredths, and so on (`ds / 10^|ds|`). */
  function FractionValue(ds: string): real
    requires AllSatisfy(ds, IsDigit)
  {
    if ds == [] then 0.0 else (DigitValue(ds[0]) as real + FractionValue(ds[1..])) / 10.0
  }

  /** `u` begins with the word `Infinity`. */
  predicate StartsWithInfinity(u: string) {
    && |u| >= 8 && u[0] == 'I' && u[1] == 'n' && u[2] == 'f' && u[3] == 'i'
    && u[4] == 'n' && u[5] == 'i' && u[6] == 't' && u[7] == 'y'
  }

  /** `parseFloat(s)`: leading white space is skipped, then the longest prefix that
      is a signed decimal literal or `Infinity` is read; NaN when there is none. */
  function ParseFloat(s: string): (r: Num)
    ensures r != NaN ==> SpanLength(s, IsSpace) < |s|
  {
    ParseNumber(s[SpanLength(s, IsSpace)..])
  }

  /** `parseFloat` once the leading white space is gone: an optional sign, then
      `Infinity` or a decimal literal. */
  function ParseNumber(t: string): (r: Num)
    ensures r != NaN ==> t != []
  {
    var neg := t != [] && t[0] == '-';
    var u := if t != [] && (t[0] == '-' || t[0] == '+') then t[1..] else t;
    if StartsWithInfinity(u) then (if neg then NegInfinity else PosInfinity)
    else
      match DecimalPrefix(u)
      case None => NaN
      case Some(v) => Finite(if neg then -v else v)
  }

  lemma {:induction false} DigitsValueOfDecimal(n: nat)
    ensures DigitsValue(DecimalString(n)) == n
  {
    if n >= 10 {
      DigitsValueOfDecimal(n / 10);
      var s := DecimalString(n);
      assert s[..|s| - 1] == DecimalString(n / 10);
    }
  }

  /** Reading back the decimal form of a natural number gives that number. */
  lemma ParseFloatOfDecimal(n: nat)
    ensures ParseFloat(DecimalString(n)) == Finite(n as real)
  {
    var s := DecimalString(n);
    assert SpanLength(s, IsSpace) == 0;
    assert s[0..] == s;
    DecimalPrefixOfDigits(s);
    DigitsValueOfDecimal(n);
  }

  lemma DecimalPrefixOfDigits(ds: string)
    requires ds != [] && AllSatisfy(ds, IsDigit)
    ensures DecimalPrefix(ds) == Some(DigitsValue(ds) as real)
  {
    assert SpanLength(ds, IsDigit) == |ds|;
    assert ds[..|ds|] == ds;
    assert ExponentPrefix([]) == None;
  }

  /** `-` followed by a digit is read as the negated decimal prefix. */
  lemma ParseFloatOfNegated(u: string)
    requires u != [] && IsDigit(u[0])
    ensures DecimalPrefix(u).Some? && ParseFloat("-" + u) == Finite(-DecimalPrefix(u).value)
  {
    DecimalPrefixOfDigit(u);
    ParseFloatWithoutSpace("-" + u);
    var s := "-" + u;
    assert s[1..] == u;
    assert !StartsWithInfinity(u);
  }

  /** A string that does not start with white space is read by `ParseNumber` as it is. */
  lemma ParseFloatWithoutSpace(s: string)
    requires s != [] && !IsSpace(s[0])
    ensures ParseFloat(s) == ParseNumber(s)
  {
    assert SpanLength(s, IsSpace) == 0 && s[0..] == s;
  }

  /** A string starting with a digit has a decimal prefix. */
  lemma DecimalPrefixOfDigit(u: string)
    requires u != [] && IsDigit(u[0])
    ensures DecimalPrefix(u).Some?
  {
    assert SpanLength(u, IsDigit) > 0;
  }


  /** `parseFloat(String(i))` is `i` for every integer, negative ones included. */
  lemma ParseFloatOfIntString(i: int)
    ensures ParseFloat(IntToString(i)) == Finite(i as real)
  {
    if i < 0 {
      var ds := DecimalString(-i);
      assert IntToString(i) == "-" + ds;
      ParseFloatOfNegated(ds);
      DecimalPrefixOfDigits(ds);
      DigitsValueOfDecimal(-i);
      assert DecimalPrefix(ds).value == (-i) as real;
    } else {
      ParseFloatOfDecimal(i);
    }
  }



  /** `parseFloat` ignores leading white space. */
  lemma ParseFloatSkipsSpace(c: char, s: string)
    requires IsSpace(c)
    ensures ParseFloat([c] + s) == ParseFloat(s)
  {
    var cs := [c] + s;
    assert cs[1..] == s;
    var k := SpanLength(s, IsSpace);
    assert SpanLength(cs, IsSpace) == 1 + k;
    assert cs[1 + k..] == s[k..];
  }

  /** A string whose first non-blank character cannot start a number reads as NaN. */
  lemma ParseFloatNaN(s: string)
    requires SpanLength(s, IsSpace) < |s|
    requires var c := s[SpanLength(s, IsSpace)]; !IsDigit(c) && c != '.' && c != '+' && c != '-' && c != 'I'
    ensures ParseFloat(s) == NaN
  {
    DecimalPrefixNone(s[SpanLength(s, IsSpace)..]);
  }

  lemma DecimalPrefixNone(u: string)
    requires u != [] && !IsDigit(u[0]) && u[0] != '.'
    ensures DecimalPrefix(u) == None
  {
    assert SpanLength(u, IsDigit) == 0;
    assert u[0..] == u;
  }

  // ------------------------------------------------------ decimal numerals

  predicate IsDigitOrDot(c: char) { IsDigit(c) || c == '.' }

  /** A decimal numeral as the tools print it: a whole part and an optional
      fraction, `12` or `12.0625`. */
  datatype Numeral = Numeral(whole: nat, fraction: string)

  predicate ValidNumeral(n: Numeral) { AllSatisfy(n.fraction, IsDigit) }

  function NumeralText(n: Numeral): string {
    DecimalString(n.whole) + (if n.fraction == [] then [] else "." + n.fraction)
  }

  function NumeralValue(n: Numeral): real
    requires ValidNumeral(n)
  {
    n.whole as real + (if n.fraction == [] then 0.0 else FractionValue(n.fraction))
  }

  /** A numeral's text is digits and dots, beginning and ending with a digit. */
  predicate NumeralShaped(s: string) {
    |s| >= 1 && AllSatisfy(s, IsDigitOrDot) && IsDigit(s[0]) && IsDigit(s[|s| - 1])
  }

  lemma NumeralTextShape(n: Numeral)
    requires ValidNumeral(n)
    ensures NumeralShaped(NumeralText(n))
  {
    var w, t := DecimalString(n.whole), NumeralText(n);
    assert t[0] == w[0];
    forall i | 0 <= i < |t| ensures IsDigitOrDot(t[i]) {
      if i < |w| { assert t[i] == w[i]; }
      else if i > |w| { assert t[i] == n.fraction[i - |w| - 1]; }
    }
    if n.fraction != [] { assert t[|t| - 1] == n.fraction[|n.fraction| - 1]; }
  }

  /** Reading back a numeral gives its value: `parseFloat('12.0625')` is 12.0625. */
  lemma ParseFloatOfNumeral(n: Numeral)
    requires ValidNumeral(n)
    ensures ParseFloat(NumeralText(n)) == Finite(NumeralValue(n))
  {
    if n.fraction == [] {
      ParseFloatOfWholeNumeral(n);
    } else {
      ParseFloatOfFractionNumeral(n);
    }
  }

  lemma ParseFloatOfWholeNumeral(n: Numeral)
    requires n.fraction == []
    ensures ParseFloat(NumeralText(n)) == Finite(n.whole as real)
  {
    assert NumeralText(n) == DecimalString(n.whole);
    ParseFloatOfDecimal(n.whole);
  }

  lemma ParseFloatOfFractionNumeral(n: Numeral)
    requires n.fraction != [] && ValidNumeral(n)
    ensures ParseFloat(NumeralText(n)) == Finite(n.whole as real + FractionValue(n.fraction))
  {
    ParseFloatOfFraction(n.whole, n.fraction, NumeralText(n));
  }

  /** Reading back `t`, the text `w.f`, gives `w + f / 10^|f|`. */
  lemma ParseFloatOfFraction(whole: nat, f: string, t: string)
    requires f != [] && AllSatisfy(f, IsDigit)
    requires t == DecimalString(whole) + ("." + f)
    ensures ParseFloat(t) == Finite(whole as real + FractionValue(f))
  {
    var w := DecimalString(whole);
    assert t[0] == w[0];
    ParseFloatOfUnsigned(t);
    DecimalPrefixOfFraction(w, f, t);
    DigitsValueOfDecimal(whole);
  }

  /** A string starting with a digit is read by its decimal prefix alone. */
  lemma ParseFloatOfUnsigned(u: string)
    requires u != [] && IsDigit(u[0])
    ensures DecimalPrefix(u).Some? && ParseFloat(u) == Finite(DecimalPrefix(u).value)
  {
    DecimalPrefixOfDigit(u);
    ParseFloatWithoutSpace(u);
    assert !StartsWithInfinity(u);
  }

  /** The decimal prefix of `w.f`, for digit strings `w` and `f`, is `w + f / 10^|f|`. */
  lemma DecimalPrefixOfFraction(w: string, f: string, u: string)
    requires w != [] && AllSatisfy(w, IsDigit)
    requires f != [] && AllSatisfy(f, IsDigit)
    requires u == w + ("." + f)
    ensures DecimalPrefix(u) == Some(DigitsValue(w) as real + FractionValue(f))
  {
    SpanLengthOfPrefix(w, "." + f, IsDigit);
    var rest := u[|w|..];
    assert rest == "." + f && rest[1..] == f;
    assert f + [] == f;
    SpanLengthOfPrefix(f, [], IsDigit);
    assert rest[1 + |f|..] == [] && f[..|f|] == f;
    assert u[..|w|] == w;
    assert ExponentPrefix([]) == None;
  }


  predicate IsHexDigit(c: char) { IsDigit(c) || 'a' <= c <= 'f' || 'A' <= c <= 'F' }

  function HexDigitValue(c: char): (d: nat)
    requires IsHexDigit(c)
    ensures d < 16
  {
    if IsDigit(c) then c as int - '0' as int
    else if 'a' <= c <= 'f' then c as int - 'a' as int + 10
    else c as int - 'A' as int + 10
  }

  /** The value of a string of hexadecimal digits (0 for the empty string). */
  function HexValue(ds: string): nat
    requires AllSatisfy(ds, IsHexDigit)
  {
    if ds == [] then 0 else 16 * HexValue(ds[..|ds| - 1]) + HexDigitValue(ds[|ds| - 1])
  }

  /** `parseInt(s, 16)`: leading white space, a sign and a `0x`/`0X` prefix are
      skipped, then the longest run of hexadecimal digits is read; `None` stands
      for NaN, the result when there is no digit. */
  function ParseIntHex(s: string): (r: Option<int>) {
    var t := s[SpanLength(s, IsSpace)..];
    var neg := t != [] && t[0] == '-';
    var u := if t != [] && (t[0] == '-' || t[0] == '+') then t[1..] else t;
    var v := if |u| >= 2 && u[0] == '0' && (u[1] == 'x' || u[1] == 'X') then u[2..] else u;
    var n := SpanLength(v, IsHexDigit);
    if n == 0 then None
    else
      var magnitude: int := HexValue(v[..n]);
      Some(if neg then -magnitude else magnitude)
  }

  lemma AllHexAppend(a: string, b: string)
    requires AllSatisfy(a, IsHexDigit) && AllSatisfy(b, IsHexDigit)
    ensures AllSatisfy(a + b, IsHexDigit)
  {
    var ab := a + b;
    forall i | 0 <= i < |ab| ensures IsHexDigit(ab[i]) {
      if i < |a| { assert ab[i] == a[i]; } else { assert ab[i] == b[i - |a|]; }
    }
  }

  lemma {:induction false} HexValueAppend(a: string, b: string)
    requires AllSatisfy(a, IsHexDigit) && AllSatisfy(b, IsHexDigit)
    ensures AllSatisfy(a + b, IsHexDigit)
    ensures HexValue(a + b) == HexValue(a) * Pow16(|b|) + HexValue(b)
  {
    AllHexAppend(a, b);
    var ab := a + b;
    if b == [] {
      assert ab == a;
    } else {
      var b' := b[..|b| - 1];
      var d := HexDigitValue(b[|b| - 1]);
      assert ab[..|ab| - 1] == a + b';
      assert ab[|ab| - 1] == b[|b| - 1];
      HexValueAppend(a, b');
      var ha, hb', p := HexValue(a), HexValue(b'), Pow16(|b'|);
      assert HexValue(ab) == 16 * HexValue(a + b') + d;
      assert HexValue(b) == 16 * hb' + d;
      assert Pow16(|b|) == 16 * p;
      ShiftDigit(ha, p, hb', d);
    }
  }

  lemma ShiftDigit(ha: int, p: int, hb: int, d: int)
    ensures 16 * (ha * p + hb) + d == ha * (16 * p) + (16 * hb + d)
  {
  }

  function Pow16(n: nat): (r: nat)
    ensures r >= 1
  {
    if n == 0 then 1 else 16 * Pow16(n - 1)
  }

  /** A string of `n` hexadecimal digits has a value below 16^n. */
  lemma {:induction false} HexValueBound(ds: string)
    requires AllSatisfy(ds, IsHexDigit)
    ensures HexValue(ds) < Pow16(|ds|)
  {
    if ds != [] {
      HexValueBound(ds[..|ds| - 1]);
    }
  }

  /** `parseInt(ds, 16)` of a non-empty string of hexadecimal digits whose first
      digit is not `0` followed by `x` is the value of those digits. */
  lemma ParseIntHexDigits(ds: string)
    requires |ds| >= 1 && AllSatisfy(ds, IsHexDigit)
    ensures ParseIntHex(ds) == Some(HexValue(ds))
  {
    assert !IsSpace(ds[0]);
    assert SpanLength(ds, IsSpace) == 0;
    assert ds[0] != '-' && ds[0] != '+';
    assert |ds| >= 2 ==> ds[1] != 'x' && ds[1] != 'X';
    assert SpanLength(ds, IsHexDigit) == |ds|;
    assert ds[..|ds|] == ds;
  }

  /** `parseFloat(t.toFixed(2))` for a finite `t`: `t` rounded to two decimals,
      halves away from zero. */
  function RoundTo2(t: real): real {
    if t < 0.0 then -(((-t) * 100.0 + 0.5).Floor as real / 100.0)
    else (t * 100.0 + 0.5).Floor as real / 100.0
  }

  /** A whole number of hundredths within half a hundredth of `t`. */
  lemma HundredthsNear(t: real, m: int)
    requires t * 100.0 - 0.5 <= m as real <= t * 100.0 + 0.5
    ensures t - 0.005 <= m as real / 100.0 <= t + 0.005
    ensures ((m as real / 100.0) * 100.0).Floor as real == (m as real / 100.0) * 100.0
  {
    assert (m as real / 100.0) * 100.0 == m as real;
  }

  /** `toFixed(2)` read back lands on a multiple of 0.01 within half a hundredth of `t`. */
  lemma RoundTo2Near(t: real)
    ensures t - 0.005 <= RoundTo2(t) <= t + 0.005
    ensures (RoundTo2(t) * 100.0).Floor as real == RoundTo2(t) * 100.0
  {
    var y := if t < 0.0 then (-t) * 100.0 + 0.5 else t * 100.0 + 0.5;
    var f: int := y.Floor;
    var m: int := if t < 0.0 then -f else f;
    assert y - 1.0 < f as real <= y;
    assert RoundTo2(t) == m as real / 100.0;
    HundredthsNear(t, m);
  }
}
