/**
 * Numbers as the record files spell them. A token that Python's `float()`
 * accepts in these files is a decimal `[+-]digits[.digits]`; it is kept here as an
 * exact decimal `m / 10^e`. `str(float)` of such a value, Python's `round()`
 * (half to even) and `str(int)` / `int()` are given over that representation.
 */
module Numbers {
  import opened Wrappers
  import opened Text

  predicate IsDigit(c: char) {
    '0' <= c <= '9'
  }

  predicate AllDigits(s: string) {
    forall i :: 0 <= i < |s| ==> IsDigit(s[i])
  }

  /** The value of a decimal digit (0 for any other character, which is never passed). */
  function DigitValue(c: char): nat {
    if IsDigit(c) then c as int - '0' as int else 0
  }

  function DigitChar(d: nat): (c: char)
    requires d < 10
    ensures IsDigit(c) && DigitValue(c) == d
  {
    ('0' as int + d) as char
  }

  function Pow10(e: nat): (p: nat)
    ensures p >= 1
  {
    if e == 0 then 1 else 10 * Pow10(e - 1)
  }

  /** The number a string of decimal digits denotes (leading zeros allowed). */
  function DigitsValue(s: string): nat {
    if s == [] then 0 else 10 * DigitsValue(s[..|s| - 1]) + DigitValue(s[|s| - 1])
  }

  /** `str(n)` for `n >= 0`: decimal digits without leading zeros. */
  function NatToString(n: nat): (r: string)
    ensures |r| >= 1 && AllDigits(r)
  {
    if n < 10 then [DigitChar(n)] else NatToString(n / 10) + [DigitChar(n % 10)]
  }

  /** `str(i)` / `f"{i}"` for a Python int. */
  function IntToString(i: int): (r: string)
    ensures r != []
  {
    if i < 0 then "-" + NatToString(-i) else NatToString(i)
  }

  lemma {:induction false} NatToStringValue(n: nat)
    ensures DigitsValue(NatToString(n)) == n
  {
    if n >= 10 {
      NatToStringValue(n / 10);
      var s := NatToString(n);
      assert s[..|s| - 1] == NatToString(n / 10);
    }
  }

  lemma {:induction false} DigitsValueAppend(a: string, b: string)
    requires AllDigits(a) && AllDigits(b)
    ensures AllDigits(a + b)
    ensures DigitsValue(a + b) == DigitsValue(a) * Pow10(|b|) + DigitsValue(b)
    decreases |b|
  {
    if b == [] {
      assert a + b == a;
    } else {
      var s := a + b;
      var b' := b[..|b| - 1];
      var d := DigitValue(b[|b| - 1]);
      assert DigitsValue(s) == 10 * DigitsValue(a + b') + d by {
        assert s[..|s| - 1] == a + b';
        assert s[|s| - 1] == b[|b| - 1];
      }
      DigitsValueAppend(a, b');
      var x := DigitsValue(a);
      var p := Pow10(|b'|);
      var y := DigitsValue(b');
      assert DigitsValue(b) == 10 * y + d;
      assert Pow10(|b|) == 10 * p;
      Distribute(x, p, y, d);
    }
  }

  lemma Distribute(x: int, p: int, y: int, d: int)
    ensures 10 * (x * p + y) + d == x * (10 * p) + (10 * y + d)
  {
  }

  function Abs(i: int): nat {
    if i < 0 then -i else i
  }

  // ---------------------------------------------------------------------------
  // exact decimals
  // ---------------------------------------------------------------------------

  /** The decimal `m / 10^e`. */
  datatype Dec = Dec(m: int, e: nat)

  function Value(d: Dec): real {
    d.m as real / Pow10(d.e) as real
  }

  /** An integer as a decimal without fraction. */
  lemma ValueOfInt(i: int)
    ensures Value(Dec(i, 0)) == i as real
  {
  }

  /** No trailing zero in the fraction: the one spelling of each value. */
  predicate Canonical(d: Dec) {
    d.e == 0 || d.m % 10 != 0
  }

  lemma ValueShift(k: int, e: nat)
    requires e >= 1
    ensures Value(Dec(10 * k, e)) == Value(Dec(k, e - 1))
  {
    var p := Pow10(e - 1) as real;
    assert Pow10(e) as real == 10.0 * p;
    calc {
      Value(Dec(10 * k, e));
      (10 * k) as real / (10.0 * p);
      k as real / p;
    }
  }

  /** Removes trailing fraction zeros; the value is unchanged. */
  function Canon(d: Dec): (c: Dec)
    ensures Canonical(c)
    ensures Value(c) == Value(d)
    decreases d.e
  {
    if d.e > 0 && d.m % 10 == 0 then
      ValueShift(d.m / 10, d.e);
      Canon(Dec(d.m / 10, d.e - 1))
    else d
  }

  /**
   * `float(t)` for the tokens of these files: an optional sign, digits, and an
   * optional `.` with more digits, at least one digit in all. Anything else
   * raises `ValueError` (None here).
   */
  function ParseNumber(t: string): Option<Dec> {
    var neg := |t| > 0 && t[0] == '-';
    var body := if |t| > 0 && (t[0] == '-' || t[0] == '+') then t[1..] else t;
    match ParseMagnitude(body)
    case None => None
    case Some(r) => Some(Dec(if neg then -r.m else r.m, r.e))
  }

  /** An unsigned decimal: digits, optionally a point and more digits, one digit at least. */
  function ParseMagnitude(body: string): (r: Option<Dec>)
    ensures r.Some? ==> r.value.m >= 0
  {
    var k := IndexOf(body, '.');
    var whole := body[..k];
    var frac := if k < |body| then body[k + 1..] else [];
    if AllDigits(whole) && AllDigits(frac) && |whole| + |frac| > 0 then
      Some(Dec(DigitsValue(whole + frac), |frac|))
    else None
  }

  /**
   * `str(x)` for a float `x` holding the value of the canonical decimal `d`:
   * the integer part, a point, and the fraction digits (`.0` for a whole number).
   */
  function FloatText(d: Dec): string
    requires Canonical(d)
  {
    SignText(d.m < 0) + MagnitudeText(Abs(d.m), d.e)
  }

  function SignText(neg: bool): string {
    if neg then "-" else ""
  }

  /**
   * The unsigned text of `mag / 10^e`: the digits of the whole part, a point,
   * and the last `e` digits of `mag`, leading zeros kept (`.0` when `e` is 0).
   */
  function MagnitudeText(mag: nat, e: nat): (t: string)
    ensures |t| >= 1 && IsDigit(t[0])
  {
    if e == 0 then NatToString(mag) + ".0"
    else
      var (q, f) := SplitDigits(mag, e);
      NatToString(q) + "." + f
  }

  /** `mag` split into the whole part `q` and the `e` digits after the point. */
  function SplitDigits(mag: nat, e: nat): (r: (nat, string))
    ensures AllDigits(r.1) && |r.1| == e
    ensures mag == r.0 * Pow10(e) + DigitsValue(r.1)
  {
    if e == 0 then (mag, [])
    else
      var (q, f) := SplitDigits(mag / 10, e - 1);
      var d := mag % 10;
      var f' := f + [DigitChar(d)];
      assert f'[..|f'| - 1] == f;
      assert DigitsValue(f') == 10 * DigitsValue(f) + d;
      Distribute(q, Pow10(e - 1), DigitsValue(f), d);
      (q, f')
  }

  /** The characters a decimal text is made of. */
  predicate DecimalChars(s: string) {
    forall i :: 0 <= i < |s| ==> IsDigit(s[i]) || s[i] == '.' || s[i] == '-'
  }

  lemma MagnitudeTextShape(mag: nat, e: nat)
    ensures var t := MagnitudeText(mag, e);
            DecimalChars(t) && IsDigit(t[0]) && IsDigit(t[|t| - 1])
  {
    if e > 0 {
      var (q, f) := SplitDigits(mag, e);
      var t := NatToString(q) + "." + f;
      assert t[|t| - 1] == f[|f| - 1];
    }
  }

  /** `str(float)` is an optional `-`, digits and a point, and ends in a digit. */
  lemma FloatTextShape(d: Dec)
    requires Canonical(d)
    ensures var t := FloatText(d);
            |t| >= 1 && DecimalChars(t) && (IsDigit(t[0]) || t[0] == '-') && IsDigit(t[|t| - 1])
  {
    MagnitudeTextShape(Abs(d.m), d.e);
  }

  /** `str(float)` is stripped and holds no comma, bar or line break. */
  lemma FloatTextPlain(d: Dec)
    requires Canonical(d)
    ensures var t := FloatText(d);
            Stripped(t) && ',' !in t && '|' !in t && NoLineBreak(t)
  {
    FloatTextShape(d);
    DecimalTextPlain(FloatText(d));
  }

  lemma DecimalTextPlain(t: string)
    requires |t| >= 1 && DecimalChars(t) && (IsDigit(t[0]) || t[0] == '-') && IsDigit(t[|t| - 1])
    ensures Stripped(t) && ',' !in t && '|' !in t && NoLineBreak(t)
  {
  }

  lemma DigitsHaveNoPoint(s: string)
    requires AllDigits(s)
    ensures '.' !in s
  {
  }

  lemma PointAfterDigits(whole: string, frac: string)
    requires AllDigits(whole)
    ensures IndexOf(whole + "." + frac, '.') == |whole|
    ensures (whole + "." + frac)[..|whole|] == whole
    ensures (whole + "." + frac)[|whole| + 1..] == frac
  {
    var body := whole + "." + frac;
    assert body[..|whole|] == whole;
    assert '.' !in whole;
    IndexOfAt(body, '.', |whole|);
    assert body[|whole| + 1..] == frac;
  }

  lemma MagnitudeSplit(whole: string, frac: string)
    requires AllDigits(whole) && AllDigits(frac) && |whole| >= 1
    ensures ParseMagnitude(whole + "." + frac) == Some(Dec(DigitsValue(whole + frac), |frac|))
  {
    PointAfterDigits(whole, frac);
  }

  /** Text that starts with a digit is read as an unsigned decimal. */
  lemma ParseUnsigned(body: string)
    requires |body| >= 1 && IsDigit(body[0])
    ensures ParseNumber(body) == ParseMagnitude(body)
  {
  }

  /** A leading `-` negates what follows. */
  lemma ParseNegated(body: string, mag: nat, e: nat)
    requires ParseMagnitude(body) == Some(Dec(mag, e))
    ensures ParseNumber("-" + body) == Some(Dec(-(mag as int), e))
  {
    var t := "-" + body;
    assert t[1..] == body;
  }

  /** The decimal `float()` reads from `MagnitudeText(mag, e)` when `e > 0`. */
  lemma FractionTextParsed(mag: nat, e: nat)
    requires e > 0
    ensures ParseMagnitude(MagnitudeText(mag, e)) == Some(Dec(mag, e))
  {
    var (q, frac) := SplitDigits(mag, e);
    var whole := NatToString(q);
    assert MagnitudeText(mag, e) == whole + "." + frac;
    assert DigitsValue(whole + frac) == mag by {
      NatToStringValue(q);
      DigitsValueAppend(whole, frac);
    }
    MagnitudeSplit(whole, frac);
  }

  /** A whole number's text `d.0` is read as `10d / 10`. */
  lemma WholeTextParsed(mag: nat)
    ensures ParseMagnitude(MagnitudeText(mag, 0)) == Some(Dec(10 * mag, 1))
  {
    NatToStringValue(mag);
    var ds := NatToString(mag);
    MagnitudeSplit(ds, "0");
    assert ds + "." + "0" == ds + ".0";
    assert DigitsValue("0") == 10 * DigitsValue([]) + 0;
  }

  /** A sign text in front of an unsigned decimal gives the signed decimal. */
  lemma ParseSigned(neg: bool, t: string, mag: nat, e: nat)
    requires |t| >= 1 && IsDigit(t[0])
    requires ParseMagnitude(t) == Some(Dec(mag, e))
    ensures ParseNumber(SignText(neg) + t) == Some(Dec(if neg then -(mag as int) else mag, e))
  {
    if neg {
      ParseNegated(t, mag, e);
    } else {
      assert SignText(neg) + t == t;
      ParseUnsigned(t);
    }
  }

  /** What `float()` reads back from `str()` of `d`. */
  lemma FloatTextParsed(d: Dec)
    requires Canonical(d)
    ensures d.e > 0 ==> ParseNumber(FloatText(d)) == Some(d)
    ensures d.e == 0 ==> ParseNumber(FloatText(d)) == Some(Dec(10 * d.m, 1))
  {
    if d.e > 0 {
      FractionFloatParsed(d);
    } else {
      WholeFloatParsed(d);
    }
  }

  lemma FractionFloatParsed(d: Dec)
    requires Canonical(d) && d.e > 0
    ensures ParseNumber(FloatText(d)) == Some(d)
  {
    var t := MagnitudeText(Abs(d.m), d.e);
    MagnitudeTextShape(Abs(d.m), d.e);
    FractionTextParsed(Abs(d.m), d.e);
    ParseSigned(d.m < 0, t, Abs(d.m), d.e);
  }

  lemma WholeFloatParsed(d: Dec)
    requires Canonical(d) && d.e == 0
    ensures ParseNumber(FloatText(d)) == Some(Dec(10 * d.m, 1))
  {
    var t := MagnitudeText(Abs(d.m), 0);
    MagnitudeTextShape(Abs(d.m), 0);
    WholeTextParsed(Abs(d.m));
    ParseSigned(d.m < 0, t, 10 * Abs(d.m), 1);
    assert (if d.m < 0 then -(10 * Abs(d.m)) else 10 * Abs(d.m)) == 10 * d.m;
  }

  /** `float(str(x)) == x`: reading the text `str()` gives back yields the same value. */
  lemma FloatTextRoundTrip(d: Dec)
    requires Canonical(d)
    ensures ParseNumber(FloatText(d)).Some?
    ensures Canon(ParseNumber(FloatText(d)).value) == d
  {
    FloatTextParsed(d);
    if d.e == 0 {
      CanonShiftOnce(d.m);
    }
  }

  lemma CanonShiftOnce(m: int)
    ensures Canon(Dec(10 * m, 1)) == Dec(m, 0)
  {
    assert (10 * m) % 10 == 0;
    assert (10 * m) / 10 == m;
  }

  lemma DecimalTextsHaveNoSep(s: string)
    requires AllDigits(s)
    ensures NoSep(s)
  {
  }

  lemma IntToStringShape(i: int)
    ensures NoSep(IntToString(i))
    ensures '|' !in IntToString(i) && '=' !in IntToString(i)
    ensures NoLineBreak(IntToString(i))
  {
  }

  lemma IntToStringLast(i: int)
    ensures IsDigit(IntToString(i)[|IntToString(i)| - 1])
  {
    var d := NatToString(Abs(i));
    assert IntToString(i)[|IntToString(i)| - 1] == d[|d| - 1];
  }

  /** Reading `str(i)` with `float()` gives `i` back. */
  lemma IntToStringParse(i: int)
    ensures ParseNumber(IntToString(i)) == Some(Dec(i, 0))
  {
    var whole := NatToString(Abs(i));
    NatToStringValue(Abs(i));
    DigitsHaveNoPoint(whole);
    IndexOfFirst(whole, '.');
    assert whole[..|whole|] == whole && whole + [] == whole;
    assert ParseMagnitude(whole) == Some(Dec(Abs(i), 0));
    if i < 0 {
      ParseNegated(whole, Abs(i), 0);
    } else {
      ParseUnsigned(whole);
    }
  }

  // ---------------------------------------------------------------------------
  // round() and int()
  // ---------------------------------------------------------------------------

  /** Python's `round(v)`: to the nearest integer, halves to the even one. */
  function Round(v: real): (r: int)
    ensures (r as real) - 0.5 <= v <= (r as real) + 0.5
  {
    var f := v.Floor;
    var frac := v - f as real;
    if frac < 0.5 then f
    else if frac > 0.5 then f + 1
    else if f % 2 == 0 then f
    else f + 1
  }

  lemma RoundOfInteger(i: int)
    ensures Round(i as real) == i
  {
  }

  /**
   * `int(s)` for a string already stripped: an optional sign and at least one
   * decimal digit; anything else raises `ValueError` (None here).
   */
  function ParseInt(s: string): (r: Option<int>)
  {
    var neg := |s| > 0 && s[0] == '-';
    var body := if |s| > 0 && (s[0] == '-' || s[0] == '+') then s[1..] else s;
    if body != [] && AllDigits(body) then
      Some(if neg then -(DigitsValue(body) as int) else DigitsValue(body))
    else None
  }

  /** `int(str(i)) == i`. */
  lemma IntToStringParseInt(i: int)
    ensures ParseInt(IntToString(i)) == Some(i)
  {
    NatToStringValue(Abs(i));
    if i < 0 {
      assert IntToString(i)[1..] == NatToString(-i);
    }
  }
}
