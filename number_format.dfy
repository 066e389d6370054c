/**
 * `Number.prototype.toFixed` and `Number.prototype.toExponential` (sections 21.1.3.3
 * and 21.1.3.2 of ECMA-262), computed exactly on the mathematical value of the number.
 */
module NumberFormat {
  import opened Numbers

  /** The integer n closest to `y`, the larger one on a tie (step 11.a of toFixed). */
  function RoundHalfUp(y: real): (n: nat)
    requires y >= 0.0
    ensures n as real - 0.5 <= y < n as real + 0.5
  {
    (y + 0.5).Floor
  }

  /** Text without its leading minus sign, if any. */
  function Unsigned(s: string): string {
    if |s| > 0 && s[0] == '-' then s[1..] else s
  }

  /**
   * Fixed-point shape: an optional `-`, one or more decimal digits, and when `f > 0`
   * a `.` followed by exactly `f` digits.
   */
  ghost predicate FixedNotation(s: string, f: nat) {
    FixedBody(Unsigned(s), f)
  }

  /** The unsigned part of fixed-point text. */
  ghost predicate FixedBody(body: string, f: nat) {
    if f == 0 then 1 <= |body| && AllDigitsIn(body, 10)
    else
      && |body| >= f + 2
      && body[|body| - f - 1] == '.'
      && AllDigitsIn(body[..|body| - f - 1], 10)
      && AllDigitsIn(body[|body| - f..], 10)
  }

  /** The digits of a fixed-point body with its point taken out: the body's value times 10^f. */
  function Unpointed(body: string, f: nat): (digits: string)
    requires FixedBody(body, f)
    ensures AllDigitsIn(digits, 10)
  {
    if f == 0 then body
    else
      var k := |body| - f - 1;
      DecimalAppend(body[..k], body[k + 1..]);
      assert body[k + 1..] == body[|body| - f..];
      body[..k] + body[k + 1..]
  }

  /**
   * Exponential shape: an optional `-`, one digit, when `f > 0` a `.` and exactly
   * `f` digits, then `e`, a `+` or `-`, and one or more exponent digits.
   */
  ghost predicate ExponentialNotation(s: string, f: nat) {
    var body := Unsigned(s);
    var width := if f == 0 then 1 else f + 2;
    && |body| >= width + 3
    && IsDigitIn(body[0], 10)
    && (f > 0 ==> body[1] == '.' && AllDigitsIn(body[2..width], 10))
    && body[width] == 'e'
    && (body[width + 1] == '+' || body[width + 1] == '-')
    && AllDigitsIn(body[width + 2..], 10)
  }

  /** Steps 11.c.ii-iv of toFixed: pad `m` with zeros to at least f + 1 digits and put a point before the last f. */
  function InsertPoint(m: string, f: nat): (s: string)
    requires f > 0 && AllDigitsIn(m, 10)
    ensures FixedBody(s, f) && IsDigitIn(s[0], 10)
    ensures RadixValue(Unpointed(s, f), 10) == RadixValue(m, 10)
  {
    var padded := if |m| <= f then Zeros(f + 1 - |m|) + m else m;
    assert AllDigitsIn(padded, 10) && RadixValue(padded, 10) == RadixValue(m, 10) by {
      if |m| <= f {
        LeadingZeros(f + 1 - |m|, m);
      }
    }
    var s := padded[..|padded| - f] + "." + padded[|padded| - f..];
    assert s[..|s| - f - 1] == padded[..|padded| - f];
    assert s[|s| - f..] == padded[|padded| - f..];
    assert s[0] == padded[0];
    assert s[|s| - f..] == s[|s| - f - 1 + 1..];
    assert Unpointed(s, f) == padded;
    s
  }

  /** The digits of `x.toFixed(f)` without its sign. */
  function FixedDigits(y: real, f: nat): (s: string)
    requires y >= 0.0
    ensures FixedBody(s, f) && IsDigitIn(s[0], 10)
    ensures RadixValue(Unpointed(s, f), 10) == RoundHalfUp(Scale(y, f))
  {
    var m := DecimalString(RoundHalfUp(Scale(y, f)));
    if f == 0 then m else InsertPoint(m, f)
  }

  /** `y * 10^f` for `y >= 0`. */
  function Scale(y: real, f: nat): (r: real)
    requires y >= 0.0
    ensures r >= 0.0
  {
    y * Pow10R(f)
  }

  /**
   * `x.toFixed(f)` for a fraction-digit count `f` in the accepted range 0..100: the
   * text is `-` for negative `x`, then |x| rounded to f decimals, a tie rounding up.
   */
  function ToFixed(x: real, f: nat): (s: string)
    requires f <= 100
    ensures FixedNotation(s, f)
    ensures |s| > 0 && (s[0] == '-' <==> x < 0.0)
    ensures var n := RadixValue(Unpointed(Unsigned(s), f), 10) as real;
      n - 0.5 <= Scale(Abs(x), f) < n + 0.5
  {
    var sign := if x < 0.0 then "-" else "";
    var digits := FixedDigits(Abs(x), f);
    SignedBody(sign, digits);
    sign + digits
  }

  /** A sign, `-` or nothing, in front of text starting with a digit is exactly what `Unsigned` strips. */
  lemma SignedBody(sign: string, digits: string)
    requires sign == "-" || sign == ""
    requires |digits| > 0 && IsDigitIn(digits[0], 10)
    ensures Unsigned(sign + digits) == digits
    ensures |sign + digits| > 0 && ((sign + digits)[0] == '-' <==> sign == "-")
  {
    var s := sign + digits;
    assert s[|sign|..] == digits;
    assert s[0] == '-' <==> sign == "-";
  }

  /** `x = m * 10^e` with `1 <= m < 10`, for `x >= 1`. */
  function NormalizeUp(x: real): (r: (real, nat))
    requires x >= 1.0
    ensures 1.0 <= r.0 < 10.0 && x == r.0 * Pow10R(r.1)
    decreases x.Floor
  {
    if x < 10.0 then (x, 0)
    else
      var r := NormalizeUp(x / 10.0);
      ScaleByTen(x, r.0, Pow10R(r.1));
      (r.0, r.1 + 1)
  }

  lemma ScaleByTen(x: real, m: real, p: real)
    requires x / 10.0 == m * p
    ensures x == m * (10.0 * p)
  {
  }

  /** `x = m * 10^e` with `1 <= m < 10`, for `0 < x < 1`, found from the normal form of `1 / x`. */
  function NormalizeDown(x: real): (r: (real, int))
    requires 0.0 < x < 1.0
    ensures 1.0 <= r.0 < 10.0 && x == r.0 * Pow10Real(r.1)
  {
    var inv := NormalizeUp(1.0 / x);
    var m, e := inv.0, inv.1;
    var p := Pow10R(e);
    Reciprocal(x, m, p);
    if m == 1.0 then (1.0, -(e as int))
    else
      assert Pow10Real(-(e + 1)) == 1.0 / (10.0 * p);
      (10.0 / m, -(e + 1))
  }

  lemma Reciprocal(x: real, m: real, p: real)
    requires x > 0.0 && 1.0 <= m < 10.0 && p >= 1.0 && 1.0 / x == m * p
    ensures m == 1.0 ==> x == 1.0 * (1.0 / p)
    ensures x == (10.0 / m) * (1.0 / (10.0 * p))
    ensures m > 1.0 ==> 1.0 < 10.0 / m < 10.0
  {
    assert x == 1.0 / (m * p);
  }

  /**
   * Step 12.a of toExponential for `x > 0`: the f + 1 significant digits `n` and the
   * exponent `e` such that n * 10^(e - f) is nearest to x, the larger on a tie.
   */
  function Significand(x: real, f: nat): (r: (nat, int))
    requires x > 0.0
    ensures Pow10(f) <= r.0 < Pow10(f + 1)
  {
    var norm := if x >= 1.0 then var u := NormalizeUp(x); (u.0, u.1 as int) else NormalizeDown(x);
    var m, e := norm.0, norm.1;
    var n := RoundHalfUp(Scale(m, f));
    RoundedBounds(m, f);
    if n == Pow10(f + 1) then (Pow10(f), e + 1) else (n, e)
  }

  /** A mantissa in [1, 10) scaled by 10^f rounds to an integer in [10^f, 10^(f+1)]. */
  lemma RoundedBounds(m: real, f: nat)
    requires 1.0 <= m < 10.0
    ensures Pow10(f) <= RoundHalfUp(Scale(m, f)) <= Pow10(f + 1)
  {
    var lo, hi := Pow10(f), Pow10(f + 1);
    var p := Pow10R(f);
    var y := Scale(m, f);
    assert y == m * p;
    Pow10Cast(f);
    Pow10Cast(f + 1);
    assert lo as real == p;
    assert hi as real == 10.0 * p;
    MulBounds(m, p, y);
    RoundBetween(y, RoundHalfUp(y), lo, hi);
  }

  lemma RoundBetween(y: real, n: int, lo: int, hi: int)
    requires lo as real <= y < hi as real
    requires n as real - 0.5 <= y < n as real + 0.5
    ensures lo <= n <= hi
  {
  }

  lemma MulBounds(m: real, p: real, y: real)
    requires 1.0 <= m < 10.0 && p >= 1.0 && y == m * p
    ensures p <= y < 10.0 * p
  {
  }

  /** A number with f + 1 significant digits prints as exactly f + 1 digits. */
  lemma {:induction false} DigitCount(n: nat, f: nat)
    requires Pow10(f) <= n < Pow10(f + 1)
    ensures |DecimalString(n)| == f + 1
  {
    if f > 0 {
      DigitCount(n / 10, f - 1);
      assert ToRadixString(n, 10) == ToRadixString(n / 10, 10) + [DigitChar(n % 10)];
    }
  }

  /** The f + 1 significant digits with a point after the first when `f > 0` (steps 12-13 of toExponential). */
  function PointAfterFirst(m: string, f: nat): (s: string)
    requires |m| == f + 1 && AllDigitsIn(m, 10)
    ensures |s| == (if f == 0 then 1 else f + 2) && IsDigitIn(s[0], 10)
    ensures f > 0 ==> s[1] == '.' && AllDigitsIn(s[2..], 10)
  {
    if f == 0 then m
    else
      var s := m[..1] + "." + m[1..];
      assert s[2..] == m[1..];
      s
  }

  /** The exponent part `e+d` / `e-d` (steps 14-15 of toExponential). */
  function ExponentSuffix(e: int): (s: string)
    ensures |s| >= 3 && s[0] == 'e' && (s[1] == '+' || s[1] == '-')
    ensures AllDigitsIn(s[2..], 10)
  {
    var digits := DecimalString(if e < 0 then -e else e);
    var s := "e" + (if e < 0 then "-" else "+") + digits;
    assert s[2..] == digits;
    s
  }

  /** `x.toExponential(f)` for a fraction-digit count `f` in the accepted range 0..100. */
  function ToExponential(x: real, f: nat): (s: string)
    requires f <= 100
    ensures ExponentialNotation(s, f)
    ensures |s| > 0 && (s[0] == '-' <==> x < 0.0)
  {
    var sign := if x < 0.0 then "-" else "";
    var ne := if x == 0.0 then (Pow10(f), 0) else Significand(Abs(x), f);
    DigitCount(ne.0, f);
    var m := if x == 0.0 then Zeros(f + 1) else DecimalString(ne.0);
    var mantissa := PointAfterFirst(m, f);
    var suffix := ExponentSuffix(ne.1);
    var body := mantissa + suffix;
    Assemble(mantissa, suffix, f);
    var s := sign + body;
    assert s[|sign|..] == body;
    s
  }

  lemma Assemble(mantissa: string, suffix: string, f: nat)
    requires |mantissa| == (if f == 0 then 1 else f + 2) && IsDigitIn(mantissa[0], 10)
    requires f > 0 ==> mantissa[1] == '.' && AllDigitsIn(mantissa[2..], 10)
    requires |suffix| >= 3 && suffix[0] == 'e' && (suffix[1] == '+' || suffix[1] == '-')
    requires AllDigitsIn(suffix[2..], 10)
    ensures ExponentialNotation(mantissa + suffix, f)
  {
    var body := mantissa + suffix;
    var width := |mantissa|;
    assert body[width + 2..] == suffix[2..];
    assert f > 0 ==> body[2..width] == mantissa[2..];
  }

  /** Fixed-point text never carries an exponent marker. */
  lemma FixedHasNoExponent(s: string, f: nat)
    requires FixedNotation(s, f)
    ensures 'e' !in s
  {
    var body := Unsigned(s);
    assert s == body || s == "-" + body;
    if f > 0 {
      var k := |body| - f - 1;
      assert body == body[..k] + "." + body[k + 1..];
      assert body[k + 1..] == body[|body| - f..];
    }
  }

  /** Exponential text always carries an exponent marker. */
  lemma ExponentialHasExponent(s: string, f: nat)
    requires ExponentialNotation(s, f)
    ensures 'e' in s
  {
    var body := Unsigned(s);
    var width := if f == 0 then 1 else f + 2;
    if |s| > 0 && s[0] == '-' {
      assert s[width + 1] == body[width];
    } else {
      assert s[width] == body[width];
    }
  }
}
