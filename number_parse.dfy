/**
 * `parseFloat` (section 19.2.4 of ECMA-262) on finite decimal text: skip leading white
 * space, then read the longest prefix that is a decimal literal with an optional sign,
 * fraction and exponent. `None` stands for `NaN`.
 */
module NumberParse {
  import opened Wrappers
  import opened Numbers
  import opened NumberFormat

  /** StrWhiteSpaceChar: white space (including every space separator) and line terminators. */
  predicate IsStrWhiteSpace(c: char) {
    || c == '\t' || c == '\U{000B}' || c == '\U{000C}' || c == ' ' || c == '\U{00A0}' || c == '\U{FEFF}'
    || c == '\n' || c == '\r' || c == '\U{2028}' || c == '\U{2029}'
    || c == '\U{1680}' || ('\U{2000}' <= c <= '\U{200A}') || c == '\U{202F}' || c == '\U{205F}' || c == '\U{3000}'
  }

  /** The text after its leading white space. */
  function TrimStart(s: string): (t: string)
    ensures |t| <= |s| && t == s[|s| - |t|..]
    ensures |t| > 0 ==> !IsStrWhiteSpace(t[0])
    ensures forall i :: 0 <= i < |s| - |t| ==> IsStrWhiteSpace(s[i])
  {
    if s != [] && IsStrWhiteSpace(s[0]) then
      var t := TrimStart(s[1..]);
      assert forall i :: 1 <= i < |s| - |t| ==> s[i] == s[1..][i - 1];
      t
    else s
  }

  /** The length of the run of decimal digits at the start of `s`. */
  function DigitRun(s: string): (k: nat)
    ensures k <= |s| && AllDigitsIn(s[..k], 10)
    ensures k < |s| ==> !IsDigitIn(s[k], 10)
  {
    if s != [] && IsDigitIn(s[0], 10) then
      var k := 1 + DigitRun(s[1..]);
      assert s[..k] == [s[0]] + s[1..][..k - 1];
      k
    else 0
  }

  /**
   * The value of an exponent part `e`/`E`, optional sign, one or more digits, at the
   * start of `s`; 0 when `s` does not start with a complete exponent part, which
   * `parseFloat` then leaves unread.
   */
  function ExponentValue(s: string): int {
    if |s| >= 2 && (s[0] == 'e' || s[0] == 'E') then
      var signed := s[1] == '+' || s[1] == '-';
      var digits := if signed then s[2..] else s[1..];
      var k := DigitRun(digits);
      if k == 0 then 0
      else
        var v: int := RadixValue(digits[..k], 10);
        if s[1] == '-' then -v else v
    else 0
  }

  /** The decimal literal `parseFloat` reads: sign, digits before and after the point, exponent. */
  datatype Literal = Literal(negative: bool, intDigits: string, fracDigits: string, exponent: int)
  {
    ghost predicate Valid() {
      AllDigitsIn(intDigits, 10) && AllDigitsIn(fracDigits, 10) && |intDigits| + |fracDigits| > 0
    }

    /** The number the literal denotes. */
    function Value(): real
      requires Valid()
    {
      DecimalAppend(intDigits, fracDigits);
      var magnitude := DecimalValue(RadixValue(intDigits + fracDigits, 10), |fracDigits|) * Pow10Real(exponent);
      Signed(negative, magnitude)
    }
  }

  /**
   * The digits before the point, the digits after it (when a point follows), and the
   * text after them, at the start of an unsigned text.
   */
  function ScanMantissa(u: string): (r: (string, string, string))
    ensures AllDigitsIn(r.0, 10) && AllDigitsIn(r.1, 10)
    ensures |r.0| + |r.1| > 0 <==> StartsDecimal(u)
  {
    var i := DigitRun(u);
    var rest := u[i..];
    if |rest| > 0 && rest[0] == '.' then
      var k := DigitRun(rest[1..]);
      assert i == 0 && k > 0 ==> u[1..] == rest[1..];
      (u[..i], rest[1..][..k], rest[1..][k..])
    else (u[..i], "", rest)
  }

  /** The longest decimal literal after leading white space, or `None` when there is none. */
  function ScanLiteral(text: string): (r: Option<Literal>)
    ensures r.None? <==> !StartsDecimal(UnsignedPart(TrimStart(text)))
    ensures r.Some? ==> r.value.Valid()
  {
    var t := TrimStart(text);
    var u := UnsignedPart(t);
    if !StartsDecimal(u) then None
    else
      var m := ScanMantissa(u);
      Some(Literal(|t| > 0 && t[0] == '-', m.0, m.1, ExponentValue(m.2)))
  }

  /** `parseFloat(text)`: the number read from the longest decimal prefix, or `None` for `NaN`. */
  function ParseFloat(text: string): (r: Option<real>)
    ensures r.None? <==> !StartsDecimal(UnsignedPart(TrimStart(text)))
  {
    match ScanLiteral(text)
    case None => None
    case Some(literal) => Some(literal.Value())
  }

  /** The text after an optional leading `+` or `-`. */
  function UnsignedPart(t: string): string {
    if |t| > 0 && (t[0] == '-' || t[0] == '+') then t[1..] else t
  }

  /** `u` starts with a digit, or with a point followed by a digit. */
  predicate StartsDecimal(u: string) {
    |u| > 0 && (IsDigitIn(u[0], 10) || (u[0] == '.' && |u| > 1 && IsDigitIn(u[1], 10)))
  }

  /** `v` with the sign a leading `-` gives it. */
  function Signed(negative: bool, v: real): real {
    if negative then -v else v
  }

  /** `n / 10^k`. */
  function DecimalValue(n: nat, k: nat): (v: real)
    ensures v >= 0.0
  {
    n as real / Pow10R(k)
  }

  /** Text without a single decimal digit reads as `NaN`: the empty text, a lone sign or point, letters. */
  lemma NoDigitsIsNaN(text: string)
    requires forall i :: 0 <= i < |text| ==> !IsDigitIn(text[i], 10)
    ensures ParseFloat(text) == None
  {
    var t := TrimStart(text);
    DropKeepsNoDigits(text, |text| - |t|);
    var k := if |t| > 0 && (t[0] == '-' || t[0] == '+') then 1 else 0;
    DropKeepsNoDigits(t, k);
    assert UnsignedPart(t) == t[k..];
  }

  /** A suffix of text without digits has none either. */
  lemma DropKeepsNoDigits(s: string, k: nat)
    requires k <= |s| && forall i :: 0 <= i < |s| ==> !IsDigitIn(s[i], 10)
    ensures forall i :: 0 <= i < |s[k..]| ==> !IsDigitIn(s[k..][i], 10)
  {
    forall i | 0 <= i < |s[k..]|
      ensures !IsDigitIn(s[k..][i], 10)
    {
      assert s[k..][i] == s[k + i];
    }
  }

  /** `DigitRun` finds exactly a run of `k` digits that is not followed by another digit. */
  lemma {:induction false} DigitRunExact(u: string, k: nat)
    requires k <= |u| && AllDigitsIn(u[..k], 10)
    requires k < |u| ==> !IsDigitIn(u[k], 10)
    ensures DigitRun(u) == k
  {
    if k > 0 {
      assert u[1..][..k - 1] == u[1..k];
      assert IsDigitIn(u[..k][0], 10);
      DigitRunExact(u[1..], k - 1);
    }
  }

  /** A digit is never white space. */
  lemma DigitIsNotSpace(c: char)
    requires IsDigitIn(c, 10)
    ensures !IsStrWhiteSpace(c)
  {
  }

  /** Fixed-point text reads back as its digits, point removed, divided by 10^f, with its sign. */
  lemma ParseFixedNotation(s: string, f: nat)
    requires FixedNotation(s, f)
    ensures var n := RadixValue(Unpointed(Unsigned(s), f), 10);
      ParseFloat(s) == Some(Signed(|s| > 0 && s[0] == '-', DecimalValue(n, f)))
  {
    var literal := ScanFixedNotation(s, f);
    PlainLiteralIsParsed(s, literal, RadixValue(Unpointed(Unsigned(s), f), 10), f);
  }

  /** A run of decimal digits reads back as the number it spells. */
  lemma ParseDigits(s: string)
    requires 1 <= |s| && AllDigitsIn(s, 10)
    ensures ParseFloat(s) == Some(RadixValue(s, 10) as real)
  {
    assert IsDigitIn(s[0], 10);
    assert Unsigned(s) == s;
    assert FixedNotation(s, 0);
    ParseFixedNotation(s, 0);
    assert Unpointed(s, 0) == s;
    assert DecimalValue(RadixValue(s, 10), 0) == RadixValue(s, 10) as real;
  }

  /** `parseFloat` returns the value of the exponent-free literal its scan finds. */
  lemma PlainLiteralIsParsed(s: string, literal: Literal, n: nat, f: nat)
    requires ScanLiteral(s) == Some(literal) && literal.Valid() && literal.exponent == 0
    requires RadixValue(literal.intDigits + literal.fracDigits, 10) == n && |literal.fracDigits| == f
    ensures ParseFloat(s) == Some(Signed(literal.negative, DecimalValue(n, f)))
  {
    LiteralIsParsed(s, literal);
    PlainValue(literal);
  }

  lemma LiteralIsParsed(s: string, literal: Literal)
    requires ScanLiteral(s) == Some(literal)
    ensures literal.Valid() && ParseFloat(s) == Some(literal.Value())
  {
  }

  /** Fixed-point text scans as one literal: its sign, its digits around the point, no exponent. */
  lemma ScanFixedNotation(s: string, f: nat) returns (literal: Literal)
    requires FixedNotation(s, f)
    ensures ScanLiteral(s) == Some(literal) && literal.Valid()
    ensures literal.negative == (|s| > 0 && s[0] == '-') && literal.exponent == 0
    ensures literal.intDigits + literal.fracDigits == Unpointed(Unsigned(s), f) && |literal.fracDigits| == f
  {
    var body := Unsigned(s);
    FixedStartsAtDigits(s, f);
    ScanFixedBody(body, f);
    var m := ScanMantissa(body);
    assert ExponentValue(m.2) == 0;
    literal := Literal(|s| > 0 && s[0] == '-', m.0, m.1, 0);
    assert ScanLiteral(s) == Some(literal);
  }

  /** Fixed-point text has no leading white space, and its unsigned part starts with a digit. */
  lemma FixedStartsAtDigits(s: string, f: nat)
    requires FixedNotation(s, f)
    ensures TrimStart(s) == s && UnsignedPart(s) == Unsigned(s)
    ensures StartsDecimal(Unsigned(s))
  {
    var body := Unsigned(s);
    var k := if f == 0 then |body| else |body| - f - 1;
    assert body[..k][0] == body[0];
    DigitIsNotSpace(body[0]);
    assert s[0] == '-' || s[0] == body[0];
  }

  /** Without an exponent, a literal denotes its digits divided by 10 per fraction digit. */
  lemma PlainValue(literal: Literal)
    requires literal.Valid() && literal.exponent == 0
    ensures AllDigitsIn(literal.intDigits + literal.fracDigits, 10)
    ensures var v := DecimalValue(RadixValue(literal.intDigits + literal.fracDigits, 10), |literal.fracDigits|);
      literal.Value() == Signed(literal.negative, v)
  {
    DecimalAppend(literal.intDigits, literal.fracDigits);
    assert Pow10Real(0) == 1.0;
  }

  /** The mantissa scan of a fixed-point body stops at its end, with exactly `f` digits after the point. */
  lemma ScanFixedBody(body: string, f: nat)
    requires FixedBody(body, f)
    ensures var m := ScanMantissa(body);
      m.0 + m.1 == Unpointed(body, f) && |m.1| == f && m.2 == []
  {
    var k := if f == 0 then |body| else |body| - f - 1;
    DigitRunExact(body, k);
    var rest := body[k..];
    if f == 0 {
      assert rest == [];
      assert body[..k] + [] == body;
    } else {
      var tail := body[k + 1..];
      assert rest[1..] == tail && tail == body[|body| - f..];
      DigitRunExact(tail, f);
      assert tail[..f] == tail;
      assert tail[f..] == [];
    }
  }

  /** `q` is within half a unit of the f-th decimal place of `x`. */
  ghost predicate WithinHalfUnit(q: real, x: real, f: nat) {
    -0.5 <= (q - x) * Pow10R(f) <= 0.5
  }

  /**
   * Reading back the text of `x.toFixed(f)` gives a number within half a unit of the
   * last printed digit of `x`.
   */
  lemma ToFixedReadsBack(x: real, f: nat)
    requires f <= 100
    ensures ParseFloat(ToFixed(x, f)).Some?
    ensures WithinHalfUnit(ParseFloat(ToFixed(x, f)).value, x, f)
  {
    var s := ToFixed(x, f);
    var n := RadixValue(Unpointed(Unsigned(s), f), 10);
    assert ParseFloat(s) == Some(Signed(x < 0.0, DecimalValue(n, f))) by {
      ParseFixedNotation(s, f);
    }
    UnscaleError(n, f, x, ParseFloat(s).value);
  }

  lemma UnscaleError(n: nat, f: nat, x: real, q: real)
    requires n as real - 0.5 <= Scale(Abs(x), f) < n as real + 0.5
    requires q == Signed(x < 0.0, DecimalValue(n, f))
    ensures WithinHalfUnit(q, x, f)
  {
    var p := Pow10R(f);
    var m := n as real;
    assert DecimalValue(n, f) * p == m;
  }
}
