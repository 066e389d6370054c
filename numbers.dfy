/**
 * Arithmetic and digit-string helpers shared by the number formatting and parsing
 * models: powers of ten, and the digit strings of `Number.prototype.toString(radix)`
 * on non-negative integers.
 */
module Numbers {

  function Abs(x: real): real {
    if x < 0.0 then -x else x
  }

  function Pow10(n: nat): (p: nat)
    ensures p >= 1
  {
    if n == 0 then 1 else 10 * Pow10(n - 1)
  }

  /** 10^n computed over the reals (kept apart from `Pow10` so that proofs need not mix integers and reals). */
  function Pow10R(n: nat): (p: real)
    ensures p >= 1.0
  {
    if n == 0 then 1.0 else 10.0 * Pow10R(n - 1)
  }

  lemma Pow10Cast(n: nat)
    ensures Pow10(n) as real == Pow10R(n)
  {
    if n > 0 {
      Pow10Cast(n - 1);
    }
  }

  /** 10 raised to an integer power, as a real. */
  function Pow10Real(k: int): (p: real)
    ensures p > 0.0
  {
    if k >= 0 then Pow10R(k) else 1.0 / Pow10R(-k)
  }

  lemma Pow10RealStep(k: int)
    ensures Pow10Real(k + 1) == 10.0 * Pow10Real(k)
  {
    if k < -1 {
      assert Pow10R(-k) == 10.0 * Pow10R(-k - 1);
    }
  }

  lemma Pow10Add(a: nat, b: nat)
    ensures Pow10(a + b) == Pow10(a) * Pow10(b)
  {
    if a > 0 {
      Pow10Add(a - 1, b);
    }
  }

  /** The character for digit `d` in radix up to 36: `0`-`9`, then lower-case `a`-`z`. */
  function DigitChar(d: nat): (c: char)
    requires d < 36
  {
    if d < 10 then ('0' as int + d) as char else ('a' as int + d - 10) as char
  }

  /** The value of a digit character, letters in either case; -1 for anything else. */
  function DigitValue(c: char): int {
    if '0' <= c <= '9' then c as int - '0' as int
    else if 'a' <= c <= 'z' then c as int - 'a' as int + 10
    else if 'A' <= c <= 'Z' then c as int - 'A' as int + 10
    else -1
  }

  predicate IsDigitIn(c: char, radix: nat) {
    0 <= DigitValue(c) < radix
  }

  predicate AllDigitsIn(s: string, radix: nat) {
    forall i :: 0 <= i < |s| ==> IsDigitIn(s[i], radix)
  }

  predicate IsLowerCase(s: string) {
    forall i :: 0 <= i < |s| ==> !('A' <= s[i] <= 'Z')
  }

  /** The number a digit string denotes in `radix` (most significant digit first). */
  function RadixValue(s: string, radix: nat): nat
    requires AllDigitsIn(s, radix)
  {
    if s == [] then 0
    else RadixValue(s[..|s| - 1], radix) * radix + DigitValue(s[|s| - 1])
  }

  /**
   * `n.toString(radix)` for a non-negative integer `n`: the digits without leading
   * zeros ("0" for zero), lower-case letters above 9.
   */
  function ToRadixString(n: nat, radix: nat): (s: string)
    requires 2 <= radix <= 36
    ensures 1 <= |s| && AllDigitsIn(s, radix) && IsLowerCase(s)
    ensures RadixValue(s, radix) == n
    ensures n < radix <==> |s| == 1
    decreases n
  {
    if n < radix then
      DigitCharValue(n);
      [DigitChar(n)]
    else
      var q, d := n / radix, n % radix;
      DivMod(n, radix);
      var prefix := ToRadixString(q, radix);
      var s := prefix + [DigitChar(d)];
      DigitCharValue(d);
      assert s[..|s| - 1] == prefix;
      assert RadixValue(s, radix) == RadixValue(prefix, radix) * radix + d;
      assert q * radix + d == n;
      s
  }

  lemma DivMod(n: nat, radix: nat)
    requires 2 <= radix <= n
    ensures n / radix * radix + n % radix == n
    ensures 0 <= n % radix < radix
    ensures 1 <= n / radix < n
  {
  }

  lemma DigitCharValue(d: nat)
    requires d < 36
    ensures DigitValue(DigitChar(d)) == d
    ensures !('A' <= DigitChar(d) <= 'Z')
  {
  }

  /** `n.toString()` for a non-negative integer. */
  function DecimalString(n: nat): (s: string)
    ensures 1 <= |s| && AllDigitsIn(s, 10) && RadixValue(s, 10) == n
  {
    ToRadixString(n, 10)
  }

  function Zeros(k: nat): (s: string)
    ensures |s| == k && AllDigitsIn(s, 10) && RadixValue(s, 10) == 0
  {
    if k == 0 then "" else
      var s := Zeros(k - 1) + "0";
      assert s[..|s| - 1] == Zeros(k - 1);
      s
  }

  /** Digits after a prefix shift the prefix's value by the suffix's length. */
  lemma {:induction false} DecimalAppend(a: string, b: string)
    requires AllDigitsIn(a, 10) && AllDigitsIn(b, 10)
    ensures AllDigitsIn(a + b, 10)
    ensures RadixValue(a + b, 10) == RadixValue(a, 10) * Pow10(|b|) + RadixValue(b, 10)
    decreases |b|
  {
    if b == [] {
      assert a + b == a;
    } else {
      var b' := b[..|b| - 1];
      var d := DigitValue(b[|b| - 1]);
      assert (a + b)[..|a + b| - 1] == a + b';
      DecimalAppend(a, b');
      var va, vb', p := RadixValue(a, 10), RadixValue(b', 10), Pow10(|b'|);
      assert RadixValue(a + b, 10) == (va * p + vb') * 10 + d;
      assert Pow10(|b|) == 10 * p;
      Horner(va, p, vb', d);
    }
  }

  lemma Horner(va: int, p: int, vb: int, d: int)
    ensures (va * p + vb) * 10 + d == va * (10 * p) + (vb * 10 + d)
  {
  }

  /** Leading zeros do not change the value of a decimal digit string. */
  lemma LeadingZeros(k: nat, m: string)
    requires AllDigitsIn(m, 10)
    ensures AllDigitsIn(Zeros(k) + m, 10) && RadixValue(Zeros(k) + m, 10) == RadixValue(m, 10)
  {
    DecimalAppend(Zeros(k), m);
  }

  /** `Math.round` (section 21.3.2.28 of ECMA-262): the nearest integer, ties toward +infinity. */
  function MathRound(x: real): (n: int)
    ensures n as real - 0.5 <= x < n as real + 0.5
  {
    (x + 0.5).Floor
  }
}
