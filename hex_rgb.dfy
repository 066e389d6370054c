/**
 * The colour codec of the hex/RGB page: `hexToRgb` reads an optional `#` and three
 * or six hex digits; `rgbToHex` rounds and clamps each channel and writes two
 * lower-case hex digits per channel.
 */
module HexRgb {
  import opened Wrappers
  import opened Numbers

  /** A colour as `hexToRgb` returns it: three channels, each 0..255. */
  datatype Rgb = Rgb(r: nat, g: nat, b: nat)

  /** `s.replace(/^#/, '')`: one leading `#` removed, if there is one. */
  function StripHash(s: string): (t: string)
    ensures |s| > 0 && s[0] == '#' ==> t == s[1..]
    ensures !(|s| > 0 && s[0] == '#') ==> t == s
  {
    if |s| > 0 && s[0] == '#' then s[1..] else s
  }

  /** `/^[0-9A-Fa-f]{3}$|^[0-9A-Fa-f]{6}$/`: exactly three or exactly six hex digits, either case. */
  predicate IsHexCode(s: string) {
    (|s| == 3 || |s| == 6) && AllDigitsIn(s, 16)
  }

  /** The six-digit form: a shorthand code has each of its digits doubled. */
  function Expand(s: string): (t: string)
    requires |s| == 3 || |s| == 6
    ensures |t| == 6
    ensures |s| == 3 ==> t == [s[0], s[0], s[1], s[1], s[2], s[2]]
    ensures |s| == 6 ==> t == s
  {
    if |s| == 3 then [s[0], s[0], s[1], s[1], s[2], s[2]] else s
  }

  /** The value of the hex pair at `i` and `i + 1`. */
  function Pair(s: string, i: nat): (v: nat)
    requires i + 1 < |s| && IsDigitIn(s[i], 16) && IsDigitIn(s[i + 1], 16)
    ensures v < 256
  {
    DigitValue(s[i]) * 16 + DigitValue(s[i + 1])
  }

  /**
   * `hexToRgb(hex)`: `None` (the source's `null`) unless one optional leading `#` is
   * followed by exactly three or six hex digits; otherwise the bytes of the six-digit
   * value, high to low.
   */
  function HexToRgb(hex: string): (c: Option<Rgb>)
    ensures c.Some? <==> IsHexCode(StripHash(hex))
    ensures c.Some? ==> var full := Expand(StripHash(hex));
      c.value == Rgb(Pair(full, 0), Pair(full, 2), Pair(full, 4))
  {
    var clean := StripHash(hex);
    if !IsHexCode(clean) then None
    else
      var full := Expand(clean);
      var num := RadixValue(full, 16);
      SixDigits(full);
      Bytes(Pair(full, 0), Pair(full, 2), Pair(full, 4));
      Some(Rgb(num / 65536 % 256, num / 256 % 256, num % 256))
  }

  /** Six hex digits denote their three pairs as the bytes of a 24-bit number. */
  lemma SixDigits(s: string)
    requires |s| == 6 && AllDigitsIn(s, 16)
    ensures RadixValue(s, 16) == Pair(s, 0) * 65536 + Pair(s, 2) * 256 + Pair(s, 4)
  {
    var d := seq(6, i requires 0 <= i < 6 => DigitValue(s[i]));
    assert s[..5][..4] == s[..4] && s[..4][..3] == s[..3] && s[..3][..2] == s[..2] && s[..2][..1] == s[..1];
    assert s[..1][..0] == [];
    assert RadixValue(s[..1], 16) == d[0];
    assert RadixValue(s[..2], 16) == d[0] * 16 + d[1];
    assert RadixValue(s[..3], 16) == (d[0] * 16 + d[1]) * 16 + d[2];
    assert RadixValue(s[..4], 16) == ((d[0] * 16 + d[1]) * 16 + d[2]) * 16 + d[3];
    assert RadixValue(s[..5], 16) == (((d[0] * 16 + d[1]) * 16 + d[2]) * 16 + d[3]) * 16 + d[4];
  }

  /** `(num >> 16) & 255`, `(num >> 8) & 255` and `num & 255` take the three bytes back out. */
  lemma Bytes(x: nat, y: nat, z: nat)
    requires x < 256 && y < 256 && z < 256
    ensures var num := x * 65536 + y * 256 + z;
      num / 65536 % 256 == x && num / 256 % 256 == y && num % 256 == z
  {
    var num := x * 65536 + y * 256 + z;
    assert num / 256 == x * 256 + y;
  }

  /** `Math.max(0, Math.min(255, n))`. */
  function Clamp(n: int): (c: nat)
    ensures c <= 255
    ensures 0 <= n <= 255 ==> c == n
    ensures n < 0 ==> c == 0
    ensures n > 255 ==> c == 255
  {
    if n < 0 then 0 else if n > 255 then 255 else n
  }

  /** `s.padStart(n, c)`: `c` repeated in front of `s` up to length `n`. */
  function PadStart(s: string, n: nat, c: char): (t: string)
    ensures |t| == if |s| >= n then |s| else n
    ensures t[|t| - |s|..] == s
    ensures forall i :: 0 <= i < |t| - |s| ==> t[i] == c
  {
    if |s| >= n then s else seq(n - |s|, _ => c) + s
  }

  /** `toHex(n)`: the rounded, clamped channel as two lower-case hex digits. */
  function ToHex(n: real): (s: string)
    ensures |s| == 2 && AllDigitsIn(s, 16) && IsLowerCase(s)
    ensures Pair(s, 0) == Clamp(MathRound(n))
  {
    PaddedByte(Clamp(MathRound(n)));
    PadStart(ToRadixString(Clamp(MathRound(n)), 16), 2, '0')
  }

  /** A byte written in base 16 and padded to two places: two lower-case digits spelling it. */
  lemma PaddedByte(v: nat)
    requires v < 256
    ensures var s := PadStart(ToRadixString(v, 16), 2, '0');
      |s| == 2 && AllDigitsIn(s, 16) && IsLowerCase(s) && Pair(s, 0) == v
  {
    var digits := ToRadixString(v, 16);
    var s := PadStart(digits, 2, '0');
    if |digits| == 1 {
      assert s == ['0'] + digits;
    } else {
      assert s[..1] == [s[0]] && RadixValue(s[..1], 16) == DigitValue(s[0]);
    }
  }

  /** `rgbToHex(r, g, b)`: six lower-case hex digits, two per channel. */
  function RgbToHex(r: real, g: real, b: real): (s: string)
    ensures |s| == 6 && AllDigitsIn(s, 16) && IsLowerCase(s)
    ensures Pair(s, 0) == Clamp(MathRound(r))
    ensures Pair(s, 2) == Clamp(MathRound(g))
    ensures Pair(s, 4) == Clamp(MathRound(b))
  {
    JoinPairs(ToHex(r), ToHex(g), ToHex(b));
    ToHex(r) + ToHex(g) + ToHex(b)
  }

  /** Three two-digit hex strings, joined, keep their digits, case and pair values. */
  lemma JoinPairs(x: string, y: string, z: string)
    requires |x| == 2 && |y| == 2 && |z| == 2
    requires AllDigitsIn(x, 16) && AllDigitsIn(y, 16) && AllDigitsIn(z, 16)
    requires IsLowerCase(x) && IsLowerCase(y) && IsLowerCase(z)
    ensures var s := x + y + z;
      && |s| == 6 && AllDigitsIn(s, 16) && IsLowerCase(s)
      && Pair(s, 0) == Pair(x, 0) && Pair(s, 2) == Pair(y, 0) && Pair(s, 4) == Pair(z, 0)
  {
    var s := x + y + z;
    assert s[0] == x[0] && s[1] == x[1] && s[2] == y[0] && s[3] == y[1] && s[4] == z[0] && s[5] == z[1];
  }

  /** A letter digit in lower case; every other character unchanged. */
  function LowerChar(c: char): char {
    if 'A' <= c <= 'Z' then (c as int + 32) as char else c
  }

  /** The text in lower case. */
  function ToLower(s: string): (t: string)
    ensures |t| == |s| && forall i :: 0 <= i < |s| ==> t[i] == LowerChar(s[i])
  {
    seq(|s|, i requires 0 <= i < |s| => LowerChar(s[i]))
  }

  /** Only one leading `#` is removed: a second one makes the code invalid. */
  lemma OneHashStripped(s: string)
    requires !(|s| > 0 && s[0] == '#')
    ensures HexToRgb("#" + s) == HexToRgb(s)
    ensures HexToRgb("##" + s) == None
  {
    assert ("#" + s)[1..] == s;
    assert ("##" + s)[1..] == "#" + s;
    assert !IsDigitIn('#', 16);
  }

  /** A shorthand code denotes the same colour as its six-digit expansion. */
  lemma ShorthandDoubles(x: char, y: char, z: char)
    requires IsDigitIn(x, 16) && IsDigitIn(y, 16) && IsDigitIn(z, 16)
    ensures HexToRgb([x, y, z]).Some?
    ensures HexToRgb([x, y, z]) == HexToRgb([x, x, y, y, z, z])
  {
    assert !IsDigitIn('#', 16);
  }

  /** Every colour with integer channels in 0..255 survives `rgbToHex` then `hexToRgb`. */
  lemma RgbRoundTrip(r: nat, g: nat, b: nat)
    requires r <= 255 && g <= 255 && b <= 255
    ensures HexToRgb(RgbToHex(r as real, g as real, b as real)) == Some(Rgb(r, g, b))
  {
    var s := RgbToHex(r as real, g as real, b as real);
    RoundInteger(r); RoundInteger(g); RoundInteger(b);
    NoHash(s);
  }

  /** Text that starts with a hex digit has no `#` to strip. */
  lemma NoHash(s: string)
    requires |s| > 0 && IsDigitIn(s[0], 16)
    ensures StripHash(s) == s
  {
  }

  /** `Math.round` leaves an integer as it is. */
  lemma RoundInteger(n: int)
    ensures MathRound(n as real) == n
  {
  }

  /** A valid code read by `hexToRgb` and written back by `rgbToHex` comes out as its lower-case six-digit form. */
  lemma HexRoundTrip(hex: string)
    requires HexToRgb(hex).Some?
    ensures var c := HexToRgb(hex).value;
      RgbToHex(c.r as real, c.g as real, c.b as real) == ToLower(Expand(StripHash(hex)))
  {
    var c := HexToRgb(hex).value;
    var full := Expand(StripHash(hex));
    assert c == Rgb(Pair(full, 0), Pair(full, 2), Pair(full, 4));
    var lower := ToLower(full);
    LowerHex(full);
    var s := RgbToHex(c.r as real, c.g as real, c.b as real);
    assert Pair(s, 0) == c.r && Pair(s, 2) == c.g && Pair(s, 4) == c.b by {
      RoundInteger(c.r); RoundInteger(c.g); RoundInteger(c.b);
    }
    SamePairs(s, lower);
  }

  /** Lower-casing hex digits keeps them hex digits with the same values, now all lower case. */
  lemma LowerHex(s: string)
    requires AllDigitsIn(s, 16)
    ensures AllDigitsIn(ToLower(s), 16) && IsLowerCase(ToLower(s))
    ensures forall i :: 0 <= i < |s| ==> DigitValue(ToLower(s)[i]) == DigitValue(s[i])
    ensures forall k :: 0 <= k < |s| - 1 ==> Pair(ToLower(s), k) == Pair(s, k)
  {
  }

  /** Two six-digit lower-case hex strings with the same three pair values are the same string. */
  lemma SamePairs(s: string, t: string)
    requires |s| == 6 && |t| == 6 && AllDigitsIn(s, 16) && AllDigitsIn(t, 16) && IsLowerCase(s) && IsLowerCase(t)
    requires Pair(s, 0) == Pair(t, 0) && Pair(s, 2) == Pair(t, 2) && Pair(s, 4) == Pair(t, 4)
    ensures s == t
  {
    SamePair(s, t, 0);
    SamePair(s, t, 2);
    SamePair(s, t, 4);
  }

  /** Equal pair values at `k` mean equal digits at `k` and `k + 1`. */
  lemma SamePair(s: string, t: string, k: nat)
    requires k + 1 < |s| && k + 1 < |t| && AllDigitsIn(s, 16) && AllDigitsIn(t, 16) && IsLowerCase(s) && IsLowerCase(t)
    requires Pair(s, k) == Pair(t, k)
    ensures s[k] == t[k] && s[k + 1] == t[k + 1]
  {
    assert DigitValue(s[k]) == DigitValue(t[k]);
    SameDigit(s[k], t[k]);
    SameDigit(s[k + 1], t[k + 1]);
  }

  /** A lower-case hex digit is determined by its value. */
  lemma SameDigit(x: char, y: char)
    requires IsDigitIn(x, 16) && IsDigitIn(y, 16) && !('A' <= x <= 'Z') && !('A' <= y <= 'Z')
    requires DigitValue(x) == DigitValue(y)
    ensures x == y
  {
  }
}
