/**
 * `formatValue`, written out identically in both converter classes: exponential
 * notation for tiny non-zero and for huge magnitudes, fixed notation otherwise.
 */
module ValueFormat {
  import opened Wrappers
  import opened Numbers
  import opened NumberFormat
  import opened NumberParse
  import opened ConversionErrors

  /** The notation rule: non-zero with |value| < 10^-d, or |value| > 10^10. */
  predicate UsesExponential(value: real, decimals: nat) {
    (Abs(value) < Pow10Real(-(decimals as int)) && value != 0.0) || Abs(value) > Pow10R(10)
  }

  /**
   * `formatValue(value, decimals)`: a digit count outside 0..100 raises the engine's
   * `RangeError`; otherwise exponential or fixed text with `decimals` fraction digits.
   * Fixed text reads back within half a unit of its last digit.
   */
  function FormatValue(value: real, decimals: int): (r: Result<string, ConversionError>)
    ensures r.Failure? <==> decimals < 0 || decimals > 100
    ensures r.Failure? ==> r.error == DigitsOutOfRange
    ensures r.Success? ==> |r.value| > 0 && (r.value[0] == '-' <==> value < 0.0)
    ensures r.Success? && UsesExponential(value, decimals) ==> ExponentialNotation(r.value, decimals)
    ensures r.Success? && !UsesExponential(value, decimals) ==>
      && FixedNotation(r.value, decimals)
      && ParseFloat(r.value).Some?
      && WithinHalfUnit(ParseFloat(r.value).value, value, decimals)
  {
    if decimals < 0 || decimals > 100 then Failure(DigitsOutOfRange)
    else if UsesExponential(value, decimals) then Success(ToExponential(value, decimals))
    else
      ToFixedReadsBack(value, decimals);
      Success(ToFixed(value, decimals))
  }

  /** The text carries an exponent marker exactly when the magnitude rule picks exponential notation. */
  lemma NotationFollowsMagnitude(value: real, decimals: nat)
    requires decimals <= 100
    ensures FormatValue(value, decimals).Success?
    ensures 'e' in FormatValue(value, decimals).value <==> UsesExponential(value, decimals)
  {
    var s := FormatValue(value, decimals).value;
    if UsesExponential(value, decimals) {
      ExponentialHasExponent(s, decimals);
    } else {
      FixedHasNoExponent(s, decimals);
    }
  }

  /** Zero is always written in fixed notation, and reads back as zero. */
  lemma ZeroIsFixed(decimals: nat)
    requires decimals <= 100
    ensures FormatValue(0.0, decimals).Success?
    ensures FixedNotation(FormatValue(0.0, decimals).value, decimals)
    ensures ParseFloat(FormatValue(0.0, decimals).value) == Some(0.0)
  {
    var s := ToFixed(0.0, decimals);
    assert FormatValue(0.0, decimals) == Success(s) by {
      assert !UsesExponential(0.0, decimals);
    }
    var n := RadixValue(Unpointed(Unsigned(s), decimals), 10);
    assert ParseFloat(s) == Some(DecimalValue(n, decimals)) by {
      ParseFixedNotation(s, decimals);
    }
    assert n == 0 by {
      assert Scale(0.0, decimals) == 0.0;
    }
    ZeroValue(n, decimals);
    assert ParseFloat(FormatValue(0.0, decimals).value) == Some(0.0);
  }

  lemma ZeroValue(n: nat, k: nat)
    requires n == 0
    ensures DecimalValue(n, k) == 0.0
  {
  }
}
