/**
 * The text fields of the hex/RGB page: how a channel field reads as a number, what
 * the hex field becomes when a channel changes, and how the fields are displayed.
 */
module HexRgbFields {
  import opened Wrappers
  import opened Numbers
  import opened NumberFormat
  import opened NumberParse
  import opened HexRgb

  /** A channel field read as a number: the empty field counts as 0, other text goes through `parseFloat`. */
  function ChannelValue(text: string): (v: Option<real>)
    ensures text == "" ==> v == Some(0.0)
    ensures text != "" ==> v == ParseFloat(text)
  {
    if text == "" then Some(0.0) else ParseFloat(text)
  }

  /**
   * The hex field after `updateHexFromRgb(rText, gText, bText)` when it held `current`:
   * empty when all three fields are empty, the `rgbToHex` of the three numbers when
   * none of them reads as `NaN`, and unchanged otherwise.
   */
  function HexFromFields(rText: string, gText: string, bText: string, current: string): (hex: string)
    ensures rText == "" && gText == "" && bText == "" ==> hex == ""
    ensures (!(rText == "" && gText == "" && bText == "") &&
      (ChannelValue(rText).None? || ChannelValue(gText).None? || ChannelValue(bText).None?)) ==>
      hex == current
    ensures (!(rText == "" && gText == "" && bText == "") &&
      ChannelValue(rText).Some? && ChannelValue(gText).Some? && ChannelValue(bText).Some?) ==>
      hex == RgbToHex(ChannelValue(rText).value, ChannelValue(gText).value, ChannelValue(bText).value)
  {
    if rText == "" && gText == "" && bText == "" then ""
    else
      var rNum, gNum, bNum := ChannelValue(rText), ChannelValue(gText), ChannelValue(bText);
      if rNum.Some? && gNum.Some? && bNum.Some? then RgbToHex(rNum.value, gNum.value, bNum.value)
      else current
  }

  /** `displayHex`: `#` and the hex text without its own leading `#`; empty for an empty field. */
  function DisplayHex(hex: string): (d: string)
    ensures d == "" <==> hex == ""
    ensures d != "" ==> d[0] == '#' && d[1..] == StripHash(hex)
  {
    if hex == "" then "" else "#" + StripHash(hex)
  }

  /** A channel as `displayRgb` shows it: `0` for an empty field. */
  function OrZero(text: string): (shown: string)
    ensures shown != ""
    ensures text != "" ==> shown == text
    ensures text == "" ==> ParseFloat(shown) == Some(0.0)
  {
    ZeroReadsAsZero();
    if text == "" then "0" else text
  }

  /** `displayRgb`: `rgb(r, g, b)` with 0 for empty fields, or empty when all three are empty. */
  function DisplayRgb(r: string, g: string, b: string): (d: string)
    ensures d == "" <==> r == "" && g == "" && b == ""
    ensures d != "" ==> d == "rgb(" + OrZero(r) + ", " + OrZero(g) + ", " + OrZero(b) + ")"
  {
    if r == "" && g == "" && b == "" then "" else "rgb(" + OrZero(r) + ", " + OrZero(g) + ", " + OrZero(b) + ")"
  }

  /** Next to a non-empty channel, an empty channel is displayed exactly as the text `0`. */
  lemma DisplayedEmptyChannelIsZero(r: string, g: string, b: string)
    requires r != "" || g != "" || b != ""
    ensures DisplayRgb(r, g, b) == DisplayRgb(OrZero(r), OrZero(g), OrZero(b))
  {
  }

  /** An empty channel next to a non-empty one counts exactly as the text `0`. */
  lemma EmptyChannelIsZero(gText: string, bText: string, current: string)
    requires gText != "" || bText != ""
    ensures HexFromFields("", gText, bText, current) == HexFromFields("0", gText, bText, current)
  {
    assert ChannelValue("") == ChannelValue("0") by {
      ZeroReadsAsZero();
    }
  }

  /** `parseFloat("0")` is 0. */
  lemma ZeroReadsAsZero()
    ensures ParseFloat("0") == Some(0.0)
  {
    assert RadixValue("0", 10) == 0 by {
      assert "0"[..0] == [];
    }
    assert ParseFloat("0") == Some(RadixValue("0", 10) as real) by {
      assert AllDigitsIn("0", 10);
      ParseDigits("0");
    }
  }

  /** `parseFloat` reads the decimal text of a natural number back as that number. */
  lemma DecimalReadsBack(n: nat)
    ensures ParseFloat(DecimalString(n)) == Some(n as real)
  {
    ParseDigits(DecimalString(n));
  }

  /**
   * The channel fields a valid code writes regenerate the code: editing any channel
   * to the text it already holds sets the hex field to the lower-case six-digit form
   * of the code.
   */
  lemma FieldsRegenerateHex(value: string, current: string)
    requires HexToRgb(value).Some?
    ensures var c := HexToRgb(value).value;
      HexFromFields(DecimalString(c.r), DecimalString(c.g), DecimalString(c.b), current) ==
        ToLower(Expand(StripHash(value)))
  {
    var c := HexToRgb(value).value;
    var rText, gText, bText := DecimalString(c.r), DecimalString(c.g), DecimalString(c.b);
    ChannelReadsBack(c.r);
    ChannelReadsBack(c.g);
    ChannelReadsBack(c.b);
    assert HexFromFields(rText, gText, bText, current) == RgbToHex(c.r as real, c.g as real, c.b as real);
    HexRoundTrip(value);
  }

  /** A channel field holding the decimal text of a natural number reads as that number. */
  lemma ChannelReadsBack(n: nat)
    ensures DecimalString(n) != "" && ChannelValue(DecimalString(n)) == Some(n as real)
  {
    DecimalReadsBack(n);
  }

  /** Showing the shown hex again changes nothing: `displayHex` adds exactly one `#`. */
  lemma DisplayHexIdempotent(hex: string)
    ensures DisplayHex(DisplayHex(hex)) == DisplayHex(hex)
  {
    if hex != "" {
      assert ("#" + StripHash(hex))[1..] == StripHash(hex);
    }
  }
}
