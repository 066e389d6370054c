/**
 * The state of the hex/RGB page (`useHexRgbConverter`): the hex field and the three
 * channel fields, each held as the text the user typed, and the handlers that keep
 * them in step.
 */
module HexRgbHook {
  import opened Wrappers
  import opened Numbers
  import opened NumberFormat
  import opened NumberParse
  import opened HexRgb
  import opened HexRgbFields

  class HexRgbConverter {
    var hex: string
    var r: string
    var g: string
    var b: string

    /** All four fields start empty. */
    constructor ()
      ensures hex == "" && r == "" && g == "" && b == ""
    {
      hex, r, g, b := "", "", "", "";
    }

    /**
     * `handleHexChange`: the hex field always takes the text. The empty text clears
     * the channels; a valid code sets them to its channels in decimal; anything else
     * leaves them as they were.
     */
    method HandleHexChange(value: string)
      modifies this
      ensures hex == value
      ensures value == "" ==> r == "" && g == "" && b == ""
      ensures value != "" && HexToRgb(value).Some? ==>
        var c := HexToRgb(value).value;
        r == DecimalString(c.r) && g == DecimalString(c.g) && b == DecimalString(c.b)
      ensures value != "" && HexToRgb(value).None? ==> r == old(r) && g == old(g) && b == old(b)
    {
      hex := value;
      if value == "" {
        r, g, b := "", "", "";
      } else {
        var rgb := HexToRgb(value);
        if rgb.Some? {
          r, g, b := DecimalString(rgb.value.r), DecimalString(rgb.value.g), DecimalString(rgb.value.b);
        }
      }
    }

    /** `handleRChange`: the red field takes the text, then the hex field follows the three channels. */
    method HandleRChange(value: string)
      modifies this
      ensures r == value && g == old(g) && b == old(b)
      ensures hex == HexFromFields(value, old(g), old(b), old(hex))
    {
      r := value;
      UpdateHexFromRgb(value, g, b);
    }

    /** `handleGChange`: the green field takes the text, then the hex field follows the three channels. */
    method HandleGChange(value: string)
      modifies this
      ensures g == value && r == old(r) && b == old(b)
      ensures hex == HexFromFields(old(r), value, old(b), old(hex))
    {
      g := value;
      UpdateHexFromRgb(r, value, b);
    }

    /** `handleBChange`: the blue field takes the text, then the hex field follows the three channels. */
    method HandleBChange(value: string)
      modifies this
      ensures b == value && r == old(r) && g == old(g)
      ensures hex == HexFromFields(old(r), old(g), value, old(hex))
    {
      b := value;
      UpdateHexFromRgb(r, g, value);
    }

    /** `updateHexFromRgb`: the hex field follows the three channel texts; nothing else changes. */
    method UpdateHexFromRgb(rVal: string, gVal: string, bVal: string)
      modifies this`hex
      ensures hex == HexFromFields(rVal, gVal, bVal, old(hex))
    {
      var rNum, gNum, bNum := ChannelValue(rVal), ChannelValue(gVal), ChannelValue(bVal);
      if rVal == "" && gVal == "" && bVal == "" {
        hex := "";
      } else if rNum.Some? && gNum.Some? && bNum.Some? {
        hex := RgbToHex(rNum.value, gNum.value, bNum.value);
      }
    }
  }
}
