/**
 * The older two-field temperature page (`useTemperatureConverter`): a Celsius and a
 * Fahrenheit text field, each handler storing its own text and rewriting the other.
 * Unlike the generic converter hook, the empty text or a lone `-` clears only the
 * other field.
 */
module TemperatureHook {
  import opened Wrappers
  import opened Units
  import opened NumberFormat
  import opened NumberParse

  /** `celsiusToFahrenheit`: nine Fahrenheit degrees per five Celsius degrees, water freezing at 32. */
  function CelsiusToFahrenheit(celsius: real): (fahrenheit: real)
    ensures (fahrenheit - 32.0) * 5.0 == celsius * 9.0
  {
    (celsius * 9.0 / 5.0) + 32.0
  }

  /** `fahrenheitToCelsius`: five Celsius degrees per nine Fahrenheit degrees above 32. */
  function FahrenheitToCelsius(fahrenheit: real): (celsius: real)
    ensures celsius * 9.0 == (fahrenheit - 32.0) * 5.0
  {
    (fahrenheit - 32.0) * 5.0 / 9.0
  }

  /** The two formulas undo each other. */
  lemma FormulasAreInverse(x: real)
    ensures FahrenheitToCelsius(CelsiusToFahrenheit(x)) == x
    ensures CelsiusToFahrenheit(FahrenheitToCelsius(x)) == x
  {
    var f := CelsiusToFahrenheit(x);
    assert FahrenheitToCelsius(f) * 9.0 == x * 9.0;
    var c := FahrenheitToCelsius(x);
    assert (CelsiusToFahrenheit(c) - 32.0) * 5.0 == (x - 32.0) * 5.0;
  }

  /** The hook's formulas are the Fahrenheit unit's own, with Celsius as the base. */
  lemma FormulasMatchUnitTable(x: real)
    ensures CelsiusToFahrenheit(x) == FahrenheitUnit.FromBase(x)
    ensures FahrenheitToCelsius(x) == FahrenheitUnit.ToBase(x)
  {
  }

  /** Water freezes at 0 °C = 32 °F and boils at 100 °C = 212 °F; the scales cross at -40. */
  lemma FixedValues()
    ensures CelsiusToFahrenheit(0.0) == 32.0
    ensures CelsiusToFahrenheit(100.0) == 212.0
    ensures CelsiusToFahrenheit(-40.0) == -40.0
    ensures FahrenheitToCelsius(32.0) == 0.0
    ensures FahrenheitToCelsius(212.0) == 100.0
  {
  }

  /** Both formulas keep the order of temperatures. */
  lemma FormulasIncrease(x: real, y: real)
    requires x < y
    ensures CelsiusToFahrenheit(x) < CelsiusToFahrenheit(y)
    ensures FahrenheitToCelsius(x) < FahrenheitToCelsius(y)
  {
  }

  /**
   * The text a field receives from a number in the other field reads back within half a
   * hundredth of the converted temperature.
   */
  lemma ShownTemperatureIsClose(x: real)
    ensures ParseFloat(ToFixed(CelsiusToFahrenheit(x), 2)).Some?
    ensures WithinHalfUnit(ParseFloat(ToFixed(CelsiusToFahrenheit(x), 2)).value, CelsiusToFahrenheit(x), 2)
    ensures ParseFloat(ToFixed(FahrenheitToCelsius(x), 2)).Some?
    ensures WithinHalfUnit(ParseFloat(ToFixed(FahrenheitToCelsius(x), 2)).value, FahrenheitToCelsius(x), 2)
  {
    ToFixedReadsBack(CelsiusToFahrenheit(x), 2);
    ToFixedReadsBack(FahrenheitToCelsius(x), 2);
  }

  class TemperatureConverter {
    var celsius: string
    var fahrenheit: string

    /** Both fields start empty. */
    constructor ()
      ensures celsius == "" && fahrenheit == ""
    {
      celsius, fahrenheit := "", "";
    }

    /**
     * `handleCelsiusChange`: the Celsius field always takes the text. The empty text or
     * a lone `-` clears the Fahrenheit field; text that reads as `NaN` leaves it alone;
     * a number sets it to the converted value with two decimals.
     */
    method HandleCelsiusChange(value: string)
      modifies this
      ensures celsius == value
      ensures value == "" || value == "-" ==> fahrenheit == ""
      ensures value != "" && value != "-" && ParseFloat(value).None? ==> fahrenheit == old(fahrenheit)
      ensures value != "" && value != "-" && ParseFloat(value).Some? ==>
        fahrenheit == ToFixed(CelsiusToFahrenheit(ParseFloat(value).value), 2)
    {
      celsius := value;
      if value == "" || value == "-" {
        fahrenheit := "";
      } else {
        var number := ParseFloat(value);
        if number.Some? {
          fahrenheit := ToFixed(CelsiusToFahrenheit(number.value), 2);
        }
      }
    }

    /** `handleFahrenheitChange`: the mirror image, with the two fields' roles swapped. */
    method HandleFahrenheitChange(value: string)
      modifies this
      ensures fahrenheit == value
      ensures value == "" || value == "-" ==> celsius == ""
      ensures value != "" && value != "-" && ParseFloat(value).None? ==> celsius == old(celsius)
      ensures value != "" && value != "-" && ParseFloat(value).Some? ==>
        celsius == ToFixed(FahrenheitToCelsius(ParseFloat(value).value), 2)
    {
      fahrenheit := value;
      if value == "" || value == "-" {
        celsius := "";
      } else {
        var number := ParseFloat(value);
        if number.Some? {
          celsius := ToFixed(FahrenheitToCelsius(number.value), 2);
        }
      }
    }
  }
}
