/** The temperature page: Celsius and Fahrenheit on one interval converter. */
module TemperatureConfig {
  import opened Wrappers
  import opened Units
  import opened UnitTable
  import opened Converters
  import opened PageConfig

  const SelectedUnits: seq<Unit> := (
    FoundAt(0, "celsius"); FoundAt(1, "fahrenheit");
    [
      FindId(TemperatureUnits, "celsius").value,
      FindId(TemperatureUnits, "fahrenheit").value
    ])

  const TemperatureConverter: Result<Converter, ConversionErrors.ConversionError> :=
    CreateInterval(SelectedUnits, Some(2))

  const UnitConfig: seq<FieldConfig> := [
    FieldConfig("celsius", "Celsius", Some("\U{00B0}C"), "Enter temperature in Celsius"),
    FieldConfig("fahrenheit", "Fahrenheit", Some("\U{00B0}F"), "Enter temperature in Fahrenheit")
  ]

  /** `temperatureUnits.find(u => u.id === id)!` picks the registry unit at index `i`. */
  lemma FoundAt(i: nat, id: string)
    requires i < |TemperatureUnits| && TemperatureUnits[i].id == id
    ensures FindId(TemperatureUnits, id) == Some(TemperatureUnits[i])
  {
    TemperatureListWellFormed();
    FindIdAt(TemperatureUnits, i, id);
  }

  /** `selectedUnits` is Celsius then Fahrenheit; Kelvin and Rankine are left out. */
  lemma SelectedUnitsAre()
    ensures SelectedUnits == [CelsiusUnit, FahrenheitUnit]
  {
    FoundAt(0, "celsius"); FoundAt(1, "fahrenheit");
  }

  /** The fields name the selected units, in the same order, with the units' own symbols. */
  lemma ConfigMatchesUnits()
    ensures FieldIds(UnitConfig) == Ids(SelectedUnits) == ["celsius", "fahrenheit"]
    ensures forall i :: 0 <= i < 2 ==> UnitConfig[i].symbol == Some(SelectedUnits[i].symbol)
  {
    SelectedUnitsAre();
  }

  /**
   * Construction succeeds: the list is non-empty and all temperatures, so the interval
   * converter holds both units, with precision 2.
   */
  lemma ConverterBuilt()
    ensures TemperatureConverter == Success(Converter(Interval, [CelsiusUnit, FahrenheitUnit], 2))
    ensures |TemperatureConverter.value.GetUnits()| == 2
  {
    SelectedUnitsAre();
    CreateIntervalOf([CelsiusUnit, FahrenheitUnit], Some(2));
  }

  /**
   * On the page's converter (the value `ConverterBuilt` shows it to be), water freezes
   * at 0 °C = 32 °F and boils at 100 °C = 212 °F, and -40 is the same on both scales.
   */
  lemma CelsiusFixedPoints()
    ensures var c := Converter(Interval, [CelsiusUnit, FahrenheitUnit], 2);
      && c.Convert(0.0, "celsius", "fahrenheit") == Success(32.0)
      && c.Convert(100.0, "celsius", "fahrenheit") == Success(212.0)
      && c.Convert(-40.0, "celsius", "fahrenheit") == Success(-40.0)
  {
    CelsiusToFahrenheit(0.0);
    CelsiusToFahrenheit(100.0);
    CelsiusToFahrenheit(-40.0);
  }

  /** On the page's converter, 32 °F and 212 °F come back as 0 °C and 100 °C. */
  lemma FahrenheitFixedPoints()
    ensures var c := Converter(Interval, [CelsiusUnit, FahrenheitUnit], 2);
      && c.Convert(32.0, "fahrenheit", "celsius") == Success(0.0)
      && c.Convert(212.0, "fahrenheit", "celsius") == Success(100.0)
  {
    FahrenheitToCelsius(32.0);
    FahrenheitToCelsius(212.0);
  }

  /** The page's converter takes Celsius to Fahrenheit by `c * 9 / 5 + 32`. */
  lemma CelsiusToFahrenheit(value: real)
    ensures Converter(Interval, [CelsiusUnit, FahrenheitUnit], 2).Convert(value, "celsius", "fahrenheit") ==
      Success(value * 9.0 / 5.0 + 32.0)
  {
    Converts(value, 0, 1, value * 9.0 / 5.0 + 32.0);
  }

  /** The page's converter takes Fahrenheit to Celsius by `(f - 32) * 5 / 9`. */
  lemma FahrenheitToCelsius(value: real)
    ensures Converter(Interval, [CelsiusUnit, FahrenheitUnit], 2).Convert(value, "fahrenheit", "celsius") ==
      Success((value - 32.0) * 5.0 / 9.0)
  {
    Converts(value, 1, 0, (value - 32.0) * 5.0 / 9.0);
  }

  /** The page's converter takes `value` in the `i`-th selected unit to `result` in the `j`-th. */
  lemma Converts(value: real, i: nat, j: nat, result: real)
    requires i < 2 && j < 2 && i != j
    requires var us := [CelsiusUnit, FahrenheitUnit];
      us[j].FromBase(us[i].ToBase(value)) == result
    ensures var us := [CelsiusUnit, FahrenheitUnit];
      Converter(Interval, us, 2).Convert(value, us[i].id, us[j].id) == Success(result)
  {
    var us := [CelsiusUnit, FahrenheitUnit];
    assert UniqueIds(us);
    Converter(Interval, us, 2).ConvertBetween(value, us[i], us[j]);
  }
}
