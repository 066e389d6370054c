/** The length page: four metric and four imperial units on one ratio converter. */
module MeasurementConfig {
  import opened Wrappers
  import opened Units
  import opened UnitTable
  import opened Converters
  import opened PageConfig

  const MetricUnits: seq<Unit> := (
    FoundAt(0, "mm"); FoundAt(1, "cm"); FoundAt(2, "m"); FoundAt(3, "km");
    [
      FindId(LengthUnits, "mm").value,
      FindId(LengthUnits, "cm").value,
      FindId(LengthUnits, "m").value,
      FindId(LengthUnits, "km").value
    ])

  const ImperialUnits: seq<Unit> := (
    FoundAt(4, "in"); FoundAt(5, "ft"); FoundAt(6, "yd"); FoundAt(7, "mi");
    [
      FindId(LengthUnits, "in").value,
      FindId(LengthUnits, "ft").value,
      FindId(LengthUnits, "yd").value,
      FindId(LengthUnits, "mi").value
    ])

  const SelectedUnits: seq<Unit> := MetricUnits + ImperialUnits

  const MeasurementConverter: Result<Converter, ConversionErrors.ConversionError> :=
    CreateRatio(GetBaseUnit(Length), SelectedUnits, Some(2))

  const MetricConfig: seq<FieldConfig> := [
    FieldConfig("mm", "Millimeters", None, "Enter mm"),
    FieldConfig("cm", "Centimeters", None, "Enter cm"),
    FieldConfig("m", "Meters", None, "Enter m"),
    FieldConfig("km", "Kilometers", None, "Enter km")
  ]

  const ImperialConfig: seq<FieldConfig> := [
    FieldConfig("in", "Inches", None, "Enter in"),
    FieldConfig("ft", "Feet", None, "Enter ft"),
    FieldConfig("yd", "Yards", None, "Enter yd"),
    FieldConfig("mi", "Miles", None, "Enter mi")
  ]

  /** `lengthUnits.find(u => u.id === id)!` picks the registry unit at index `i`. */
  lemma FoundAt(i: nat, id: string)
    requires i < |LengthUnits| && LengthUnits[i].id == id
    ensures FindId(LengthUnits, id) == Some(LengthUnits[i])
  {
    LengthListWellFormed();
    FindIdAt(LengthUnits, i, id);
  }

  /** `metricUnits` is mm, cm, m, km, taken from the registry. */
  lemma MetricUnitsAre()
    ensures MetricUnits == [MmUnit, CmUnit, MUnit, KmUnit]
    ensures Ids(MetricUnits) == ["mm", "cm", "m", "km"]
  {
    FoundAt(0, "mm"); FoundAt(1, "cm"); FoundAt(2, "m"); FoundAt(3, "km");
    IdsOfFour(MmUnit, CmUnit, MUnit, KmUnit);
  }

  /** `imperialUnits` is in, ft, yd, mi, taken from the registry. */
  lemma ImperialUnitsAre()
    ensures ImperialUnits == [InUnit, FtUnit, YdUnit, MiUnit]
    ensures Ids(ImperialUnits) == ["in", "ft", "yd", "mi"]
  {
    FoundAt(4, "in"); FoundAt(5, "ft"); FoundAt(6, "yd"); FoundAt(7, "mi");
    IdsOfFour(InUnit, FtUnit, YdUnit, MiUnit);
  }

  /** `selectedUnits`, metric then imperial, is the whole length list in registry order. */
  lemma SelectedUnitsAre()
    ensures SelectedUnits == LengthUnits
    ensures |SelectedUnits| == |MetricUnits| + |ImperialUnits| == 8
  {
    MetricUnitsAre();
    ImperialUnitsAre();
    JoinFour(MetricUnits, ImperialUnits);
  }

  /** The metric and imperial field lists name the same units, in the same order. */
  lemma ConfigMatchesUnits()
    ensures FieldIds(MetricConfig) == Ids(MetricUnits)
    ensures FieldIds(ImperialConfig) == Ids(ImperialUnits)
  {
    MetricUnitsAre();
    ImperialUnitsAre();
    FieldIdsOfFour(MetricConfig[0], MetricConfig[1], MetricConfig[2], MetricConfig[3]);
    FieldIdsOfFour(ImperialConfig[0], ImperialConfig[1], ImperialConfig[2], ImperialConfig[3]);
  }

  /**
   * Construction succeeds: the converter has base unit cm, precision 2, and a table
   * holding the eight units in order.
   */
  lemma ConverterBuilt()
    ensures MeasurementConverter == Success(Converter(Ratio(CmUnit), LengthUnits, 2))
  {
    SelectedUnitsAre();
    assert GetBaseUnit(Length) == CmUnit;
    LengthRatioBuilt();
  }

  /** On the page's converter (the value `ConverterBuilt` shows it to be), 1 m is 100 cm, exactly. */
  lemma AMeterIs100Centimeters()
    ensures Converter(Ratio(CmUnit), LengthUnits, 2).Convert(1.0, "m", "cm") == Success(100.0)
  {
    Converts(1.0, 2, 1, 100.0);
  }

  /** On the page's converter (the value `ConverterBuilt` shows it to be), 1 km is 1000 m, exactly. */
  lemma AKilometerIs1000Meters()
    ensures Converter(Ratio(CmUnit), LengthUnits, 2).Convert(1.0, "km", "m") == Success(1000.0)
  {
    Converts(1.0, 3, 2, 1000.0);
  }

  /** On the page's converter (the value `ConverterBuilt` shows it to be), 12 in is 1 ft, exactly. */
  lemma AFootIs12Inches()
    ensures Converter(Ratio(CmUnit), LengthUnits, 2).Convert(12.0, "in", "ft") == Success(1.0)
  {
    Converts(12.0, 4, 5, 1.0);
  }

  /** On the page's converter (the value `ConverterBuilt` shows it to be), 3 ft is 1 yd, exactly. */
  lemma AYardIsThreeFeet()
    ensures Converter(Ratio(CmUnit), LengthUnits, 2).Convert(3.0, "ft", "yd") == Success(1.0)
  {
    Converts(3.0, 5, 6, 1.0);
  }

  /** The page's converter takes `value` in the `i`-th length unit to `result` in the `j`-th. */
  lemma Converts(value: real, i: nat, j: nat, result: real)
    requires i < |LengthUnits| && j < |LengthUnits| && i != j
    requires LengthUnits[j].FromBase(LengthUnits[i].ToBase(value)) == result
    ensures Converter(Ratio(CmUnit), LengthUnits, 2).Convert(value, LengthUnits[i].id, LengthUnits[j].id) == Success(result)
  {
    LengthListWellFormed();
    Converter(Ratio(CmUnit), LengthUnits, 2).ConvertBetween(value, LengthUnits[i], LengthUnits[j]);
  }

  /** The ratio converter over the length list, with base cm and precision 2, is built as given. */
  lemma LengthRatioBuilt()
    ensures CreateRatio(CmUnit, LengthUnits, Some(2)) == Success(Converter(Ratio(CmUnit), LengthUnits, 2))
  {
    LengthListWellFormed();
    CreateRatioOf(CmUnit, LengthUnits, Some(2), 1);
  }
}
