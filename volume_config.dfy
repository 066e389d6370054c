/** The volume page: six of the registry's volume units on one ratio converter based on millilitres. */
module VolumeConfig {
  import opened Wrappers
  import opened Units
  import opened UnitTable
  import opened Converters
  import opened PageConfig

  const SelectedUnits: seq<Unit> := (
    FoundAt(0, "ml"); FoundAt(8, "liter"); FoundAt(1, "tsp"); FoundAt(2, "tbsp"); FoundAt(3, "floz"); FoundAt(4, "cup");
    [
      FindId(VolumeUnits, "ml").value,
      FindId(VolumeUnits, "liter").value,
      FindId(VolumeUnits, "tsp").value,
      FindId(VolumeUnits, "tbsp").value,
      FindId(VolumeUnits, "floz").value,
      FindId(VolumeUnits, "cup").value
    ])

  const VolumeConverter: Result<Converter, ConversionErrors.ConversionError> :=
    CreateRatio(GetBaseUnit(Volume), SelectedUnits, Some(1))

  const UnitConfig: seq<FieldConfig> := [
    FieldConfig("ml", "Milliliters", None, "Enter mL"),
    FieldConfig("liter", "Liters", None, "Enter L"),
    FieldConfig("tsp", "Teaspoons", None, "Enter tsp"),
    FieldConfig("tbsp", "Tablespoons", None, "Enter tbsp"),
    FieldConfig("floz", "Fluid Ounces", None, "Enter fl oz"),
    FieldConfig("cup", "Cups (US)", None, "Enter cups")
  ]

  /** `volumeUnits.find(u => u.id === id)!` picks the registry unit at index `i`. */
  lemma FoundAt(i: nat, id: string)
    requires i < |VolumeUnits| && VolumeUnits[i].id == id
    ensures FindId(VolumeUnits, id) == Some(VolumeUnits[i])
  {
    VolumeListWellFormed();
    FindIdAt(VolumeUnits, i, id);
  }

  /**
   * `selectedUnits` is ml, liter, tsp, tbsp, floz, cup: the liter moves up from the end
   * of the registry list, and pint, quart and gallon are left out.
   */
  lemma SelectedUnitsAre()
    ensures SelectedUnits == [MlUnit, LiterUnit, TspUnit, TbspUnit, FlozUnit, CupUnit]
    ensures PintUnit !in SelectedUnits && QuartUnit !in SelectedUnits && GallonUnit !in SelectedUnits
  {
    FoundAt(0, "ml"); FoundAt(8, "liter"); FoundAt(1, "tsp"); FoundAt(2, "tbsp"); FoundAt(3, "floz"); FoundAt(4, "cup");
  }

  /** The fields name the selected units, in the same order. */
  lemma ConfigMatchesUnits()
    ensures FieldIds(UnitConfig) == Ids(SelectedUnits) == ["ml", "liter", "tsp", "tbsp", "floz", "cup"]
  {
    SelectedUnitsAre();
    IdsOfSix(MlUnit, LiterUnit, TspUnit, TbspUnit, FlozUnit, CupUnit);
    var u := UnitConfig;
    FieldIdsOfSix(u[0], u[1], u[2], u[3], u[4], u[5]);
  }

  /** The six selected units have distinct ids and are all volumes. */
  lemma SelectedWellFormed()
    ensures UniqueIds([MlUnit, LiterUnit, TspUnit, TbspUnit, FlozUnit, CupUnit])
    ensures forall i :: 0 <= i < 6 ==> [MlUnit, LiterUnit, TspUnit, TbspUnit, FlozUnit, CupUnit][i].category == Volume
  {
  }

  /** Construction succeeds: base unit ml, precision 1, the six units in the page's order. */
  lemma ConverterBuilt()
    ensures VolumeConverter == Success(Converter(Ratio(MlUnit), [MlUnit, LiterUnit, TspUnit, TbspUnit, FlozUnit, CupUnit], 1))
  {
    SelectedUnitsAre();
    assert GetBaseUnit(Volume) == MlUnit;
    VolumeRatioBuilt();
  }

  /** The ratio converter over the six units, with base ml and precision 1, is built as given. */
  lemma VolumeRatioBuilt()
    ensures var us := [MlUnit, LiterUnit, TspUnit, TbspUnit, FlozUnit, CupUnit];
      CreateRatio(MlUnit, us, Some(1)) == Success(Converter(Ratio(MlUnit), us, 1))
  {
    SelectedWellFormed();
    CreateRatioOf(MlUnit, [MlUnit, LiterUnit, TspUnit, TbspUnit, FlozUnit, CupUnit], Some(1), 0);
  }

  /** On the page's converter (the value `ConverterBuilt` shows it to be), 1 liter is 1000 ml, exactly. */
  lemma ALiterIs1000Milliliters()
    ensures Converter(Ratio(MlUnit), [MlUnit, LiterUnit, TspUnit, TbspUnit, FlozUnit, CupUnit], 1).Convert(1.0, "liter", "ml") == Success(1000.0)
  {
    Converts(1.0, 1, 0, 1000.0);
  }

  /** On the page's converter, 8 fl oz is 1 cup, exactly. */
  lemma ACupIsEightFluidOunces()
    ensures Converter(Ratio(MlUnit), [MlUnit, LiterUnit, TspUnit, TbspUnit, FlozUnit, CupUnit], 1).Convert(8.0, "floz", "cup") == Success(1.0)
  {
    Converts(8.0, 4, 5, 1.0);
  }

  /**
   * On the page's converter, 3 tsp come out within 0.05 of 1 tbsp but not exactly 1:
   * the two registry factors, 4.92892 and 14.7868, are rounded independently.
   */
  lemma ThreeTeaspoonsAreAboutATablespoon()
    ensures var r := Converter(Ratio(MlUnit), [MlUnit, LiterUnit, TspUnit, TbspUnit, FlozUnit, CupUnit], 1).Convert(3.0, "tsp", "tbsp");
      r.Success? && r.value != 1.0 && -0.05 < r.value - 1.0 < 0.05
  {
    Converts(3.0, 2, 3, 14.78676 / 14.7868);
  }

  /** The page's converter takes `value` in the `i`-th selected unit to `result` in the `j`-th. */
  lemma Converts(value: real, i: nat, j: nat, result: real)
    requires i < 6 && j < 6 && i != j
    requires var us := [MlUnit, LiterUnit, TspUnit, TbspUnit, FlozUnit, CupUnit];
      us[j].FromBase(us[i].ToBase(value)) == result
    ensures var us := [MlUnit, LiterUnit, TspUnit, TbspUnit, FlozUnit, CupUnit];
      Converter(Ratio(MlUnit), us, 1).Convert(value, us[i].id, us[j].id) == Success(result)
  {
    var us := [MlUnit, LiterUnit, TspUnit, TbspUnit, FlozUnit, CupUnit];
    SelectedWellFormed();
    Converter(Ratio(MlUnit), us, 1).ConvertBetween(value, us[i], us[j]);
  }
}
