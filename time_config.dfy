/** The time page: the eight registry time units on one ratio converter based on seconds. */
module TimeConfig {
  import opened Wrappers
  import opened Units
  import opened UnitTable
  import opened Converters
  import opened PageConfig

  const SelectedUnits: seq<Unit> := (
    FoundAt(0, "ms"); FoundAt(1, "s"); FoundAt(2, "min"); FoundAt(3, "hr");
    FoundAt(4, "day"); FoundAt(5, "week"); FoundAt(6, "month"); FoundAt(7, "year");
    [
      FindId(TimeUnits, "ms").value,
      FindId(TimeUnits, "s").value,
      FindId(TimeUnits, "min").value,
      FindId(TimeUnits, "hr").value,
      FindId(TimeUnits, "day").value,
      FindId(TimeUnits, "week").value,
      FindId(TimeUnits, "month").value,
      FindId(TimeUnits, "year").value
    ])

  const TimeConverter: Result<Converter, ConversionErrors.ConversionError> :=
    CreateRatio(GetBaseUnit(Time), SelectedUnits, Some(2))

  const UnitConfig: seq<FieldConfig> := [
    FieldConfig("ms", "Milliseconds", None, "Enter ms"),
    FieldConfig("s", "Seconds", None, "Enter s"),
    FieldConfig("min", "Minutes", None, "Enter min"),
    FieldConfig("hr", "Hours", None, "Enter hr"),
    FieldConfig("day", "Days", None, "Enter days"),
    FieldConfig("week", "Weeks", None, "Enter weeks"),
    FieldConfig("month", "Months", None, "Enter months"),
    FieldConfig("year", "Years", None, "Enter years")
  ]

  /** `timeUnits.find(u => u.id === id)!` picks the registry unit at index `i`. */
  lemma FoundAt(i: nat, id: string)
    requires i < |TimeUnits| && TimeUnits[i].id == id
    ensures FindId(TimeUnits, id) == Some(TimeUnits[i])
  {
    TimeListWellFormed();
    FindIdAt(TimeUnits, i, id);
  }

  /** `selectedUnits` is the whole time list, in registry order: ms, s, min, hr, day, week, month, year. */
  lemma SelectedUnitsAre()
    ensures SelectedUnits == TimeUnits
  {
    FoundAt(0, "ms"); FoundAt(1, "s"); FoundAt(2, "min"); FoundAt(3, "hr");
    FoundAt(4, "day"); FoundAt(5, "week"); FoundAt(6, "month"); FoundAt(7, "year");
  }

  /** The fields name the selected units, in the same order. */
  lemma ConfigMatchesUnits()
    ensures FieldIds(UnitConfig) == Ids(SelectedUnits) == ["ms", "s", "min", "hr", "day", "week", "month", "year"]
  {
    SelectedUnitsAre();
    IdsOfEight(MsUnit, SUnit, MinUnit, HrUnit, DayUnit, WeekUnit, MonthUnit, YearUnit);
    var u := UnitConfig;
    FieldIdsOfEight(u[0], u[1], u[2], u[3], u[4], u[5], u[6], u[7]);
  }

  /** Construction succeeds: base unit s, precision 2, the eight units in order. */
  lemma ConverterBuilt()
    ensures TimeConverter == Success(Converter(Ratio(SUnit), TimeUnits, 2))
  {
    SelectedUnitsAre();
    assert GetBaseUnit(Time) == SUnit;
    TimeRatioBuilt();
  }

  /** The ratio converter over the time list, with base s and precision 2, is built as given. */
  lemma TimeRatioBuilt()
    ensures CreateRatio(SUnit, TimeUnits, Some(2)) == Success(Converter(Ratio(SUnit), TimeUnits, 2))
  {
    TimeListWellFormed();
    CreateRatioOf(SUnit, TimeUnits, Some(2), 1);
  }

  /** On the page's converter (the value `ConverterBuilt` shows it to be), 60 s is 1 min. */
  lemma SixtySecondsIsAMinute()
    ensures Converter(Ratio(SUnit), TimeUnits, 2).Convert(60.0, "s", "min") == Success(1.0)
  {
    Converts(60.0, 1, 2, 1.0);
  }

  /** On the page's converter (the value `ConverterBuilt` shows it to be), 1 hr is 60 min. */
  lemma AnHourIsSixtyMinutes()
    ensures Converter(Ratio(SUnit), TimeUnits, 2).Convert(1.0, "hr", "min") == Success(60.0)
  {
    Converts(1.0, 3, 2, 60.0);
  }

  /** On the page's converter (the value `ConverterBuilt` shows it to be), 3600 s is 1 hr. */
  lemma AnHourIs3600Seconds()
    ensures Converter(Ratio(SUnit), TimeUnits, 2).Convert(3600.0, "s", "hr") == Success(1.0)
  {
    Converts(3600.0, 1, 3, 1.0);
  }

  /** On the page's converter (the value `ConverterBuilt` shows it to be), 1 day is 24 hr. */
  lemma ADayIs24Hours()
    ensures Converter(Ratio(SUnit), TimeUnits, 2).Convert(1.0, "day", "hr") == Success(24.0)
  {
    Converts(1.0, 4, 3, 24.0);
  }

  /** On the page's converter (the value `ConverterBuilt` shows it to be), 86400 s is 1 day. */
  lemma ADayIs86400Seconds()
    ensures Converter(Ratio(SUnit), TimeUnits, 2).Convert(86400.0, "s", "day") == Success(1.0)
  {
    Converts(86400.0, 1, 4, 1.0);
  }

  /** On the page's converter (the value `ConverterBuilt` shows it to be), 1 week is 7 days. */
  lemma AWeekIsSevenDays()
    ensures Converter(Ratio(SUnit), TimeUnits, 2).Convert(1.0, "week", "day") == Success(7.0)
  {
    Converts(1.0, 5, 4, 7.0);
  }

  /** On the page's converter (the value `ConverterBuilt` shows it to be), 1000 ms is 1 s. */
  lemma ASecondIs1000Milliseconds()
    ensures Converter(Ratio(SUnit), TimeUnits, 2).Convert(1000.0, "ms", "s") == Success(1.0)
  {
    Converts(1000.0, 0, 1, 1.0);
  }

  /** On the page's converter (the value `ConverterBuilt` shows it to be), 1 year is exactly 12 months. */
  lemma AYearIsTwelveMonths()
    ensures Converter(Ratio(SUnit), TimeUnits, 2).Convert(1.0, "year", "month") == Success(12.0)
  {
    Converts(1.0, 7, 6, 12.0);
  }

  /**
   * A year is 365.2425 days, the Gregorian average, and not the 365.25 days of a
   * Julian year.
   */
  lemma AYearIsGregorian()
    ensures Converter(Ratio(SUnit), TimeUnits, 2).Convert(1.0, "year", "day") == Success(365.2425)
    ensures Converter(Ratio(SUnit), TimeUnits, 2).Convert(1.0, "year", "day") != Success(365.25)
  {
    Converts(1.0, 7, 4, 365.2425);
  }

  /** The page's converter takes `value` in the `i`-th time unit to `result` in the `j`-th. */
  lemma Converts(value: real, i: nat, j: nat, result: real)
    requires i < |TimeUnits| && j < |TimeUnits| && i != j
    requires TimeUnits[j].FromBase(TimeUnits[i].ToBase(value)) == result
    ensures Converter(Ratio(SUnit), TimeUnits, 2).Convert(value, TimeUnits[i].id, TimeUnits[j].id) == Success(result)
  {
    TimeListWellFormed();
    Converter(Ratio(SUnit), TimeUnits, 2).ConvertBetween(value, TimeUnits[i], TimeUnits[j]);
  }
}
