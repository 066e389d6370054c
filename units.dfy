/**
 * The unit registry: the `UnitCategory` enum and `Unit` record, the five static
 * unit lists with their `toBase` / `fromBase` formulas, and the two lookups
 * `getBaseUnit` and `getUnitsForCategory`.
 */
module Units {
  import opened Wrappers

  datatype Category = Volume | Length | Weight | Temperature | Time

  /** The string value of each `UnitCategory` member, as it appears in error messages. */
  function CategoryName(c: Category): (s: string)
    ensures |s| > 0 && ',' !in s
  {
    match c
    case Volume => "volume"
    case Length => "length"
    case Weight => "weight"
    case Temperature => "temperature"
    case Time => "time"
  }

  /**
   * The pair of conversion formulas a registry unit carries, one constructor per
   * unit. `ToBase` maps a value in the unit to the category's base unit and
   * `FromBase` maps back; each case is the source's formula as written.
   */
  datatype Formula =
    | Milliliters | Teaspoons | Tablespoons | FluidOunces | Cups | Pints | Quarts | Gallons | Liters
    | Millimeters | Centimeters | Meters | Kilometers | Inches | Feet | Yards | Miles
    | Grams | Ounces | Pounds | Kilograms
    | CelsiusScale | FahrenheitScale | KelvinScale | RankineScale
    | Milliseconds | Seconds | Minutes | Hours | Days | Weeks | Months | Years
  {
    /** Into the base unit: a ratio unit keeps the sign and zero; `RoundTrip` shows `FromBase` undoes it. */
    function ToBase(value: real): (r: real)
      ensures !IsAffine() ==> (r < 0.0 <==> value < 0.0) && (r == 0.0 <==> value == 0.0)
    {
      match this
      case Milliliters => value
      case Teaspoons => value * 4.92892
      case Tablespoons => value * 14.7868
      case FluidOunces => value * 29.5735
      case Cups => value * 236.588
      case Pints => value * 473.176
      case Quarts => value * 946.353
      case Gallons => value * 3785.41
      case Liters => value * 1000.0
      case Millimeters => value * 0.1
      case Centimeters => value
      case Meters => value * 100.0
      case Kilometers => value * 100000.0
      case Inches => value * 2.54
      case Feet => value * 30.48
      case Yards => value * 91.44
      case Miles => value * 160934.4
      case Grams => value
      case Ounces => value * 28.3495
      case Pounds => value * 453.592
      case Kilograms => value * 1000.0
      case CelsiusScale => value
      case FahrenheitScale => (value - 32.0) * 5.0 / 9.0
      case KelvinScale => value - 273.15
      case RankineScale => (value - 491.67) * 5.0 / 9.0
      case Milliseconds => value / 1000.0
      case Seconds => value
      case Minutes => value * 60.0
      case Hours => value * 3600.0
      case Days => value * 86400.0
      case Weeks => value * 604800.0
      case Months => value * 2629746.0
      case Years => value * 31556952.0
    }

    /** Out of the base unit: a ratio unit keeps the sign and zero. */
    function FromBase(value: real): (r: real)
      ensures !IsAffine() ==> (r < 0.0 <==> value < 0.0) && (r == 0.0 <==> value == 0.0)
    {
      match this
      case Milliliters => value
      case Teaspoons => value / 4.92892
      case Tablespoons => value / 14.7868
      case FluidOunces => value / 29.5735
      case Cups => value / 236.588
      case Pints => value / 473.176
      case Quarts => value / 946.353
      case Gallons => value / 3785.41
      case Liters => value / 1000.0
      case Millimeters => value / 0.1
      case Centimeters => value
      case Meters => value / 100.0
      case Kilometers => value / 100000.0
      case Inches => value / 2.54
      case Feet => value / 30.48
      case Yards => value / 91.44
      case Miles => value / 160934.4
      case Grams => value
      case Ounces => value / 28.3495
      case Pounds => value / 453.592
      case Kilograms => value / 1000.0
      case CelsiusScale => value
      case FahrenheitScale => (value * 9.0 / 5.0) + 32.0
      case KelvinScale => value + 273.15
      case RankineScale => (value * 9.0 / 5.0) + 491.67
      case Milliseconds => value * 1000.0
      case Seconds => value
      case Minutes => value / 60.0
      case Hours => value / 3600.0
      case Days => value / 86400.0
      case Weeks => value / 604800.0
      case Months => value / 2629746.0
      case Years => value / 31556952.0
    }

    /** True of the offset-based temperature formulas. */
    predicate IsAffine() {
      this in {CelsiusScale, FahrenheitScale, KelvinScale, RankineScale}
    }
  }

  /** One measurement unit; `isBase` is false where the source leaves the optional flag out. */
  datatype Unit = Unit(id: string, name: string, symbol: string, category: Category, formula: Formula, isBase: bool)
  {
    function ToBase(value: real): real { formula.ToBase(value) }
    function FromBase(value: real): real { formula.FromBase(value) }
  }

  const MlUnit: Unit := Unit("ml", "Milliliters", "mL", Volume, Milliliters, true)
  const TspUnit: Unit := Unit("tsp", "Teaspoons", "tsp", Volume, Teaspoons, false)
  const TbspUnit: Unit := Unit("tbsp", "Tablespoons", "tbsp", Volume, Tablespoons, false)
  const FlozUnit: Unit := Unit("floz", "Fluid Ounces", "fl oz", Volume, FluidOunces, false)
  const CupUnit: Unit := Unit("cup", "Cups (US)", "cup", Volume, Cups, false)
  const PintUnit: Unit := Unit("pint", "Pints", "pt", Volume, Pints, false)
  const QuartUnit: Unit := Unit("quart", "Quarts", "qt", Volume, Quarts, false)
  const GallonUnit: Unit := Unit("gallon", "Gallons", "gal", Volume, Gallons, false)
  const LiterUnit: Unit := Unit("liter", "Liters", "L", Volume, Liters, false)

  const VolumeUnits: seq<Unit> := [MlUnit, TspUnit, TbspUnit, FlozUnit, CupUnit, PintUnit, QuartUnit, GallonUnit, LiterUnit]

  const MmUnit: Unit := Unit("mm", "Millimeters", "mm", Length, Millimeters, false)
  const CmUnit: Unit := Unit("cm", "Centimeters", "cm", Length, Centimeters, true)
  const MUnit: Unit := Unit("m", "Meters", "m", Length, Meters, false)
  const KmUnit: Unit := Unit("km", "Kilometers", "km", Length, Kilometers, false)
  const InUnit: Unit := Unit("in", "Inches", "in", Length, Inches, false)
  const FtUnit: Unit := Unit("ft", "Feet", "ft", Length, Feet, false)
  const YdUnit: Unit := Unit("yd", "Yards", "yd", Length, Yards, false)
  const MiUnit: Unit := Unit("mi", "Miles", "mi", Length, Miles, false)

  const LengthUnits: seq<Unit> := [MmUnit, CmUnit, MUnit, KmUnit, InUnit, FtUnit, YdUnit, MiUnit]

  const GUnit: Unit := Unit("g", "Grams", "g", Weight, Grams, true)
  const OzUnit: Unit := Unit("oz", "Ounces", "oz", Weight, Ounces, false)
  const LbUnit: Unit := Unit("lb", "Pounds", "lb", Weight, Pounds, false)
  const KgUnit: Unit := Unit("kg", "Kilograms", "kg", Weight, Kilograms, false)

  const WeightUnits: seq<Unit> := [GUnit, OzUnit, LbUnit, KgUnit]

  const CelsiusUnit: Unit := Unit("celsius", "Celsius", "\U{00B0}C", Temperature, CelsiusScale, true)
  const FahrenheitUnit: Unit := Unit("fahrenheit", "Fahrenheit", "\U{00B0}F", Temperature, FahrenheitScale, false)
  const KelvinUnit: Unit := Unit("kelvin", "Kelvin", "K", Temperature, KelvinScale, false)
  const RankineUnit: Unit := Unit("rankine", "Rankine", "\U{00B0}R", Temperature, RankineScale, false)

  const TemperatureUnits: seq<Unit> := [CelsiusUnit, FahrenheitUnit, KelvinUnit, RankineUnit]

  const MsUnit: Unit := Unit("ms", "Milliseconds", "ms", Time, Milliseconds, false)
  const SUnit: Unit := Unit("s", "Seconds", "s", Time, Seconds, true)
  const MinUnit: Unit := Unit("min", "Minutes", "min", Time, Minutes, false)
  const HrUnit: Unit := Unit("hr", "Hours", "hr", Time, Hours, false)
  const DayUnit: Unit := Unit("day", "Days", "d", Time, Days, false)
  const WeekUnit: Unit := Unit("week", "Weeks", "wk", Time, Weeks, false)
  const MonthUnit: Unit := Unit("month", "Months", "mo", Time, Months, false)
  const YearUnit: Unit := Unit("year", "Years", "yr", Time, Years, false)

  const TimeUnits: seq<Unit> := [MsUnit, SUnit, MinUnit, HrUnit, DayUnit, WeekUnit, MonthUnit, YearUnit]

  /** `Array.prototype.find`: the first element satisfying `p`, if any. */
  function Find(us: seq<Unit>, p: Unit -> bool): (r: Option<Unit>)
    ensures r.Some? <==> exists i :: 0 <= i < |us| && p(us[i])
    ensures r.Some? ==> exists i :: 0 <= i < |us| && us[i] == r.value && p(us[i]) &&
                                    forall j :: 0 <= j < i ==> !p(us[j])
  {
    if us == [] then None
    else if p(us[0]) then Some(us[0])
    else
      var r := Find(us[1..], p);
      assert forall i :: 1 <= i < |us| ==> us[i] == us[1..][i - 1];
      r
  }

  function IsBaseUnit(u: Unit): bool { u.isBase }

  /** `getUnitsForCategory`: the static list of a category. */
  function GetUnitsForCategory(category: Category): (us: seq<Unit>)
    ensures |us| > 0
  {
    match category
    case Volume => VolumeUnits
    case Length => LengthUnits
    case Weight => WeightUnits
    case Temperature => TemperatureUnits
    case Time => TimeUnits
  }

  /** Position of the unit flagged `isBase` in each list. */
  function BaseIndex(category: Category): (i: nat)
    ensures i < |GetUnitsForCategory(category)|
    ensures GetUnitsForCategory(category)[i].isBase
  {
    match category
    case Volume => 0
    case Length => 1
    case Weight => 0
    case Temperature => 0
    case Time => 1
  }

  /**
   * `getBaseUnit`: the first unit of the category's list flagged `isBase`. The
   * non-null assertion `!` of the source holds because every list has one.
   */
  function GetBaseUnit(category: Category): (u: Unit)
    ensures u.isBase && u.category == category
    ensures u == GetUnitsForCategory(category)[BaseIndex(category)]
    ensures forall v :: u.ToBase(v) == v && u.FromBase(v) == v
  {
    var us := GetUnitsForCategory(category);
    assert IsBaseUnit(us[BaseIndex(category)]);
    var found := Find(us, IsBaseUnit);
    WellFormedRegistry(category);
    found.value
  }

  /** Ids are pairwise distinct. */
  ghost predicate UniqueIds(us: seq<Unit>) {
    forall i, j :: 0 <= i < j < |us| ==> us[i].id != us[j].id
  }

  /**
   * What each static list promises: every unit carries the list's category, ids are
   * unique, exactly one unit (at `base`) is flagged `isBase`, and its formulas are the identity.
   */
  ghost predicate WellFormedList(us: seq<Unit>, category: Category, base: nat) {
    && base < |us|
    && (forall i :: 0 <= i < |us| ==> us[i].category == category)
    && UniqueIds(us)
    && (forall i :: 0 <= i < |us| ==> (us[i].isBase <==> i == base))
    && (forall v :: us[base].ToBase(v) == v && us[base].FromBase(v) == v)
  }

  lemma WellFormedRegistry(category: Category)
    ensures WellFormedList(GetUnitsForCategory(category), category, BaseIndex(category))
  {
    match category
    case Volume => VolumeListWellFormed();
    case Length => LengthListWellFormed();
    case Weight => WeightListWellFormed();
    case Temperature => TemperatureListWellFormed();
    case Time => TimeListWellFormed();
  }

  lemma VolumeListWellFormed() ensures WellFormedList(VolumeUnits, Volume, 0) {
    assert UniqueIds(VolumeUnits);
  }

  lemma LengthListWellFormed() ensures WellFormedList(LengthUnits, Length, 1) {
    assert UniqueIds(LengthUnits);
  }

  lemma WeightListWellFormed() ensures WellFormedList(WeightUnits, Weight, 0) {
    assert UniqueIds(WeightUnits);
  }

  lemma TemperatureListWellFormed() ensures WellFormedList(TemperatureUnits, Temperature, 0) {
    assert UniqueIds(TemperatureUnits);
  }

  lemma TimeListWellFormed() ensures WellFormedList(TimeUnits, Time, 1) {
    assert UniqueIds(TimeUnits);
  }

  /** For every registry formula, `fromBase` undoes `toBase` and `toBase` undoes `fromBase`, exactly. */
  lemma RoundTrip(f: Formula, x: real)
    ensures f.FromBase(f.ToBase(x)) == x
    ensures f.ToBase(f.FromBase(x)) == x
  {
  }

  /** Every formula is strictly increasing: all slopes are positive. */
  lemma Increasing(f: Formula, x: real, y: real)
    requires x < y
    ensures f.ToBase(x) < f.ToBase(y)
    ensures f.FromBase(x) < f.FromBase(y)
  {
  }

  /** The formulas of every non-temperature unit are linear: zero maps to zero and scaling commutes. */
  lemma Linear(f: Formula, a: real, x: real)
    requires !f.IsAffine()
    ensures f.ToBase(0.0) == 0.0 && f.FromBase(0.0) == 0.0
    ensures f.ToBase(a * x) == a * f.ToBase(x)
    ensures f.FromBase(a * x) == a * f.FromBase(x)
  {
    ScalesToBase(f, a, x);
    ScalesFromBase(f, a, x);
  }

  lemma ScalesToBase(f: Formula, a: real, x: real)
    requires !f.IsAffine()
    ensures f.ToBase(a * x) == a * f.ToBase(x)
  {
  }

  lemma ScalesFromBase(f: Formula, a: real, x: real)
    requires !f.IsAffine()
    ensures f.FromBase(a * x) == a * f.FromBase(x)
  {
  }

  /** Reference values of the registry formulas. */
  lemma ReferenceValues()
    ensures Inches.ToBase(12.0) == Feet.ToBase(1.0) == 30.48
    ensures FluidOunces.ToBase(8.0) == Cups.ToBase(1.0) == 236.588
    ensures Liters.ToBase(1.0) == 1000.0
    ensures FahrenheitScale.ToBase(32.0) == 0.0
    ensures FahrenheitScale.ToBase(212.0) == 100.0
    ensures FahrenheitScale.ToBase(-40.0) == -40.0
    ensures KelvinScale.ToBase(273.15) == 0.0
  {
  }
}
