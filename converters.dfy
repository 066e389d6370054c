/**
 * The two conversion strategies. A `RatioConverter` goes through a designated base
 * unit; an `IntervalConverter` needs no base unit and accepts affine scales. Both hold
 * an id-to-unit table and a default precision that never change after construction,
 * so a converter is a value here; `convert`, `formatValue` and the getters are
 * functions of it.
 */
module Converters {
  import opened Wrappers
  import opened Units
  import opened UnitTable
  import opened ConversionErrors
  import ValueFormat

  /** Which class the converter is; a ratio converter also remembers its base unit. */
  datatype Strategy = Ratio(baseUnit: Unit) | Interval

  /** The categories a list of units spans: `new Set(units.map(u => u.category))`. */
  function Categories(us: seq<Unit>): (cs: set<Category>)
    ensures forall i :: 0 <= i < |us| ==> us[i].category in cs
    ensures forall c :: c in cs ==> exists i :: 0 <= i < |us| && us[i].category == c
  {
    set i | 0 <= i < |us| :: us[i].category
  }

  /** Two units of the list belong to different categories. */
  ghost predicate Mixed(us: seq<Unit>) {
    exists i, j :: 0 <= i < |us| && 0 <= j < |us| && us[i].category != us[j].category
  }

  datatype Converter = Converter(strategy: Strategy, table: seq<Unit>, defaultPrecision: int)
  {
    /**
     * What construction establishes: distinct keys; a ratio converter's base id is a
     * key and every unit shares the base unit's category; an interval converter has
     * at least one unit and a single category.
     */
    ghost predicate Valid() {
      && UniqueIds(table)
      && match strategy
         case Ratio(b) =>
           && b.id in Ids(table)
           && forall i :: 0 <= i < |table| ==> table[i].category == b.category
         case Interval =>
           && |table| > 0
           && forall i :: 0 <= i < |table| ==> table[i].category == table[0].category
    }

    /**
     * `convert(value, fromUnitId, toUnitId)`: the value itself when the ids are equal
     * (known or not); otherwise an unknown source, then an unknown target, is an error;
     * otherwise the target's `fromBase` applied to the source's `toBase`.
     */
    function Convert(value: real, fromId: string, toId: string): (r: Result<real, ConversionError>)
      ensures fromId == toId ==> r == Success(value)
      ensures fromId != toId && fromId !in Ids(table) ==> r == Failure(UnknownUnit(fromId))
      ensures fromId != toId && fromId in Ids(table) && toId !in Ids(table) ==> r == Failure(UnknownUnit(toId))
      ensures r.Success? <==> fromId == toId || (fromId in Ids(table) && toId in Ids(table))
      ensures r.Success? && fromId != toId ==>
        exists i, j :: 0 <= i < |table| && 0 <= j < |table| && table[i].id == fromId && table[j].id == toId &&
          r.value == table[j].FromBase(table[i].ToBase(value))
    {
      if fromId == toId then Success(value)
      else
        match (Get(table, fromId), Get(table, toId))
        case (None, _) => Failure(UnknownUnit(fromId))
        case (_, None) => Failure(UnknownUnit(toId))
        case (Some(a), Some(b)) => Success(b.FromBase(a.ToBase(value)))
    }

    /** `toBase(value, fromUnitId)` of a ratio converter: the unit's own `toBase` leg. */
    function ToBase(value: real, fromId: string): (r: Result<real, ConversionError>)
      requires strategy.Ratio?
      ensures r.Failure? <==> fromId !in Ids(table)
      ensures r.Failure? ==> r.error == UnknownUnit(fromId)
      ensures r.Success? ==> exists i :: 0 <= i < |table| && table[i].id == fromId && r.value == table[i].ToBase(value)
    {
      match Get(table, fromId)
      case None => Failure(UnknownUnit(fromId))
      case Some(a) => Success(a.ToBase(value))
    }

    /** `fromBase(value, toUnitId)` of a ratio converter: the unit's own `fromBase` leg. */
    function FromBase(value: real, toId: string): (r: Result<real, ConversionError>)
      requires strategy.Ratio?
      ensures r.Failure? <==> toId !in Ids(table)
      ensures r.Failure? ==> r.error == UnknownUnit(toId)
      ensures r.Success? ==> exists j :: 0 <= j < |table| && table[j].id == toId && r.value == table[j].FromBase(value)
    {
      match Get(table, toId)
      case None => Failure(UnknownUnit(toId))
      case Some(b) => Success(b.FromBase(value))
    }

    /**
     * `formatValue(value, precision?)`: the shared rule with `precision ?? defaultPrecision`
     * digits; the text has an exponent exactly when the magnitude rule asks for one.
     */
    function FormatValue(value: real, precision: Option<int>): (r: Result<string, ConversionError>)
      ensures precision.None? ==> r == ValueFormat.FormatValue(value, defaultPrecision)
      ensures precision.Some? ==> r == ValueFormat.FormatValue(value, precision.value)
      ensures r.Success? ==> var d := precision.GetOr(defaultPrecision);
        0 <= d <= 100 && ('e' in r.value <==> ValueFormat.UsesExponential(value, d))
    {
      var d := precision.GetOr(defaultPrecision);
      var r := ValueFormat.FormatValue(value, d);
      if r.Success? then
        ValueFormat.NotationFollowsMagnitude(value, d);
        r
      else r
    }

    /**
     * `getUnit(unitId)`: the unit stored under the id, present exactly when the id is
     * a key of the table.
     */
    function GetUnit(id: string): (r: Option<Unit>)
      ensures r.Some? <==> id in Ids(table)
      ensures r.Some? ==> r.value.id == id && r.value in table
    {
      Get(table, id)
    }

    /**
     * `getUnits()`: the table's values in insertion order; each listed unit is what
     * `getUnit` returns for its id, and every id `getUnit` finds is listed.
     */
    function GetUnits(): (us: seq<Unit>)
      ensures forall id :: GetUnit(id).Some? <==> id in Ids(us)
      ensures UniqueIds(table) ==> forall i :: 0 <= i < |us| ==> GetUnit(us[i].id) == Some(us[i])
    {
      EveryEntryFound(table);
      table
    }

    /**
     * `getBaseUnit()` of a ratio converter: after construction its id is a key of the
     * table and every unit shares its category.
     */
    function GetBaseUnit(): (u: Unit)
      requires strategy.Ratio?
      ensures Valid() ==> u.id in Ids(table) && forall i :: 0 <= i < |table| ==> table[i].category == u.category
    {
      strategy.baseUnit
    }

    /** `getPrecision()`: the digit count `formatValue` falls back to when none is passed. */
    function GetPrecision(): (p: int)
      ensures forall v :: FormatValue(v, None) == ValueFormat.FormatValue(v, p)
    {
      defaultPrecision
    }

    /** Converting there and back returns the original value exactly. */
    lemma ConvertRoundTrip(value: real, fromId: string, toId: string)
      requires Convert(value, fromId, toId).Success?
      ensures Convert(Convert(value, fromId, toId).value, toId, fromId) == Success(value)
    {
      if fromId != toId {
        var a, b := Get(table, fromId).value, Get(table, toId).value;
        RoundTrip(b.formula, a.ToBase(value));
        RoundTrip(a.formula, value);
      }
    }

    /** Converting through an intermediate unit is the same as converting directly. */
    lemma ConvertTransitive(value: real, a: string, b: string, c: string)
      requires a in Ids(table) && b in Ids(table) && c in Ids(table)
      ensures Convert(Convert(value, a, b).value, b, c) == Convert(value, a, c)
    {
      var ua, ub := Get(table, a).value, Get(table, b).value;
      if a != b && b != c {
        RoundTrip(ub.formula, ua.ToBase(value));
        if a == c {
          RoundTrip(ua.formula, value);
        }
      }
    }

    /** Between two entries of a table with distinct keys, `convert` applies their legs. */
    lemma ConvertBetween(value: real, a: Unit, b: Unit)
      requires UniqueIds(table) && a in table && b in table && a.id != b.id
      ensures Convert(value, a.id, b.id) == Success(b.FromBase(a.ToBase(value)))
    {
      var i :| 0 <= i < |table| && table[i] == a;
      var j :| 0 <= j < |table| && table[j] == b;
      GetAt(table, i);
      GetAt(table, j);
    }

    /** For a ratio converter, `convert` is `fromBase` after `toBase`. */
    lemma ConvertThroughBase(value: real, fromId: string, toId: string)
      requires strategy.Ratio? && fromId != toId
      ensures Convert(value, fromId, toId) ==
        match ToBase(value, fromId)
        case Failure(e) => Failure(e)
        case Success(v) => FromBase(v, toId)
    {
    }

    /**
     * When the table holds the registry's base unit under the base id, `toBase` and
     * `fromBase` of that id return the value unchanged.
     */
    lemma BaseLegsAreIdentity(value: real)
      requires strategy.Ratio?
      requires Get(table, strategy.baseUnit.id) == Some(Units.GetBaseUnit(strategy.baseUnit.category))
      ensures ToBase(value, strategy.baseUnit.id) == Success(value)
      ensures FromBase(value, strategy.baseUnit.id) == Success(value)
    {
    }
  }

  /** The index of the first unit whose category is not `c`. */
  function FirstMismatch(us: seq<Unit>, c: Category): (r: Option<nat>)
    ensures r.None? <==> forall i :: 0 <= i < |us| ==> us[i].category == c
    ensures r.Some? ==> r.value < |us| && us[r.value].category != c
    ensures r.Some? ==> forall j :: 0 <= j < r.value ==> us[j].category == c
  {
    if us == [] then None
    else if us[0].category != c then Some(0)
    else
      match FirstMismatch(us[1..], c)
      case None =>
        assert forall i :: 1 <= i < |us| ==> us[i] == us[1..][i - 1];
        None
      case Some(k) =>
        assert forall j :: 1 <= j < k + 1 ==> us[j] == us[1..][j - 1];
        Some(k + 1)
  }

  /**
   * `new RatioConverter({baseUnit, units, defaultPrecision})`: the base id must be
   * among the unit ids; then the first unit, in list order, of another category than
   * the base unit's is reported; otherwise the converter holds the table built from
   * the list and `defaultPrecision ?? 2`.
   */
  function CreateRatio(baseUnit: Unit, units: seq<Unit>, defaultPrecision: Option<int>): (r: Result<Converter, ConversionError>)
    ensures r == Failure(BaseUnitMissing) <==> forall i :: 0 <= i < |units| ==> units[i].id != baseUnit.id
    ensures r.Failure? && r.error.CategoryMismatch? ==>
      && r.error.expected == baseUnit.category
      && exists i :: 0 <= i < |units| && units[i].category == r.error.got && r.error.got != baseUnit.category
    ensures r.Success? <==>
      && (exists i :: 0 <= i < |units| && units[i].id == baseUnit.id)
      && forall i :: 0 <= i < |units| ==> units[i].category == baseUnit.category
    ensures r.Failure? ==> r.error == BaseUnitMissing || r.error.CategoryMismatch?
    ensures r.Success? ==>
      && r.value.Valid()
      && r.value.strategy == Ratio(baseUnit)
      && r.value.defaultPrecision == defaultPrecision.GetOr(2)
      && forall id :: r.value.GetUnit(id) == LastWithId(units, id)
  {
    var table := FromList(units);
    if Get(table, baseUnit.id).None? then Failure(BaseUnitMissing)
    else
      match FirstMismatch(units, baseUnit.category)
      case Some(i) => Failure(CategoryMismatch(baseUnit.category, units[i].category))
      case None =>
        assert forall i :: 0 <= i < |table| ==> table[i].category == baseUnit.category by {
          assert forall i :: 0 <= i < |table| ==> table[i] in units;
        }
        Success(Converter(Ratio(baseUnit), table, defaultPrecision.GetOr(2)))
  }

  /** The ratio constructor as the source runs it: membership check, then the category loop. */
  method NewRatio(baseUnit: Unit, units: seq<Unit>, defaultPrecision: Option<int>) returns (r: Result<Converter, ConversionError>)
    ensures r == CreateRatio(baseUnit, units, defaultPrecision)
  {
    var table := FromList(units);
    var precision := defaultPrecision.GetOr(2);
    if Get(table, baseUnit.id).None? {
      return Failure(BaseUnitMissing);
    }
    var mismatch := CheckCategories(units, baseUnit.category);
    if mismatch.Some? {
      return Failure(CategoryMismatch(baseUnit.category, units[mismatch.value].category));
    }
    return Success(Converter(Ratio(baseUnit), table, precision));
  }

  /** The validation loop: stops at the first unit whose category is not `category`. */
  method CheckCategories(units: seq<Unit>, category: Category) returns (mismatch: Option<nat>)
    ensures mismatch == FirstMismatch(units, category)
  {
    for i := 0 to |units|
      invariant forall j :: 0 <= j < i ==> units[j].category == category
    {
      if units[i].category != category {
        FirstMismatchAt(units, category, i);
        return Some(i);
      }
    }
    return None;
  }

  /** A mismatch with none before it is the first mismatch. */
  lemma FirstMismatchAt(us: seq<Unit>, c: Category, i: nat)
    requires i < |us| && us[i].category != c
    requires forall j :: 0 <= j < i ==> us[j].category == c
    ensures FirstMismatch(us, c) == Some(i)
  {
    var k := FirstMismatch(us, c).value;
    assert !(k < i) && !(i < k);
  }

  /** A set of categories has more than one element exactly when two units disagree. */
  lemma MixedIffSeveralCategories(us: seq<Unit>)
    ensures |Categories(us)| > 1 <==> Mixed(us)
  {
    if Mixed(us) {
      MixedHasTwoCategories(us);
    }
    if |Categories(us)| > 1 {
      TwoCategoriesAreMixed(us);
    }
  }

  lemma MixedHasTwoCategories(us: seq<Unit>)
    requires Mixed(us)
    ensures |Categories(us)| > 1
  {
    var cs := Categories(us);
    var i, j :| 0 <= i < |us| && 0 <= j < |us| && us[i].category != us[j].category;
    var two := {us[i].category, us[j].category};
    assert |two| == 2;
    assert cs == two + (cs - two);
  }

  lemma TwoCategoriesAreMixed(us: seq<Unit>)
    requires |Categories(us)| > 1
    ensures Mixed(us)
  {
    var cs := Categories(us);
    var c :| c in cs;
    assert cs == {c} + (cs - {c});
    var d :| d in cs - {c};
    var i :| 0 <= i < |us| && us[i].category == c;
    var j :| 0 <= j < |us| && us[j].category == d;
  }

  /**
   * `new IntervalConverter({units, defaultPrecision})`: units spanning several
   * categories are refused first, then an empty list; otherwise the converter holds the
   * table built from the list and `defaultPrecision ?? 2`.
   */
  function CreateInterval(units: seq<Unit>, defaultPrecision: Option<int>): (r: Result<Converter, ConversionError>)
    ensures r == Failure(MixedCategories) <==> Mixed(units)
    ensures r == Failure(NoUnits) <==> units == []
    ensures r.Failure? ==> r.error == MixedCategories || r.error == NoUnits
    ensures r.Success? ==>
      && r.value.Valid()
      && r.value.strategy == Interval
      && r.value.defaultPrecision == defaultPrecision.GetOr(2)
      && forall id :: r.value.GetUnit(id) == LastWithId(units, id)
  {
    var table := FromList(units);
    MixedIffSeveralCategories(units);
    if |Categories(units)| > 1 then Failure(MixedCategories)
    else if |table| == 0 then
      assert units == [] by {
        if units != [] {
          assert Get(table, units[0].id).Some?;
        }
      }
      Failure(NoUnits)
    else
      assert forall i :: 0 <= i < |table| ==> table[i].category == table[0].category by {
        assert forall i :: 0 <= i < |table| ==> table[i] in units;
      }
      Success(Converter(Interval, table, defaultPrecision.GetOr(2)))
  }

  /** Units with distinct ids, all of the base unit's category, one of them with its id, make a ratio converter over exactly that list. */
  lemma CreateRatioOf(baseUnit: Unit, units: seq<Unit>, defaultPrecision: Option<int>, base: nat)
    requires UniqueIds(units) && base < |units| && units[base].id == baseUnit.id
    requires forall i :: 0 <= i < |units| ==> units[i].category == baseUnit.category
    ensures CreateRatio(baseUnit, units, defaultPrecision) ==
      Success(Converter(Ratio(baseUnit), units, defaultPrecision.GetOr(2)))
  {
    FromDistinctList(units);
    GetAt(units, base);
  }

  /** A non-empty list with distinct ids and one category makes an interval converter over exactly that list. */
  lemma CreateIntervalOf(units: seq<Unit>, defaultPrecision: Option<int>)
    requires UniqueIds(units) && units != []
    requires forall i :: 0 <= i < |units| ==> units[i].category == units[0].category
    ensures CreateInterval(units, defaultPrecision) ==
      Success(Converter(Interval, units, defaultPrecision.GetOr(2)))
  {
    FromDistinctList(units);
    MixedIffSeveralCategories(units);
  }

  /** A ratio converter built without a precision formats with 2 digits, and reports its base unit. */
  lemma RatioDefaults(baseUnit: Unit, units: seq<Unit>)
    requires CreateRatio(baseUnit, units, None).Success?
    ensures CreateRatio(baseUnit, units, None).value.GetPrecision() == 2
    ensures CreateRatio(baseUnit, units, None).value.GetBaseUnit() == baseUnit
    ensures CreateRatio(baseUnit, units, None).value.GetUnit(baseUnit.id).Some?
  {
  }

  /** An interval converter built without a precision formats with 2 digits. */
  lemma IntervalDefaults(units: seq<Unit>)
    requires CreateInterval(units, None).Success?
    ensures CreateInterval(units, None).value.GetPrecision() == 2
  {
  }

  /** Built from units with distinct ids, a converter lists exactly those units in their order. */
  lemma UnitsInInsertionOrder(units: seq<Unit>, defaultPrecision: Option<int>)
    requires UniqueIds(units)
    requires CreateInterval(units, defaultPrecision).Success?
    ensures CreateInterval(units, defaultPrecision).value.GetUnits() == units
  {
    FromDistinctList(units);
  }

  /**
   * `getUnit` finds a unit exactly when the construction list has one with that id,
   * and then it is the last such unit.
   */
  lemma LookupFindsLast(baseUnit: Unit, units: seq<Unit>, defaultPrecision: Option<int>, id: string)
    requires CreateRatio(baseUnit, units, defaultPrecision).Success?
    ensures var u := CreateRatio(baseUnit, units, defaultPrecision).value.GetUnit(id);
      && (u.Some? <==> exists i :: 0 <= i < |units| && units[i].id == id)
      && (u.Some? ==> u.value.id == id)
      && (u.Some? ==> exists i :: (0 <= i < |units| && units[i] == u.value &&
            forall j :: i < j < |units| ==> units[j].id != id))
  {
    LastIsLast(units, id);
  }

  lemma {:induction false} LastIsLast(us: seq<Unit>, id: string)
    ensures LastWithId(us, id).Some? ==>
      exists i :: 0 <= i < |us| && us[i] == LastWithId(us, id).value &&
        forall j :: i < j < |us| ==> us[j].id != id
  {
    if us != [] && us[|us| - 1].id != id {
      var prefix := us[..|us| - 1];
      LastIsLast(prefix, id);
      if LastWithId(prefix, id).Some? {
        var i :| 0 <= i < |prefix| && prefix[i] == LastWithId(prefix, id).value &&
          forall j :: i < j < |prefix| ==> prefix[j].id != id;
        assert us[i] == prefix[i];
        assert forall j :: i < j < |us| ==> us[j].id != id by {
          forall j | i < j < |us| ensures us[j].id != id {
            if j < |us| - 1 {
              assert us[j] == prefix[j];
            }
          }
        }
      }
    }
  }

  /** Formatting keeps the sign of a value, and writes zero in fixed notation. */
  lemma FormatKeepsSign(c: Converter, value: real, precision: Option<int>)
    requires 0 <= precision.GetOr(c.defaultPrecision) <= 100
    ensures c.FormatValue(value, precision).Success?
    ensures c.FormatValue(value, precision).value[0] == '-' <==> value < 0.0
    ensures 'e' !in c.FormatValue(0.0, precision).value
  {
    var d := precision.GetOr(c.defaultPrecision);
    ValueFormat.NotationFollowsMagnitude(0.0, d);
  }
}
