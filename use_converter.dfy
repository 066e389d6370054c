/**
 * The `useConverter` hook: one text field per unit, all kept in step. Editing a field
 * either clears every field, stores text that is not a number, or rewrites every other
 * field with the converted, formatted value.
 */
module UseConverter {
  import opened Wrappers
  import opened Units
  import opened ConversionErrors
  import opened Converters
  import opened NumberParse

  /** The ids of a list of units, as a set. */
  function IdSet(us: seq<Unit>): (ids: set<string>)
    ensures forall i :: 0 <= i < |us| ==> us[i].id in ids
    ensures forall id :: id in ids ==> exists i :: 0 <= i < |us| && us[i].id == id
  {
    set i | 0 <= i < |us| :: us[i].id
  }

  lemma IdSetStep(us: seq<Unit>, i: nat)
    requires i < |us|
    ensures IdSet(us[..i + 1]) == IdSet(us[..i]) + {us[i].id}
  {
    var prefix, next := us[..i], us[..i + 1];
    assert forall j :: 0 <= j < i ==> next[j] == prefix[j];
    assert next[i] == us[i];
  }

  /** Every id mapped to the empty text. */
  function Blank(ids: set<string>): (m: map<string, string>)
    ensures m.Keys == ids
    ensures forall id :: id in m ==> m[id] == ""
  {
    map id | id in ids :: ""
  }

  class ConverterHook {
    const converter: Converter
    const units: seq<Unit>
    const defaultPrecision: int
    const precisionOverrides: map<string, int>
    /** The text shown in each field, keyed by unit id. */
    var values: map<string, string>

    /** Handlers exist only for the units given, so the fields are exactly their ids. */
    ghost predicate Valid()
      reads this
    {
      values.Keys == IdSet(units)
    }

    /** The initial state: every unit's field is empty; the hook's own precision defaults to 2. */
    constructor (converter: Converter, units: seq<Unit>, defaultPrecision: Option<int>, precisionOverrides: map<string, int>)
      ensures this.converter == converter && this.units == units
      ensures this.defaultPrecision == defaultPrecision.GetOr(2)
      ensures this.precisionOverrides == precisionOverrides
      ensures values == Blank(IdSet(units))
      ensures Valid()
    {
      this.converter := converter;
      this.units := units;
      this.defaultPrecision := defaultPrecision.GetOr(2);
      this.precisionOverrides := precisionOverrides;
      var initial: map<string, string> := map[];
      for i := 0 to |units|
        invariant initial == Blank(IdSet(units[..i]))
      {
        IdSetStep(units, i);
        initial := initial[units[i].id := ""];
      }
      assert units[..|units|] == units;
      values := initial;
    }

    /** The digits for a field: its override when there is one, else the hook's default. */
    function Precision(unitId: string): (p: int)
      ensures unitId in precisionOverrides ==> p == precisionOverrides[unitId]
      ensures unitId !in precisionOverrides ==> p == defaultPrecision
    {
      if unitId in precisionOverrides then precisionOverrides[unitId] else defaultPrecision
    }

    /**
     * The hook's `formatValue(value, unitId)`: the converter's formatting with this
     * field's precision, so the converter's own default precision never applies.
     */
    function FormatFor(value: real, unitId: string): (r: Result<string, ConversionError>)
      ensures r == ValueFormat.FormatValue(value, Precision(unitId))
      ensures r.Failure? <==> Precision(unitId) < 0 || Precision(unitId) > 100
    {
      converter.FormatValue(value, Some(Precision(unitId)))
    }

    /**
     * The text a sibling field receives when `fromId` holds `number`: the formatted
     * conversion, or the empty text when converting or formatting fails.
     */
    function Displayed(number: real, fromId: string, toId: string): (t: string)
      ensures converter.Convert(number, fromId, toId).Failure? ==> t == ""
      ensures converter.Convert(number, fromId, toId).Success? ==>
        var f := FormatFor(converter.Convert(number, fromId, toId).value, toId);
        t == if f.Success? then f.value else ""
    {
      match converter.Convert(number, fromId, toId)
      case Failure(_) => ""
      case Success(v) =>
        match FormatFor(v, toId)
        case Failure(_) => ""
        case Success(text) => text
    }

    /** The field `id` after the number `number`, typed as `input`, was entered in `fromId`. */
    function Field(number: real, fromId: string, input: string, id: string): (t: string)
      ensures id == fromId ==> t == input
      ensures id != fromId && converter.Convert(number, fromId, id).Failure? ==> t == ""
      ensures id != fromId && converter.Convert(number, fromId, id).Success? && !(0 <= Precision(id) <= 100) ==> t == ""
      ensures id != fromId && converter.Convert(number, fromId, id).Success? && 0 <= Precision(id) <= 100 ==>
        t == ValueFormat.FormatValue(converter.Convert(number, fromId, id).value, Precision(id)).value
    {
      if id == fromId then input else Displayed(number, fromId, id)
    }

    /**
     * The handler of field `unitId` receiving `input`. The empty text or a lone `-`
     * clears every field, the edited one included. Text `parseFloat` reads as `NaN` is
     * stored in the edited field alone. A number keeps the text as typed in its own
     * field and rewrites every other field from it.
     */
    method Edit(unitId: string, input: string)
      requires Valid() && unitId in IdSet(units)
      modifies this
      ensures Valid()
      ensures input == "" || input == "-" ==> values == Blank(old(values).Keys)
      ensures input != "" && input != "-" && ParseFloat(input).None? ==>
        values == old(values)[unitId := input]
      ensures input != "" && input != "-" && ParseFloat(input).Some? ==>
        values == map id | id in IdSet(units) :: Field(ParseFloat(input).value, unitId, input, id)
      ensures input != "" && input != "-" ==> unitId in values && values[unitId] == input
    {
      if input == "" || input == "-" {
        ClearKeys();
        return;
      }
      var number := ParseFloat(input);
      if number.None? {
        values := values[unitId := input];
        return;
      }
      Rewrite(number.value, unitId, input);
    }

    /** Every field rewritten from the number `number` entered as `input` in field `unitId`. */
    method Rewrite(number: real, unitId: string, input: string)
      modifies this
      ensures values == map id | id in IdSet(units) :: Field(number, unitId, input, id)
      ensures Valid()
    {
      var newValues: map<string, string> := map[];
      ghost var field := id => Field(number, unitId, input, id);
      for i := 0 to |units|
        invariant newValues == map id | id in IdSet(units[..i]) :: field(id)
      {
        IdSetStep(units, i);
        var unit := units[i];
        var text: string;
        if unit.id == unitId {
          text := input;
        } else {
          var converted := converter.Convert(number, unitId, unit.id);
          if converted.Failure? {
            text := "";
          } else {
            var formatted := FormatFor(converted.value, unit.id);
            text := if formatted.Success? then formatted.value else "";
          }
        }
        assert text == field(unit.id);
        ExtendMap(newValues, IdSet(units[..i]), unit.id, text, field);
        newValues := newValues[unit.id := text];
      }
      assert units[..|units|] == units;
      values := newValues;
    }

    /** Every existing key set to the empty text, one key at a time. */
    method ClearKeys()
      modifies this
      ensures values == Blank(old(values).Keys)
    {
      var keys := values.Keys;
      var cleared := values;
      while keys != {}
        invariant keys <= values.Keys && cleared.Keys == values.Keys
        invariant forall k :: k in cleared ==> cleared[k] == if k in keys then values[k] else ""
        decreases keys
      {
        var k :| k in keys;
        cleared := cleared[k := ""];
        keys := keys - {k};
      }
      assert cleared == Blank(values.Keys);
      values := cleared;
    }

    /** `clearAll`: every unit's field empty, whatever the fields held. */
    method ClearAll()
      modifies this
      ensures values == Blank(IdSet(units))
      ensures Valid()
    {
      var cleared: map<string, string> := map[];
      for i := 0 to |units|
        invariant cleared == Blank(IdSet(units[..i]))
      {
        IdSetStep(units, i);
        cleared := cleared[units[i].id := ""];
      }
      assert units[..|units|] == units;
      values := cleared;
    }
  }

  /**
   * A failed conversion blanks only the field it was for: every field whose
   * conversion succeeds and formats shows its text, whatever happens to the others.
   */
  lemma FailureIsLocal(hook: ConverterHook, number: real, fromId: string, input: string, id: string)
    requires id != fromId
    requires hook.converter.Convert(number, fromId, id).Success?
    requires 0 <= hook.Precision(id) <= 100
    ensures hook.Field(number, fromId, input, id) ==
      ValueFormat.FormatValue(hook.converter.Convert(number, fromId, id).value, hook.Precision(id)).value
  {
  }

  /**
   * A sibling field read back: when the conversion succeeds, the digit count is valid
   * and the value is shown in fixed notation, `parseFloat` of the field lands within
   * half a unit in the last shown digit of the converted value.
   */
  lemma SiblingReadsBack(hook: ConverterHook, number: real, fromId: string, input: string, id: string)
    requires id != fromId
    requires hook.converter.Convert(number, fromId, id).Success?
    requires 0 <= hook.Precision(id) <= 100
    requires !ValueFormat.UsesExponential(hook.converter.Convert(number, fromId, id).value, hook.Precision(id))
    ensures ParseFloat(hook.Field(number, fromId, input, id)).Some?
    ensures WithinHalfUnit(ParseFloat(hook.Field(number, fromId, input, id)).value,
                           hook.converter.Convert(number, fromId, id).value, hook.Precision(id))
  {
  }

  /** Adding key `k` with value `g(k)` to the map of `g` over `ids` gives the map of `g` over `ids + {k}`. */
  lemma ExtendMap(m: map<string, string>, ids: set<string>, k: string, v: string, g: string -> string)
    requires m == map id | id in ids :: g(id)
    requires v == g(k)
    ensures m[k := v] == map id | id in ids + {k} :: g(id)
  {
  }
}
