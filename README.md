# Unit converters, colour codes and passwords, verified

A Dafny model of the calculation core of the `sylhare/tools` web toolbox:

- the **unit registry** (`units.ts`): volume, length, weight, temperature and
  time units, each with its `toBase`/`fromBase` formula and one base unit per
  category;
- the two **converters**:
  - `RatioConverter` converts through a chosen base unit;
  - `IntervalConverter` handles affine scales such as temperature;
- the **`useConverter` hook**, which keeps one text field per unit in step;
- the four **converter pages' configurations** (measurement, time, volume,
  temperature), which pick units from the registry and build a converter;
- the **hex ⇄ RGB colour hook**;
- the **temperature hook**, with its own Celsius/Fahrenheit formulas;
- the **password generator hook**: options, setters, special-character
  selection, generation and the strength rating.

## How the model is built

Numbers are exact `real`s. The model implements the JavaScript number
operations the code relies on from their ECMAScript definitions:

- `Number.prototype.toFixed`, in `NumberFormat.ToFixed`;
- `Number.prototype.toExponential`, in `NumberFormat.ToExponential`;
- `parseFloat`, in `NumberParse.ParseFloat`;
- `Math.round`, in `Numbers.MathRound`;
- `Number.prototype.toString(16)`, in `Numbers.ToRadixString`.

The pure parts are functions with lemmas. Each React hook is a class whose
fields are its state variables and whose methods are its handlers. Where the
source loops, the model is a method proved against a specification function:

- the ratio converter's constructor, `Converters.NewRatio` against
  `Converters.CreateRatio`;
- the hook's initial values, the number handler's rewrite of every field
  (`UseConverter.ConverterHook.Rewrite`), the clearing handler
  (`ClearKeys`) and `clearAll`;
- the password generator's fill loop, `PasswordGenerator.RandomChars`, whose
  `m`-th character is the charset entry at `floor(r * len(charset))` for the
  `m`-th draw `r`, and its Fisher–Yates shuffle on an array against
  `PasswordGenerator.FisherYates`.

A JavaScript `Map` built from a list of units is modelled as an ordered list
with unique keys (`UnitTable`): a later unit with the same id replaces the
earlier one in place. A JavaScript `Set` of special characters is modelled as
a duplicate-free `string` in insertion order.

`Math.random()` is replaced by a sequence of draws in `[0, 1)` passed as an
input. Each draw `r` picks index `floor(r * n)`.

The year unit's comment in `units.ts` says 365.25 days, but its factor,
31556952 seconds, is 365.2425 days. The model follows the factor, and
`TimeConfig.AYearIsGregorian` proves a year converts to 365.2425 days and not
365.25.

## Model

| member | source | states |
|---|---|---|
| Units.CategoryName | src/utils/conversions/types.ts:10-16 | each category's string value is non-empty and has no comma, so it can be read back out of an error message |
| Units.Formula.ToBase | src/utils/conversions/units.ts:12-311 | a unit without an offset keeps the sign and zero (`RoundTrip` states that `fromBase` undoes it) |
| Units.Formula.FromBase | src/utils/conversions/units.ts:12-311 | a unit without an offset keeps the sign and zero |
| Units.Find | src/utils/conversions/units.ts:316-331 | `Array.prototype.find`: finds something iff some element matches, and then returns the first matching element |
| Units.GetUnitsForCategory | src/utils/conversions/units.ts:336-351 | the list for every category is non-empty; `WellFormedRegistry` gives the rest |
| Units.BaseIndex | src/utils/conversions/units.ts:316-331 | the index it returns lies in the category's list and points at a unit flagged `isBase` |
| Units.GetBaseUnit | src/utils/conversions/units.ts:316-331 | returns the unit flagged `isBase`, of the requested category, at the base index; its `toBase` and `fromBase` are the identity |
| Units.WellFormedRegistry | src/utils/conversions/units.ts:12-311 | every category's list has unique ids, one category, exactly one `isBase` unit, and identity formulas for that unit |
| Units.VolumeListWellFormed | src/utils/conversions/units.ts:12-86 | the volume list is well formed, with `ml` (index 0) as base |
| Units.LengthListWellFormed | src/utils/conversions/units.ts:92-158 | the length list is well formed, with `cm` (index 1) as base |
| Units.WeightListWellFormed | src/utils/conversions/units.ts:164-198 | the weight list is well formed, with `g` (index 0) as base |
| Units.TemperatureListWellFormed | src/utils/conversions/units.ts:205-239 | the temperature list is well formed, with `celsius` (index 0) as base |
| Units.TimeListWellFormed | src/utils/conversions/units.ts:245-311 | the time list is well formed, with `s` (index 1) as base |
| Units.RoundTrip | src/utils/conversions/units.ts:12-311 | for every registry unit, `fromBase` inverts `toBase` and `toBase` inverts `fromBase` |
| Units.Increasing | src/utils/conversions/units.ts:12-311 | every unit's `toBase` and `fromBase` are strictly increasing |
| Units.Linear | src/utils/conversions/units.ts:12-311 | the non-temperature formulas fix 0 and commute with scaling |
| Units.ScalesToBase | src/utils/conversions/units.ts:12-311 | a non-affine `toBase` commutes with multiplying by a constant |
| Units.ScalesFromBase | src/utils/conversions/units.ts:12-311 | a non-affine `fromBase` commutes with multiplying by a constant |
| Units.ReferenceValues | src/utils/conversions/units.ts:39-231 | reference values: 12 in = 1 ft = 30.48 cm; 8 fl oz = 1 cup = 236.588 mL; 1 L = 1000 mL; 32 °F, 212 °F and −40 °F are 0, 100 and −40 °C; 273.15 K = 0 °C |
| UnitTable.Ids | src/utils/conversions/RatioConverter.ts:16 | the keys of the table, one per entry, in order |
| UnitTable.Get | src/utils/conversions/RatioConverter.ts:119-121 | `Map.get`: finds something iff the id is a key, and then returns an entry with that id |
| UnitTable.GetAt | src/utils/conversions/RatioConverter.ts:119-121 | with unique ids, looking up entry `i`'s id returns entry `i` |
| UnitTable.Set | src/utils/conversions/RatioConverter.ts:16 | `Map.set`: a new key is appended; an existing key keeps its position and the key list is unchanged |
| UnitTable.GetAfterSet | src/utils/conversions/RatioConverter.ts:16 | after setting `u`, looking up `u.id` gives `u`, and every other id gives what it gave before |
| UnitTable.SetKeepsUnique | src/utils/conversions/RatioConverter.ts:16 | setting an entry keeps the keys unique |
| UnitTable.LastWithId | src/utils/conversions/IntervalConverter.ts:14 | finds something iff some unit in the list has the id, and then returns a unit of the list with that id |
| UnitTable.FromList | src/utils/conversions/RatioConverter.ts:16 | `new Map(units.map(u => [u.id, u]))`: unique keys, every lookup returns the last unit with that id, and every entry comes from the list |
| UnitTable.FromDistinctList | src/utils/conversions/RatioConverter.ts:16 | when the ids are already distinct, the map holds the list unchanged and in order |
| Converters.Converter.Convert | src/utils/conversions/RatioConverter.ts:40-59 | equal ids return the value, even for unknown ids. Otherwise an unknown source fails first, then an unknown target. It succeeds iff the ids are equal or both known, and then applies the target's `fromBase` to the source's `toBase`. The same code is at IntervalConverter.ts:34-53 |
| Converters.Converter.ToBase | src/utils/conversions/RatioConverter.ts:67-73 | fails iff the id is unknown, with that id in the error; otherwise applies that unit's `toBase` |
| Converters.Converter.FromBase | src/utils/conversions/RatioConverter.ts:81-87 | fails iff the id is unknown, with that id in the error; otherwise applies that unit's `fromBase` |
| Converters.Converter.FormatValue | src/utils/conversions/RatioConverter.ts:95-107 | `precision ?? defaultPrecision` is passed to the shared formatting rule; on success that digit count is within 0..100 and the text is exponential iff the magnitude rule says so |
| Converters.Converter.GetUnit | src/utils/conversions/RatioConverter.ts:119-121 | finds a unit iff the id is a key; the unit found carries that id and is one of the table's units |
| Converters.Converter.GetUnits | src/utils/conversions/RatioConverter.ts:112-114 | an id is listed iff `getUnit` finds it; with distinct keys, each listed unit is what `getUnit` returns for its id |
| Converters.Converter.GetBaseUnit | src/utils/conversions/RatioConverter.ts:126-128 | after construction, the base unit's id is a key and every unit shares its category |
| Converters.Converter.GetPrecision | src/utils/conversions/RatioConverter.ts:133-135 | the precision `formatValue` uses when none is passed |
| Converters.Converter.ConvertRoundTrip | src/utils/conversions/RatioConverter.ts:40-59 | converting a successful result back to the source unit gives back the original value |
| Converters.Converter.ConvertTransitive | src/utils/conversions/RatioConverter.ts:40-59 | converting a→b then b→c equals converting a→c, for known units |
| Converters.Converter.ConvertBetween | src/utils/conversions/IntervalConverter.ts:34-53 | for two distinct units of a table with unique ids, the conversion is `b.fromBase(a.toBase(value))` |
| Converters.Converter.ConvertThroughBase | src/utils/conversions/RatioConverter.ts:55-58 | a ratio conversion between distinct ids is `toBase` followed by `fromBase`, with `toBase`'s error first |
| Converters.Converter.BaseLegsAreIdentity | src/utils/conversions/RatioConverter.ts:67-87 | when the base unit is the registry's base unit, `toBase` and `fromBase` to its own id are the identity |
| Converters.FirstMismatch | src/utils/conversions/RatioConverter.ts:23-30 | no index is returned iff every unit has the category; otherwise it is the first unit with another category |
| Converters.CreateRatio | src/utils/conversions/RatioConverter.ts:14-31 | `BaseUnitMissing` iff no unit has the base id; a category mismatch names the base category and a differing unit's category; success iff both checks pass; on success the precision is `?? 2` and lookups return the last unit with each id |
| Converters.NewRatio | src/utils/conversions/RatioConverter.ts:14-31 | the constructor with its category loop computes exactly `CreateRatio` |
| Converters.CheckCategories | src/utils/conversions/RatioConverter.ts:23-30 | the category loop stops at exactly the first mismatch |
| Converters.FirstMismatchAt | src/utils/conversions/RatioConverter.ts:23-30 | if units 0..i−1 have the category and unit i does not, the first mismatch is i |
| Converters.MixedIffSeveralCategories | src/utils/conversions/IntervalConverter.ts:17-18 | the set of categories has more than one element iff two units differ in category |
| Converters.Categories | src/utils/conversions/IntervalConverter.ts:17 | every unit's category is in the set, and every member of the set is some unit's category |
| Converters.CreateInterval | src/utils/conversions/IntervalConverter.ts:13-25 | `MixedCategories` iff there are several categories (checked first); `NoUnits` iff the list is empty; on success the precision is `?? 2` and lookups return the last unit with each id |
| Converters.CreateRatioOf | src/utils/conversions/RatioConverter.ts:14-31 | unique units of one category that include the base unit build a converter over exactly that list |
| Converters.CreateIntervalOf | src/utils/conversions/IntervalConverter.ts:13-25 | a non-empty list of unique units of one category builds a converter over exactly that list |
| Converters.RatioDefaults | src/utils/conversions/RatioConverter.ts:126-135 | without a precision, `getPrecision()` is 2; `getBaseUnit()` is the given base unit, and its id can be looked up |
| Converters.IntervalDefaults | src/utils/conversions/IntervalConverter.ts:92-94 | without a precision, `getPrecision()` is 2 |
| Converters.UnitsInInsertionOrder | src/utils/conversions/IntervalConverter.ts:78-80 | with distinct ids, `getUnits()` returns the units in the order given |
| Converters.LookupFindsLast | src/utils/conversions/RatioConverter.ts:119-121 | `getUnit(id)` finds something iff some unit has the id, and then returns the last such unit |
| Converters.LastIsLast | src/utils/conversions/RatioConverter.ts:16 | the unit the map keeps for an id has no later unit with the same id |
| Converters.FormatKeepsSign | src/utils/conversions/IntervalConverter.ts:61-73 | for a digit count within 0..100, formatting succeeds, the text starts with `-` iff the value is negative, and zero is never written exponentially |
| ConversionErrors.Message | src/utils/conversions/RatioConverter.ts:19-52 | every thrown error has a message of more than two characters |
| ConversionErrors.MessageIdentifiesError | src/utils/conversions/RatioConverter.ts:19-52 | distinct errors have distinct messages, including those at IntervalConverter.ts:19 and 23 |
| ConversionErrors.UnknownUnitMessage | src/utils/conversions/RatioConverter.ts:48-53 | the `Unknown unit: <id>` message identifies both the error and the id |
| ConversionErrors.CategoryMismatchMessage | src/utils/conversions/RatioConverter.ts:25-28 | the category-mismatch message identifies its error among the non-unknown-unit errors |
| ConversionErrors.MismatchDetails | src/utils/conversions/RatioConverter.ts:25-28 | the category-mismatch message determines both the expected and the offending category |
| ConversionErrors.CategoryNameInjective | src/utils/conversions/types.ts:10-16 | distinct categories have distinct string values |
| NumberFormat.RoundHalfUp | src/utils/conversions/RatioConverter.ts:106 | the integer `n` that `toFixed` picks is within half a unit of its argument |
| NumberFormat.Unpointed | src/utils/conversions/RatioConverter.ts:106 | removing the decimal point from fixed text leaves decimal digits |
| NumberFormat.InsertPoint | src/utils/conversions/RatioConverter.ts:106 | inserting the point (padding with zeros as `toFixed` does) gives fixed text with the same digit value |
| NumberFormat.FixedDigits | src/utils/conversions/RatioConverter.ts:106 | the fixed text of a non-negative number spells `n`, the rounded scaled value |
| NumberFormat.ToFixed | src/utils/conversions/RatioConverter.ts:106 | `toFixed(f)`: fixed text with `f` fraction digits, a leading `-` iff negative, and digits `n` with `n − ½ ≤ abs(x)·10^f < n + ½` |
| NumberFormat.SignedBody | src/utils/conversions/RatioConverter.ts:106 | a sign prefix is removed exactly and shows negativity |
| NumberFormat.NormalizeUp | src/utils/conversions/RatioConverter.ts:103 | a value ≥ 1 is `m·10^e` with `1 ≤ m < 10` |
| NumberFormat.NormalizeDown | src/utils/conversions/RatioConverter.ts:99 | a value in (0, 1) is `m·10^e` with `1 ≤ m < 10` |
| NumberFormat.Significand | src/utils/conversions/RatioConverter.ts:99-103 | the significand chosen by `toExponential(f)` has exactly `f + 1` digits |
| NumberFormat.DigitCount | src/utils/conversions/RatioConverter.ts:99-103 | a number between 10^f and 10^(f+1) has `f + 1` decimal digits |
| NumberFormat.PointAfterFirst | src/utils/conversions/RatioConverter.ts:99-103 | the mantissa has one digit before the point and `f` after it, and no point when `f` is 0 |
| NumberFormat.ExponentSuffix | src/utils/conversions/RatioConverter.ts:99-103 | the exponent is written as `e`, a sign and digits |
| NumberFormat.ToExponential | src/utils/conversions/RatioConverter.ts:99-103 | `toExponential(f)`: the text has exponential shape with `f` fraction digits, and a leading `-` iff the value is negative |
| NumberFormat.Assemble | src/utils/conversions/RatioConverter.ts:99-103 | mantissa followed by suffix has the exponential shape |
| NumberFormat.FixedHasNoExponent | src/utils/conversions/RatioConverter.ts:106 | fixed text contains no `e` |
| NumberFormat.ExponentialHasExponent | src/utils/conversions/RatioConverter.ts:99-103 | exponential text contains an `e` |
| ValueFormat.FormatValue | src/utils/conversions/RatioConverter.ts:95-107 | fails (the engine's `RangeError`) iff the digit count is outside 0..100. Otherwise the text is non-empty and starts with `-` iff the value is negative. It is exponential when the magnitude rule applies; otherwise it is fixed text that `parseFloat` reads back within half a unit of the last digit |
| ValueFormat.NotationFollowsMagnitude | src/utils/conversions/RatioConverter.ts:98-106 | the text contains `e` iff the value is non-zero with magnitude below 10^−d, or above 10^10 |
| ValueFormat.ZeroIsFixed | src/utils/conversions/RatioConverter.ts:98 | zero is written in fixed notation and reads back as exactly 0 |
| NumberParse.TrimStart | src/utils/conversions/useConverter.ts:52 | removes exactly the leading white space that `parseFloat` skips |
| NumberParse.DigitRun | src/utils/conversions/useConverter.ts:52 | the longest prefix of decimal digits |
| NumberParse.ScanMantissa | src/utils/conversions/useConverter.ts:52 | the integer and fraction digits are decimal; at least one digit is read iff the text starts a decimal literal |
| NumberParse.ScanLiteral | src/utils/conversions/useConverter.ts:52 | a literal is found iff, after white space and a sign, the text starts with a digit or `.` followed by a digit |
| NumberParse.ParseFloat | src/utils/conversions/useConverter.ts:52 | `parseFloat` gives `NaN` (`None`) iff no decimal literal starts the trimmed, unsigned text |
| NumberParse.NoDigitsIsNaN | src/utils/conversions/useConverter.ts:52-54 | text without a decimal digit (such as `abc`) always reads as `NaN` |
| NumberParse.ParseFixedNotation | src/utils/conversions/useConverter.ts:52 | any `toFixed` output is read by `parseFloat` as its signed digits over 10^f |
| NumberParse.ParseDigits | src/pages/hex-rgb-converter/useHexRgbConverter.ts:94-96 | a string of decimal digits reads as its integer value |
| NumberParse.PlainLiteralIsParsed | src/utils/conversions/useConverter.ts:52 | a scanned literal without exponent reads as its signed digits over 10^f |
| NumberParse.LiteralIsParsed | src/utils/conversions/useConverter.ts:52 | `parseFloat` returns the value of the literal the scan finds |
| NumberParse.ScanFixedNotation | src/utils/conversions/useConverter.ts:52 | scanning fixed text finds its sign, its digits without the point, and exactly `f` fraction digits |
| NumberParse.PlainValue | src/utils/conversions/useConverter.ts:52 | a literal without exponent has value ± digits / 10^f |
| NumberParse.ScanFixedBody | src/utils/conversions/useConverter.ts:52 | scanning the unsigned fixed body reads all its digits and no exponent |
| NumberParse.ToFixedReadsBack | src/pages/temperature-converter/useTemperatureConverter.ts:31-34 | `parseFloat(x.toFixed(f))` is a number within half a unit of the last digit of `x` |
| NumberParse.UnscaleError | src/utils/conversions/RatioConverter.ts:106 | a rounding error of ½ in `abs(x)·10^f` is at most `½·10^−f` after unscaling |
| Numbers.ToRadixString | src/pages/hex-rgb-converter/useHexRgbConverter.ts:45 | `n.toString(radix)`: non-empty lower-case digits of that radix whose value is `n`; a single digit iff `n < radix` |
| Numbers.DecimalString | src/pages/hex-rgb-converter/useHexRgbConverter.ts:63-65 | `n.toString()`: non-empty decimal digits whose value is `n` |
| Numbers.Zeros | src/utils/conversions/RatioConverter.ts:106 | `k` zero digits, of value 0 |
| Numbers.DecimalAppend | src/utils/conversions/RatioConverter.ts:106 | the value of concatenated digit strings is `a·10^len(b) + b`, where `len(b)` is the number of digits of `b` |
| Numbers.LeadingZeros | src/pages/hex-rgb-converter/useHexRgbConverter.ts:46 | leading zeros do not change a digit string's value |
| Numbers.MathRound | src/pages/hex-rgb-converter/useHexRgbConverter.ts:45 | `Math.round`: the integer `n` with `n − ½ ≤ x < n + ½`, so halves round up |
| UseConverter.IdSet | src/utils/conversions/useConverter.ts:85-88 | exactly the ids of the units, the keys of the handlers |
| UseConverter.Blank | src/utils/conversions/useConverter.ts:16-19 | every given id mapped to the empty text, and no other key |
| UseConverter.ConverterHook.constructor | src/utils/conversions/useConverter.ts:14-21 | every unit's field starts empty; the precision defaults to 2 and the overrides to none |
| UseConverter.ConverterHook.Precision | src/utils/conversions/useConverter.ts:28 | a field's override if it has one, else the hook's default |
| UseConverter.ConverterHook.FormatFor | src/utils/conversions/useConverter.ts:26-32 | the shared formatting rule with the field's precision; it fails iff that precision is outside 0..100 |
| UseConverter.ConverterHook.Displayed | src/utils/conversions/useConverter.ts:68-73 | a sibling field shows the formatted conversion; a failed conversion or formatting is caught and shows the empty text |
| UseConverter.ConverterHook.Edit | src/utils/conversions/useConverter.ts:37-80 | the empty text or `-` clears every field. Text that reads as `NaN` is stored in its own field only. A number keeps its own field's text and rewrites every other unit's field from it; the keys stay the unit ids. Any other text stays as typed in the edited field |
| UseConverter.ConverterHook.Field | src/utils/conversions/useConverter.ts:64-74 | the edited field holds the input; a sibling whose conversion fails, or whose precision is outside 0..100, is empty; otherwise it holds the formatted converted value |
| UseConverter.ConverterHook.Rewrite | src/utils/conversions/useConverter.ts:62-77 | the new record has exactly the units' ids, the edited field as typed, and every other field from `Displayed` |
| UseConverter.ConverterHook.ClearKeys | src/utils/conversions/useConverter.ts:41-48 | every existing key is set to the empty text and no key is added or removed |
| UseConverter.ConverterHook.ClearAll | src/utils/conversions/useConverter.ts:93-99 | `clearAll`: exactly the units' ids, all empty |
| UseConverter.FailureIsLocal | src/utils/conversions/useConverter.ts:64-75 | a field whose conversion succeeds and whose precision is valid shows its formatted value, whatever happens to the other fields |
| UseConverter.SiblingReadsBack | src/utils/conversions/useConverter.ts:64-74 | a sibling field shown in fixed notation reads back through `parseFloat` within half a unit in the last shown digit of the converted value |
| PageConfig.FindIdFindsFirst | src/pages/measurement-converter/config.ts:13-16 | `find(u => u.id === id)` finds something iff some unit has the id, and then returns the first such unit |
| PageConfig.FindIdAt | src/pages/time-converter/config.ts:13-20 | with unique ids, finding unit `i`'s id returns unit `i` |
| PageConfig.FieldIds | src/pages/measurement-converter/config.ts:34-46 | the ids of the field configurations, in order |
| MeasurementConfig.FoundAt | src/pages/measurement-converter/config.ts:13-23 | each `find(...)!` returns the registry's unit with that id, which exists |
| MeasurementConfig.MetricUnitsAre | src/pages/measurement-converter/config.ts:12-17 | the metric units are mm, cm, m and km, in that order |
| MeasurementConfig.ImperialUnitsAre | src/pages/measurement-converter/config.ts:19-24 | the imperial units are in, ft, yd and mi, in that order |
| MeasurementConfig.SelectedUnitsAre | src/pages/measurement-converter/config.ts:26 | metric followed by imperial is the whole length registry, eight units |
| MeasurementConfig.ConfigMatchesUnits | src/pages/measurement-converter/config.ts:34-46 | each group's field ids match its units' ids, in order |
| MeasurementConfig.ConverterBuilt | src/pages/measurement-converter/config.ts:28-32 | the converter is built without error, has base cm, the eight units and precision 2 |
| MeasurementConfig.LengthRatioBuilt | src/pages/measurement-converter/config.ts:28-32 | the ratio constructor succeeds on the length registry with base cm |
| MeasurementConfig.AMeterIs100Centimeters | src/utils/conversions/units.ts:106-115 | 1 m converts to 100 cm |
| MeasurementConfig.AKilometerIs1000Meters | src/utils/conversions/units.ts:115-123 | 1 km converts to 1000 m |
| MeasurementConfig.AFootIs12Inches | src/utils/conversions/units.ts:131-139 | 12 in converts to 1 ft |
| MeasurementConfig.AYardIsThreeFeet | src/utils/conversions/units.ts:139-147 | 3 ft converts to 1 yd |
| MeasurementConfig.Converts | src/pages/measurement-converter/config.ts:28-32 | the page's converter maps unit i to unit j by `j.fromBase(i.toBase(v))` |
| TimeConfig.FoundAt | src/pages/time-converter/config.ts:12-21 | each `find(...)!` returns the registry's unit with that id |
| TimeConfig.SelectedUnitsAre | src/pages/time-converter/config.ts:12-21 | the selection is the whole time registry, in registry order |
| TimeConfig.ConfigMatchesUnits | src/pages/time-converter/config.ts:29-38 | the field ids are ms, s, min, hr, day, week, month and year, matching the units |
| TimeConfig.ConverterBuilt | src/pages/time-converter/config.ts:23-27 | the converter is built without error, has base s, all eight units and precision 2 |
| TimeConfig.TimeRatioBuilt | src/pages/time-converter/config.ts:23-27 | the ratio constructor succeeds on the time registry with base s |
| TimeConfig.SixtySecondsIsAMinute | src/utils/conversions/units.ts:259-268 | 60 s converts to 1 min |
| TimeConfig.AnHourIsSixtyMinutes | src/utils/conversions/units.ts:268-276 | 1 hr converts to 60 min |
| TimeConfig.AnHourIs3600Seconds | src/utils/conversions/units.ts:259-276 | 3600 s converts to 1 hr |
| TimeConfig.ADayIs24Hours | src/utils/conversions/units.ts:276-284 | 1 day converts to 24 hr |
| TimeConfig.ADayIs86400Seconds | src/utils/conversions/units.ts:259-284 | 86400 s converts to 1 day |
| TimeConfig.AWeekIsSevenDays | src/utils/conversions/units.ts:284-292 | 1 week converts to 7 days |
| TimeConfig.ASecondIs1000Milliseconds | src/utils/conversions/units.ts:251-259 | 1000 ms converts to 1 s |
| TimeConfig.AYearIsTwelveMonths | src/utils/conversions/units.ts:300-308 | 1 year converts to exactly 12 months |
| TimeConfig.AYearIsGregorian | src/utils/conversions/units.ts:284-308 | 1 year converts to 365.2425 days, not the 365.25 of its comment |
| TimeConfig.Converts | src/pages/time-converter/config.ts:23-27 | the page's converter maps unit i to unit j by `j.fromBase(i.toBase(v))` |
| VolumeConfig.FoundAt | src/pages/volume-converter/config.ts:12-19 | each `find(...)!` returns the registry's unit with that id |
| VolumeConfig.SelectedUnitsAre | src/pages/volume-converter/config.ts:12-19 | the selection is ml, liter, tsp, tbsp, floz and cup; pint, quart and gallon are left out |
| VolumeConfig.ConfigMatchesUnits | src/pages/volume-converter/config.ts:27-34 | the field ids match the selected units' ids, in order |
| VolumeConfig.SelectedWellFormed | src/pages/volume-converter/config.ts:12-19 | the selection has unique ids and is all volume |
| VolumeConfig.ConverterBuilt | src/pages/volume-converter/config.ts:21-25 | the converter is built without error, has base ml, the six units and precision 1 |
| VolumeConfig.VolumeRatioBuilt | src/pages/volume-converter/config.ts:21-25 | the ratio constructor succeeds on the selection with base ml |
| VolumeConfig.ALiterIs1000Milliliters | src/utils/conversions/units.ts:18-83 | 1 liter converts to 1000 ml |
| VolumeConfig.ACupIsEightFluidOunces | src/utils/conversions/units.ts:43-51 | 8 fl oz converts to 1 cup |
| VolumeConfig.ThreeTeaspoonsAreAboutATablespoon | src/utils/conversions/units.ts:27-35 | 3 tsp is within 0.05 of 1 tbsp but not exactly 1, because the factors are rounded |
| VolumeConfig.Converts | src/pages/volume-converter/config.ts:21-25 | the page's converter maps unit i to unit j by `j.fromBase(i.toBase(v))` |
| TemperatureConfig.FoundAt | src/pages/temperature-converter/config.ts:10-13 | each `find(...)!` returns the registry's unit with that id |
| TemperatureConfig.SelectedUnitsAre | src/pages/temperature-converter/config.ts:10-13 | the selection is Celsius then Fahrenheit |
| TemperatureConfig.ConfigMatchesUnits | src/pages/temperature-converter/config.ts:20-23 | the field ids and symbols match the selected units |
| TemperatureConfig.ConverterBuilt | src/pages/temperature-converter/config.ts:15-18 | the interval converter is built without error over both units with precision 2 |
| TemperatureConfig.CelsiusFixedPoints | src/utils/conversions/units.ts:216-223 | 0, 100 and −40 °C convert to 32, 212 and −40 °F |
| TemperatureConfig.FahrenheitFixedPoints | src/utils/conversions/units.ts:216-223 | 32 and 212 °F convert to 0 and 100 °C |
| TemperatureConfig.CelsiusToFahrenheit | src/pages/temperature-converter/config.ts:15-18 | for every value, the page's converter takes °C to °F as `v·9/5 + 32` |
| TemperatureConfig.FahrenheitToCelsius | src/pages/temperature-converter/config.ts:15-18 | for every value, the page's converter takes °F to °C as `(v − 32)·5/9` |
| TemperatureConfig.Converts | src/pages/temperature-converter/config.ts:15-18 | the page's converter maps unit i to unit j by `j.fromBase(i.toBase(v))` |
| HexRgb.StripHash | src/pages/hex-rgb-converter/useHexRgbConverter.ts:25 | removes one leading `#` if present, and nothing else |
| HexRgb.Expand | src/pages/hex-rgb-converter/useHexRgbConverter.ts:31-33 | three digits are doubled one by one into six; six digits are kept |
| HexRgb.Pair | src/pages/hex-rgb-converter/useHexRgbConverter.ts:35-38 | two hex digits give a byte below 256 |
| HexRgb.HexToRgb | src/pages/hex-rgb-converter/useHexRgbConverter.ts:24-41 | `null` unless the text without one `#` is exactly 3 or 6 hex digits; otherwise the channels are the expanded code's three digit pairs |
| HexRgb.SixDigits | src/pages/hex-rgb-converter/useHexRgbConverter.ts:35 | `parseInt(six, 16)` is `r·65536 + g·256 + b` of the three pairs |
| HexRgb.Bytes | src/pages/hex-rgb-converter/useHexRgbConverter.ts:36-38 | the shifts and masks recover each byte of `r·65536 + g·256 + b` |
| HexRgb.Clamp | src/pages/hex-rgb-converter/useHexRgbConverter.ts:45 | `max(0, min(255, n))`: within 0..255, the identity inside that range, 0 below it and 255 above it |
| HexRgb.PadStart | src/pages/hex-rgb-converter/useHexRgbConverter.ts:46 | `padStart(n, c)`: the text ends with the input, is at least `n` long, and the padding is all `c` |
| HexRgb.ToHex | src/pages/hex-rgb-converter/useHexRgbConverter.ts:44-47 | two lower-case hex digits spelling the rounded, clamped channel |
| HexRgb.PaddedByte | src/pages/hex-rgb-converter/useHexRgbConverter.ts:45-46 | a byte padded to two digits keeps its value and is lower case |
| HexRgb.RgbToHex | src/pages/hex-rgb-converter/useHexRgbConverter.ts:43-50 | six lower-case hex digits whose pairs are the rounded, clamped r, g and b |
| HexRgb.JoinPairs | src/pages/hex-rgb-converter/useHexRgbConverter.ts:49 | concatenating three two-digit codes keeps each pair's value |
| HexRgb.ToLower | src/pages/hex-rgb-converter/useHexRgbConverter.ts:45 | lower-cases every character and keeps the length |
| HexRgb.OneHashStripped | src/pages/hex-rgb-converter/useHexRgbConverter.ts:25-27 | one `#` is accepted and ignored; two are rejected |
| HexRgb.ShorthandDoubles | src/pages/hex-rgb-converter/useHexRgbConverter.ts:31-33 | `#abc` is accepted and means the same colour as `#aabbcc` |
| HexRgb.RgbRoundTrip | src/pages/hex-rgb-converter/useHexRgbConverter.ts:24-50 | any three channels in 0..255 survive `hexToRgb(rgbToHex(r, g, b))` |
| HexRgb.NoHash | src/pages/hex-rgb-converter/useHexRgbConverter.ts:25 | text that starts with a hex digit is left as it is |
| HexRgb.RoundInteger | src/pages/hex-rgb-converter/useHexRgbConverter.ts:45 | `Math.round` leaves integers unchanged |
| HexRgb.HexRoundTrip | src/pages/hex-rgb-converter/useHexRgbConverter.ts:24-50 | converting an accepted code to RGB and back gives its six-digit, lower-case form |
| HexRgbFields.ChannelValue | src/pages/hex-rgb-converter/useHexRgbConverter.ts:94-96 | an empty channel counts as 0; otherwise it is `parseFloat` of the text |
| HexRgbFields.DisplayHex | src/pages/hex-rgb-converter/useHexRgbConverter.ts:104 | empty iff the hex field is empty; otherwise `#` followed by the field without one leading `#` |
| HexRgbFields.DisplayRgb | src/pages/hex-rgb-converter/useHexRgbConverter.ts:105 | empty iff all three channels are empty; otherwise `rgb(r, g, b)` with empty channels shown as 0 |
| HexRgbFields.OrZero | src/pages/hex-rgb-converter/useHexRgbConverter.ts:105 | a shown channel is never empty: non-empty text as is, and for the empty field text that `parseFloat` reads as 0 |
| HexRgbFields.DisplayedEmptyChannelIsZero | src/pages/hex-rgb-converter/useHexRgbConverter.ts:105 | next to a non-empty channel, an empty channel is displayed exactly as the text `0` |
| HexRgbFields.HexFromFields | src/pages/hex-rgb-converter/useHexRgbConverter.ts:88-102 | three empty channels clear the hex; a `NaN` channel leaves it unchanged; otherwise it is `rgbToHex` of the channel values |
| HexRgbFields.EmptyChannelIsZero | src/pages/hex-rgb-converter/useHexRgbConverter.ts:94 | when another channel is set, an empty red field acts exactly like `0` |
| HexRgbFields.ZeroReadsAsZero | src/pages/hex-rgb-converter/useHexRgbConverter.ts:94-96 | `parseFloat("0")` is 0 |
| HexRgbFields.DecimalReadsBack | src/pages/hex-rgb-converter/useHexRgbConverter.ts:63-65 | `parseFloat(n.toString())` is `n` for every natural `n` |
| HexRgbFields.FieldsRegenerateHex | src/pages/hex-rgb-converter/useHexRgbConverter.ts:52-102 | the channel texts written by a valid hex code regenerate that code's six-digit, lower-case form |
| HexRgbFields.ChannelReadsBack | src/pages/hex-rgb-converter/useHexRgbConverter.ts:63-65 | a channel text written by the hex handler is non-empty and reads back as its byte |
| HexRgbFields.DisplayHexIdempotent | src/pages/hex-rgb-converter/useHexRgbConverter.ts:104 | displaying an already displayed code changes nothing |
| HexRgbHook.HexRgbConverter.constructor | src/pages/hex-rgb-converter/useHexRgbConverter.ts:19-22 | all four fields start empty |
| HexRgbHook.HexRgbConverter.HandleHexChange | src/pages/hex-rgb-converter/useHexRgbConverter.ts:52-68 | the hex field takes the input. An empty input clears the channels. A valid code writes each channel's decimal text. An invalid code leaves the channels unchanged |
| HexRgbHook.HexRgbConverter.HandleRChange | src/pages/hex-rgb-converter/useHexRgbConverter.ts:70-74 | red takes the input, green and blue are unchanged, and hex is recomputed from the new red and the old green and blue |
| HexRgbHook.HexRgbConverter.HandleGChange | src/pages/hex-rgb-converter/useHexRgbConverter.ts:76-80 | green takes the input, the others are unchanged, and hex is recomputed |
| HexRgbHook.HexRgbConverter.HandleBChange | src/pages/hex-rgb-converter/useHexRgbConverter.ts:82-86 | blue takes the input, the others are unchanged, and hex is recomputed |
| HexRgbHook.HexRgbConverter.UpdateHexFromRgb | src/pages/hex-rgb-converter/useHexRgbConverter.ts:88-102 | only the hex field changes, to the field rule of the three channel texts |
| TemperatureHook.CelsiusToFahrenheit | src/pages/temperature-converter/useTemperatureConverter.ts:16-18 | the result satisfies `(F − 32)·5 = C·9` |
| TemperatureHook.FahrenheitToCelsius | src/pages/temperature-converter/useTemperatureConverter.ts:20-22 | the result satisfies `C·9 = (F − 32)·5` |
| TemperatureHook.FormulasAreInverse | src/pages/temperature-converter/useTemperatureConverter.ts:16-22 | the two formulas invert each other both ways |
| TemperatureHook.FormulasMatchUnitTable | src/pages/temperature-converter/useTemperatureConverter.ts:16-22 | the hook's formulas equal the registry's Fahrenheit `fromBase`/`toBase` (units.ts:220-221) |
| TemperatureHook.FixedValues | src/pages/temperature-converter/useTemperatureConverter.ts:16-22 | 0 → 32, 100 → 212, −40 → −40, and back for 32 and 212 |
| TemperatureHook.FormulasIncrease | src/pages/temperature-converter/useTemperatureConverter.ts:16-22 | both formulas are strictly increasing |
| TemperatureHook.ShownTemperatureIsClose | src/pages/temperature-converter/useTemperatureConverter.ts:33-34 | the two-decimal text shown reads back within 0.005 of the exact converted temperature |
| TemperatureHook.TemperatureConverter.constructor | src/pages/temperature-converter/useTemperatureConverter.ts:13-14 | both fields start empty |
| TemperatureHook.TemperatureConverter.HandleCelsiusChange | src/pages/temperature-converter/useTemperatureConverter.ts:24-37 | Celsius takes the input. The empty text or `-` clears Fahrenheit. `NaN` leaves it unchanged. A number sets it to the converted value's `toFixed(2)` |
| TemperatureHook.TemperatureConverter.HandleFahrenheitChange | src/pages/temperature-converter/useTemperatureConverter.ts:39-52 | the mirror image, from Fahrenheit to Celsius |
| PasswordGenerator.ClampLength | src/pages/password-generator/usePasswordGenerator.ts:47-50 | the length is within 4..128, unchanged inside that range, 4 below it and 128 above it |
| PasswordGenerator.Remove | src/pages/password-generator/usePasswordGenerator.ts:71-72 | `Set.delete`: exactly the other members remain |
| PasswordGenerator.Toggled | src/pages/password-generator/usePasswordGenerator.ts:68-78 | the character's membership flips; every other character's membership is unchanged |
| PasswordGenerator.RemoveKeepsNoDuplicates | src/pages/password-generator/usePasswordGenerator.ts:71-72 | deleting keeps the selection duplicate-free |
| PasswordGenerator.ToggledKeepsNoDuplicates | src/pages/password-generator/usePasswordGenerator.ts:68-78 | toggling keeps the selection a set |
| PasswordGenerator.RemoveAbsent | src/pages/password-generator/usePasswordGenerator.ts:71-72 | deleting an absent character changes nothing |
| PasswordGenerator.RemoveLast | src/pages/password-generator/usePasswordGenerator.ts:71-75 | deleting a just-added character restores the selection, order included |
| PasswordGenerator.ToggleTwice | src/pages/password-generator/usePasswordGenerator.ts:68-78 | toggling twice restores membership; when the character was absent, it restores the exact sequence |
| PasswordGenerator.Charset | src/pages/password-generator/usePasswordGenerator.ts:102-126 | a character is in the charset iff it belongs to an enabled class; the charset is empty iff no class is enabled, counting special characters only with a non-empty selection |
| PasswordGenerator.Allowed | src/pages/password-generator/usePasswordGenerator.ts:102-121 | when the selection keeps to the offered special characters, every allowed character is in `[A-Z]`, `[a-z]`, `[0-9]` or the special-character class of the strength test |
| PasswordGenerator.DefaultCharset | src/pages/password-generator/usePasswordGenerator.ts:37-45 | the initial options draw from 88 characters: uppercase, lowercase, digits, then all offered special characters |
| PasswordGenerator.UpperIsRange | src/pages/password-generator/usePasswordGenerator.ts:32 | the uppercase pool is exactly the range `[A-Z]` |
| PasswordGenerator.LowerIsRange | src/pages/password-generator/usePasswordGenerator.ts:33 | the lowercase pool is exactly the range `[a-z]` |
| PasswordGenerator.DigitIsRange | src/pages/password-generator/usePasswordGenerator.ts:34 | the digit pool is exactly the range `[0-9]` |
| PasswordGenerator.SpecialIsClass | src/pages/password-generator/usePasswordGenerator.ts:173 | the 26 offered special characters are exactly the characters of the strength test's special-character class |
| PasswordGenerator.Covers | src/pages/password-generator/usePasswordGenerator.ts:170-173 | a character-class test never matches the empty password or an empty class |
| PasswordGenerator.HasUpper | src/pages/password-generator/usePasswordGenerator.ts:170 | `/[A-Z]/.test(p)`: some character lies in `A`..`Z` |
| PasswordGenerator.HasLower | src/pages/password-generator/usePasswordGenerator.ts:171 | `/[a-z]/.test(p)`: some character lies in `a`..`z` |
| PasswordGenerator.HasDigit | src/pages/password-generator/usePasswordGenerator.ts:172 | `/[0-9]/.test(p)`: some character lies in `0`..`9` |
| PasswordGenerator.HasSpecial | src/pages/password-generator/usePasswordGenerator.ts:173 | the special-character test: some character is one of the class's 26 characters |
| PasswordGenerator.Pick | src/pages/password-generator/usePasswordGenerator.ts:107 | `Math.floor(Math.random() * n)` is a valid index below `n` |
| PasswordGenerator.ScaledBelow | src/pages/password-generator/usePasswordGenerator.ts:133 | a draw in [0, 1) scaled by `n` lies in [0, n) |
| PasswordGenerator.Shuffle | src/pages/password-generator/usePasswordGenerator.ts:138-142 | the in-place loop leaves the array as `FisherYates` of its old contents with the same draws, so its characters are permuted: the multiset is unchanged |
| PasswordGenerator.FisherYates | src/pages/password-generator/usePasswordGenerator.ts:138-142 | swapping index `i` with `floor(r·(i+1))` for `i` from the top down to 1 keeps the length |
| PasswordGenerator.FisherYatesPermutes | src/pages/password-generator/usePasswordGenerator.ts:138-142 | the Fisher–Yates pass is a permutation: every character keeps its count |
| PasswordGenerator.Swap | src/pages/password-generator/usePasswordGenerator.ts:141 | exchanging two positions swaps their characters and leaves every other position alone |
| PasswordGenerator.Score | src/pages/password-generator/usePasswordGenerator.ts:161-173 | the score is at most 8, and it is 8 iff the length is ≥ 24 and all four classes occur |
| PasswordGenerator.PasswordStrength | src/pages/password-generator/usePasswordGenerator.ts:158-179 | an empty password is weak. It is very strong iff it is ≥ 24 long with all four classes. Under 8 characters it is weak or medium |
| PasswordGenerator.ExtendingKeepsCover | src/pages/password-generator/usePasswordGenerator.ts:170-173 | a class present in a password stays present after appending |
| PasswordGenerator.AppendCovers | src/pages/password-generator/usePasswordGenerator.ts:170-173 | appending a character keeps every class present and adds the class of that character |
| PasswordGenerator.LongerIsNoWeaker | src/pages/password-generator/usePasswordGenerator.ts:158-179 | appending text never lowers the strength rating |
| PasswordGenerator.ScoreNoLower | src/pages/password-generator/usePasswordGenerator.ts:161-173 | appending text never lowers the score |
| PasswordGenerator.AllClassesRating | src/pages/password-generator/usePasswordGenerator.ts:158-179 | with all four classes, 16..23 characters is strong and 24 or more is very strong |
| PasswordGenerator.AllSpecialCharsDistinct | src/pages/password-generator/usePasswordGenerator.ts:3 | the full special-character list has 26 distinct characters |
| PasswordGenerator.CommonIsSubsetOfAll | src/pages/password-generator/usePasswordGenerator.ts:3-4 | the common preset has 9 distinct characters, all of them among the 26 |
| PasswordGenerator.PasswordGeneratorState.constructor | src/pages/password-generator/usePasswordGenerator.ts:37-45 | no password; 16 characters, every class on, all 26 special characters selected |
| PasswordGenerator.PasswordGeneratorState.SetLength | src/pages/password-generator/usePasswordGenerator.ts:47-50 | only the length changes, to the clamped value |
| PasswordGenerator.PasswordGeneratorState.SetIncludeUppercase | src/pages/password-generator/usePasswordGenerator.ts:52-54 | only the uppercase flag changes |
| PasswordGenerator.PasswordGeneratorState.SetIncludeLowercase | src/pages/password-generator/usePasswordGenerator.ts:56-58 | only the lowercase flag changes |
| PasswordGenerator.PasswordGeneratorState.SetIncludeNumbers | src/pages/password-generator/usePasswordGenerator.ts:60-62 | only the numbers flag changes |
| PasswordGenerator.PasswordGeneratorState.SetIncludeSpecialChars | src/pages/password-generator/usePasswordGenerator.ts:64-66 | only the special-characters flag changes |
| PasswordGenerator.PasswordGeneratorState.ToggleSpecialChar | src/pages/password-generator/usePasswordGenerator.ts:68-78 | only the selection changes, with the character's membership flipped; it stays duplicate-free |
| PasswordGenerator.PasswordGeneratorState.SelectAllSpecialChars | src/pages/password-generator/usePasswordGenerator.ts:80-85 | the selection becomes all 26 characters |
| PasswordGenerator.PasswordGeneratorState.SelectNoSpecialChars | src/pages/password-generator/usePasswordGenerator.ts:87-92 | the selection becomes empty |
| PasswordGenerator.PasswordGeneratorState.SelectCommonSpecialChars | src/pages/password-generator/usePasswordGenerator.ts:94-99 | the selection becomes the 9 common characters |
| PasswordGenerator.PasswordGeneratorState.GeneratePassword | src/pages/password-generator/usePasswordGenerator.ts:101-145 | an empty charset gives the empty password. Otherwise the password has the chosen length and only charset characters, and it contains at least one character of every enabled class (special: of the selection, when non-empty) |
| PasswordGenerator.Generate | src/pages/password-generator/usePasswordGenerator.ts:101-144 | the same guarantees for the generation algorithm on given options and draws |
| PasswordGenerator.RequiredChars | src/pages/password-generator/usePasswordGenerator.ts:102-121 | builds the charset of the enabled classes and one required character from each, at most four, all in the charset |
| PasswordGenerator.AddClass | src/pages/password-generator/usePasswordGenerator.ts:105-108 | appends a pool to the charset and one of its characters to the required list, keeping earlier classes covered |
| PasswordGenerator.RandomChars | src/pages/password-generator/usePasswordGenerator.ts:129-135 | exactly `count` characters; the `m`-th is the charset entry that draw `start + m` picks (`floor(r * len(charset))`), so all come from the charset; the next draw index is `start + count` |
| PasswordGenerator.AllFromCharset | src/pages/password-generator/usePasswordGenerator.ts:138-144 | shuffling keeps every character in the charset |
| PasswordGenerator.ShuffleKeepsClasses | src/pages/password-generator/usePasswordGenerator.ts:138-144 | shuffling keeps each required character, so every covered class stays covered |

## Left out

- Binary floating point: numbers are exact reals, so IEEE-754 rounding is not
  modelled. This affects, for example, `0.1 + 0.2` and the last digit of a
  converted value.
- NumberFormat.ToFixed: for magnitudes of 10^21 and above, `toFixed` falls back
  to `Number::toString`. The model keeps the fixed-notation algorithm there.
- NumberFormat.ToExponential: states the shape and the sign of the text, not
  its exact digits, which are only bounded (see `Significand`).
- NumberParse.ParseFloat: reads the decimal literal grammar with optional white
  space, sign, point and exponent. It does not read `Infinity` or overflow to
  an infinity.
- ValueFormat.FormatValue, Converters.Converter.FormatValue and
  UseConverter.ConverterHook.Precision take the precision as an integer. The
  source's precision is a JavaScript number, and a fractional one is not
  modelled.
- ConversionErrors.Message: the exact wording of the engine's `RangeError` for
  a digit count outside 0..100 is engine-defined. It is modelled as a distinct
  error with its own message.
- Units.Formula: units with arbitrary custom `toBase`/`fromBase` functions are
  not modelled. Only the registry's formulas exist as values.
- Units.GetUnitsForCategory: its own contract only says the list is non-empty.
  `WellFormedRegistry` states the rest about the returned list.
- UseConverter.ConverterHook.Edit requires the unit id to be one of the units,
  because the hook only creates handlers for those ids.
- React memoisation, state batching and re-rendering are not modelled. Each
  handler applies its state update at once.
- PasswordGenerator.PasswordGeneratorState.SetLength: takes an integer.
  Fractional or `NaN` lengths are not modelled, because the page's slider
  delivers integers.
- `copyToClipboard` is not modelled, because it is browser I/O and the result of
  an asynchronous call.
- `Math.random()` is an input sequence of draws in [0, 1). A draw past the end
  of the sequence counts as 0.
- PasswordGenerator.PasswordGeneratorState.ToggleSpecialChar: takes one
  character, where the source takes any string. The page only passes single
  characters.
- The `ConversionConfig` and `ConverterState` types are not part of this model,
  because no code path of the core uses them.
- The `index.ts` re-exports are not modelled.
- The pages' JSX rendering is not modelled.
