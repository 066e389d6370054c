/** The errors the converters throw, one constructor per distinct message. */
module ConversionErrors {
  import opened Units

  datatype ConversionError =
    | UnknownUnit(id: string)
    | BaseUnitMissing
    | CategoryMismatch(expected: Category, got: Category)
    | MixedCategories
    | NoUnits
    | DigitsOutOfRange

  /**
   * The `message` of the thrown `Error`. `DigitsOutOfRange` is the `RangeError` the
   * engine raises for a digit count outside 0..100; its wording is engine-defined.
   */
  function Message(e: ConversionError): (m: string)
    ensures |m| > 2
  {
    match e
    case UnknownUnit(id) => UnknownPrefix + id
    case BaseUnitMissing => "Base unit must be included in units array"
    case CategoryMismatch(expected, got) =>
      MismatchPrefix + Mismatch(CategoryName(expected), CategoryName(got))
    case MixedCategories => MixedPrefix
    case NoUnits => "At least one unit must be provided"
    case DigitsOutOfRange => "digits argument must be between 0 and 100"
  }

  const UnknownPrefix := "Unknown unit: "
  const MixedPrefix := "All units must be in the same category"
  const MismatchPrefix := MixedPrefix + ". Expected "

  function Mismatch(expected: string, got: string): string {
    expected + ", got " + got
  }

  /** Distinct errors carry distinct messages, so a message identifies the error and its data. */
  lemma MessageIdentifiesError(e1: ConversionError, e2: ConversionError)
    requires Message(e1) == Message(e2)
    ensures e1 == e2
  {
    if e1.UnknownUnit? {
      UnknownUnitMessage(e1.id, e2);
    } else if e2.UnknownUnit? {
      UnknownUnitMessage(e2.id, e1);
    } else if e1.CategoryMismatch? {
      CategoryMismatchMessage(e1.expected, e1.got, e2);
    } else if e2.CategoryMismatch? {
      CategoryMismatchMessage(e2.expected, e2.got, e1);
    } else {
      assert Message(e1)[..2] == Message(e2)[..2];
      assert |Message(e1)| == |Message(e2)|;
    }
  }

  lemma UnknownUnitMessage(id: string, e: ConversionError)
    requires Message(UnknownUnit(id)) == Message(e)
    ensures e == UnknownUnit(id)
  {
    assert Message(e)[0] == 'U';
    if e.UnknownUnit? {
      assert id == (UnknownPrefix + id)[|UnknownPrefix|..];
      assert e.id == (UnknownPrefix + e.id)[|UnknownPrefix|..];
    }
  }

  lemma CategoryMismatchMessage(expected: Category, got: Category, e: ConversionError)
    requires Message(CategoryMismatch(expected, got)) == Message(e)
    requires !e.UnknownUnit?
    ensures e == CategoryMismatch(expected, got)
  {
    var m := Message(CategoryMismatch(expected, got));
    assert m[0] == MixedPrefix[0] && m[1] == MixedPrefix[1] && |m| > |MixedPrefix|;
    match e
    case BaseUnitMissing => assert false;
    case MixedCategories => assert false;
    case NoUnits => assert false;
    case DigitsOutOfRange => assert false;
    case CategoryMismatch(expected', got') => MismatchDetails(expected, got, expected', got');
  }

  lemma MismatchDetails(expected: Category, got: Category, expected': Category, got': Category)
    requires Message(CategoryMismatch(expected, got)) == Message(CategoryMismatch(expected', got'))
    ensures expected == expected' && got == got'
  {
    var k := |MismatchPrefix|;
    var m, m' := Message(CategoryMismatch(expected, got)), Message(CategoryMismatch(expected', got'));
    assert m[k..] == Mismatch(CategoryName(expected), CategoryName(got));
    assert m'[k..] == Mismatch(CategoryName(expected'), CategoryName(got'));
    SplitAtComma(CategoryName(expected), CategoryName(got), CategoryName(expected'), CategoryName(got'));
    CategoryNameInjective(expected, expected');
    CategoryNameInjective(got, got');
  }

  lemma CategoryNameInjective(c: Category, d: Category)
    requires CategoryName(c) == CategoryName(d)
    ensures c == d
  {
    assert CategoryName(c)[..2] == CategoryName(d)[..2];
  }

  lemma SplitAtComma(a1: string, b1: string, a2: string, b2: string)
    requires ',' !in a1 && ',' !in a2
    requires Mismatch(a1, b1) == Mismatch(a2, b2)
    ensures a1 == a2 && b1 == b2
  {
    var s1, s2 := Mismatch(a1, b1), Mismatch(a2, b2);
    FirstComma(a1, b1);
    FirstComma(a2, b2);
    assert a1 == s1[..|a1|] == s2[..|a2|] == a2;
    assert b1 == s1[|a1| + 6..] == s2[|a2| + 6..] == b2;
  }

  lemma FirstComma(a: string, b: string)
    requires ',' !in a
    ensures forall i :: 0 <= i < |a| ==> (a + ", got " + b)[i] != ','
    ensures (a + ", got " + b)[|a|] == ','
  {
  }
}
