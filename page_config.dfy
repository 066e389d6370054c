/**
 * Pieces the converter pages share: picking a registry unit by id with
 * `list.find(u => u.id === id)!`, and the field descriptions each page renders.
 */
module PageConfig {
  import opened Wrappers
  import opened Units
  import opened UnitTable

  /** `us.find(u => u.id === id)`: the first unit with that id, if any. */
  function FindId(us: seq<Unit>, id: string): Option<Unit> {
    if us == [] then None
    else if us[0].id == id then Some(us[0])
    else FindId(us[1..], id)
  }

  /**
   * `find` succeeds exactly when some unit has the id, and then returns the first
   * such unit: every unit before it has another id.
   */
  lemma {:induction false} FindIdFindsFirst(us: seq<Unit>, id: string)
    ensures FindId(us, id).Some? <==> exists i :: 0 <= i < |us| && us[i].id == id
    ensures FindId(us, id).Some? ==>
      (exists i :: 0 <= i < |us| && us[i] == FindId(us, id).value && us[i].id == id &&
         forall j :: 0 <= j < i ==> us[j].id != id)
  {
    if us != [] && us[0].id != id {
      FindIdFindsFirst(us[1..], id);
      assert forall i :: 1 <= i < |us| ==> us[i] == us[1..][i - 1];
      if FindId(us, id).Some? {
        var i :| 0 <= i < |us[1..]| && us[1..][i] == FindId(us, id).value &&
          us[1..][i].id == id && forall j :: 0 <= j < i ==> us[1..][j].id != id;
        assert us[i + 1] == FindId(us, id).value;
        assert forall j :: 1 <= j < i + 1 ==> us[j].id != id;
      }
    }
  }

  /** In a list with distinct ids, looking up the id of its i-th unit finds that unit. */
  lemma {:induction false} FindIdAt(us: seq<Unit>, i: nat, id: string)
    requires UniqueIds(us) && i < |us| && us[i].id == id
    ensures FindId(us, id) == Some(us[i])
  {
    if i > 0 {
      assert us[0].id != id;
      assert UniqueIds(us[1..]) by {
        forall a, b | 0 <= a < b < |us[1..]| ensures us[1..][a].id != us[1..][b].id {
          assert us[1..][a] == us[a + 1] && us[1..][b] == us[b + 1];
        }
      }
      FindIdAt(us[1..], i - 1, id);
    }
  }

  /** One input field of a page: the unit it edits, its label and optional symbol, and its placeholder. */
  datatype FieldConfig = FieldConfig(id: string, labelText: string, symbol: Option<string>, placeholder: string)

  /** The field ids of a page, in display order. */
  function FieldIds(fields: seq<FieldConfig>): (ids: seq<string>)
    ensures |ids| == |fields|
    ensures forall i :: 0 <= i < |fields| ==> ids[i] == fields[i].id
  {
    if fields == [] then [] else [fields[0].id] + FieldIds(fields[1..])
  }

  /** Two lists of four, joined, list their eight elements in order. */
  lemma JoinFour(a: seq<Unit>, b: seq<Unit>)
    requires |a| == 4 && |b| == 4
    ensures a + b == [a[0], a[1], a[2], a[3], b[0], b[1], b[2], b[3]]
  {
  }

  /** The ids of a four-unit list. */
  lemma IdsOfFour(a: Unit, b: Unit, c: Unit, d: Unit)
    ensures Ids([a, b, c, d]) == [a.id, b.id, c.id, d.id]
  {
  }

  /** The field ids of a four-field list. */
  lemma FieldIdsOfFour(a: FieldConfig, b: FieldConfig, c: FieldConfig, d: FieldConfig)
    ensures FieldIds([a, b, c, d]) == [a.id, b.id, c.id, d.id]
  {
  }

  /** The ids of a six-unit list. */
  lemma IdsOfSix(a: Unit, b: Unit, c: Unit, d: Unit, e: Unit, f: Unit)
    ensures Ids([a, b, c, d, e, f]) == [a.id, b.id, c.id, d.id, e.id, f.id]
  {
  }

  /** The field ids of a six-field list. */
  lemma FieldIdsOfSix(a: FieldConfig, b: FieldConfig, c: FieldConfig, d: FieldConfig, e: FieldConfig, f: FieldConfig)
    ensures FieldIds([a, b, c, d, e, f]) == [a.id, b.id, c.id, d.id, e.id, f.id]
  {
  }

  /** The ids of an eight-unit list. */
  lemma IdsOfEight(a: Unit, b: Unit, c: Unit, d: Unit, e: Unit, f: Unit, g: Unit, h: Unit)
    ensures Ids([a, b, c, d, e, f, g, h]) == [a.id, b.id, c.id, d.id, e.id, f.id, g.id, h.id]
  {
  }

  /** The field ids of an eight-field list. */
  lemma FieldIdsOfEight(a: FieldConfig, b: FieldConfig, c: FieldConfig, d: FieldConfig,
                        e: FieldConfig, f: FieldConfig, g: FieldConfig, h: FieldConfig)
    ensures FieldIds([a, b, c, d, e, f, g, h]) == [a.id, b.id, c.id, d.id, e.id, f.id, g.id, h.id]
  {
  }
}
