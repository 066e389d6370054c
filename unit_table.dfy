/**
 * The `Map<string, Unit>` both converters build with
 * `new Map(units.map(unit => [unit.id, unit]))`: entries in insertion order, where a
 * repeated id overwrites the earlier value but keeps the earlier position.
 */
module UnitTable {
  import opened Wrappers
  import opened Units

  /** The keys of a table, in insertion order. */
  function Ids(entries: seq<Unit>): (ids: seq<string>)
    ensures |ids| == |entries|
    ensures forall i :: 0 <= i < |entries| ==> ids[i] == entries[i].id
  {
    if entries == [] then [] else [entries[0].id] + Ids(entries[1..])
  }

  /** `Map.prototype.get`. */
  function Get(entries: seq<Unit>, id: string): (r: Option<Unit>)
    ensures r.Some? <==> id in Ids(entries)
    ensures r.Some? ==> r.value.id == id && r.value in entries
  {
    if entries == [] then None
    else if entries[0].id == id then Some(entries[0])
    else
      var r := Get(entries[1..], id);
      assert Ids(entries) == [entries[0].id] + Ids(entries[1..]);
      r
  }

  /** In a table with distinct keys, each entry is found under its own id. */
  lemma {:induction false} GetAt(entries: seq<Unit>, i: nat)
    requires UniqueIds(entries) && i < |entries|
    ensures Get(entries, entries[i].id) == Some(entries[i])
  {
    if i > 0 {
      assert entries[0].id != entries[i].id;
      assert entries[1..][i - 1] == entries[i];
      GetAt(entries[1..], i - 1);
    }
  }

  /** In a table with distinct keys, every entry is what `Get` returns for its id. */
  lemma EveryEntryFound(entries: seq<Unit>)
    ensures UniqueIds(entries) ==> forall i :: 0 <= i < |entries| ==> Get(entries, entries[i].id) == Some(entries[i])
  {
    if UniqueIds(entries) {
      forall i | 0 <= i < |entries|
        ensures Get(entries, entries[i].id) == Some(entries[i])
      {
        GetAt(entries, i);
      }
    }
  }

  /**
   * `Map.prototype.set`: overwrite the value stored under `u.id` where it stands,
   * or append a new entry when the key is new.
   */
  function Set(entries: seq<Unit>, u: Unit): (r: seq<Unit>)
    ensures u.id !in Ids(entries) ==> r == entries + [u]
    ensures u.id in Ids(entries) ==> Ids(r) == Ids(entries)
    ensures forall i :: 0 <= i < |r| ==> r[i] == u || r[i] in entries
  {
    if entries == [] then [u]
    else if entries[0].id == u.id then
      var r := [u] + entries[1..];
      assert r[1..] == entries[1..];
      r
    else
      var rest := Set(entries[1..], u);
      var r := [entries[0]] + rest;
      assert r[1..] == rest;
      assert Ids(entries) == [entries[0].id] + Ids(entries[1..]);
      assert Ids(r) == [entries[0].id] + Ids(rest);
      assert u.id !in Ids(entries) ==> entries == [entries[0]] + entries[1..];
      r
  }

  /** After `set`, the new key holds the new unit and every other key what it held before. */
  lemma {:induction false} GetAfterSet(entries: seq<Unit>, u: Unit, id: string)
    ensures Get(Set(entries, u), id) == if id == u.id then Some(u) else Get(entries, id)
  {
    if entries != [] && entries[0].id != u.id {
      var rest := Set(entries[1..], u);
      assert Set(entries, u)[1..] == rest;
      GetAfterSet(entries[1..], u, id);
    }
  }

  /** Reference definition: the last unit of `us` with the given id. */
  function LastWithId(us: seq<Unit>, id: string): (r: Option<Unit>)
    ensures r.Some? <==> exists i :: 0 <= i < |us| && us[i].id == id
    ensures r.Some? ==> r.value.id == id && r.value in us
  {
    if us == [] then None
    else if us[|us| - 1].id == id then Some(us[|us| - 1])
    else
      var prefix := us[..|us| - 1];
      var r := LastWithId(prefix, id);
      assert forall i :: 0 <= i < |prefix| ==> prefix[i] == us[i];
      r
  }

  /**
   * The table built from a list: it has distinct keys, and looking an id up gives
   * the last unit of the list carrying that id.
   */
  function FromList(us: seq<Unit>): (entries: seq<Unit>)
    ensures UniqueIds(entries)
    ensures forall id :: Get(entries, id) == LastWithId(us, id)
    ensures forall i :: 0 <= i < |entries| ==> entries[i] in us
  {
    if us == [] then []
    else
      var prefix := FromList(us[..|us| - 1]);
      var u := us[|us| - 1];
      var r := Set(prefix, u);
      SetKeepsUnique(prefix, u);
      assert forall i :: 0 <= i < |r| ==> r[i] in us by {
        assert forall w :: w in us[..|us| - 1] ==> w in us;
      }
      forall id ensures Get(r, id) == LastWithId(us, id) {
        GetAfterSet(prefix, u, id);
      }
      r
  }

  lemma SetKeepsUnique(entries: seq<Unit>, u: Unit)
    requires UniqueIds(entries)
    ensures UniqueIds(Set(entries, u))
  {
    var r := Set(entries, u);
    if u.id in Ids(entries) {
      assert forall i :: 0 <= i < |r| ==> r[i].id == Ids(r)[i] == Ids(entries)[i] == entries[i].id;
    }
  }

  /** A list whose ids are already distinct becomes a table holding exactly that list, in order. */
  lemma {:induction false} FromDistinctList(us: seq<Unit>)
    requires UniqueIds(us)
    ensures FromList(us) == us
  {
    if us != [] {
      var prefix := us[..|us| - 1];
      var u := us[|us| - 1];
      LastIsNew(us);
      FromDistinctList(prefix);
      calc {
        FromList(us);
        Set(FromList(prefix), u);
        Set(prefix, u);
        prefix + [u];
        us;
      }
    }
  }

  /** In a list with distinct ids, the last id is new to the rest, whose ids stay distinct. */
  lemma LastIsNew(us: seq<Unit>)
    requires UniqueIds(us) && us != []
    ensures UniqueIds(us[..|us| - 1])
    ensures us[|us| - 1].id !in Ids(us[..|us| - 1])
  {
    var prefix := us[..|us| - 1];
    forall i | 0 <= i < |prefix|
      ensures Ids(prefix)[i] != us[|us| - 1].id
    {
      assert prefix[i] == us[i];
    }
  }
}
