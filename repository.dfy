/**
 * The generic in-memory repository (`BaseRepo<T>` in src/repositories/baseRepo.ts).
 *
 * Every stored record carries an integer identity and two timestamps; the rest
 * of the record is a map from field name to value. The repository keeps the
 * records in an ordered sequence (insertion order) and allocates identities
 * from a private counter by pre-increment, so an identity is never handed out
 * twice, even after the record holding it is deleted.
 */
module Repository {
  import opened Wrappers

  /** A clock reading, the source's `new Date()`, passed in by the caller. */
  type Time = int

  /** The field names the entity contract reserves for identity and timestamps. */
  const IdentityKeys: set<string> := {"id", "createdAt", "updatedAt"}

  /**
   * A payload for `create` or `update`: the record's own fields, which by the
   * source's `Omit<T, 'id' | 'createdAt' | 'updatedAt'>` type never name the
   * identity fields. (An untyped payload that does carry them would, through
   * the object spread, override them at run time; that case is not modelled.)
   */
  predicate IsPayload<V>(fields: map<string, V>) {
    IdentityKeys !! fields.Keys
  }

  /** A stored record: identity, timestamps and the caller-supplied fields. */
  datatype Entity<V> = Entity(id: int, createdAt: Time, updatedAt: Time, fields: map<string, V>)

  /** Some record in `s` has identity `id`. */
  predicate HasId<V>(s: seq<Entity<V>>, id: int) {
    exists i :: 0 <= i < |s| && s[i].id == id
  }

  /** No two records of `s` share an identity. */
  predicate IdsDistinct<V>(s: seq<Entity<V>>) {
    forall i, j :: 0 <= i < j < |s| ==> s[i].id != s[j].id
  }

  /**
   * The repository invariant: identities are pairwise distinct, each was
   * allocated by the counter (lies in 1..idCount), and no stored payload
   * names an identity field.
   */
  predicate Inv<V>(s: seq<Entity<V>>, idCount: int) {
    && IdsDistinct(s)
    && (forall i :: 0 <= i < |s| ==> 1 <= s[i].id <= idCount)
    && (forall i :: 0 <= i < |s| ==> IsPayload(s[i].fields))
  }

  /**
   * `Array.prototype.findIndex` with the predicate `i => i.id === id`:
   * the first index holding identity `id`, or -1 when there is none.
   */
  function FindIndex<V>(s: seq<Entity<V>>, id: int): (i: int)
    ensures -1 <= i < |s|
    ensures i == -1 <==> !HasId(s, id)
    ensures 0 <= i ==> s[i].id == id && forall j :: 0 <= j < i ==> s[j].id != id
  {
    if s == [] then -1
    else if s[0].id == id then 0
    else
      var k := FindIndex(s[1..], id);
      if k == -1 then
        assert forall j :: 1 <= j < |s| ==> s[j] == s[1..][j - 1];
        -1
      else
        assert s[k + 1] == s[1..][k];
        assert forall j :: 1 <= j < k + 1 ==> s[j] == s[1..][j - 1];
        k + 1
  }

  /**
   * `Array.prototype.find(i => i.id === id) || null`: the first record with
   * identity `id`, or None.
   */
  function Find<V>(s: seq<Entity<V>>, id: int): (r: Option<Entity<V>>)
    ensures r.None? <==> !HasId(s, id)
    ensures r.Some? ==> r.value.id == id
    ensures r.Some? ==> exists i :: 0 <= i < |s| && s[i] == r.value && forall j :: 0 <= j < i ==> s[j].id != id
  {
    var i := FindIndex(s, id);
    if i == -1 then None else Some(s[i])
  }

  /**
   * Where `Array.prototype.splice(start, 1)` starts, for an array of length
   * `len`: a negative start counts back from the end (clamped at 0), a start
   * past the end is clamped to the end.
   */
  function SpliceStart(len: nat, start: int): (k: nat)
    ensures k <= len
    ensures 0 <= start < len ==> k == start
    ensures -(len as int) <= start < 0 ==> k == len + start
    ensures start < -(len as int) ==> k == 0
    ensures start >= len ==> k == len
  {
    if start < 0 then (if len + start < 0 then 0 else len + start)
    else if start > len then len
    else start
  }

  /** `Array.prototype.splice(start, 1)`: removes the element at the clamped start, if any. */
  function SpliceOne<T>(s: seq<T>, start: int): (r: seq<T>)
    ensures var k := SpliceStart(|s|, start);
      && |r| == (if k < |s| then |s| - 1 else |s|)
      && (forall i :: 0 <= i < k && i < |r| ==> r[i] == s[i])
      && (forall i :: k <= i < |r| ==> r[i] == s[i + 1])
  {
    var k := SpliceStart(|s|, start);
    if k < |s| then s[..k] + s[k + 1..] else s
  }

  /**
   * The record `update` stores: the old record spread, then the update data,
   * then a fresh `updatedAt`. Identity and creation time are kept, every
   * supplied field overrides the old one, every other old field is kept.
   */
  function Merged<V>(e: Entity<V>, data: map<string, V>, now: Time): (u: Entity<V>)
    ensures u.id == e.id && u.createdAt == e.createdAt && u.updatedAt == now
    ensures u.fields.Keys == e.fields.Keys + data.Keys
    ensures forall k :: k in data ==> u.fields[k] == data[k]
    ensures forall k :: k in e.fields && k !in data ==> u.fields[k] == e.fields[k]
  {
    Entity(e.id, e.createdAt, now, e.fields + data)
  }

  /** With distinct identities, looking up the identity of any stored record finds that record. */
  lemma FindStored<V>(s: seq<Entity<V>>, k: int)
    requires IdsDistinct(s) && 0 <= k < |s|
    ensures Find(s, s[k].id) == Some(s[k])
  {
  }

  /** Appending a record with the next identity keeps the invariant and makes the record findable. */
  lemma AppendKeepsInv<V>(s: seq<Entity<V>>, idCount: int, e: Entity<V>)
    requires Inv(s, idCount) && e.id == idCount + 1 && 0 <= idCount && IsPayload(e.fields)
    ensures Inv(s + [e], idCount + 1)
    ensures !HasId(s, e.id)
    ensures Find(s + [e], e.id) == Some(e)
  {
    FindStored(s + [e], |s|);
  }

  /** Replacing a record by one with the same identity keeps the invariant. */
  lemma ReplaceKeepsInv<V>(s: seq<Entity<V>>, idCount: int, i: int, e: Entity<V>)
    requires Inv(s, idCount) && 0 <= i < |s| && e.id == s[i].id && IsPayload(e.fields)
    ensures Inv(s[i := e], idCount)
  {
  }

  /** Removing one record keeps the invariant. */
  lemma RemoveKeepsInv<V>(s: seq<Entity<V>>, idCount: int, k: int)
    requires Inv(s, idCount) && 0 <= k < |s|
    ensures Inv(s[..k] + s[k + 1..], idCount)
  {
    var r := s[..k] + s[k + 1..];
    assert forall j :: 0 <= j < |r| ==> r[j] == s[if j < k then j else j + 1];
  }

  /** `SpliceOne` keeps the invariant wherever it starts. */
  lemma SpliceKeepsInv<V>(s: seq<Entity<V>>, idCount: int, start: int)
    requires Inv(s, idCount)
    ensures Inv(SpliceOne(s, start), idCount)
  {
    var k := SpliceStart(|s|, start);
    if k < |s| {
      RemoveKeepsInv(s, idCount, k);
    }
  }

  /**
   * `delete` of a stored identity removes exactly that record: the others stay,
   * in their relative order, and the identity can no longer be found.
   */
  lemma DeletePresentRemovesIt<V>(s: seq<Entity<V>>, id: int)
    requires IdsDistinct(s) && HasId(s, id)
    ensures var r := SpliceOne(s, FindIndex(s, id));
      && |r| == |s| - 1
      && (exists i :: 0 <= i < |s| && s[i].id == id && r == s[..i] + s[i + 1..])
      && !HasId(r, id)
      && forall j :: 0 <= j < |s| && s[j].id != id ==> s[j] in r
  {
    var i := FindIndex(s, id);
    var r := SpliceOne(s, i);
    assert r == s[..i] + s[i + 1..];
    assert forall j :: 0 <= j < |r| ==> r[j] == s[if j < i then j else j + 1];
    forall j | 0 <= j < |s| && s[j].id != id
      ensures s[j] in r
    {
      if j < i {
        assert r[j] == s[j];
      } else {
        assert j > i;
        assert r[j - 1] == s[j];
      }
    }
  }

  /**
   * As written, `delete` of an identity that is not stored splices at index -1,
   * which removes the LAST record of a non-empty repository (and still
   * reports success).
   */
  lemma DeleteAbsentDropsLast<V>(s: seq<Entity<V>>, id: int)
    requires s != [] && !HasId(s, id)
    ensures SpliceOne(s, FindIndex(s, id)) == s[..|s| - 1]
    ensures SpliceOne(s, FindIndex(s, id)) != s
  {
    assert |SpliceOne(s, FindIndex(s, id))| == |s| - 1;
  }

  /** A concrete instance: deleting absent identity 7 from records 1 and 2 loses record 2. */
  lemma DeleteAbsentExample()
    ensures var s: seq<Entity<int>> := [Entity(1, 0, 0, map[]), Entity(2, 0, 0, map[])];
      && !HasId(s, 7)
      && SpliceOne(s, FindIndex(s, 7)) == [Entity(1, 0, 0, map[])]
  {
    var s: seq<Entity<int>> := [Entity(1, 0, 0, map[]), Entity(2, 0, 0, map[])];
    DeleteAbsentDropsLast(s, 7);
  }

  /** An empty update only refreshes `updatedAt`; identity, creation time and fields stay. */
  lemma EmptyUpdateOnlyTouchesUpdatedAt<V>(e: Entity<V>, now: Time)
    ensures Merged(e, map[], now) == e.(updatedAt := now)
  {
    assert e.fields + map[] == e.fields;
  }

  /**
   * The repository object. `items` is public in the source (the service reads
   * it directly); `idCount` is the protected counter behind `generateId`.
   */
  class BaseRepo<V> {
    var items: seq<Entity<V>>
    var idCount: int

    ghost predicate Valid()
      reads this
    {
      0 <= idCount && Inv(items, idCount)
    }

    /** A fresh repository: no records, counter at 0. */
    constructor ()
      ensures Valid() && items == [] && idCount == 0
    {
      items := [];
      idCount := 0;
    }

    /** `generateId`: pre-increments the counter and returns its new value. */
    method GenerateId() returns (id: int)
      modifies this`idCount
      ensures idCount == old(idCount) + 1 && id == idCount
    {
      idCount := idCount + 1;
      id := idCount;
    }

    /**
     * `create`: allocates the next identity, stamps both timestamps with `now`,
     * appends the record at the end and returns it. The identity is larger
     * than every identity handed out before, so it is stored nowhere else.
     */
    method Create(item: map<string, V>, now: Time) returns (e: Entity<V>)
      requires Valid() && IsPayload(item)
      modifies this
      ensures Valid()
      ensures e == Entity(old(idCount) + 1, now, now, item)
      ensures idCount == old(idCount) + 1
      ensures items == old(items) + [e]
      ensures forall j :: 0 <= j < |old(items)| ==> old(items)[j].id < e.id
      ensures Find(items, e.id) == Some(e)
    {
      var id := GenerateId();
      e := Entity(id, now, now, item);
      AppendKeepsInv(items, idCount - 1, e);
      items := items + [e];
    }

    /** `getAll`: every record, in insertion order. */
    method GetAll() returns (all: seq<Entity<V>>)
      ensures all == items
    {
      all := items;
    }

    /** The `findIndex` scan that `update` and `delete` start with. */
    method FindIndexOf(id: int) returns (index: int)
      ensures index == FindIndex(items, id)
    {
      index := 0;
      while index < |items|
        invariant 0 <= index <= |items|
        invariant forall j :: 0 <= j < index ==> items[j].id != id
      {
        if items[index].id == id {
          return;
        }
        index := index + 1;
      }
      index := -1;
    }

    /** `getById`: the first record with identity `id`, or None. */
    method GetById(id: int) returns (r: Option<Entity<V>>)
      ensures r.None? <==> !HasId(items, id)
      ensures r.Some? ==> r.value.id == id && r == Find(items, id)
    {
      var index := FindIndexOf(id);
      r := if index == -1 then None else Some(items[index]);
    }

    /**
     * `update`: when no record has identity `id`, returns None and changes
     * nothing; otherwise replaces that record, and only that one, by the
     * merge of the old record and `data` with `updatedAt` set to `now`.
     */
    method Update(id: int, data: map<string, V>, now: Time) returns (r: Option<Entity<V>>)
      requires Valid() && IsPayload(data)
      modifies this
      ensures Valid() && idCount == old(idCount)
      ensures r.None? <==> !HasId(old(items), id)
      ensures r.None? ==> items == old(items)
      ensures r.Some? ==>
        var i := FindIndex(old(items), id);
        && r.value == Merged(old(items)[i], data, now)
        && items == old(items)[i := r.value]
    {
      var index := FindIndexOf(id);
      if index == -1 {
        return None;
      }
      var updated := Merged(items[index], data, now);
      ReplaceKeepsInv(items, idCount, index, updated);
      items := items[index := updated];
      r := Some(updated);
    }

    /**
     * `delete` as written: splices at whatever `findIndex` returned (-1 when
     * the identity is absent) and always reports true. See
     * DeletePresentRemovesIt and DeleteAbsentDropsLast for what that does.
     */
    method Delete(id: int) returns (deleted: bool)
      requires Valid()
      modifies this
      ensures Valid() && idCount == old(idCount)
      ensures deleted
      ensures items == SpliceOne(old(items), FindIndex(old(items), id))
    {
      var index := FindIndexOf(id);
      SpliceKeepsInv(items, idCount, index);
      items := SpliceOne(items, index);
      deleted := true;
    }

    /**
     * `delete` with an existence check: an absent
     * identity reports false and leaves the records alone; a present one is
     * removed, the others keep their order, and the result is true.
     */
    method DeleteChecked(id: int) returns (deleted: bool)
      requires Valid()
      modifies this
      ensures Valid() && idCount == old(idCount)
      ensures deleted <==> HasId(old(items), id)
      ensures !deleted ==> items == old(items)
      ensures deleted ==>
        && |items| == |old(items)| - 1
        && !HasId(items, id)
        && exists i :: 0 <= i < |old(items)| && old(items)[i].id == id && items == old(items)[..i] + old(items)[i + 1..]
    {
      var index := FindIndexOf(id);
      if index == -1 {
        return false;
      }
      DeletePresentRemovesIt(items, id);
      SpliceKeepsInv(items, idCount, index);
      items := SpliceOne(items, index);
      deleted := true;
    }
  }
}
