/** The keyed collection the store keeps for environment variables and for
    persistent-volume bindings: a list of surrogate ids that gives the editing
    order, and a dictionary from id to record. The ids only give list items a
    stable identity while they are edited; they are never compared for
    business equality. */
module KeyedCollections {

  /** A surrogate id as `uuidv4()` produces it. */
  type Key = string

  /** No id occurs twice in the list. */
  predicate Distinct(keys: seq<Key>)
  {
    forall i, j | 0 <= i < j < |keys| :: keys[i] != keys[j]
  }

  /** The collection's invariant: distinct ids, and they are exactly the
      dictionary's domain. */
  predicate Consistent<T>(keys: seq<Key>, records: map<Key, T>)
  {
    && Distinct(keys)
    && (forall k | k in keys :: k in records)
    && (forall k | k in records :: k in keys)
  }

  /** The records in id order with the ids dropped: `keys.map(key => map[key])`. */
  function Flatten<T>(keys: seq<Key>, records: map<Key, T>): seq<T>
    requires forall k | k in keys :: k in records
  {
    seq(|keys|, i requires 0 <= i < |keys| => records[keys[i]])
  }

  /** `keys.filter((k) => k !== key)` */
  function Without(keys: seq<Key>, key: Key): seq<Key>
  {
    if keys == [] then []
    else if keys[0] == key then Without(keys[1..], key)
    else [keys[0]] + Without(keys[1..], key)
  }

  /** The dictionary the reset loop builds: one entry per id, assigned in list
      order (`map[z] = record` for each item of the snapshot). */
  function SeedRecords<T>(ids: seq<Key>, items: seq<T>): map<Key, T>
    requires |ids| == |items|
  {
    if ids == [] then map[]
    else SeedRecords(ids[..|ids| - 1], items[..|items| - 1])[ids[|ids| - 1] := items[|items| - 1]]
  }

  /** The filter keeps exactly the other ids. */
  lemma {:induction false} WithoutMembers(keys: seq<Key>, key: Key)
    ensures forall x :: x in Without(keys, key) <==> x in keys && x != key
    decreases |keys|
  {
    if keys != [] {
      WithoutMembers(keys[1..], key);
    }
  }

  /** Filtering an id that is not in the list leaves the list as it is. */
  lemma {:induction false} WithoutAbsent(keys: seq<Key>, key: Key)
    requires key !in keys
    ensures Without(keys, key) == keys
    decreases |keys|
  {
    if keys != [] {
      WithoutAbsent(keys[1..], key);
      assert keys == [keys[0]] + keys[1..];
    }
  }

  /** Filtering the id at position `i` of a list of distinct ids removes that
      one position and keeps the relative order of all the others. */
  lemma {:induction false} WithoutAt(keys: seq<Key>, i: nat)
    requires Distinct(keys) && i < |keys|
    ensures Without(keys, keys[i]) == keys[..i] + keys[i + 1..]
    decreases |keys|
  {
    if i == 0 {
      assert keys[0] !in keys[1..];
      WithoutAbsent(keys[1..], keys[0]);
    } else {
      assert keys[1..][i - 1] == keys[i];
      WithoutAt(keys[1..], i - 1);
      assert keys[1..][..i - 1] == keys[1..i];
      assert keys[1..][i..] == keys[i + 1..];
      assert [keys[0]] + keys[1..i] == keys[..i];
    }
  }

  /** The dictionary built by the reset loop holds record `i` under id `i`. */
  lemma {:induction false} SeedRecordsAt<T>(ids: seq<Key>, items: seq<T>)
    requires |ids| == |items| && Distinct(ids)
    ensures forall k :: k in SeedRecords(ids, items) <==> k in ids
    ensures forall i | 0 <= i < |ids| :: SeedRecords(ids, items)[ids[i]] == items[i]
    decreases |ids|
  {
    if ids != [] {
      var n := |ids| - 1;
      SeedRecordsAt(ids[..n], items[..n]);
      forall i | 0 <= i < n
        ensures ids[i] != ids[n] && ids[..n][i] == ids[i] && items[..n][i] == items[i]
      {
      }
      assert forall k :: k in ids <==> k in ids[..n] || k == ids[n] by {
        assert ids == ids[..n] + [ids[n]];
      }
    }
  }

  /** Seeding from a snapshot list gives a consistent collection whose
      flattening is that list again. */
  lemma SeedRoundTrip<T>(ids: seq<Key>, items: seq<T>)
    requires |ids| == |items| && Distinct(ids)
    ensures Consistent(ids, SeedRecords(ids, items))
    ensures Flatten(ids, SeedRecords(ids, items)) == items
  {
    SeedRecordsAt(ids, items);
  }

  /** Appending a fresh id keeps the invariant and appends its record to the
      flattening. */
  lemma AppendFresh<T>(keys: seq<Key>, records: map<Key, T>, key: Key, record: T)
    requires Consistent(keys, records) && key !in records
    ensures Consistent(keys + [key], records[key := record])
    ensures Flatten(keys + [key], records[key := record]) == Flatten(keys, records) + [record]
  {
  }

  /** Filtering keeps the ids distinct. */
  lemma {:induction false} WithoutDistinct(keys: seq<Key>, key: Key)
    requires Distinct(keys)
    ensures Distinct(Without(keys, key))
    decreases |keys|
  {
    if keys != [] {
      WithoutDistinct(keys[1..], key);
      WithoutMembers(keys[1..], key);
      assert keys[0] !in keys[1..];
    }
  }

  /** Removing an id keeps the invariant, and removing an absent id changes
      nothing. */
  lemma Remove<T>(keys: seq<Key>, records: map<Key, T>, key: Key)
    requires Consistent(keys, records)
    ensures Consistent(Without(keys, key), records - {key})
    ensures key !in keys ==> Without(keys, key) == keys && records - {key} == records
  {
    WithoutMembers(keys, key);
    WithoutDistinct(keys, key);
    if key !in keys {
      WithoutAbsent(keys, key);
      assert records - {key} == records;
    }
  }

  /** Removing the id at position `i` takes exactly that record out of the
      flattening and keeps the order of the others. */
  lemma RemoveAt<T>(keys: seq<Key>, records: map<Key, T>, i: nat)
    requires Consistent(keys, records) && i < |keys|
    ensures Without(keys, keys[i]) == keys[..i] + keys[i + 1..]
    ensures forall k | k in Without(keys, keys[i]) :: k in records - {keys[i]}
    ensures Flatten(Without(keys, keys[i]), records - {keys[i]}) == Flatten(keys, records)[..i] + Flatten(keys, records)[i + 1..]
  {
    WithoutAt(keys, i);
    WithoutMembers(keys, keys[i]);
    var rest := keys[..i] + keys[i + 1..];
    var flat := Flatten(keys, records);
    var flatRest := Flatten(rest, records - {keys[i]});
    forall j | 0 <= j < |rest| ensures flatRest[j] == (flat[..i] + flat[i + 1..])[j] {
      if j < i {
        assert rest[j] == keys[j];
      } else {
        assert rest[j] == keys[j + 1];
      }
    }
  }

  /** Replacing the record under a present id keeps the invariant and changes
      the flattening at that id's position only. */
  lemma Replace<T>(keys: seq<Key>, records: map<Key, T>, key: Key, record: T)
    requires Consistent(keys, records) && key in records
    ensures Consistent(keys, records[key := record])
    ensures forall i | 0 <= i < |keys| && keys[i] == key ::
      Flatten(keys, records[key := record]) == Flatten(keys, records)[i := record]
  {
  }

  /** An ordered collection with stable surrogate ids: `{ keys: [], map: {} }`
      in the store. The JavaScript field `map` is called `records` here. */
  class KeyedCollection<T> {
    var keys: seq<Key>
    var records: map<Key, T>

    ghost predicate Valid()
      reads this
    {
      Consistent(keys, records)
    }

    /** The records in editing order, ids dropped. */
    function Values(): seq<T>
      reads this
      requires Valid()
    {
      Flatten(keys, records)
    }

    constructor ()
      ensures Valid() && keys == [] && records == map[]
    {
      keys := [];
      records := map[];
    }

    /** `keys.push(key); map[key] = record` for a fresh id. */
    method Add(key: Key, record: T)
      requires Valid() && key !in records
      modifies this
      ensures Valid()
      ensures keys == old(keys) + [key] && records == old(records)[key := record]
      ensures Values() == old(Values()) + [record]
    {
      AppendFresh(keys, records, key, record);
      keys := keys + [key];
      records := records[key := record];
    }

    /** `keys = keys.filter((k) => k !== key); delete map[key]`: removes the id
      if present, and is a no-op otherwise. */
    method Delete(key: Key)
      requires Valid()
      modifies this
      ensures Valid()
      ensures keys == Without(old(keys), key) && records == old(records) - {key}
      ensures key !in old(records) ==> keys == old(keys) && records == old(records)
      ensures key in old(records) ==> |keys| == |old(keys)| - 1
      ensures forall i | 0 <= i < |old(keys)| && old(keys)[i] == key ::
        Values() == old(Values())[..i] + old(Values())[i + 1..]
    {
      Remove(keys, records, key);
      forall i | 0 <= i < |keys| && keys[i] == key
        ensures Flatten(Without(keys, key), records - {key}) == Values()[..i] + Values()[i + 1..]
      {
        RemoveAt(keys, records, i);
      }
      if key in records {
        ghost var i :| 0 <= i < |keys| && keys[i] == key;
        WithoutAt(keys, i);
      }
      keys := Without(keys, key);
      records := records - {key};
    }

    /** The record under a present id replaced (a field assignment
      `map[key].field = value` in the store). */
    method Set(key: Key, record: T)
      requires Valid() && key in records
      modifies this
      ensures Valid()
      ensures keys == old(keys) && records == old(records)[key := record]
      ensures forall i | 0 <= i < |keys| && keys[i] == key :: Values() == old(Values())[i := record]
    {
      Replace(keys, records, key, record);
      records := records[key := record];
    }
  }
}
