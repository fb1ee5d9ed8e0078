/** Values shared by the loader, the drawer and the configuration builder. */
module Common {

  /** Integer grid coordinate (GameCore.Vector2Int; Godot's Vector2I is the same value here). */
  datatype Vector2Int = Vector2Int(x: int, y: int)

  /** An unsigned 8-bit value, as C#'s `byte`. */
  newtype byte = x: int | 0 <= x < 256

  datatype Option<T> = None | Some(value: T)

  datatype Result<T, E> = Success(value: T) | Failure(error: E)

  datatype Outcome<E> = Pass | Fail(error: E)

  predicate Distinct<T(==)>(s: seq<T>)
  {
    forall i, j :: 0 <= i < j < |s| ==> s[i] != s[j]
  }

  /** A C# `Dictionary<K, V>` to which entries are only added or replaced:
      `keys` is its enumeration order (insertion order; replacing the value
      of a present key keeps that key's place), `entries` its contents. */
  datatype Dict<K, V> = Dict(keys: seq<K>, entries: map<K, V>)
  {
    ghost predicate Valid()
    {
      && Distinct(keys)
      && (forall k :: k in entries ==> k in keys)
      && (forall i :: 0 <= i < |keys| ==> keys[i] in entries)
    }

    /** `dictionary[k] = v`: afterwards `k` holds `v`, every other entry is as
        before, and the enumeration is the old one, extended by `k` when it
        was absent. */
    function Put(k: K, v: V): (d: Dict<K, V>)
      ensures d.entries.Keys == entries.Keys + {k} && d.entries[k] == v
      ensures forall j :: j in entries && j != k ==> d.entries[j] == entries[j]
      ensures |keys| <= |d.keys| && d.keys[..|keys|] == keys
      ensures |d.keys| == if k in entries then |keys| else |keys| + 1
      ensures k !in entries ==> d.keys[|keys|] == k
    {
      if k in entries then Dict(keys, entries[k := v]) else Dict(keys + [k], entries[k := v])
    }
  }

  function EmptyDict<K, V>(): (d: Dict<K, V>)
    ensures d.Valid() && d.entries == map[] && d.keys == []
  {
    Dict([], map[])
  }

  /** Assigning a key keeps the dictionary well formed, gives that key the new
      value, keeps every other entry and its enumeration position, and appends
      the key at the end of the enumeration exactly when it was absent. */
  lemma PutSpec<K, V>(d: Dict<K, V>, k: K, v: V)
    requires d.Valid()
    ensures d.Put(k, v).Valid()
    ensures d.Put(k, v).entries.Keys == d.entries.Keys + {k}
    ensures d.Put(k, v).entries[k] == v
    ensures forall j :: j in d.entries && j != k ==> d.Put(k, v).entries[j] == d.entries[j]
    ensures k in d.entries ==> d.Put(k, v).keys == d.keys
    ensures k !in d.entries ==> d.Put(k, v).keys == d.keys + [k]
  {
    var r := d.Put(k, v);
    if k !in d.entries {
      assert k !in d.keys;
      forall i, j | 0 <= i < j < |r.keys| ensures r.keys[i] != r.keys[j] {
        if j == |d.keys| {
          assert r.keys[i] == d.keys[i];
        }
      }
    }
  }

  /** A sequence without repeats has as many distinct elements as it is long. */
  lemma {:induction false} DistinctElements<T>(s: seq<T>)
    requires Distinct(s)
    ensures |set x | x in s| == |s|
    decreases |s|
  {
    if s != [] {
      var n := |s| - 1;
      var front := s[..n];
      assert Distinct(front) by {
        forall i, j | 0 <= i < j < |front| ensures front[i] != front[j] {
          assert front[i] == s[i] && front[j] == s[j];
        }
      }
      DistinctElements(front);
      assert s[n] !in front;
      assert (set x | x in s) == (set x | x in front) + {s[n]} by {
        assert s == front + [s[n]];
      }
    }
  }

  /** A well-formed dictionary has one entry per enumerated key (`Count`). */
  lemma DictSize<K, V>(d: Dict<K, V>)
    requires d.Valid()
    ensures |d.entries| == |d.keys|
  {
    assert d.entries.Keys == set x | x in d.keys;
    DistinctElements(d.keys);
  }
}
