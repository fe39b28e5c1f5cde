/**
 A JavaScript `Map<string, V>`: a dictionary that remembers insertion order.
 `set` on a present key replaces the value in place, `set` on a new key appends
 it, `delete` removes it, and `values()` lists the values in key order.
 */
module JsMaps {
  import opened JsCore
  import Seqs

  predicate Distinct(keys: seq<Id>)
  {
    forall i, j :: 0 <= i < j < |keys| ==> keys[i] != keys[j]
  }

  datatype JsMap<V> = JsMap(keys: seq<Id>, entries: map<Id, V>)
  {
    /** The order list names every entry exactly once. */
    ghost predicate Valid()
    {
      Distinct(keys) && forall k :: k in entries <==> k in keys
    }

    /** `Map.get`: the stored value, or nothing. */
    function Get(k: Id): (r: Option<V>)
      ensures r.Some? <==> k in entries
      ensures r.Some? ==> r.value == entries[k]
    {
      if k in entries then Some(entries[k]) else None
    }

    /** `Map.set`: a present key keeps its position, a new key goes last. */
    function Set(k: Id, v: V): (m: JsMap<V>)
      requires Valid()
      ensures m.Valid()
      ensures m.entries == entries[k := v]
      ensures m.keys == if k in entries then keys else keys + [k]
    {
      if k in entries then JsMap(keys, entries[k := v]) else JsMap(keys + [k], entries[k := v])
    }

    /** Deletes every key of `doomed`, keeping the order of the others. */
    function RemoveKeys(doomed: set<Id>): (m: JsMap<V>)
      requires Valid()
      ensures m.Valid()
      ensures m.entries == entries - doomed
      ensures m.keys == Without(keys, doomed)
    {
      JsMap(Without(keys, doomed), entries - doomed)
    }

    /** `Map.delete`; deleting an absent key changes nothing. */
    function Delete(k: Id): (m: JsMap<V>)
      requires Valid()
      ensures m.Valid()
      ensures m.entries == entries - {k}
      ensures m.keys == Without(keys, {k})
    {
      RemoveKeys({k})
    }

    /** `Array.from(map.values())`. */
    function Values(): (vs: seq<V>)
      requires Valid()
      ensures |vs| == |keys|
      ensures forall i :: 0 <= i < |keys| ==> vs[i] == entries[keys[i]]
    {
      ValuesOf(keys, entries)
    }
  }

  function Empty<V>(): (m: JsMap<V>)
    ensures m.Valid() && m.entries == map[] && m.Values() == []
  {
    JsMap([], map[])
  }

  /** The keys not in `doomed`, in their original order. */
  function Without(keys: seq<Id>, doomed: set<Id>): (r: seq<Id>)
    ensures forall k :: k in r <==> k in keys && k !in doomed
    ensures Distinct(keys) ==> Distinct(r)
  {
    if keys == [] then []
    else if keys[0] in doomed then Without(keys[1..], doomed)
    else [keys[0]] + Without(keys[1..], doomed)
  }

  /** The test `Without` applies to each key. */
  function Kept(doomed: set<Id>): Id -> bool
  {
    k => k !in doomed
  }

  /** `Without` is `Array.prototype.filter` over the key order. */
  lemma {:induction false} WithoutIsFilter(keys: seq<Id>, doomed: set<Id>)
    ensures Without(keys, doomed) == Seqs.Filter(keys, Kept(doomed))
  {
    if keys != [] {
      WithoutIsFilter(keys[1..], doomed);
    }
  }

  lemma {:induction false} WithoutAbsent(keys: seq<Id>, doomed: set<Id>)
    requires forall k :: k in keys ==> k !in doomed
    ensures Without(keys, doomed) == keys
  {
    if keys != [] {
      assert keys[0] in keys;
      WithoutAbsent(keys[1..], doomed);
      assert [keys[0]] + keys[1..] == keys;
    }
  }

  /** Deleting an absent key leaves the map as it was. */
  lemma DeleteAbsent<V>(m: JsMap<V>, k: Id)
    requires m.Valid() && k !in m.entries
    ensures m.Delete(k) == m
  {
    WithoutAbsent(m.keys, {k});
  }

  /** Removing in two rounds is removing the union at once. */
  lemma {:induction false} WithoutWithout(keys: seq<Id>, first: set<Id>, second: set<Id>)
    ensures Without(Without(keys, first), second) == Without(keys, first + second)
  {
    if keys != [] {
      WithoutWithout(keys[1..], first, second);
      if keys[0] !in first {
        assert Without(keys, first)[0] == keys[0];
        assert Without(keys, first)[1..] == Without(keys[1..], first);
      }
    }
  }

  function ValuesOf<V>(keys: seq<Id>, entries: map<Id, V>): (vs: seq<V>)
    requires forall k :: k in keys ==> k in entries
    ensures |vs| == |keys|
    ensures forall i :: 0 <= i < |keys| ==> vs[i] == entries[keys[i]]
  {
    if keys == [] then [] else [entries[keys[0]]] + ValuesOf(keys[1..], entries)
  }

  /** Setting a new key appends its value to the listing. */
  lemma SetNewValues<V>(m: JsMap<V>, k: Id, v: V)
    requires m.Valid() && k !in m.entries
    ensures m.Set(k, v).Values() == m.Values() + [v]
  {
    var r := m.Set(k, v).Values();
    forall i | 0 <= i < |m.keys|
      ensures r[i] == m.Values()[i]
    {
      assert m.keys[i] != k;
    }
  }

  /**
   Removing exactly the keys whose values fail `keep` lists the values that
   `filter(keep)` would list.
   */
  lemma {:induction false} ValuesOfWithout<V(!new)>(keys: seq<Id>, entries: map<Id, V>, doomed: set<Id>, keep: V -> bool)
    requires forall k :: k in keys ==> k in entries
    requires forall k :: k in keys ==> (k in doomed <==> !keep(entries[k]))
    ensures ValuesOf(Without(keys, doomed), entries - doomed) == Seqs.Filter(ValuesOf(keys, entries), keep)
  {
    if keys != [] {
      assert keys[0] in keys;
      var vs := ValuesOf(keys, entries);
      assert vs[0] == entries[keys[0]];
      assert vs[1..] == ValuesOf(keys[1..], entries);
      ValuesOfWithout(keys[1..], entries, doomed, keep);
    }
  }

  lemma RemoveKeysValues<V(!new)>(m: JsMap<V>, doomed: set<Id>, keep: V -> bool)
    requires m.Valid()
    requires forall k :: k in m.entries ==> (k in doomed <==> !keep(m.entries[k]))
    ensures m.RemoveKeys(doomed).Values() == Seqs.Filter(m.Values(), keep)
  {
    ValuesOfWithout(m.keys, m.entries, doomed, keep);
  }

  /** `vs.forEach(v => map.set(key(v), v))`. */
  function PutAll<V>(m: JsMap<V>, vs: seq<V>, key: V -> Id): (r: JsMap<V>)
    requires m.Valid()
    ensures r.Valid()
  {
    if vs == [] then m else PutAll(m, vs[..|vs| - 1], key).Set(key(vs[|vs| - 1]), vs[|vs| - 1])
  }

  function KeysOf<V>(vs: seq<V>, key: V -> Id): (ks: seq<Id>)
    ensures |ks| == |vs|
    ensures forall i :: 0 <= i < |vs| ==> ks[i] == key(vs[i])
  {
    seq(|vs|, i requires 0 <= i < |vs| => key(vs[i]))
  }

  lemma SplitLast<T>(s: seq<T>)
    requires s != []
    ensures s == s[..|s| - 1] + [s[|s| - 1]]
  {
  }

  lemma AppendStep<V>(m: JsMap<V>, before: JsMap<V>, ks: seq<Id>, vs: seq<V>, k: Id, v: V)
    requires m.Valid() && before.Valid() && k !in before.entries
    requires before.keys == m.keys + ks && before.Values() == m.Values() + vs
    ensures before.Set(k, v).keys == m.keys + (ks + [k])
    ensures before.Set(k, v).Values() == m.Values() + (vs + [v])
  {
    SetNewValues(before, k, v);
    Seqs.AppendAssociative(m.keys, ks, [k]);
    Seqs.AppendAssociative(m.Values(), vs, [v]);
  }

  /** Putting values under fresh, distinct keys appends them to the listing, in order. */
  lemma {:induction false} PutAllFresh<V>(m: JsMap<V>, vs: seq<V>, key: V -> Id)
    requires m.Valid()
    requires Distinct(KeysOf(vs, key))
    requires forall i :: 0 <= i < |vs| ==> key(vs[i]) !in m.entries
    ensures PutAll(m, vs, key).keys == m.keys + KeysOf(vs, key)
    ensures PutAll(m, vs, key).Values() == m.Values() + vs
  {
    if vs != [] {
      var n := |vs| - 1;
      var init, k := vs[..n], key(vs[n]);
      var ks := KeysOf(vs, key);
      assert KeysOf(init, key) == ks[..n];
      PutAllFresh(m, init, key);
      var before := PutAll(m, init, key);
      assert k !in ks[..n] by {
        forall i | 0 <= i < n
          ensures ks[i] != k
        {
          assert ks[n] == k;
        }
      }
      assert k !in m.keys;
      assert k !in before.entries;
      SplitLast(ks);
      SplitLast(vs);
      assert PutAll(m, vs, key) == before.Set(k, vs[n]);
      AppendStep(m, before, ks[..n], init, k, vs[n]);
    }
  }

  /** What `PutAll` stores under each key when the keys it puts are distinct. */
  lemma {:induction false} PutAllEntries<V>(m: JsMap<V>, vs: seq<V>, key: V -> Id)
    requires m.Valid()
    requires Distinct(KeysOf(vs, key))
    ensures forall k :: k in PutAll(m, vs, key).entries <==> k in m.entries || k in KeysOf(vs, key)
    ensures forall k :: k in m.entries && k !in KeysOf(vs, key) ==> PutAll(m, vs, key).entries[k] == m.entries[k]
    ensures forall i :: 0 <= i < |vs| ==> PutAll(m, vs, key).entries[key(vs[i])] == vs[i]
  {
    if vs != [] {
      var n := |vs| - 1;
      var init := vs[..n];
      var ks := KeysOf(vs, key);
      var before := PutAll(m, init, key);
      var r := PutAll(m, vs, key);
      assert KeysOf(init, key) == ks[..n];
      SplitLast(ks);
      PutAllEntries(m, init, key);
      assert r.entries == before.entries[ks[n] := vs[n]];
      forall i | 0 <= i < |vs|
        ensures r.entries[key(vs[i])] == vs[i]
      {
        if i < n {
          assert ks[i] != ks[n];
          assert init[i] == vs[i];
        }
      }
    }
  }

  /** The entry `PutAll` leaves under the key of its `i`-th value. */
  lemma PutAllAt<V>(m: JsMap<V>, vs: seq<V>, key: V -> Id, i: nat)
    requires m.Valid() && Distinct(KeysOf(vs, key)) && i < |vs|
    ensures key(vs[i]) in PutAll(m, vs, key).entries
    ensures PutAll(m, vs, key).entries[key(vs[i])] == vs[i]
  {
    PutAllEntries(m, vs, key);
    assert KeysOf(vs, key)[i] == key(vs[i]);
  }

  /** A key `PutAll` does not put is stored afterwards exactly when it was before, unchanged. */
  lemma PutAllOther<V>(m: JsMap<V>, vs: seq<V>, key: V -> Id, k: Id)
    requires m.Valid() && Distinct(KeysOf(vs, key)) && k !in KeysOf(vs, key)
    ensures k in PutAll(m, vs, key).entries <==> k in m.entries
    ensures k in m.entries ==> PutAll(m, vs, key).entries[k] == m.entries[k]
  {
    PutAllEntries(m, vs, key);
  }

  /** One more step of the `forEach` that `PutAll` stands for. */
  lemma PutAllStep<V>(m: JsMap<V>, vs: seq<V>, key: V -> Id, i: nat)
    requires m.Valid() && i < |vs|
    ensures PutAll(m, vs[..i + 1], key) == PutAll(m, vs[..i], key).Set(key(vs[i]), vs[i])
  {
    assert vs[..i + 1][..i] == vs[..i];
  }

  /** Deleting keys one at a time is deleting them all at once. */
  lemma RemoveKeysDelete<V>(m: JsMap<V>, doomed: set<Id>, k: Id)
    requires m.Valid()
    ensures m.RemoveKeys(doomed).Delete(k) == m.RemoveKeys(doomed + {k})
  {
    WithoutWithout(m.keys, doomed, {k});
    assert m.entries - doomed - {k} == m.entries - (doomed + {k});
  }

  /** The keys of `vs`, as a set. */
  function KeySet<V>(vs: seq<V>, key: V -> Id): (r: set<Id>)
    ensures forall k :: k in r <==> k in KeysOf(vs, key)
  {
    if vs == [] then {} else KeySet(vs[..|vs| - 1], key) + {key(vs[|vs| - 1])}
  }

  /** `vs.forEach(v => map.delete(key(v)))`. */
  function DeleteEach<V>(m: JsMap<V>, vs: seq<V>, key: V -> Id): (r: JsMap<V>)
    requires m.Valid()
    ensures r.Valid()
  {
    if vs == [] then m else DeleteEach(m, vs[..|vs| - 1], key).Delete(key(vs[|vs| - 1]))
  }

  lemma DeleteEachStep<V>(m: JsMap<V>, vs: seq<V>, key: V -> Id, i: nat)
    requires m.Valid() && i < |vs|
    ensures DeleteEach(m, vs[..i + 1], key) == DeleteEach(m, vs[..i], key).Delete(key(vs[i]))
  {
    assert vs[..i + 1][..i] == vs[..i];
  }

  /** Deleting the keys one at a time removes exactly the set of them. */
  lemma {:induction false} DeleteEachRemovesKeys<V>(m: JsMap<V>, vs: seq<V>, key: V -> Id)
    requires m.Valid()
    ensures DeleteEach(m, vs, key) == m.RemoveKeys(KeySet(vs, key))
  {
    if vs == [] {
      RemoveNothing(m);
    } else {
      var front := vs[..|vs| - 1];
      DeleteEachRemovesKeys(m, front, key);
      RemoveKeysDelete(m, KeySet(front, key), key(vs[|vs| - 1]));
    }
  }

  /** Removing no key leaves the map as it was. */
  lemma RemoveNothing<V>(m: JsMap<V>)
    requires m.Valid()
    ensures m.RemoveKeys({}) == m
  {
    WithoutAbsent(m.keys, {});
    assert m.entries - {} == m.entries;
  }

  /** Every stored value is listed by `values()`. */
  lemma StoredIsListed<V>(m: JsMap<V>, k: Id)
    requires m.Valid() && k in m.entries
    ensures m.entries[k] in m.Values()
  {
    var i :| 0 <= i < |m.keys| && m.keys[i] == k;
    assert m.Values()[i] == m.entries[k];
  }

  /** Every listed value is stored under some key. */
  lemma ListedIsStored<V>(m: JsMap<V>, v: V) returns (k: Id)
    requires m.Valid() && v in m.Values()
    ensures k in m.entries && m.entries[k] == v
  {
    var i :| 0 <= i < |m.Values()| && m.Values()[i] == v;
    k := m.keys[i];
  }
}
