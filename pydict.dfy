/**
 * Python's `dict`: a map that remembers the order in which keys were first
 * inserted. Assigning to a key that is already present replaces its value
 * and keeps its position; `values()` lists the values in key order.
 */
module PyDict {

  datatype Dict<K(==), V> = Dict(keys: seq<K>, entries: map<K, V>) {

    ghost predicate Valid()
    {
      && (forall i, j :: 0 <= i < j < |keys| ==> keys[i] != keys[j])
      && (forall i :: 0 <= i < |keys| ==> keys[i] in entries)
      && (forall k :: k in entries ==> k in keys)
    }

    /** `len(d)`. */
    function Len(): nat
    {
      |keys|
    }

    /** `d.values()`, in insertion order. */
    function Values(): (vs: seq<V>)
      requires Valid()
      ensures |vs| == |keys|
      ensures forall i :: 0 <= i < |keys| ==> vs[i] == entries[keys[i]]
    {
      seq(|keys|, i requires 0 <= i < |keys| => entries[keys[i]])
    }

    /** `d[k] = v`. */
    function Set(k: K, v: V): (d: Dict<K, V>)
      ensures d.entries == entries[k := v]
      ensures d.keys == if k in entries then keys else keys + [k]
    {
      if k in entries then Dict(keys, entries[k := v]) else Dict(keys + [k], entries[k := v])
    }
  }

  /** `{}`. */
  function Empty<K(==), V>(): (d: Dict<K, V>)
    ensures d.keys == [] && d.entries == map[]
  {
    Dict([], map[])
  }

  /** Assignment keeps the keys distinct and in step with the entries. */
  lemma SetValid<K, V>(d: Dict<K, V>, k: K, v: V)
    requires d.Valid()
    ensures d.Set(k, v).Valid()
  {
    var r := d.Set(k, v);
    if k !in d.entries {
      assert forall i :: 0 <= i < |d.keys| ==> r.keys[i] == d.keys[i];
    }
  }

  /** Every value is stored under its own key. */
  ghost predicate KeyedBy<K, V>(d: Dict<K, V>, key: V -> K)
  {
    forall k :: k in d.entries ==> key(d.entries[k]) == k
  }

  /** `for item in items: d[key(item)] = item`. */
  function InsertAll<K(==), V>(d: Dict<K, V>, items: seq<V>, key: V -> K): Dict<K, V>
  {
    if |items| == 0 then d
    else
      var last := items[|items| - 1];
      InsertAll(d, items[..|items| - 1], key).Set(key(last), last)
  }

  /** The keys after the loop are the keys before it and the keys of the items, nothing else. */
  lemma {:induction false} InsertAllKeys<K, V>(d: Dict<K, V>, items: seq<V>, key: V -> K, k: K)
    ensures k in InsertAll(d, items, key).entries <==>
            k in d.entries || exists i :: 0 <= i < |items| && key(items[i]) == k
  {
    if |items| > 0 {
      var init := items[..|items| - 1];
      InsertAllKeys(d, init, key, k);
      if exists i :: 0 <= i < |items| && key(items[i]) == k {
        var i :| 0 <= i < |items| && key(items[i]) == k;
        if i < |items| - 1 {
          assert init[i] == items[i];
        }
      }
      if exists i :: 0 <= i < |init| && key(init[i]) == k {
        var i :| 0 <= i < |init| && key(init[i]) == k;
        assert items[i] == init[i];
      }
    }
  }

  /** A later item with the same key overwrites an earlier one: each key holds the last item with that key. */
  lemma {:induction false} InsertAllLastWins<K, V>(d: Dict<K, V>, items: seq<V>, key: V -> K, i: nat)
    requires i < |items|
    requires forall j :: i < j < |items| ==> key(items[j]) != key(items[i])
    ensures key(items[i]) in InsertAll(d, items, key).entries
    ensures InsertAll(d, items, key).entries[key(items[i])] == items[i]
  {
    if i < |items| - 1 {
      var init := items[..|items| - 1];
      InsertAllLastWins(d, init, key, i);
    }
  }

  /** Inserting items under their own keys keeps every value under its own key. */
  lemma {:induction false} InsertAllKeyedBy<K, V>(d: Dict<K, V>, items: seq<V>, key: V -> K)
    requires KeyedBy(d, key)
    ensures KeyedBy(InsertAll(d, items, key), key)
  {
    if |items| > 0 {
      InsertAllKeyedBy(d, items[..|items| - 1], key);
    }
  }

  /** The dict grows by at most one entry per item. */
  lemma {:induction false} InsertAllSize<K, V>(d: Dict<K, V>, items: seq<V>, key: V -> K)
    ensures |InsertAll(d, items, key).keys| <= |d.keys| + |items|
  {
    if |items| > 0 {
      InsertAllSize(d, items[..|items| - 1], key);
    }
  }

  /** Every value after the loop is one of the items, or was there before under the same key. */
  lemma {:induction false} InsertAllValues<K, V>(d: Dict<K, V>, items: seq<V>, key: V -> K, k: K)
    requires k in InsertAll(d, items, key).entries
    ensures InsertAll(d, items, key).entries[k] in items || (k in d.entries && InsertAll(d, items, key).entries[k] == d.entries[k])
  {
    if |items| > 0 {
      var init := items[..|items| - 1];
      var last := items[|items| - 1];
      if key(last) != k {
        InsertAllValues(d, init, key, k);
        if InsertAll(d, init, key).entries[k] in init {
          var i :| 0 <= i < |init| && init[i] == InsertAll(d, init, key).entries[k];
          assert items[i] == init[i];
        }
      }
    }
  }

  /** The loop leaves a well-formed dict. */
  lemma {:induction false} InsertAllValid<K, V>(d: Dict<K, V>, items: seq<V>, key: V -> K)
    requires d.Valid()
    ensures InsertAll(d, items, key).Valid()
  {
    if |items| > 0 {
      var last := items[|items| - 1];
      InsertAllValid(d, items[..|items| - 1], key);
      SetValid(InsertAll(d, items[..|items| - 1], key), key(last), last);
    }
  }
}
