/** Python dictionaries: a map together with the order in which its keys were
    first inserted, which is the order in which Python iterates over them. */
module Dicts {

  datatype Dict<K(==), V> = Dict(keys: seq<K>, entries: map<K, V>) {

    /** The key sequence lists every key of the map exactly once. */
    ghost predicate Valid() {
      && (forall i, j :: 0 <= i < j < |keys| ==> keys[i] != keys[j])
      && (forall k :: k in entries ==> k in keys)
      && (forall i :: 0 <= i < |keys| ==> keys[i] in entries)
    }

    /** `d[k] = v`: a new key goes to the end of the order, a known key keeps its place. */
    function Put(k: K, v: V): (d: Dict<K, V>)
      ensures d.entries == entries[k := v]
      ensures k in entries ==> d.keys == keys
      ensures k !in entries ==> d.keys == keys + [k]
      ensures Valid() ==> d.Valid()
    {
      if k in entries then Dict(keys, entries[k := v]) else Dict(keys + [k], entries[k := v])
    }
  }

  function Empty<K(==), V>(): (d: Dict<K, V>)
    ensures d.Valid() && d.keys == [] && d.entries == map[]
  {
    Dict([], map[])
  }

  /** The key at position c is not among the keys before it. */
  lemma KeyNotInPrefix<K, V>(d: Dict<K, V>, c: int)
    requires d.Valid() && 0 <= c < |d.keys|
    ensures d.keys[c] !in d.keys[..c]
    ensures d.keys[c] in d.entries
  {
  }

  /** Two valid dictionaries with the same key order have the same keys. */
  lemma SameKeys<K, V, W>(d: Dict<K, V>, e: Dict<K, W>)
    requires d.Valid() && e.Valid() && d.keys == e.keys
    ensures forall k :: k in d.entries <==> k in e.entries
  {
  }
}
