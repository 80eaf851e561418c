/**
 * PHP arrays with string keys are dictionaries that remember insertion order:
 * `foreach` visits keys in the order they were first assigned, and assigning
 * to an existing key keeps its position.  `OMap` models such an array as the
 * sequence of its keys next to the map of its entries.
 */
module OrderedMaps {

  datatype OMap<K, V> = OMap(keys: seq<K>, m: map<K, V>)

  /** Keys appear once each, and exactly the keys of the map appear. */
  ghost predicate Valid<K(!new), V>(o: OMap<K, V>) {
    && (forall i, j :: 0 <= i < j < |o.keys| ==> o.keys[i] != o.keys[j])
    && (forall k :: k in o.m <==> k in o.keys)
  }

  /** `array()` */
  function Empty<K(!new), V>(): (r: OMap<K, V>)
    ensures Valid(r) && r.keys == [] && r.m == map[]
  {
    OMap([], map[])
  }

  /** `$a[$k] = $v`: an existing key keeps its place, a new key goes last. */
  function Put<K(!new), V>(o: OMap<K, V>, k: K, v: V): (r: OMap<K, V>)
    requires Valid(o)
    ensures Valid(r)
    ensures r.m == o.m[k := v]
    ensures k in o.m ==> r.keys == o.keys
    ensures k !in o.m ==> r.keys == o.keys + [k]
  {
    if k in o.m then OMap(o.keys, o.m[k := v]) else OMap(o.keys + [k], o.m[k := v])
  }

  /** A key listed at position `i` is no longer listed after it is removed from the prefix. */
  lemma PrefixStep<K>(keys: seq<K>, i: nat)
    requires i < |keys|
    ensures keys[..i + 1] == keys[..i] + [keys[i]]
    ensures forall k :: k in keys[..i + 1] <==> k in keys[..i] || k == keys[i]
  {
    assert keys[..i + 1] == keys[..i] + [keys[i]];
  }
}
