/** Dictionaries that keep insertion order, as sequences of entries with distinct keys. */
module Dicts {
  datatype Entry<K, V> = Entry(key: K, value: V)

  /** The key's place, or the dictionary's size. */
  function KeyAt<K(==), V>(d: seq<Entry<K, V>>, key: K): (i: nat)
    ensures i <= |d|
    ensures i < |d| ==> d[i].key == key
    ensures forall k :: 0 <= k < i ==> d[k].key != key
  {
    if d == [] || d[0].key == key then 0 else 1 + KeyAt(d[1..], key)
  }

  /** `d[key] = value`: in place if the key is known, else at the end. */
  function Put<K(==), V>(d: seq<Entry<K, V>>, key: K, value: V): seq<Entry<K, V>> {
    var i := KeyAt(d, key);
    if i < |d| then d[i := Entry(key, value)] else d + [Entry(key, value)]
  }

  ghost predicate DistinctKeys<K, V>(d: seq<Entry<K, V>>) {
    forall i, j :: 0 <= i < j < |d| ==> d[i].key != d[j].key
  }
}
