/** A JavaScript `Map`: keys in insertion order beside the values they hold.
    The scheduler and the sequencer both depend on that order. */
module JsMap {

  datatype JsMap<K(==), V> = JsMap(keys: seq<K>, vals: map<K, V>)

  ghost predicate Distinct<K>(keys: seq<K>) {
    forall i, j :: 0 <= i < j < |keys| ==> keys[i] != keys[j]
  }

  ghost predicate ValidMap<K, V>(m: JsMap<K, V>) {
    && Distinct(m.keys)
    && (forall k :: k in m.keys ==> k in m.vals)
    && (forall k :: k in m.vals ==> k in m.keys)
  }

  /** The position of a key, or -1. */
  function IndexOf<K(==)>(keys: seq<K>, k: K): (i: int)
    ensures -1 <= i < |keys|
    ensures 0 <= i ==> keys[i] == k && forall j :: 0 <= j < i ==> keys[j] != k
    ensures i < 0 <==> k !in keys
  {
    if keys == [] then -1
    else if keys[0] == k then 0
    else
      var rest := IndexOf(keys[1..], k);
      if rest < 0 then -1 else rest + 1
  }

  function EmptyMap<K(==), V>(): JsMap<K, V> {
    JsMap([], map[])
  }

  function GetOr<K(==), V>(m: JsMap<K, V>, k: K, default: V): V {
    if k in m.vals then m.vals[k] else default
  }

  /** `Map.set`: an existing key keeps its position, a new one goes last. */
  function Set<K(==), V>(m: JsMap<K, V>, k: K, v: V): JsMap<K, V> {
    JsMap(if k in m.vals then m.keys else m.keys + [k], m.vals[k := v])
  }

  function RemoveKey<K(==)>(keys: seq<K>, k: K): seq<K> {
    var i := IndexOf(keys, k);
    if i < 0 then keys else keys[..i] + keys[i + 1..]
  }

  /** `Map.delete`: later keys move up by one. */
  function Delete<K(==), V>(m: JsMap<K, V>, k: K): JsMap<K, V> {
    JsMap(RemoveKey(m.keys, k), m.vals - {k})
  }

  lemma SetValid<K, V>(m: JsMap<K, V>, k: K, v: V)
    requires ValidMap(m)
    ensures ValidMap(Set(m, k, v))
  {
    var m' := Set(m, k, v);
    if k !in m.vals {
      assert m'.keys[|m.keys|] == k;
    }
  }

  lemma RemoveKeyMembers<K>(keys: seq<K>, k: K)
    requires Distinct(keys)
    ensures Distinct(RemoveKey(keys, k))
    ensures forall x :: x in RemoveKey(keys, k) ==> x in keys && x != k
    ensures forall x :: x in keys && x != k ==> x in RemoveKey(keys, k)
  {
    var i := IndexOf(keys, k);
    hide IndexOf;
    if i >= 0 {
      forall x | x in keys && x != k ensures x in RemoveKey(keys, k) {
        var j :| 0 <= j < |keys| && keys[j] == x;
        assert RemoveKey(keys, k)[if j < i then j else j - 1] == x;
      }
    }
  }

  lemma DeleteValid<K, V>(m: JsMap<K, V>, k: K)
    requires ValidMap(m)
    ensures ValidMap(Delete(m, k))
  {
    RemoveKeyMembers(m.keys, k);
  }

  lemma Overwrite<K, V>(m: map<K, V>, k: K, a: V, b: V)
    ensures m[k := a][k := b] == m[k := b]
  {
  }
}
