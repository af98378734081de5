/**
 * Maps that remember the order in which their keys were first put in, as the entries
 * of a JavaScript `Map` do: putting a key again keeps its place, and deleting it
 * forgets the place.
 */
module OrderedMaps {
  import opened Prelude

  datatype Entry<+V> = Entry(key: string, value: V)

  type OrderedMap<+V> = seq<Entry<V>>

  function Keys<V>(m: OrderedMap<V>): (r: seq<string>)
    ensures |r| == |m| && forall i | 0 <= i < |m| :: r[i] == m[i].key
  {
    seq(|m|, i requires 0 <= i < |m| => m[i].key)
  }

  predicate Distinct<T(==)>(s: seq<T>) {
    forall i, j | 0 <= i < j < |s| :: s[i] != s[j]
  }

  /** The position of a key, or the size. */
  function Find<V>(m: OrderedMap<V>, key: string): (n: nat)
    ensures n <= |m| && (n < |m| ==> m[n].key == key)
    ensures forall i | 0 <= i < n :: m[i].key != key
  {
    if m == [] || m[0].key == key then 0 else 1 + Find(m[1..], key)
  }

  predicate Has<V>(m: OrderedMap<V>, key: string) {
    Find(m, key) < |m|
  }

  function Get<V>(m: OrderedMap<V>, key: string): V
    requires Has(m, key)
  {
    m[Find(m, key)].value
  }

  /** A new key goes to the end; a known key keeps its place. */
  function Put<V>(m: OrderedMap<V>, key: string, value: V): OrderedMap<V> {
    var n := Find(m, key);
    if n < |m| then m[n := Entry(key, value)] else m + [Entry(key, value)]
  }

  function Drop<V>(m: OrderedMap<V>, key: string): OrderedMap<V> {
    var n := Find(m, key);
    if n < |m| then m[..n] + m[n + 1..] else m
  }

  lemma {:induction false} HasKey<V>(m: OrderedMap<V>, key: string)
    ensures Has(m, key) <==> key in Keys(m)
  {
    if key in Keys(m) {
      var i :| 0 <= i < |m| && Keys(m)[i] == key;
      assert m[i].key == key;
    }
    if Has(m, key) {
      assert Keys(m)[Find(m, key)] == key;
    }
  }

  lemma {:induction false} FindUnique<V>(m: OrderedMap<V>, key: string, n: nat)
    requires n <= |m| && (n < |m| ==> m[n].key == key) && (forall i | 0 <= i < n :: m[i].key != key)
    ensures Find(m, key) == n
  {
  }
}
