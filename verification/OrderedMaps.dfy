/** JavaScript's Map: entries in insertion order, where setting a present key keeps its place. */
module OrderedMaps {
  import opened Prelude

  datatype Slot<V> = Slot(key: string, value: V)

  type OrderedMap<V> = seq<Slot<V>>

  predicate HasKey<V>(m: OrderedMap<V>, key: string) {
    exists i | 0 <= i < |m| :: m[i].key == key
  }

  function IndexOf<V>(m: OrderedMap<V>, key: string): (i: nat)
    requires HasKey(m, key)
    ensures i < |m| && m[i].key == key && forall j | 0 <= j < i :: m[j].key != key
  {
    if m[0].key == key then 0
    else
      assert HasKey(m[1..], key) by {
        var i :| 0 <= i < |m| && m[i].key == key;
        assert m[1..][i - 1].key == key;
      }
      1 + IndexOf(m[1..], key)
  }

  function Get<V>(m: OrderedMap<V>, key: string): Option<V> {
    if HasKey(m, key) then Some(m[IndexOf(m, key)].value) else None
  }

  /** `Map.delete` */
  function Without<V>(m: OrderedMap<V>, key: string): OrderedMap<V> {
    if HasKey(m, key) then m[..IndexOf(m, key)] + m[IndexOf(m, key) + 1..] else m
  }

  /** `Map.set` */
  function Put<V>(m: OrderedMap<V>, key: string, v: V): OrderedMap<V> {
    if HasKey(m, key) then m[IndexOf(m, key) := Slot(key, v)] else m + [Slot(key, v)]
  }

  ghost predicate UniqueKeys<V>(m: OrderedMap<V>) {
    forall i, j | 0 <= i < j < |m| :: m[i].key != m[j].key
  }

  lemma UniqueIndex<V>(m: OrderedMap<V>, i: nat)
    requires UniqueKeys(m) && i < |m|
    ensures HasKey(m, m[i].key) && IndexOf(m, m[i].key) == i && Get(m, m[i].key) == Some(m[i].value)
  {
    assert HasKey(m, m[i].key);
  }

  lemma PutKeepsUnique<V>(m: OrderedMap<V>, key: string, v: V)
    requires UniqueKeys(m)
    ensures UniqueKeys(Put(m, key, v))
  {
    if HasKey(m, key) {
      forall i | 0 <= i < |m| ensures Put(m, key, v)[i].key == m[i].key {}
    }
  }

  lemma PutKeys<V>(m: OrderedMap<V>, key: string, v: V, k: string)
    ensures HasKey(Put(m, key, v), k) <==> k == key || HasKey(m, k)
  {
    var n := Put(m, key, v);
    if HasKey(m, key) {
      assert n[IndexOf(m, key)].key == key;
      if HasKey(m, k) { assert n[IndexOf(m, k)].key == k; }
      if HasKey(n, k) { assert m[IndexOf(n, k)].key == k; }
    } else {
      assert n[|m|].key == key;
      if HasKey(m, k) { assert n[IndexOf(m, k)].key == k; }
      if HasKey(n, k) && k != key { assert m[IndexOf(n, k)].key == k; }
    }
  }

  lemma GetPut<V>(m: OrderedMap<V>, key: string, v: V, k: string)
    requires UniqueKeys(m)
    ensures Get(Put(m, key, v), k) == if k == key then Some(v) else Get(m, k)
  {
    var n := Put(m, key, v);
    PutKeepsUnique(m, key, v);
    PutKeys(m, key, v, k);
    if k == key {
      var i := if HasKey(m, key) then IndexOf(m, key) else |m|;
      assert n[i] == Slot(key, v);
      UniqueIndex(n, i);
    } else if HasKey(m, k) {
      var i := IndexOf(m, k);
      assert n[i] == m[i];
      UniqueIndex(n, i);
    }
  }

  /** The slot of a key that was just put holds the value put. */
  lemma PutSlotOfKey<V>(m: OrderedMap<V>, key: string, v: V, x: Slot<V>)
    requires UniqueKeys(m) && x in Put(m, key, v) && x.key == key
    ensures x.value == v
  {
    var n := Put(m, key, v);
    var i :| 0 <= i < |n| && n[i] == x;
    PutKeepsUnique(m, key, v);
    UniqueIndex(n, i);
    GetPut(m, key, v, key);
  }

  /** Every slot after a Put is the one put or an old one. */
  lemma PutSlots<V>(m: OrderedMap<V>, key: string, v: V, x: Slot<V>)
    requires x in Put(m, key, v)
    ensures x == Slot(key, v) || x in m
  {
  }

  lemma WithoutLacksKey<V>(m: OrderedMap<V>, key: string)
    requires UniqueKeys(m)
    ensures !HasKey(Without(m, key), key)
  {
    if HasKey(m, key) {
      var gone := IndexOf(m, key);
      var d := m[..gone] + m[gone + 1..];
      forall i | 0 <= i < |d| ensures d[i].key != key {
        assert d[i] == m[if i < gone then i else i + 1];
      }
    }
  }

  // ----- sums over the values ---------------------------------------------------------------------------------

  function Sum<V>(m: OrderedMap<V>, f: V -> int): int {
    if m == [] then 0 else Sum(m[..|m| - 1], f) + f(m[|m| - 1].value)
  }

  lemma {:induction false} SumUpdate<V>(m: OrderedMap<V>, i: nat, x: Slot<V>, f: V -> int)
    requires i < |m|
    ensures Sum(m[i := x], f) == Sum(m, f) - f(m[i].value) + f(x.value)
    decreases |m|
  {
    var n := |m| - 1;
    var updated := m[i := x];
    if i == n {
      assert updated[..n] == m[..n];
    } else {
      SumUpdate(m[..n], i, x, f);
      assert updated[..n] == m[..n][i := x];
    }
  }

  /** Setting a key moves the sum by the difference it makes. */
  lemma SumPut<V>(m: OrderedMap<V>, key: string, v: V, f: V -> int)
    ensures Sum(Put(m, key, v), f) == Sum(m, f) + f(v) - (if HasKey(m, key) then f(m[IndexOf(m, key)].value) else 0)
  {
    if HasKey(m, key) {
      SumUpdate(m, IndexOf(m, key), Slot(key, v), f);
    } else {
      assert (m + [Slot(key, v)])[..|m|] == m;
    }
  }
}
