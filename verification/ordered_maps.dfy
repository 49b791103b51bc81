/** A JavaScript `Map<number, V>`: an association list that remembers
    insertion order, which is the order `values()` enumerates. */
module OrderedMaps {
  import opened Results

  datatype Entry<V> = Entry(key: int, value: V)

  type OrderedMap<V> = seq<Entry<V>>

  predicate DistinctKeys<V>(m: OrderedMap<V>) {
    forall i, j :: 0 <= i < j < |m| ==> m[i].key != m[j].key
  }

  predicate HasKey<V>(m: OrderedMap<V>, k: int) {
    exists i :: 0 <= i < |m| && m[i].key == k
  }

  /** `m.get(k)`. */
  function Get<V>(m: OrderedMap<V>, k: int): (r: Option<V>)
    ensures r.None? <==> !HasKey(m, k)
    ensures r.Some? ==> exists i :: 0 <= i < |m| && m[i] == Entry(k, r.value)
  {
    if |m| == 0 then None
    else if m[0].key == k then Some(m[0].value)
    else
      var r := Get(m[1..], k);
      assert r.Some? ==> exists i :: 0 <= i < |m[1..]| && m[1..][i] == Entry(k, r.value);
      assert HasKey(m[1..], k) ==> HasKey(m, k) by {
        if HasKey(m[1..], k) {
          var i :| 0 <= i < |m[1..]| && m[1..][i].key == k;
          assert m[i + 1].key == k;
        }
      }
      r
  }

  /** With distinct keys, `get` finds exactly the entry stored under the key. */
  lemma {:induction false} GetEntry<V>(m: OrderedMap<V>, i: int)
    requires DistinctKeys(m)
    requires 0 <= i < |m|
    ensures Get(m, m[i].key) == Some(m[i].value)
  {
    var r := Get(m, m[i].key);
    var j :| 0 <= j < |m| && m[j] == Entry(m[i].key, r.value);
    assert i == j;
  }

  /** `m.values()` in insertion order. */
  function Values<V>(m: OrderedMap<V>): (r: seq<V>)
    ensures |r| == |m|
    ensures forall i :: 0 <= i < |m| ==> r[i] == m[i].value
  {
    if |m| == 0 then [] else [m[0].value] + Values(m[1..])
  }

  lemma {:induction false} ValuesAppend<V>(m: OrderedMap<V>, e: Entry<V>)
    ensures Values(m + [e]) == Values(m) + [e.value]
  {
    assert forall i :: 0 <= i < |m| ==> (m + [e])[i] == m[i];
  }

  /** `m.set(k, v)`: overwrites in place when the key is present, appends otherwise. */
  function Set<V>(m: OrderedMap<V>, k: int, v: V): (r: OrderedMap<V>)
    ensures Get(r, k) == Some(v)
    ensures !HasKey(m, k) ==> r == m + [Entry(k, v)]
    ensures HasKey(m, k) ==> |r| == |m|
  {
    if |m| == 0 then [Entry(k, v)]
    else if m[0].key == k then [Entry(k, v)] + m[1..]
    else
      assert HasKey(m, k) <==> HasKey(m[1..], k) by { HasKeyTail(m, k); }
      assert m == [m[0]] + m[1..];
      [m[0]] + Set(m[1..], k, v)
  }

  lemma {:induction false} HasKeyTail<V>(m: OrderedMap<V>, k: int)
    requires |m| > 0 && m[0].key != k
    ensures HasKey(m, k) <==> HasKey(m[1..], k)
  {
    if HasKey(m[1..], k) {
      var i :| 0 <= i < |m[1..]| && m[1..][i].key == k;
      assert m[i + 1].key == k;
    }
    if HasKey(m, k) {
      var i :| 0 <= i < |m| && m[i].key == k;
      assert m[1..][i - 1].key == k;
    }
  }

  /** Setting one key leaves every other key's value alone. */
  lemma {:induction false} SetOther<V>(m: OrderedMap<V>, k: int, v: V, k': int)
    requires k' != k
    ensures Get(Set(m, k, v), k') == Get(m, k')
  {
    if |m| > 0 && m[0].key != k {
      SetOther(m[1..], k, v, k');
      assert Set(m, k, v)[1..] == Set(m[1..], k, v);
    } else if |m| > 0 {
      assert Set(m, k, v)[1..] == m[1..];
    }
  }

  // Maps whose keys come from a counter.

  /** Keys strictly increase in insertion order and all lie below `next`. */
  predicate KeysBelow<V>(m: OrderedMap<V>, next: int) {
    && (forall i :: 0 <= i < |m| ==> m[i].key < next)
    && (forall i, j :: 0 <= i < j < |m| ==> m[i].key < m[j].key)
  }

  lemma {:induction false} KeysBelowDistinct<V>(m: OrderedMap<V>, next: int)
    requires KeysBelow(m, next)
    ensures DistinctKeys(m)
  {
  }

  lemma {:induction false} KeysBelowFresh<V>(m: OrderedMap<V>, next: int, k: int)
    requires KeysBelow(m, next) && k >= next
    ensures !HasKey(m, k)
  {
  }

  /** Storing under the counter's value appends a fresh entry and keeps
      the keys below the advanced counter. */
  lemma {:induction false} AppendFresh<V>(m: OrderedMap<V>, next: int, v: V)
    requires KeysBelow(m, next)
    ensures Set(m, next, v) == m + [Entry(next, v)]
    ensures KeysBelow(Set(m, next, v), next + 1)
    ensures Values(Set(m, next, v)) == Values(m) + [v]
  {
    KeysBelowFresh(m, next, next);
    ValuesAppend(m, Entry(next, v));
  }
}
