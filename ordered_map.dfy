/**
 * The JavaScript `Map` the store keeps its tables in: a finite map that also
 * remembers the order in which its keys were first inserted.
 */
module OrderedMaps {
  import opened Wrappers
  import opened Js

  ghost predicate Distinct<K>(s: seq<K>) {
    forall i, j :: 0 <= i < j < |s| ==> s[i] != s[j]
  }

  datatype OrderedMap<K(==,!new), V> = OrderedMap(keys: seq<K>, entries: map<K, V>) {

    /** The keys are listed once each, and exactly the keys of the entries are listed. */
    ghost predicate Valid() {
      && Distinct(keys)
      && (forall k :: k in entries <==> k in keys)
    }

    /** `m.size` */
    function Size(): nat { |keys| }

    /** `m.get(k)` */
    function Get(k: K): Option<V> {
      if k in entries then Some(entries[k]) else None
    }

    /** `m.set(k, v)`: an existing key keeps its position, a new key goes last. */
    function Set(k: K, v: V): (r: OrderedMap<K, V>)
      requires Valid()
      ensures r.Valid()
      ensures r.entries == entries[k := v]
      ensures k in entries ==> r.keys == keys
      ensures k !in entries ==> r.keys == keys + [k]
    {
      if k in entries then OrderedMap(keys, entries[k := v])
      else OrderedMap(keys + [k], entries[k := v])
    }

    /** `m.delete(k)`: the other keys keep their order. */
    function Delete(k: K): (r: OrderedMap<K, V>)
      requires Valid()
      ensures r.Valid()
      ensures r.entries == entries - {k}
      ensures r.keys == Filter(keys, (x: K) => x != k)
      ensures k !in entries ==> r.keys == keys
    {
      FilterDistinct(keys, (x: K) => x != k);
      FilterAll(keys, (x: K) => x != k);
      OrderedMap(Filter(keys, (x: K) => x != k), entries - {k})
    }

    /** `Array.from(m.values())` */
    function Values(): (r: seq<V>)
      requires Valid()
      ensures |r| == |keys|
      ensures forall i :: 0 <= i < |keys| ==> r[i] == entries[keys[i]]
    {
      seq(|keys|, i requires 0 <= i < |keys| => entries[keys[i]])
    }

    /**
     * Insert into a table capped at `cap` entries: `set`, then, when the size
     * exceeds the cap, delete the key that was inserted earliest.
     */
    function SetBounded(k: K, v: V, cap: nat): (r: OrderedMap<K, V>)
      requires Valid() && |keys| <= cap
      ensures r.Valid() && |r.keys| <= cap
    {
      var m := Set(k, v);
      if m.Size() > cap then m.Delete(m.keys[0]) else m
    }
  }

  function Empty<K(!new), V>(): (r: OrderedMap<K, V>)
    ensures r.Valid() && r.keys == []
  {
    OrderedMap([], map[])
  }

  lemma {:induction false} FilterDistinct<K>(s: seq<K>, p: K -> bool)
    requires Distinct(s)
    ensures Distinct(Filter(s, p))
  {
    if s != [] {
      FilterDistinct(s[1..], p);
      assert s[0] !in s[1..];
    }
  }

  lemma {:induction false} FilterAll<K>(s: seq<K>, p: K -> bool)
    ensures (forall x :: x in s ==> p(x)) ==> Filter(s, p) == s
  {
    if s != [] {
      FilterAll(s[1..], p);
    }
  }

  /** A second `set` of the same key only replaces the value. */
  lemma SetTwice<K(!new), V>(m: OrderedMap<K, V>, k: K, v: V, w: V)
    requires m.Valid()
    ensures m.Set(k, v).Set(k, w) == m.Set(k, w)
  {
  }

  /** Deleting the earliest key of a valid map drops exactly the head of the key order. */
  lemma DeleteFirst<K(!new), V>(m: OrderedMap<K, V>)
    requires m.Valid() && m.keys != []
    ensures m.Delete(m.keys[0]).keys == m.keys[1..]
  {
    var k := m.keys[0];
    assert m.keys == [k] + m.keys[1..];
    assert k !in m.keys[1..];
    FilterAll(m.keys[1..], (x: K) => x != k);
  }

  /**
   * What `SetBounded` does: replacing an existing key changes only its value;
   * a new key is appended, and when the table was full the earliest key goes.
   */
  lemma SetBoundedEffect<K(!new), V>(m: OrderedMap<K, V>, k: K, v: V, cap: nat)
    requires m.Valid() && |m.keys| <= cap && cap > 0
    ensures var r := m.SetBounded(k, v, cap);
      && (k in m.entries ==> r.keys == m.keys && r.entries == m.entries[k := v])
      && (k !in m.entries && |m.keys| < cap ==>
            r.keys == m.keys + [k] && r.entries == m.entries[k := v])
      && (k !in m.entries && |m.keys| == cap ==>
            r.keys == m.keys[1..] + [k] && r.entries == m.entries[k := v] - {m.keys[0]})
  {
    var s := m.Set(k, v);
    if k !in m.entries && |m.keys| == cap {
      DeleteFirst(s);
      assert s.keys[1..] == m.keys[1..] + [k];
      assert s.keys[0] == m.keys[0] && m.keys[0] != k;
    }
  }

  /** The new value is always retrievable right after a bounded insert. */
  lemma SetBoundedGet<K(!new), V>(m: OrderedMap<K, V>, k: K, v: V, cap: nat)
    requires m.Valid() && |m.keys| <= cap && cap > 0
    ensures m.SetBounded(k, v, cap).Get(k) == Some(v)
  {
    SetBoundedEffect(m, k, v, cap);
  }

  function KeysOf<K, V>(kvs: seq<(K, V)>): (r: seq<K>)
    ensures |r| == |kvs| && forall i :: 0 <= i < |kvs| ==> r[i] == kvs[i].0
  {
    seq(|kvs|, i requires 0 <= i < |kvs| => kvs[i].0)
  }

  /** A sequence of bounded inserts, in order. */
  function SetAllBounded<K(!new), V>(m: OrderedMap<K, V>, kvs: seq<(K, V)>, cap: nat): (r: OrderedMap<K, V>)
    requires m.Valid() && |m.keys| <= cap
    ensures r.Valid() && |r.keys| <= cap
    decreases |kvs|
  {
    if kvs == [] then m else SetAllBounded(m.SetBounded(kvs[0].0, kvs[0].1, cap), kvs[1..], cap)
  }

  lemma DistinctTail<K>(s: seq<K>)
    requires Distinct(s) && s != []
    ensures Distinct(s[1..]) && s[0] !in s[1..]
  {
    forall i, j | 0 <= i < j < |s| - 1 ensures s[1..][i] != s[1..][j] {
      assert s[1..][i] == s[i + 1] && s[1..][j] == s[j + 1];
    }
  }

  lemma LastOfTail<K>(s: seq<K>, cap: nat)
    requires cap > 0 && |s| > cap
    ensures Last(s[1..], cap) == Last(s, cap)
  {
    assert s[1..][|s| - 1 - cap..] == s[|s| - cap..];
  }

  /** The next key to insert is not yet in the table. */
  lemma NextKeyFresh<K(!new), V>(m: OrderedMap<K, V>, kvs: seq<(K, V)>)
    requires m.Valid() && kvs != []
    requires Distinct(m.keys + KeysOf(kvs))
    ensures kvs[0].0 !in m.entries
    ensures m.keys + KeysOf(kvs) == m.keys + [kvs[0].0] + KeysOf(kvs[1..])
  {
    var k := kvs[0].0;
    var all := m.keys + KeysOf(kvs);
    assert KeysOf(kvs) == [k] + KeysOf(kvs[1..]);
    forall i | 0 <= i < |m.keys| ensures m.keys[i] != k {
      assert all[i] == m.keys[i] && all[|m.keys|] == k;
    }
  }

  /** One step of the window: the next key is fresh and the rest stay distinct. */
  lemma WindowStep<K(!new), V>(m: OrderedMap<K, V>, kvs: seq<(K, V)>, cap: nat)
    requires m.Valid() && |m.keys| <= cap && cap > 0 && kvs != []
    requires Distinct(m.keys + KeysOf(kvs))
    ensures kvs[0].0 !in m.entries
    ensures var m' := m.SetBounded(kvs[0].0, kvs[0].1, cap);
      && Distinct(m'.keys + KeysOf(kvs[1..]))
      && Last(m'.keys + KeysOf(kvs[1..]), cap) == Last(m.keys + KeysOf(kvs), cap)
  {
    var k := kvs[0].0;
    var all := m.keys + KeysOf(kvs);
    NextKeyFresh(m, kvs);
    SetBoundedEffect(m, k, kvs[0].1, cap);
    var m' := m.SetBounded(k, kvs[0].1, cap);
    if |m.keys| == cap {
      assert m.keys == [m.keys[0]] + m.keys[1..];
      assert m'.keys + KeysOf(kvs[1..]) == all[1..];
      DistinctTail(all);
      LastOfTail(all, cap);
    }
  }

  /**
   * The sliding window: after inserting entries with fresh, distinct keys, the
   * table holds exactly the `cap` most recently inserted keys, oldest first.
   */
  lemma {:induction false} WindowKeepsLatest<K(!new), V>(m: OrderedMap<K, V>, kvs: seq<(K, V)>, cap: nat)
    requires m.Valid() && |m.keys| <= cap && cap > 0
    requires Distinct(m.keys + KeysOf(kvs))
    ensures SetAllBounded(m, kvs, cap).keys == Last(m.keys + KeysOf(kvs), cap)
    decreases |kvs|
  {
    if kvs == [] {
      assert m.keys + KeysOf(kvs) == m.keys;
    } else {
      WindowStep(m, kvs, cap);
      WindowKeepsLatest(m.SetBounded(kvs[0].0, kvs[0].1, cap), kvs[1..], cap);
    }
  }
}
