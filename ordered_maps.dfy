/**
 * A JavaScript `Map` (or a plain object used as a dictionary): key/value pairs in
 * insertion order. `Set` on a present key replaces the value where it stands; on a new
 * key it appends. Iteration (`values()`, `entries()`, `for ... of`) follows this order.
 */
module OrderedMaps {
  import opened Options

  type Entries<K, V> = seq<(K, V)>

  predicate DistinctKeys<K(==), V>(m: Entries<K, V>) {
    forall i, j :: 0 <= i < j < |m| ==> m[i].0 != m[j].0
  }

  function Keys<K, V>(m: Entries<K, V>): (ks: seq<K>)
    ensures |ks| == |m| && forall i :: 0 <= i < |m| ==> ks[i] == m[i].0
  {
    seq(|m|, i requires 0 <= i < |m| => m[i].0)
  }

  /** `m.get(k)`: the value of the first entry with key `k`. */
  function Get<K(==), V>(m: Entries<K, V>, k: K): (r: Option<V>)
    ensures r.None? <==> k !in Keys(m)
    ensures r.Some? ==> exists i :: 0 <= i < |m| && m[i] == (k, r.value)
    decreases |m|
  {
    if m == [] then None
    else if m[0].0 == k then Some(m[0].1)
    else
      var r := Get(m[1..], k);
      assert r.Some? ==> exists i :: 0 <= i < |m[1..]| && m[1..][i] == (k, r.value);
      assert Keys(m) == [m[0].0] + Keys(m[1..]);
      r
  }

  /** `m.set(k, v)`. */
  function Set<K(==), V>(m: Entries<K, V>, k: K, v: V): (r: Entries<K, V>)
    decreases |m|
  {
    if m == [] then [(k, v)]
    else if m[0].0 == k then [(k, v)] + m[1..]
    else [m[0]] + Set(m[1..], k, v)
  }

  /** After `set(k, v)`, `get(k)` is `v`. */
  lemma {:induction false} GetSetSame<K, V>(m: Entries<K, V>, k: K, v: V)
    ensures Get(Set(m, k, v), k) == Some(v)
    decreases |m|
  {
    if m != [] && m[0].0 != k {
      assert Set(m, k, v)[1..] == Set(m[1..], k, v);
      GetSetSame(m[1..], k, v);
    }
  }

  /** `set(k, v)` leaves the value of every other key as it was. */
  lemma {:induction false} GetSetOther<K, V>(m: Entries<K, V>, k: K, v: V, k': K)
    requires k' != k
    ensures Get(Set(m, k, v), k') == Get(m, k')
    decreases |m|
  {
    if m != [] && m[0].0 != k {
      assert Set(m, k, v)[1..] == Set(m[1..], k, v);
      GetSetOther(m[1..], k, v, k');
    } else if m != [] {
      assert Set(m, k, v)[1..] == m[1..];
    }
  }

  /**
   * `set` on a present key keeps every key in its position; on a new key it appends
   * that key at the end.
   */
  lemma KeysCons<K, V>(e: (K, V), m: Entries<K, V>)
    ensures Keys([e] + m) == [e.0] + Keys(m)
  {
  }

  lemma {:induction false} SetKeys<K, V>(m: Entries<K, V>, k: K, v: V)
    ensures k in Keys(m) ==> Keys(Set(m, k, v)) == Keys(m)
    ensures k !in Keys(m) ==> Keys(Set(m, k, v)) == Keys(m) + [k]
    decreases |m|
  {
    if m == [] {
      assert Keys(Set(m, k, v)) == [k];
    } else {
      assert m == [m[0]] + m[1..];
      KeysCons(m[0], m[1..]);
      if m[0].0 == k {
        KeysCons((k, v), m[1..]);
      } else {
        SetKeys(m[1..], k, v);
        KeysCons(m[0], Set(m[1..], k, v));
        assert k in Keys(m) <==> k in Keys(m[1..]);
      }
    }
  }

  /** `set` keeps the keys of a map distinct. */
  lemma SetDistinct<K, V>(m: Entries<K, V>, k: K, v: V)
    requires DistinctKeys(m)
    ensures DistinctKeys(Set(m, k, v))
  {
    SetKeys(m, k, v);
    var r := Set(m, k, v);
    assert forall i :: 0 <= i < |r| ==> r[i].0 == Keys(r)[i];
    assert forall i :: 0 <= i < |m| ==> m[i].0 == Keys(m)[i];
  }

  /** A second `set` of the same key overrides the first, in the first one's position. */
  lemma {:induction false} SetTwice<K, V>(m: Entries<K, V>, k: K, v: V, w: V)
    ensures Set(Set(m, k, v), k, w) == Set(m, k, w)
    decreases |m|
  {
    if m != [] && m[0].0 != k {
      SetTwice(m[1..], k, v, w);
    }
  }
}
