/**
 * JavaScript's `Map`: a finite map that remembers insertion order. Setting
 * an existing key replaces its value in place; a new key goes at the end.
 */
module OrderedMaps {
  import opened Wrappers

  type OrderedMap<K, V> = seq<(K, V)>

  function Keys<K, V>(m: OrderedMap<K, V>): (ks: seq<K>)
    ensures |ks| == |m|
    ensures forall i :: 0 <= i < |m| ==> ks[i] == m[i].0
  {
    if |m| == 0 then [] else [m[0].0] + Keys(m[1..])
  }

  function Values<K, V>(m: OrderedMap<K, V>): (vs: seq<V>)
    ensures |vs| == |m|
    ensures forall i :: 0 <= i < |m| ==> vs[i] == m[i].1
  {
    if |m| == 0 then [] else [m[0].1] + Values(m[1..])
  }

  /** Every key occurs once. */
  predicate UniqueKeys<K(==), V>(m: OrderedMap<K, V>)
  {
    forall i, j :: 0 <= i < j < |m| ==> m[i].0 != m[j].0
  }

  /** `m.get(k)`: the value stored under `k`, if any. */
  function Get<K(==), V>(m: OrderedMap<K, V>, k: K): (r: Option<V>)
    ensures r.None? <==> k !in Keys(m)
    ensures r.Some? ==> exists i :: 0 <= i < |m| && m[i] == (k, r.value)
  {
    if |m| == 0 then None
    else if m[0].0 == k then Some(m[0].1)
    else Get(m[1..], k)
  }

  /** Where `k` first sits in `m`, if it does. */
  function IndexOfKey<K(==), V>(m: OrderedMap<K, V>, k: K): (i: nat)
    requires k in Keys(m)
    ensures i < |m| && m[i].0 == k
    ensures forall j :: 0 <= j < i ==> m[j].0 != k
  {
    if m[0].0 == k then 0 else 1 + IndexOfKey(m[1..], k)
  }

  /** `Get` finds the first entry with the key. */
  lemma {:induction false} GetFirst<K, V>(m: OrderedMap<K, V>, i: nat)
    requires i < |m| && forall j :: 0 <= j < i ==> m[j].0 != m[i].0
    ensures Get(m, m[i].0) == Some(m[i].1)
    decreases i
  {
    if i > 0 {
      GetFirst(m[1..], i - 1);
    }
  }

  lemma GetUnique<K, V>(m: OrderedMap<K, V>, i: nat)
    requires UniqueKeys(m) && i < |m|
    ensures Get(m, m[i].0) == Some(m[i].1)
  {
    GetFirst(m, i);
  }

  /** Looking a key up in a map with unique keys: the last entry answers for its own key, the rest for the others. */
  lemma {:induction false} GetLast<K, V>(m: OrderedMap<K, V>, k: K)
    requires |m| > 0 && UniqueKeys(m)
    ensures Get(m, k) == if k == m[|m| - 1].0 then Some(m[|m| - 1].1) else Get(m[..|m| - 1], k)
    decreases |m|
  {
    var n := |m|;
    if n == 1 {
      assert m[..0] == [];
    } else if m[0].0 == k {
      assert m[..n - 1][0] == m[0];
    } else {
      var tail := m[1..];
      assert UniqueKeys(tail) by {
        forall i, j | 0 <= i < j < |tail|
          ensures tail[i].0 != tail[j].0
        {
          assert tail[i] == m[i + 1] && tail[j] == m[j + 1];
        }
      }
      GetLast(tail, k);
      assert tail[..|tail| - 1] == m[..n - 1][1..];
      assert m[..n - 1][0] == m[0];
    }
  }

  /**
   * `m.set(k, v)`: `k` now maps to `v`, every other key keeps its value and
   * place, and a new key is appended at the end.
   */
  function Set<K(==,!new), V>(m: OrderedMap<K, V>, k: K, v: V): (m': OrderedMap<K, V>)
    ensures Get(m', k) == Some(v)
    ensures forall k' :: k' != k ==> Get(m', k') == Get(m, k')
    ensures k in Keys(m) ==> Keys(m') == Keys(m)
    ensures k !in Keys(m) ==> Keys(m') == Keys(m) + [k] && m' == m + [(k, v)]
    ensures UniqueKeys(m) ==> UniqueKeys(m')
    ensures UniqueKeys(m) ==> forall i :: 0 <= i < |m'| ==> m'[i] == (k, v) || (m'[i].0 != k && m'[i] in m)
  {
    if k in Keys(m) then
      var i := IndexOfKey(m, k);
      var m' := m[i := (k, v)];
      assert Keys(m') == Keys(m);
      GetFirst(m', i);
      forall k' | k' != k
        ensures Get(m', k') == Get(m, k')
      {
        GetAfterReplace(m, i, v, k');
      }
      m'
    else
      var m' := m + [(k, v)];
      assert Keys(m') == Keys(m) + [k];
      GetFirst(m', |m|);
      forall k' | k' != k
        ensures Get(m', k') == Get(m, k')
      {
        GetAfterAppend(m, k, v, k');
      }
      m'
  }

  /** Replacing the value of one entry does not change what other keys map to. */
  lemma {:induction false} GetAfterReplace<K, V>(m: OrderedMap<K, V>, i: nat, v: V, k: K)
    requires i < |m| && k != m[i].0
    ensures Get(m[i := (m[i].0, v)], k) == Get(m, k)
    decreases i
  {
    var m' := m[i := (m[i].0, v)];
    if i == 0 {
      assert m'[1..] == m[1..];
    } else if m[0].0 != k {
      GetAfterReplace(m[1..], i - 1, v, k);
      assert m'[1..] == m[1..][i - 1 := (m[i].0, v)];
    }
  }

  /** Appending an entry does not change what other keys map to. */
  lemma {:induction false} GetAfterAppend<K, V>(m: OrderedMap<K, V>, k: K, v: V, k': K)
    requires k' != k
    ensures Get(m + [(k, v)], k') == Get(m, k')
    decreases |m|
  {
    if |m| == 0 {
      assert ([(k, v)] + [])[1..] == [];
    } else if m[0].0 != k' {
      GetAfterAppend(m[1..], k, v, k');
      assert (m + [(k, v)])[1..] == m[1..] + [(k, v)];
    }
  }
}
