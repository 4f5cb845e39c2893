/** A JavaScript Map: distinct keys in insertion order, and their values. */
module OrderedMap {
  import opened Sequences

  datatype Map<!K(==), +V> = Map(keys: seq<K>, vals: map<K, V>)

  predicate Distinct<K(==)>(s: seq<K>) {
    s == [] || (s[0] !in s[1..] && Distinct(s[1..]))
  }

  ghost predicate Valid<K(!new), V>(m: Map<K, V>) {
    Distinct(m.keys) && forall k :: k in m.keys <==> k in m.vals
  }

  function Without<K(==)>(s: seq<K>, x: K): (r: seq<K>)
    ensures x !in r && (x !in s ==> r == s)
  {
    if s == [] then []
    else if s[0] == x then Without(s[1..], x)
    else [s[0]] + Without(s[1..], x)
  }

  lemma {:induction false} WithoutMembers<K(!new)>(s: seq<K>, x: K)
    ensures forall y :: y in Without(s, x) <==> y in s && y != x
    decreases |s|
  {
    if s != [] {
      WithoutMembers(s[1..], x);
      assert forall y :: y in s <==> y == s[0] || y in s[1..];
    }
  }

  lemma {:induction false} WithoutDistinct<K(!new)>(s: seq<K>, x: K)
    requires Distinct(s)
    ensures Distinct(Without(s, x)) && |Without(s, x)| == |s| - if x in s then 1 else 0
    decreases |s|
  {
    if s != [] {
      WithoutDistinct(s[1..], x);
      WithoutMembers(s[1..], x);
      if s[0] != x {
        assert Without(s, x)[1..] == Without(s[1..], x);
      }
    }
  }

  lemma {:induction false} DistinctAppend<K(!new)>(s: seq<K>, x: K)
    requires Distinct(s) && x !in s
    ensures Distinct(s + [x])
    decreases |s|
  {
    if s != [] {
      DistinctAppend(s[1..], x);
      assert (s + [x])[1..] == s[1..] + [x];
    }
  }

  /** Map.delete */
  function Remove<K(==,!new), V>(m: Map<K, V>, k: K): Map<K, V> {
    Map(Without(m.keys, k), m.vals - {k})
  }

  /** Map.set: a present key keeps its place, a new one goes to the end. */
  function Put<K(==,!new), V>(m: Map<K, V>, k: K, v: V): Map<K, V> {
    Map(if k in m.vals then m.keys else m.keys + [k], m.vals[k := v])
  }

  /** Delete and set again: the key moves to the end. */
  function Touch<K(==,!new), V>(m: Map<K, V>, k: K, v: V): Map<K, V> {
    Put(Remove(m, k), k, v)
  }

  /** A first-in first-out memo: a key already there stays as it is, a new one displaces the oldest when full. */
  function Remember<K(==,!new), V>(m: Map<K, V>, maxSize: int, k: K, v: V): Map<K, V> {
    if k in m.vals then m
    else Put(if |m.keys| >= maxSize && |m.keys| > 0 then Remove(m, m.keys[0]) else m, k, v)
  }

  lemma RemoveValid<K(!new), V>(m: Map<K, V>, k: K)
    requires Valid(m)
    ensures Valid(Remove(m, k))
    ensures |Remove(m, k).keys| == |m.keys| - if k in m.vals then 1 else 0
  {
    WithoutMembers(m.keys, k);
    WithoutDistinct(m.keys, k);
  }

  lemma PutValid<K(!new), V>(m: Map<K, V>, k: K, v: V)
    requires Valid(m)
    ensures Valid(Put(m, k, v))
    ensures |Put(m, k, v).keys| == |m.keys| + if k in m.vals then 0 else 1
  {
    if k !in m.vals {
      DistinctAppend(m.keys, k);
    }
  }

  lemma TouchShape<K(!new), V>(m: Map<K, V>, k: K, v: V)
    ensures Touch(m, k, v) == Map(Without(m.keys, k) + [k], m.vals[k := v])
  {
    assert (m.vals - {k})[k := v] == m.vals[k := v];
  }

  lemma TouchValid<K(!new), V>(m: Map<K, V>, k: K, v: V)
    requires Valid(m)
    ensures Valid(Touch(m, k, v))
    ensures |Touch(m, k, v).keys| == |m.keys| + if k in m.vals then 0 else 1
  {
    RemoveValid(m, k);
    PutValid(Remove(m, k), k, v);
  }

  /** Updating a value in place after a touch is a touch with the new value. */
  lemma TouchOverwrite<K(!new), V>(m: Map<K, V>, k: K, v: V, w: V)
    ensures var t := Touch(m, k, v); Map(t.keys, t.vals[k := w]) == Touch(m, k, w)
  {
    TouchShape(m, k, v);
    TouchShape(m, k, w);
    assert m.vals[k := v][k := w] == m.vals[k := w];
  }
}
