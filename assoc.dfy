/**
 * Insertion-ordered dictionaries as sequences of (key, value) pairs.  This is
 * how a JavaScript object behaves when it is filled by `obj[k] = v`: a new key
 * is appended, an existing key keeps its place and gets the new value.
 */
module Assoc {
  import opened Wrappers

  function Keys<K, V>(m: seq<(K, V)>): (ks: seq<K>)
    ensures |ks| == |m|
    ensures forall i :: 0 <= i < |m| ==> ks[i] == m[i].0
  {
    seq(|m|, i requires 0 <= i < |m| => m[i].0)
  }

  predicate NoDups<K(==)>(ks: seq<K>)
  {
    forall i, j :: 0 <= i < j < |ks| ==> ks[i] != ks[j]
  }

  /** The value stored under `k`, if any. */
  function Get<K(==), V(==)>(m: seq<(K, V)>, k: K): (r: Option<V>)
    ensures r.Some? <==> k in Keys(m)
    ensures r.Some? ==> (k, r.value) in m
    decreases |m|
  {
    if m == [] then None
    else if m[0].0 == k then Some(m[0].1)
    else
      assert Keys(m) == [m[0].0] + Keys(m[1..]);
      Get(m[1..], k)
  }

  function GetOr<K(==), V(==)>(m: seq<(K, V)>, k: K, default: V): V
  {
    match Get(m, k)
    case Some(v) => v
    case None => default
  }

  /**
   * `r` is `m` after `m[k] = v`: `k` maps to `v`, every other key maps to
   * what it did, the key order is kept and a new key goes last.
   */
  ghost predicate Updated<K(!new), V>(m: seq<(K, V)>, k: K, v: V, r: seq<(K, V)>)
  {
    && Get(r, k) == Some(v)
    && (forall k' :: k' != k ==> Get(r, k') == Get(m, k'))
    && Keys(r) == (if k in Keys(m) then Keys(m) else Keys(m) + [k])
    && (forall e :: e in r ==> e == (k, v) || e in m)
  }

  /** `m[k] = v` on an insertion-ordered dictionary. */
  function Put<K(==,!new), V(==)>(m: seq<(K, V)>, k: K, v: V): (r: seq<(K, V)>)
    ensures Updated(m, k, v, r)
    decreases |m|
  {
    if m == [] then
      assert Keys([(k, v)]) == [k];
      [(k, v)]
    else if m[0].0 == k then
      PutReplaces(m, k, v);
      [(k, v)] + m[1..]
    else
      var rest := Put(m[1..], k, v);
      PutSkips(m, k, v, rest);
      [m[0]] + rest
  }

  lemma PutReplaces<K(!new), V>(m: seq<(K, V)>, k: K, v: V)
    requires m != [] && m[0].0 == k
    ensures Updated(m, k, v, [(k, v)] + m[1..])
  {
    var r := [(k, v)] + m[1..];
    assert m == [m[0]] + m[1..];
    forall k' ensures Get(r, k') == (if k' == k then Some(v) else Get(m, k')) {
      GetCons((k, v), m[1..], k');
      GetCons(m[0], m[1..], k');
    }
    KeysCons((k, v), m[1..]);
    KeysCons(m[0], m[1..]);
    forall e | e in r ensures e == (k, v) || e in m {
      if e != (k, v) {
        assert e in m[1..];
      }
    }
  }

  lemma PutSkips<K(!new), V>(m: seq<(K, V)>, k: K, v: V, rest: seq<(K, V)>)
    requires m != [] && m[0].0 != k
    requires Updated(m[1..], k, v, rest)
    ensures Updated(m, k, v, [m[0]] + rest)
  {
    var r := [m[0]] + rest;
    assert m == [m[0]] + m[1..];
    forall k' ensures Get(r, k') == (if k' == k then Some(v) else Get(m, k')) {
      GetCons(m[0], rest, k');
      GetCons(m[0], m[1..], k');
    }
    PutSkipsKeys(m[0], m[1..], k, rest);
    forall e | e in r ensures e == (k, v) || e in m {
      if e != m[0] {
        assert e in rest;
      }
    }
  }

  lemma PutSkipsKeys<K, V>(x: (K, V), t: seq<(K, V)>, k: K, rest: seq<(K, V)>)
    requires x.0 != k
    requires Keys(rest) == (if k in Keys(t) then Keys(t) else Keys(t) + [k])
    ensures Keys([x] + rest) == (if k in Keys([x] + t) then Keys([x] + t) else Keys([x] + t) + [k])
  {
    KeysCons(x, rest);
    KeysCons(x, t);
    assert k in Keys([x] + t) <==> k in Keys(t);
    if k !in Keys(t) {
      assert [x.0] + (Keys(t) + [k]) == ([x.0] + Keys(t)) + [k];
    }
  }

  lemma GetCons<K, V>(x: (K, V), t: seq<(K, V)>, k: K)
    ensures Get([x] + t, k) == if x.0 == k then Some(x.1) else Get(t, k)
  {
    assert ([x] + t)[1..] == t;
  }

  lemma KeysCons<K, V>(x: (K, V), t: seq<(K, V)>)
    ensures Keys([x] + t) == [x.0] + Keys(t)
  {
  }

  /** With distinct keys, a pair in the dictionary is what a lookup of its key finds. */
  lemma {:induction false} GetMember<K, V>(m: seq<(K, V)>, k: K, v: V)
    requires NoDups(Keys(m))
    requires (k, v) in m
    ensures Get(m, k) == Some(v)
    decreases |m|
  {
    if m[0] != (k, v) {
      assert (k, v) in m[1..];
      var j :| 0 <= j < |m[1..]| && m[1..][j] == (k, v);
      assert Keys(m)[0] != Keys(m)[j + 1];
      assert Keys(m[1..]) == Keys(m)[1..];
      GetMember(m[1..], k, v);
    }
  }

  /** Putting into a dictionary with distinct keys keeps its keys distinct. */
  lemma PutNoDups<K(!new), V>(m: seq<(K, V)>, k: K, v: V)
    requires NoDups(Keys(m))
    ensures NoDups(Keys(Put(m, k, v)))
  {
  }
}
