/**
 * PHP arrays used as dictionaries: a sequence of (key, value) entries in
 * insertion order. Assigning to an existing key keeps its position and
 * replaces its value; assigning to a new key appends it.
 */
module OrderedMap {
  import opened Optional

  type Dict<V> = seq<(string, V)>

  /** The keys in iteration order. */
  function Keys<V>(m: Dict<V>): seq<string> {
    seq(|m|, i requires 0 <= i < |m| => m[i].0)
  }

  predicate Distinct(ks: seq<string>) {
    forall i, j :: 0 <= i < j < |ks| ==> ks[i] != ks[j]
  }

  /** `$m[$k]` for a key that may be missing. */
  function Get<V>(m: Dict<V>, k: string): (r: Option<V>)
    ensures r.Some? <==> k in Keys(m)
  {
    if m == [] then None
    else if m[0].0 == k then
      assert Keys(m)[0] == k;
      Some(m[0].1)
    else
      assert Keys(m) == [m[0].0] + Keys(m[1..]);
      Get(m[1..], k)
  }

  /** `$m[$k] = $v`: afterwards `k` holds `v`, every other key is unchanged, and the key order is kept. */
  function Put<V>(m: Dict<V>, k: string, v: V): (r: Dict<V>)
    ensures Get(r, k) == Some(v)
    ensures forall k' :: k' != k ==> Get(r, k') == Get(m, k')
    ensures Keys(r) == if k in Keys(m) then Keys(m) else Keys(m) + [k]
  {
    if m == [] then [(k, v)]
    else if m[0].0 == k then
      var r := [(k, v)] + m[1..];
      KeysCons((k, v), m[1..]);
      KeysCons(m[0], m[1..]);
      assert m == [m[0]] + m[1..];
      assert Keys(r) == Keys(m) && Keys(m)[0] == k;
      assert r[1..] == m[1..];
      r
    else
      var t := Put(m[1..], k, v);
      var r := [m[0]] + t;
      KeysCons(m[0], m[1..]);
      KeysCons(m[0], t);
      assert m == [m[0]] + m[1..];
      assert r[1..] == t;
      r
  }

  /** The keys of an entry followed by a dictionary. */
  lemma {:induction false} KeysCons<V>(e: (string, V), m: Dict<V>)
    ensures Keys([e] + m) == [e.0] + Keys(m)
  {
  }

  /** Assignment never introduces a duplicate key. */
  lemma {:induction false} PutKeepsDistinct<V>(m: Dict<V>, k: string, v: V)
    requires Distinct(Keys(m))
    ensures Distinct(Keys(Put(m, k, v)))
  {
  }
}
