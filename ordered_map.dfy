/**
 * JavaScript plain objects used as dictionaries (`obj[key] = value`, `obj[key] || 0`,
 * `Object.entries`, `Object.keys`, `delete obj[key]`), as association lists in
 * first-insertion order.
 */
module OrderedMap {
  import Seqs

  function Keys<K, V>(m: seq<(K, V)>): (ks: seq<K>)
    ensures |ks| == |m|
    ensures forall i :: 0 <= i < |m| ==> ks[i] == m[i].0
  {
    seq(|m|, i requires 0 <= i < |m| => m[i].0)
  }

  /** Every key appears once, as in a JavaScript object. */
  predicate DistinctKeys<K(==), V>(m: seq<(K, V)>) {
    Seqs.NoDups(Keys(m))
  }

  /** The position of the entry for `k`. */
  function IndexOf<K(==), V>(m: seq<(K, V)>, k: K): (i: nat)
    requires k in Keys(m)
    ensures i < |m| && m[i].0 == k
    ensures forall j :: 0 <= j < i ==> m[j].0 != k
  {
    if m[0].0 == k then 0
    else
      assert Keys(m[1..]) == Keys(m)[1..];
      1 + IndexOf(m[1..], k)
  }

  /** `obj[k] || d` for stored values that are never falsy, and `obj[k]` with a default otherwise. */
  function GetOr<K(==), V>(m: seq<(K, V)>, k: K, d: V): V {
    if k in Keys(m) then m[IndexOf(m, k)].1 else d
  }

  /** `obj[k] = v`: overwrite in place when the key is present, otherwise add it last. */
  function Put<K(==,!new), V(!new)>(m: seq<(K, V)>, k: K, v: V): (r: seq<(K, V)>)
    ensures Keys(r) == Seqs.AppendIfAbsent(Keys(m), k)
    ensures forall k', d :: GetOr(r, k', d) == if k' == k then v else GetOr(m, k', d)
    ensures DistinctKeys(m) ==> DistinctKeys(r)
  {
    if k in Keys(m) then
      var i := IndexOf(m, k);
      var r := m[i := (k, v)];
      assert Keys(r) == Keys(m);
      assert forall k' :: k' != k && k' in Keys(m) ==> IndexOf(r, k') == IndexOf(m, k') by {
        forall k' | k' != k && k' in Keys(m) ensures IndexOf(r, k') == IndexOf(m, k') {
          IndexOfAgree(m, r, k');
        }
      }
      assert IndexOf(r, k) == i by { IndexOfAgree(m, r, k); }
      r
    else
      var r := m + [(k, v)];
      assert Keys(r) == Keys(m) + [k];
      assert forall k' :: k' in Keys(m) ==> IndexOf(r, k') == IndexOf(m, k') by {
        forall k' | k' in Keys(m) ensures IndexOf(r, k') == IndexOf(m, k') {
          IndexOfAgree(m, r, k');
        }
      }
      assert IndexOf(r, k) == |m|;
      r
  }

  /** Two maps whose keys agree position by position find every key at the same place. */
  lemma IndexOfAgree<K, V>(m: seq<(K, V)>, r: seq<(K, V)>, k: K)
    requires k in Keys(m) && |m| <= |r|
    requires forall j :: 0 <= j < |m| ==> m[j].0 == r[j].0
    ensures k in Keys(r) && IndexOf(r, k) == IndexOf(m, k)
  {
    var i := IndexOf(m, k);
    assert r[i].0 == k;
  }

  /** `delete obj[k]`: the entry goes, the other entries keep their order. */
  function Remove<K(==,!new), V>(m: seq<(K, V)>, k: K): (r: seq<(K, V)>)
    ensures k !in Keys(r)
    ensures forall k' :: k' != k ==> (k' in Keys(r) <==> k' in Keys(m))
    ensures |r| <= |m|
    ensures DistinctKeys(m) ==> DistinctKeys(r)
    decreases |m|
  {
    if m == [] then []
    else
      var rest := Remove(m[1..], k);
      assert Keys(m[1..]) == Keys(m)[1..];
      if m[0].0 == k then rest
      else
        var r := [m[0]] + rest;
        assert Keys(r) == [m[0].0] + Keys(rest);
        assert DistinctKeys(m) ==> m[0].0 !in Keys(m[1..]);
        r
  }

  /** With distinct keys, every entry is the one its key finds. */
  lemma GetOrEntry<K, V>(m: seq<(K, V)>, j: nat, d: V)
    requires DistinctKeys(m) && j < |m|
    ensures GetOr(m, m[j].0, d) == m[j].1
  {
    assert m[j].0 in Keys(m);
    var i := IndexOf(m, m[j].0);
    assert Keys(m)[i] == Keys(m)[j];
  }
}
