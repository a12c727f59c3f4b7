/** A Python dict as the generators use it: insertion-ordered, one value per
    key. It is a sequence of (key, value) pairs with distinct keys. */
module OrderedDict {

  import opened Wrappers

  function Keys<K, V>(d: seq<(K, V)>): (ks: seq<K>)
    ensures |ks| == |d|
    ensures forall i :: 0 <= i < |d| ==> ks[i] == d[i].0
  {
    seq(|d|, i requires 0 <= i < |d| => d[i].0)
  }

  predicate DistinctKeys<K(==), V>(d: seq<(K, V)>) {
    forall i, j :: 0 <= i < j < |d| ==> d[i].0 != d[j].0
  }

  /** Python's `d.get(k)`. */
  function Get<K(==), V>(d: seq<(K, V)>, k: K): (r: Option<V>)
    ensures r.None? <==> k !in Keys(d)
    ensures r.Some? ==> (k, r.value) in d
  {
    if d == [] then None
    else if d[0].0 == k then Some(d[0].1)
    else Get(d[1..], k)
  }

  /** The position of k in ks. */
  function IndexOf<K(==)>(ks: seq<K>, k: K): (i: nat)
    requires k in ks
    ensures i < |ks| && ks[i] == k
    ensures forall j :: 0 <= j < i ==> ks[j] != k
  {
    if ks[0] == k then 0 else 1 + IndexOf(ks[1..], k)
  }

  /** Python's `d[k] = v`: a new key goes to the end, an existing key keeps
      its position and only its value is replaced. */
  function Put<K(==), V>(d: seq<(K, V)>, k: K, v: V): (r: seq<(K, V)>)
    requires DistinctKeys(d)
    ensures DistinctKeys(r)
    ensures k in Keys(d) ==> Keys(r) == Keys(d)
    ensures k !in Keys(d) ==> Keys(r) == Keys(d) + [k]
    ensures forall i :: 0 <= i < |d| ==> r[i] == if d[i].0 == k then (k, v) else d[i]
    ensures k !in Keys(d) ==> r[|d|] == (k, v)
  {
    if k in Keys(d) then d[IndexOf(Keys(d), k) := (k, v)] else d + [(k, v)]
  }

  /** After `d[k] = v`, looking up k gives v and every other key is unaffected. */
  lemma PutGet<K, V>(d: seq<(K, V)>, k: K, v: V, k': K)
    requires DistinctKeys(d)
    ensures Get(Put(d, k, v), k) == Some(v)
    ensures k' != k ==> Get(Put(d, k, v), k') == Get(d, k')
  {
    var r := Put(d, k, v);
    GetFirst(r, k);
    if k' != k && k' in Keys(d) {
      GetFirst(r, k');
      GetFirst(d, k');
    }
  }

  /** Get returns the value paired with the first occurrence of the key. */
  lemma {:induction false} GetFirst<K, V>(d: seq<(K, V)>, k: K)
    requires k in Keys(d)
    ensures Get(d, k) == Some(d[IndexOf(Keys(d), k)].1)
  {
    var ks := Keys(d);
    if d[0].0 != k {
      assert ks[1..] == Keys(d[1..]);
      assert k in ks[1..];
      assert IndexOf(ks, k) == 1 + IndexOf(ks[1..], k);
      GetFirst(d[1..], k);
    }
  }

  /** If every value is f of its key, storing f(k) under k keeps it so. */
  lemma PutKeepsValuesOf<K, V>(d: seq<(K, V)>, k: K, f: K -> V)
    requires DistinctKeys(d)
    requires forall i :: 0 <= i < |d| ==> d[i].1 == f(d[i].0)
    ensures forall i :: 0 <= i < |Put(d, k, f(k))| ==> Put(d, k, f(k))[i].1 == f(Put(d, k, f(k))[i].0)
  {
  }
}
