/** JavaScript objects used as string-keyed records: own properties in
    insertion order, each key at most once. */
module Records {
  import opened Wrappers

  type Entries<V> = seq<(string, V)>

  /** `o[k]`: the value stored under `k`, if any. */
  function Get<V>(es: Entries<V>, k: string): (r: Option<V>)
    ensures r.Some? <==> exists i :: 0 <= i < |es| && es[i].0 == k
    ensures r.Some? ==> exists i :: 0 <= i < |es| && es[i] == (k, r.value)
  {
    if es == [] then None else if es[0].0 == k then Some(es[0].1) else Get(es[1..], k)
  }

  /** `o[k] = v`: an existing key keeps its place, a new one goes last. */
  function Put<V>(es: Entries<V>, k: string, v: V): Entries<V> {
    if es == [] then [(k, v)]
    else if es[0].0 == k then [(k, v)] + es[1..]
    else [es[0]] + Put(es[1..], k, v)
  }

  /** The keys, in order. */
  function Keys<V>(es: Entries<V>): (ks: seq<string>)
    ensures |ks| == |es| && forall i :: 0 <= i < |es| ==> ks[i] == es[i].0
  {
    seq(|es|, i requires 0 <= i < |es| => es[i].0)
  }

  predicate DistinctKeys<V>(es: Entries<V>) {
    forall i, j :: 0 <= i < j < |es| ==> es[i].0 != es[j].0
  }

  /** A stored value is read back; other keys are not disturbed. */
  lemma {:induction false} GetPut<V>(es: Entries<V>, k: string, v: V, k': string)
    ensures Get(Put(es, k, v), k) == Some(v)
    ensures k' != k ==> Get(Put(es, k, v), k') == Get(es, k')
  {
    if es != [] && es[0].0 != k {
      GetPut(es[1..], k, v, k');
    }
  }

  /** Writing adds `k` to the keys and no other. */
  lemma {:induction false} PutKeySet<V>(es: Entries<V>, k: string, v: V)
    ensures forall x :: x in Keys(Put(es, k, v)) <==> x in Keys(es) || x == k
  {
    if es != [] && es[0].0 != k {
      PutKeySet(es[1..], k, v);
      assert Keys(Put(es, k, v)) == [es[0].0] + Keys(Put(es[1..], k, v));
      assert Keys(es) == [es[0].0] + Keys(es[1..]);
    } else if es != [] {
      assert Keys(Put(es, k, v)) == Keys(es);
      assert Keys(es)[0] == k;
    } else {
      assert Keys(Put(es, k, v)) == [k];
    }
  }

  /** Writing keeps the keys distinct. */
  lemma {:induction false} PutDistinct<V>(es: Entries<V>, k: string, v: V)
    requires DistinctKeys(es)
    ensures DistinctKeys(Put(es, k, v))
  {
    if es == [] {
    } else if es[0].0 == k {
      assert Keys(Put(es, k, v)) == Keys(es);
    } else {
      var tail := Put(es[1..], k, v);
      PutDistinct(es[1..], k, v);
      PutKeySet(es[1..], k, v);
      assert Keys(es) == [es[0].0] + Keys(es[1..]);
      assert es[0].0 !in Keys(es[1..]);
      assert es[0].0 !in Keys(tail);
      forall j | 0 < j < |Put(es, k, v)|
        ensures Put(es, k, v)[j].0 != es[0].0
      {
        assert Put(es, k, v)[j] == tail[j - 1];
        assert Keys(tail)[j - 1] == tail[j - 1].0;
      }
    }
  }
}
