/**
  A Python `dict` keyed by strings, modelled as its entries in insertion
  order. Both the table of normal ranges and the parameter-to-value maps of
  the engine are dicts of this kind, and the engine iterates over them in
  that order.
 */
module Dict {
  import opened Common

  type Dict<V> = seq<(string, V)>

  /** The keys of `d`, in insertion order. */
  function Keys<V>(d: Dict<V>): seq<string> {
    seq(|d|, i requires 0 <= i < |d| => d[i].0)
  }

  /** A real dict never holds a key twice. */
  ghost predicate DistinctKeys<V>(d: Dict<V>) {
    forall i, j :: 0 <= i < j < |d| ==> d[i].0 != d[j].0
  }

  /** `d[k]` if `k in d`, else nothing: the value of the first entry with key `k`. */
  function Lookup<V>(d: Dict<V>, k: string): Option<V> {
    if d == [] then None
    else if d[0].0 == k then Some(d[0].1)
    else Lookup(d[1..], k)
  }

  /** `k in d` exactly when a lookup finds something, and what it finds is stored under `k`. */
  lemma {:induction false} LookupSpec<V>(d: Dict<V>, k: string)
    ensures Lookup(d, k).None? <==> k !in Keys(d)
    ensures Lookup(d, k).Some? ==> (k, Lookup(d, k).value) in d
  {
    if d != [] {
      assert Keys(d) == [d[0].0] + Keys(d[1..]);
      if d[0].0 != k {
        LookupSpec(d[1..], k);
      }
    }
  }

  /** In a dict with distinct keys, looking up the key of an entry yields that entry's value. */
  lemma {:induction false} LookupEntry<V>(d: Dict<V>, i: nat)
    requires DistinctKeys(d) && i < |d|
    ensures Lookup(d, d[i].0) == Some(d[i].1)
  {
    if i > 0 {
      assert d[0].0 != d[i].0;
      assert d[1..][i - 1] == d[i];
      LookupEntry(d[1..], i - 1);
    }
  }

  /**
    The statement `d[k] = v`: an existing key keeps its place and gets the new
    value, a new key is added at the end.
   */
  function Insert<V>(d: Dict<V>, k: string, v: V): Dict<V> {
    if d == [] then [(k, v)]
    else if d[0].0 == k then [(k, v)] + d[1..]
    else [d[0]] + Insert(d[1..], k, v)
  }

  /** Assigning to an existing key keeps the key order; a new key goes at the end. */
  lemma {:induction false} InsertSpec<V>(d: Dict<V>, k: string, v: V)
    ensures k in Keys(d) ==> Keys(Insert(d, k, v)) == Keys(d)
    ensures k !in Keys(d) ==> Insert(d, k, v) == d + [(k, v)]
  {
    if d != [] {
      var r := Insert(d, k, v);
      assert Keys(d) == [d[0].0] + Keys(d[1..]);
      if d[0].0 == k {
        assert Keys(r) == Keys(d) by { assert forall i :: 0 <= i < |d| ==> r[i].0 == d[i].0; }
      } else {
        InsertSpec(d[1..], k, v);
        var t := Insert(d[1..], k, v);
        assert r == [d[0]] + t;
        assert Keys(r) == [d[0].0] + Keys(t);
        if k !in Keys(d) {
          assert [d[0]] + (d[1..] + [(k, v)]) == d + [(k, v)];
        }
      }
    }
  }

  /** After `d[k] = v`, `d[k]` is `v` and every other key reads as before. */
  lemma {:induction false} InsertLookup<V>(d: Dict<V>, k: string, v: V, k': string)
    ensures Lookup(Insert(d, k, v), k') == if k' == k then Some(v) else Lookup(d, k')
  {
    if d != [] && d[0].0 != k {
      var r := Insert(d, k, v);
      assert r == [d[0]] + Insert(d[1..], k, v);
      assert r[1..] == Insert(d[1..], k, v);
      InsertLookup(d[1..], k, v, k');
    } else if d != [] {
      assert Insert(d, k, v)[1..] == d[1..];
    }
  }

  /** Assignment keeps the keys of a dict distinct. */
  lemma {:induction false} InsertDistinct<V>(d: Dict<V>, k: string, v: V)
    requires DistinctKeys(d)
    ensures DistinctKeys(Insert(d, k, v))
  {
    var r := Insert(d, k, v);
    InsertSpec(d, k, v);
    if k in Keys(d) {
      assert |r| == |Keys(r)| == |Keys(d)| == |d|;
      forall i | 0 <= i < |r|
        ensures r[i].0 == d[i].0
      {
        assert r[i].0 == Keys(r)[i];
        assert Keys(d)[i] == d[i].0;
      }
    } else {
      assert forall i :: 0 <= i < |d| ==> Keys(d)[i] == d[i].0 != k;
      assert forall i :: 0 <= i < |d| ==> r[i] == d[i];
    }
  }
}
