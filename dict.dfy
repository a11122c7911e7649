/** A JavaScript plain object used as a dictionary (`Record<string, V>`):
    entries in insertion order, which is the order `Object.keys` returns
    for keys that are not array indices (such as ISO dates or status names). */
module Dict {
  import opened Wrappers
  import opened Seqs

  datatype Entry<K, V> = Entry(key: K, value: V)

  type Dict<K, V> = seq<Entry<K, V>>

  /** `Object.keys(d)`. */
  function Keys<K, V>(d: Dict<K, V>): seq<K> {
    if d == [] then [] else [d[0].key] + Keys(d[1..])
  }

  /** `d[k]`, `None` standing for `undefined`. */
  function Get<K(==), V>(d: Dict<K, V>, k: K): Option<V> {
    if d == [] then None
    else if d[0].key == k then Some(d[0].value)
    else Get(d[1..], k)
  }

  /** `d[k] = v`: overwrites the entry in place, or appends a new key. */
  function Put<K(==), V>(d: Dict<K, V>, k: K, v: V): Dict<K, V> {
    if d == [] then [Entry(k, v)]
    else if d[0].key == k then [Entry(k, v)] + d[1..]
    else [d[0]] + Put(d[1..], k, v)
  }

  /** The sum of `f` over the values. */
  function Total<K, V>(d: Dict<K, V>, f: V -> int): int {
    if d == [] then 0 else f(d[0].value) + Total(d[1..], f)
  }

  /** A key is present exactly when it is listed by `Keys`. */
  lemma {:induction false} GetPresent<K, V>(d: Dict<K, V>, k: K)
    ensures Get(d, k).Some? <==> k in Keys(d)
  {
    if d != [] {
      GetPresent(d[1..], k);
    }
  }

  /** Reading back after `Put`: the new value under `k`, the old one elsewhere. */
  lemma {:induction false} PutGet<K, V>(d: Dict<K, V>, k: K, v: V, j: K)
    ensures Get(Put(d, k, v), j) == if j == k then Some(v) else Get(d, j)
  {
    if d != [] && d[0].key != k {
      PutGet(d[1..], k, v, j);
      assert Put(d, k, v)[1..] == Put(d[1..], k, v);
    } else if d != [] {
      assert Put(d, k, v)[1..] == d[1..];
    }
  }

  /** `Put` on a present key keeps the key order; on a new key it appends. */
  lemma {:induction false} PutKeys<K, V>(d: Dict<K, V>, k: K, v: V)
    ensures Keys(Put(d, k, v)) == if k in Keys(d) then Keys(d) else Keys(d) + [k]
  {
    if d != [] {
      assert Keys(d) == [d[0].key] + Keys(d[1..]);
      if d[0].key == k {
        assert Put(d, k, v)[1..] == d[1..];
      } else {
        PutKeys(d[1..], k, v);
        assert Put(d, k, v)[1..] == Put(d[1..], k, v);
      }
    }
  }

  /** `Put` never introduces a repeated key. */
  lemma PutDistinct<K, V>(d: Dict<K, V>, k: K, v: V)
    requires Distinct(Keys(d))
    ensures Distinct(Keys(Put(d, k, v)))
  {
    PutKeys(d, k, v);
  }

  /** `Put` changes the total by the new value minus the one it replaces. */
  lemma {:induction false} PutTotal<K, V>(d: Dict<K, V>, k: K, v: V, f: V -> int)
    ensures Total(Put(d, k, v), f)
         == Total(d, f) - (match Get(d, k) case Some(w) => f(w) case None => 0) + f(v)
  {
    if d != [] && d[0].key != k {
      PutTotal(d[1..], k, v, f);
      assert Put(d, k, v)[1..] == Put(d[1..], k, v);
    } else if d != [] {
      assert Put(d, k, v)[1..] == d[1..];
    }
  }

  /** A second `Put` on the same key overwrites the first. */
  lemma {:induction false} PutTwice<K, V>(d: Dict<K, V>, k: K, v: V, w: V)
    ensures Put(Put(d, k, v), k, w) == Put(d, k, w)
  {
    if d != [] && d[0].key != k {
      PutTwice(d[1..], k, v, w);
      assert Put(d, k, v)[1..] == Put(d[1..], k, v);
    }
  }
}
