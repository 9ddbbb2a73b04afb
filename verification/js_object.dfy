/**
 * A plain JavaScript object with string keys, as the wizards use it for their
 * answers. Own string keys that are not array indices (none of the wizard's
 * field names is one) keep insertion order, which `Object.entries` and
 * `JSON.stringify` follow, so the object is an association list: a spread
 * update `{ ...prev, [k]: v }` overwrites an existing key in place and
 * appends a new key at the end.
 */
module JsObject {
  import opened Options

  type Entries<V> = seq<(string, V)>

  function Keys<V>(e: Entries<V>): (ks: seq<string>)
    ensures |ks| == |e| && forall i :: 0 <= i < |e| ==> ks[i] == e[i].0
  {
    seq(|e|, i requires 0 <= i < |e| => e[i].0)
  }

  /** No key occurs twice, as in any JavaScript object. */
  predicate UniqueKeys<V>(e: Entries<V>) {
    forall i, j :: 0 <= i < j < |e| ==> e[i].0 != e[j].0
  }

  /** `obj[k]`, with `None` for a key the object does not have. */
  function Lookup<V>(e: Entries<V>, k: string): (r: Option<V>)
    ensures r.None? <==> k !in Keys(e)
    ensures r.Some? ==> exists i :: 0 <= i < |e| && e[i] == (k, r.value)
  {
    if e == [] then None
    else if e[0].0 == k then Some(e[0].1)
    else
      var r := Lookup(e[1..], k);
      assert Keys(e) == [e[0].0] + Keys(e[1..]);
      assert r.Some? ==> exists i :: 0 <= i < |e[1..]| && e[1..][i] == (k, r.value);
      r
  }

  /** `{ ...e, [k]: v }`. */
  function Put<V>(e: Entries<V>, k: string, v: V): (r: Entries<V>)
    ensures k in Keys(e) ==> Keys(r) == Keys(e)
    ensures k !in Keys(e) ==> Keys(r) == Keys(e) + [k]
    ensures UniqueKeys(e) ==> UniqueKeys(r)
    ensures forall p :: p in r ==> p == (k, v) || p in e
  {
    if e == [] then [(k, v)]
    else
      assert e == [e[0]] + e[1..];
      if e[0].0 == k then
        PutHead(e[0], e[1..], v);
        [(k, v)] + e[1..]
      else
        var rest := Put(e[1..], k, v);
        PutBehind(e[0], e[1..], rest, k, v);
        [e[0]] + rest
  }

  /** Overwriting the first entry's value. */
  lemma PutHead<V>(x: (string, V), tail: Entries<V>, v: V)
    ensures Keys([(x.0, v)] + tail) == Keys([x] + tail)
    ensures UniqueKeys([x] + tail) ==> UniqueKeys([(x.0, v)] + tail)
    ensures forall p :: p in [(x.0, v)] + tail ==> p == (x.0, v) || p in [x] + tail
  {
    ConsKeys(x, tail);
    ConsKeys((x.0, v), tail);
    ConsUnique(x, tail);
    ConsUnique((x.0, v), tail);
  }

  /** Writing behind a first entry with another key: the first entry stays in front. */
  lemma PutBehind<V>(x: (string, V), tail: Entries<V>, tail': Entries<V>, k: string, v: V)
    requires x.0 != k
    requires k in Keys(tail) ==> Keys(tail') == Keys(tail)
    requires k !in Keys(tail) ==> Keys(tail') == Keys(tail) + [k]
    requires UniqueKeys(tail) ==> UniqueKeys(tail')
    requires forall p :: p in tail' ==> p == (k, v) || p in tail
    ensures k in Keys([x] + tail) ==> Keys([x] + tail') == Keys([x] + tail)
    ensures k !in Keys([x] + tail) ==> Keys([x] + tail') == Keys([x] + tail) + [k]
    ensures UniqueKeys([x] + tail) ==> UniqueKeys([x] + tail')
    ensures forall p :: p in [x] + tail' ==> p == (k, v) || p in [x] + tail
  {
    ConsKeys(x, tail);
    ConsKeys(x, tail');
    ConsUnique(x, tail);
    ConsUnique(x, tail');
    if k !in Keys(tail) {
      assert [x.0] + (Keys(tail) + [k]) == [x.0] + Keys(tail) + [k];
    }
  }

  lemma ConsKeys<V>(x: (string, V), rest: Entries<V>)
    ensures Keys([x] + rest) == [x.0] + Keys(rest)
  {
  }

  /** A list with a first entry is unique-keyed iff its tail is and the first key is not in the tail. */
  lemma ConsUnique<V>(x: (string, V), rest: Entries<V>)
    ensures UniqueKeys([x] + rest) <==> UniqueKeys(rest) && x.0 !in Keys(rest)
  {
    var e := [x] + rest;
    if UniqueKeys(e) {
      forall i, j | 0 <= i < j < |rest| ensures rest[i].0 != rest[j].0 {
        assert e[i + 1] == rest[i] && e[j + 1] == rest[j];
      }
      forall i | 0 <= i < |rest| ensures Keys(rest)[i] != x.0 {
        assert e[0] == x && e[i + 1] == rest[i];
      }
    }
    if UniqueKeys(rest) && x.0 !in Keys(rest) {
      forall i, j | 0 <= i < j < |e| ensures e[i].0 != e[j].0 {
        if i == 0 { assert e[j].0 == Keys(rest)[j - 1]; }
        else { assert e[i] == rest[i - 1] && e[j] == rest[j - 1]; }
      }
    }
  }

  /** Reading the key just written gives the new value. */
  lemma {:induction false} LookupPutSame<V>(e: Entries<V>, k: string, v: V)
    ensures Lookup(Put(e, k, v), k) == Some(v)
  {
    if e != [] && e[0].0 != k {
      LookupPutSame(e[1..], k, v);
    }
  }

  /** Writing one key leaves every other key as it was. */
  lemma {:induction false} LookupPutOther<V>(e: Entries<V>, k: string, v: V, k': string)
    requires k' != k
    ensures Lookup(Put(e, k, v), k') == Lookup(e, k')
  {
    if e != [] && e[0].0 != k {
      LookupPutOther(e[1..], k, v, k');
    }
  }

  /** The two lemmas above, for every key at once. */
  lemma LookupPut<V>(e: Entries<V>, k: string, v: V)
    ensures forall k' :: Lookup(Put(e, k, v), k') == if k' == k then Some(v) else Lookup(e, k')
  {
    forall k' ensures Lookup(Put(e, k, v), k') == if k' == k then Some(v) else Lookup(e, k') {
      if k' == k { LookupPutSame(e, k, v); } else { LookupPutOther(e, k, v, k'); }
    }
  }

  /** With unique keys, the entry at position i is what `Lookup` finds for its key. */
  lemma {:induction false} LookupAt<V>(e: Entries<V>, i: nat)
    requires UniqueKeys(e) && i < |e|
    ensures Lookup(e, e[i].0) == Some(e[i].1)
  {
    if i > 0 {
      LookupAt(e[1..], i - 1);
    }
  }
}
